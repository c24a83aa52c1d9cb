/** The second check, made only when a pipeline is enabled (packages/pipeline/src/executable-validation.ts). */
module ExecutableCheck {
  import opened Wrappers
  import opened Graphs
  import opened Topologies
  import opened Chains
  import opened ExecutionPlan

  datatype Violation =
    | MissingSource
    | MultipleSources(ids: seq<Id>)
    | MissingExport
    | MultipleExports(ids: seq<Id>)
    | Branching(id: Id)
    | Disconnected(id: Id)
    | Unavailable(id: Id)
    | Misconfigured(id: Id, key: string)
    | Incompatible(upstream: Id, downstream: Id)
  {
    predicate Structural() {
      !Unavailable? && !Misconfigured? && !Incompatible?
    }
  }

  /** The installed components; configuration and family rules are left as they are found there. */
  datatype Catalog<!M> = Catalog(metadata: map<string, M>, faults: (Step, M) -> seq<string>, compatible: (M, M) -> bool)

  function ComponentKey(s: Step): string {
    s.componentType + "@" + s.componentVersion
  }

  // ---------- The walk ----------

  /** Follows the only edge out of each step until there is none, several, or one to a step already seen. */
  ghost predicate LinearWalk(edges: seq<Edge>, start: Id, walk: seq<Id>) {
    && walk != [] && walk[0] == start && Distinct(walk)
    && (forall i :: 0 <= i < |walk| - 1 ==> EdgesFrom(edges, walk[i]) == [Edge(walk[i], walk[i + 1])])
    && WalkEnds(edges, walk)
  }

  ghost predicate WalkEnds(edges: seq<Edge>, walk: seq<Id>)
    requires walk != []
  {
    var out := EdgesFrom(edges, walk[|walk| - 1]);
    |out| != 1 || out[0].to in walk
  }

  ghost function OnlyTarget(edges: seq<Edge>, v: Id): Option<Id> {
    var out := EdgesFrom(edges, v);
    if |out| == 1 then Some(out[0].to) else None
  }

  /** A walk in progress, and where it goes next. */
  ghost predicate WalkSoFar(edges: seq<Edge>, start: Id, chain: seq<Id>, visited: set<Id>, current: Option<Id>) {
    && (forall v :: v in visited <==> v in chain)
    && Distinct(chain)
    && (forall i :: 0 <= i < |chain| - 1 ==> EdgesFrom(edges, chain[i]) == [Edge(chain[i], chain[i + 1])])
    && (if chain == [] then current == Some(start)
        else chain[0] == start && current == OnlyTarget(edges, chain[|chain| - 1]))
  }

  ghost function Visitable(edges: seq<Edge>, start: Id): set<Id> {
    {start} + set e | e in edges :: e.to
  }

  lemma WalkOneMore(edges: seq<Edge>, start: Id, chain: seq<Id>, visited: set<Id>, v: Id)
    requires WalkSoFar(edges, start, chain, visited, Some(v)) && v !in visited
    ensures WalkSoFar(edges, start, chain + [v], visited + {v}, OnlyTarget(edges, v))
    ensures Visitable(edges, start) - (visited + {v}) < Visitable(edges, start) - visited
  {
    OneMoreStep(edges, chain, v);
    if chain != [] {
      EdgesFromMembers(edges, chain[|chain| - 1]);
      var out := EdgesFrom(edges, chain[|chain| - 1]);
      assert out[0] in out;
    }
    assert v in Visitable(edges, start) - visited && v !in Visitable(edges, start) - (visited + {v});
  }

  lemma WalkStops(edges: seq<Edge>, start: Id, chain: seq<Id>, visited: set<Id>, current: Option<Id>)
    requires WalkSoFar(edges, start, chain, visited, current) && (current.Some? ==> current.value in visited)
    ensures LinearWalk(edges, start, chain)
  {
  }

  method WalkLinearChain(t: Topology, start: Id, ghost edges: seq<Edge>) returns (chain: seq<Id>)
    requires IndexesEdges(t, edges)
    ensures LinearWalk(edges, start, chain)
  {
    chain := [];
    var visited: set<Id> := {};
    var current := Some(start);
    ghost var unvisited := Visitable(edges, start);
    while current.Some? && current.value !in visited
      invariant WalkSoFar(edges, start, chain, visited, current) && unvisited == Visitable(edges, start) - visited
      decreases unvisited
    {
      var v := current.value;
      WalkOneMore(edges, start, chain, visited, v);
      visited := visited + {v};
      chain := chain + [v];
      var out := At(t.outgoing, v);
      current := if |out| == 1 then Some(out[0].to) else None;
      unvisited := Visitable(edges, start) - visited;
    }
    WalkStops(edges, start, chain, visited, current);
  }

  lemma OneMoreStep(edges: seq<Edge>, chain: seq<Id>, v: Id)
    requires Distinct(chain) && v !in chain
    requires forall i :: 0 <= i < |chain| - 1 ==> EdgesFrom(edges, chain[i]) == [Edge(chain[i], chain[i + 1])]
    requires chain != [] ==> OnlyTarget(edges, chain[|chain| - 1]) == Some(v)
    ensures Distinct(chain + [v])
    ensures forall i :: 0 <= i < |chain| ==> EdgesFrom(edges, (chain + [v])[i]) == [Edge((chain + [v])[i], (chain + [v])[i + 1])]
  {
    if chain != [] {
      EdgesFromMembers(edges, chain[|chain| - 1]);
      var out := EdgesFrom(edges, chain[|chain| - 1]);
      assert out[0] in out;
      assert out == [Edge(chain[|chain| - 1], v)];
    }
  }

  /** The walk is determined by the edges. */
  lemma {:induction false} WalkIsUnique(edges: seq<Edge>, start: Id, a: seq<Id>, b: seq<Id>)
    requires LinearWalk(edges, start, a) && LinearWalk(edges, start, b)
    ensures a == b
  {
    if |a| <= |b| {
      NoLonger(edges, start, a, b);
    } else {
      NoLonger(edges, start, b, a);
    }
  }

  /** A walk never stops where another one goes on. */
  lemma WalkGoesOn(edges: seq<Edge>, start: Id, walk: seq<Id>, n: nat)
    requires LinearWalk(edges, start, walk) && 0 < n < |walk|
    ensures !WalkEnds(edges, walk[..n])
  {
    assert EdgesFrom(edges, walk[n - 1]) == [Edge(walk[n - 1], walk[n - 1 + 1])];
    assert walk[..n][n - 1] == walk[n - 1];
  }

  lemma NoLonger(edges: seq<Edge>, start: Id, a: seq<Id>, b: seq<Id>)
    requires LinearWalk(edges, start, a) && LinearWalk(edges, start, b) && |a| <= |b|
    ensures a == b
  {
    WalkAgrees(edges, start, a, b, |a|);
    assert a[..|a|] == a && b[..|b|] == b;
    if |a| < |b| {
      WalkGoesOn(edges, start, b, |a|);
    }
  }

  lemma {:induction false} WalkAgrees(edges: seq<Edge>, start: Id, a: seq<Id>, b: seq<Id>, n: nat)
    requires LinearWalk(edges, start, a) && LinearWalk(edges, start, b) && n <= |a| && n <= |b|
    ensures a[..n] == b[..n]
    decreases n
  {
    if n > 1 {
      WalkAgrees(edges, start, a, b, n - 1);
      assert a[n - 2] == a[..n - 1][n - 2] == b[..n - 1][n - 2] == b[n - 2];
      assert EdgesFrom(edges, a[n - 2]) == [Edge(a[n - 2], a[n - 2 + 1])];
      assert EdgesFrom(edges, b[n - 2]) == [Edge(b[n - 2], b[n - 2 + 1])];
      assert Edge(a[n - 2], a[n - 1]) == Edge(b[n - 2], b[n - 1]);
      TakeOneMore(a, n - 1);
      TakeOneMore(b, n - 1);
    }
  }

  // ---------- What the structural violations mean ----------

  ghost predicate Branches(g: Graph, id: Id) {
    |EdgesFrom(g.edges, id)| > 1 || |EdgesTo(g.edges, id)| > 1
  }

  ghost predicate OffWalk(g: Graph, id: Id) {
    var sources := StepsOfKind(g.steps, Source);
    sources != [] && forall walk :: LinearWalk(g.edges, sources[0].id, walk) ==> id !in walk
  }

  ghost predicate Reports(g: Graph, v: Violation) {
    match v
    case MissingSource => StepsOfKind(g.steps, Source) == []
    case MultipleSources(ids) => |StepsOfKind(g.steps, Source)| > 1 && ids == IdsOf(StepsOfKind(g.steps, Source))
    case MissingExport => StepsOfKind(g.steps, Export) == []
    case MultipleExports(ids) => |StepsOfKind(g.steps, Export)| > 1 && ids == IdsOf(StepsOfKind(g.steps, Export))
    case Branching(id) => id in StepIds(g.steps) && Branches(g, id)
    case Disconnected(id) => id in StepIds(g.steps) && |StepsOfKind(g.steps, Export)| == 1 && OffWalk(g, id)
    case _ => false
  }

  /** One Source, one Export, no branches, and every step on the walk from the Source. */
  ghost predicate StructurallyExecutable(g: Graph) {
    && |StepsOfKind(g.steps, Source)| == 1
    && |StepsOfKind(g.steps, Export)| == 1
    && (forall s :: s in g.steps ==> !Branches(g, s.id))
    && (forall s :: s in g.steps ==> !OffWalk(g, s.id))
  }

  lemma NothingToReport(g: Graph)
    ensures StructurallyExecutable(g) <==> forall v: Violation :: v.Structural() ==> !Reports(g, v)
  {
    if forall v: Violation :: v.Structural() ==> !Reports(g, v) {
      assert !Reports(g, MissingSource) && !Reports(g, MissingExport);
      assert !Reports(g, MultipleSources(IdsOf(StepsOfKind(g.steps, Source))));
      assert !Reports(g, MultipleExports(IdsOf(StepsOfKind(g.steps, Export))));
      forall s | s in g.steps ensures !Branches(g, s.id) && !OffWalk(g, s.id) {
        assert s.id in StepIds(g.steps);
        assert !Reports(g, Branching(s.id)) && !Reports(g, Disconnected(s.id));
      }
    }
    if StructurallyExecutable(g) {
      forall v: Violation | v.Structural() ensures !Reports(g, v) {
        assert (v.Branching? || v.Disconnected?) && v.id in StepIds(g.steps) ==>
            exists s :: s in g.steps && s.id == v.id;
      }
    }
  }

  // ---------- What is reported, in order ----------

  function CountReport(sources: seq<Step>, exports: seq<Step>): seq<Violation> {
    (if |sources| == 0 then [MissingSource] else if |sources| > 1 then [MultipleSources(IdsOf(sources))] else [])
    + (if |exports| == 0 then [MissingExport] else if |exports| > 1 then [MultipleExports(IdsOf(exports))] else [])
  }

  /** For each step in list order: whether it branches, then its component's faults. */
  ghost function StepReport<M>(g: Graph, catalog: Catalog<M>, n: nat): seq<Violation>
    requires n <= |g.steps|
  {
    if n == 0 then []
    else
      var s := g.steps[n - 1];
      StepReport(g, catalog, n - 1) + (if Branches(g, s.id) then [Branching(s.id)] else []) + Faults(s, catalog)
  }

  /** The metadata of the installed components, by step; of two steps with one identifier the later is kept. */
  function MetadataOf<M>(steps: seq<Step>, n: nat, catalog: Catalog<M>): map<Id, M>
    requires n <= |steps|
  {
    if n == 0 then map[]
    else
      var earlier, key := MetadataOf(steps, n - 1, catalog), ComponentKey(steps[n - 1]);
      if key in catalog.metadata then earlier[steps[n - 1].id := catalog.metadata[key]] else earlier
  }

  function OffReport(steps: seq<Step>, n: nat, walk: seq<Id>): seq<Violation>
    requires n <= |steps|
  {
    if n == 0 then []
    else OffReport(steps, n - 1, walk) + (if steps[n - 1].id !in walk then [Disconnected(steps[n - 1].id)] else [])
  }

  /** The first `n` pairs of neighbours on the walk. */
  ghost function ClashReport<M>(catalog: Catalog<M>, metadataById: map<Id, M>, walk: seq<Id>, n: nat): seq<Violation>
    requires n == 0 || n < |walk|
  {
    if n == 0 then []
    else
      ClashReport(catalog, metadataById, walk, n - 1)
      + (if ClashesAt(catalog, metadataById, walk, n - 1) then [Incompatible(walk[n - 1], walk[n])] else [])
  }

  function PairCount(walk: seq<Id>): nat {
    if walk == [] then 0 else |walk| - 1
  }

  ghost function ConnectivityReport<M>(g: Graph, catalog: Catalog<M>, metadataById: map<Id, M>, walk: seq<Id>): seq<Violation> {
    OffReport(g.steps, |g.steps|, walk) + ClashReport(catalog, metadataById, walk, PairCount(walk))
  }

  /** The whole report: counts, then steps, then, with a Source to walk from and one Export, the walk. */
  ghost function Report<M>(g: Graph, catalog: Catalog<M>, walk: seq<Id>): seq<Violation> {
    var sources, exports := StepsOfKind(g.steps, Source), StepsOfKind(g.steps, Export);
    CountReport(sources, exports) + StepReport(g, catalog, |g.steps|)
    + (if |sources| > 0 && |exports| == 1
       then ConnectivityReport(g, catalog, MetadataOf(g.steps, |g.steps|, catalog), walk) else [])
  }

  /** The walk from the first Source, where the report has one. */
  ghost predicate IsReportedWalk(g: Graph, walk: seq<Id>) {
    var sources, exports := StepsOfKind(g.steps, Source), StepsOfKind(g.steps, Export);
    |sources| > 0 && |exports| == 1 ==> LinearWalk(g.edges, sources[0].id, walk)
  }

  /** A graph and a catalog have one report. */
  lemma ReportIsUnique<M>(g: Graph, catalog: Catalog<M>, a: seq<Id>, b: seq<Id>)
    requires IsReportedWalk(g, a) && IsReportedWalk(g, b)
    ensures Report(g, catalog, a) == Report(g, catalog, b)
  {
    var sources, exports := StepsOfKind(g.steps, Source), StepsOfKind(g.steps, Export);
    if |sources| > 0 && |exports| == 1 {
      WalkIsUnique(g.edges, sources[0].id, a, b);
    }
  }

  // ---------- The check ----------

  method CountViolations(sources: seq<Step>, exports: seq<Step>) returns (violations: seq<Violation>)
    ensures forall v :: v in violations <==>
              || (v == MissingSource && |sources| == 0) || (v == MultipleSources(IdsOf(sources)) && |sources| > 1)
              || (v == MissingExport && |exports| == 0) || (v == MultipleExports(IdsOf(exports)) && |exports| > 1)
    ensures violations == CountReport(sources, exports)
  {
    violations := [];
    if |sources| == 0 {
      violations := violations + [MissingSource];
    } else if |sources| > 1 {
      violations := violations + [MultipleSources(IdsOf(sources))];
    }
    if |exports| == 0 {
      violations := violations + [MissingExport];
    } else if |exports| > 1 {
      violations := violations + [MultipleExports(IdsOf(exports))];
    }
  }

  function Faults<M>(s: Step, catalog: Catalog<M>): seq<Violation> {
    if ComponentKey(s) !in catalog.metadata then [Unavailable(s.id)]
    else
      var keys := catalog.faults(s, catalog.metadata[ComponentKey(s)]);
      seq(|keys|, k requires 0 <= k < |keys| => Misconfigured(s.id, keys[k]))
  }

  ghost predicate StepFault<M>(g: Graph, catalog: Catalog<M>, n: nat, v: Violation)
    requires n <= |g.steps|
  {
    exists i :: 0 <= i < n && ((v == Branching(g.steps[i].id) && Branches(g, g.steps[i].id))
                               || v in Faults(g.steps[i], catalog))
  }

  method StepViolations<M>(g: Graph, t: Topology, catalog: Catalog<M>)
    returns (violations: seq<Violation>, metadataById: map<Id, M>)
    requires IndexesEdges(t, g.edges)
    ensures forall v :: v in violations <==> StepFault(g, catalog, |g.steps|, v)
    ensures UniqueIds(g.steps) ==> MetadataKnown(g, catalog, metadataById)
    ensures violations == StepReport(g, catalog, |g.steps|) && metadataById == MetadataOf(g.steps, |g.steps|, catalog)
  {
    violations, metadataById := [], map[];
    for i := 0 to |g.steps|
      invariant violations == StepReport(g, catalog, i) && metadataById == MetadataOf(g.steps, i, catalog)
    {
      var step := g.steps[i];
      var branching: seq<Violation> :=
        if |At(t.outgoing, step.id)| > 1 || |At(t.incoming, step.id)| > 1 then [Branching(step.id)] else [];
      violations := violations + branching + Faults(step, catalog);
      if ComponentKey(step) in catalog.metadata {
        metadataById := metadataById[step.id := catalog.metadata[ComponentKey(step)]];
      }
    }
    StepReportMembers(g, catalog, |g.steps|);
    if UniqueIds(g.steps) {
      MetadataIsKnown(g.steps, |g.steps|, catalog);
      AllKnown(g, catalog, metadataById);
    }
  }

  lemma {:induction false} StepReportMembers<M>(g: Graph, catalog: Catalog<M>, n: nat)
    requires n <= |g.steps|
    ensures forall v :: v in StepReport(g, catalog, n) <==> StepFault(g, catalog, n, v)
  {
    if n > 0 {
      StepReportMembers(g, catalog, n - 1);
      var branching: seq<Violation> := if Branches(g, g.steps[n - 1].id) then [Branching(g.steps[n - 1].id)] else [];
      OneMoreFault(g, catalog, n - 1, StepReport(g, catalog, n - 1), branching);
    }
  }

  lemma {:induction false} MetadataIsKnown<M>(steps: seq<Step>, n: nat, catalog: Catalog<M>)
    requires UniqueIds(steps) && n <= |steps|
    ensures KnownSoFar(steps, n, catalog, MetadataOf(steps, n, catalog))
  {
    if n > 0 {
      MetadataIsKnown(steps, n - 1, catalog);
      OneMoreKnown(steps, n - 1, catalog, MetadataOf(steps, n - 1, catalog));
    }
  }

  /** The metadata found for the first steps, by their identifiers. */
  ghost predicate KnownSoFar<M>(steps: seq<Step>, n: nat, catalog: Catalog<M>, metadataById: map<Id, M>)
    requires n <= |steps|
  {
    && (forall id :: id in metadataById ==> exists k :: 0 <= k < n && steps[k].id == id)
    && (forall k :: 0 <= k < n ==> (steps[k].id in metadataById <==> ComponentKey(steps[k]) in catalog.metadata))
    && (forall k :: 0 <= k < n && steps[k].id in metadataById ==>
          metadataById[steps[k].id] == catalog.metadata[ComponentKey(steps[k])])
  }

  lemma OneMoreKnown<M>(steps: seq<Step>, n: nat, catalog: Catalog<M>, metadataById: map<Id, M>)
    requires UniqueIds(steps) && n < |steps| && KnownSoFar(steps, n, catalog, metadataById)
    ensures var key := ComponentKey(steps[n]);
            KnownSoFar(steps, n + 1, catalog,
                       if key in catalog.metadata then metadataById[steps[n].id := catalog.metadata[key]] else metadataById)
  {
  }

  lemma AllKnown<M>(g: Graph, catalog: Catalog<M>, metadataById: map<Id, M>)
    requires KnownSoFar(g.steps, |g.steps|, catalog, metadataById)
    ensures MetadataKnown(g, catalog, metadataById)
  {
    forall id | id in metadataById ensures id in StepIds(g.steps) {
      var k :| 0 <= k < |g.steps| && g.steps[k].id == id;
      assert g.steps[k] in g.steps;
    }
  }

  lemma NewStepId(steps: seq<Step>, step: Step)
    ensures StepIds(steps + [step]) == StepIds(steps) + {step.id}
    ensures UniqueIds(steps + [step]) ==> step.id !in StepIds(steps)
  {
    assert forall s :: s in steps + [step] <==> s in steps || s == step;
    if step.id in StepIds(steps) {
      var s :| s in steps && s.id == step.id;
      var i :| 0 <= i < |steps| && steps[i] == s;
      assert (steps + [step])[i].id == (steps + [step])[|steps|].id;
    }
  }

  lemma OneMoreFault<M>(g: Graph, catalog: Catalog<M>, i: nat, violations: seq<Violation>, branching: seq<Violation>)
    requires i < |g.steps| && forall v :: v in violations <==> StepFault(g, catalog, i, v)
    requires branching == if Branches(g, g.steps[i].id) then [Branching(g.steps[i].id)] else []
    ensures forall v :: v in violations + branching + Faults(g.steps[i], catalog) <==> StepFault(g, catalog, i + 1, v)
  {
    forall v ensures v in violations + branching + Faults(g.steps[i], catalog) <==> StepFault(g, catalog, i + 1, v) {
      if StepFault(g, catalog, i + 1, v) && !StepFault(g, catalog, i, v) {
        assert v in branching || v in Faults(g.steps[i], catalog);
      }
    }
  }

  method ConnectivityViolations<M>(g: Graph, t: Topology, start: Id, catalog: Catalog<M>, metadataById: map<Id, M>)
    returns (violations: seq<Violation>, ghost chain: seq<Id>)
    requires IndexesEdges(t, g.edges)
    ensures LinearWalk(g.edges, start, chain)
    ensures forall v :: v in violations <==>
              || (v.Disconnected? && v.id in StepIds(g.steps) && v.id !in chain)
              || (exists i :: (0 <= i < |chain| - 1 && v == Incompatible(chain[i], chain[i + 1])
                               && ClashesAt(catalog, metadataById, chain, i)))
    ensures violations == ConnectivityReport(g, catalog, metadataById, chain)
  {
    var walk := WalkLinearChain(t, start, g.edges);
    chain := walk;
    var off := DisconnectedFrom(g.steps, walk);
    var clashing := ClashesAlong(catalog, metadataById, walk);
    violations := off + clashing;
  }

  ghost predicate ClashesAt<M>(catalog: Catalog<M>, metadataById: map<Id, M>, chain: seq<Id>, i: nat)
    requires i + 1 < |chain|
  {
    chain[i] in metadataById && chain[i + 1] in metadataById
    && !catalog.compatible(metadataById[chain[i]], metadataById[chain[i + 1]])
  }

  method DisconnectedFrom(steps: seq<Step>, walk: seq<Id>) returns (violations: seq<Violation>)
    ensures forall v :: v in violations <==> v.Disconnected? && v.id in StepIds(steps) && v.id !in walk
    ensures violations == OffReport(steps, |steps|, walk)
  {
    violations := [];
    for i := 0 to |steps|
      invariant violations == OffReport(steps, i, walk)
      invariant forall v :: v in violations <==> v.Disconnected? && v.id in StepIds(steps[..i]) && v.id !in walk
    {
      TakeOneMore(steps, i);
      NewStepId(steps[..i], steps[i]);
      if steps[i].id !in walk {
        violations := violations + [Disconnected(steps[i].id)];
      }
    }
    assert steps[..|steps|] == steps;
  }

  method ClashesAlong<M>(catalog: Catalog<M>, metadataById: map<Id, M>, chain: seq<Id>)
    returns (violations: seq<Violation>)
    ensures forall v :: v in violations <==>
              exists i :: 0 <= i < |chain| - 1 && v == Incompatible(chain[i], chain[i + 1])
                          && ClashesAt(catalog, metadataById, chain, i)
    ensures violations == ClashReport(catalog, metadataById, chain, PairCount(chain))
  {
    violations := [];
    var i := 0;
    while i < |chain| - 1
      invariant 0 <= i && (i < |chain| || (chain == [] && i == 0))
      invariant violations == ClashReport(catalog, metadataById, chain, i)
      invariant forall v :: v in violations <==>
        exists k :: 0 <= k < i && v == Incompatible(chain[k], chain[k + 1])
                    && ClashesAt(catalog, metadataById, chain, k)
    {
      var upstream, downstream := chain[i], chain[i + 1];
      if upstream in metadataById && downstream in metadataById {
        if !catalog.compatible(metadataById[upstream], metadataById[downstream]) {
          violations := violations + [Incompatible(upstream, downstream)];
          assert ClashesAt(catalog, metadataById, chain, i);
        }
      }
      i := i + 1;
    }
  }

  // ---------- The result ----------

  /** Every component is installed, configured, and can pass its data to the next one on the walk. */
  ghost predicate ComponentsAccepted<M>(g: Graph, catalog: Catalog<M>, walk: seq<Id>) {
    && (forall s :: s in g.steps ==> Faults(s, catalog) == [])
    && (forall i, a, b :: 0 <= i < |walk| - 1 && a in g.steps && b in g.steps && a.id == walk[i] && b.id == walk[i + 1]
          && ComponentKey(a) in catalog.metadata && ComponentKey(b) in catalog.metadata
          ==> catalog.compatible(catalog.metadata[ComponentKey(a)], catalog.metadata[ComponentKey(b)]))
  }

  ghost predicate FirstWalkAccepted<M>(g: Graph, catalog: Catalog<M>) {
    var sources := StepsOfKind(g.steps, Source);
    sources != [] && forall walk :: LinearWalk(g.edges, sources[0].id, walk) ==> ComponentsAccepted(g, catalog, walk)
  }

  lemma OffWalkMeans(g: Graph, chain: seq<Id>, id: Id)
    requires StepsOfKind(g.steps, Source) != []
    requires LinearWalk(g.edges, StepsOfKind(g.steps, Source)[0].id, chain)
    ensures OffWalk(g, id) <==> id !in chain
  {
    forall walk | LinearWalk(g.edges, StepsOfKind(g.steps, Source)[0].id, walk) ensures walk == chain {
      WalkIsUnique(g.edges, StepsOfKind(g.steps, Source)[0].id, walk, chain);
    }
  }

  ghost predicate FaultsReport<M>(g: Graph, catalog: Catalog<M>, faults: seq<Violation>) {
    forall v :: v in faults <==> StepFault(g, catalog, |g.steps|, v)
  }

  lemma FaultsAreBranches<M>(g: Graph, catalog: Catalog<M>, faults: seq<Violation>, v: Violation)
    requires FaultsReport(g, catalog, faults) && v.Structural()
    ensures v in faults <==> v.Branching? && Reports(g, v)
  {
    if v.Branching? && Reports(g, v) {
      var s :| s in g.steps && s.id == v.id;
      var i :| 0 <= i < |g.steps| && g.steps[i] == s;
      assert v == Branching(g.steps[i].id);
    }
    if v in faults {
      var i :| 0 <= i < |g.steps| && ((v == Branching(g.steps[i].id) && Branches(g, g.steps[i].id))
                                      || v in Faults(g.steps[i], catalog));
      assert g.steps[i] in g.steps;
    }
  }

  /** Every structural violation is reported exactly when it holds; nothing at all is reported exactly when the
      graph is one Source-led walk and its components are accepted. */
  method CheckPipelineExecutable<M>(g: Graph, catalog: Catalog<M>) returns (violations: seq<Violation>)
    ensures forall v: Violation :: v.Structural() ==> (v in violations <==> Reports(g, v))
    ensures UniqueIds(g.steps) ==>
              (violations == [] <==> StructurallyExecutable(g) && FirstWalkAccepted(g, catalog))
    ensures exists walk :: IsReportedWalk(g, walk) && violations == Report(g, catalog, walk)
  {
    var t := BuildPipelineTopology(g);
    var sources := StepsOfKind(g.steps, Source);
    var exports := StepsOfKind(g.steps, Export);
    var counts := CountViolations(sources, exports);
    var faults, metadataById := StepViolations(g, t, catalog);
    var connectivity: seq<Violation> := [];
    ghost var chain: seq<Id> := [];
    if |sources| > 0 && |exports| == 1 {
      connectivity, chain := ConnectivityViolations(g, t, sources[0].id, catalog, metadataById);
    }
    violations := counts + faults + connectivity;
    assert IsReportedWalk(g, chain) && violations == Report(g, catalog, chain);
    Collected(g, catalog, counts, faults, connectivity, metadataById, chain);
  }

  /** What the three parts of the check hold. */
  ghost predicate Parts<M>(g: Graph, catalog: Catalog<M>, counts: seq<Violation>, faults: seq<Violation>,
                           connectivity: seq<Violation>, metadataById: map<Id, M>, chain: seq<Id>) {
    var sources, exports := StepsOfKind(g.steps, Source), StepsOfKind(g.steps, Export);
    && (forall v :: v in counts <==> (v.MissingSource? || v.MultipleSources? || v.MissingExport? || v.MultipleExports?)
                                     && Reports(g, v))
    && FaultsReport(g, catalog, faults)
    && (if |sources| > 0 && |exports| == 1 then
          && LinearWalk(g.edges, sources[0].id, chain)
          && (forall v :: v in connectivity <==>
                 || (v.Disconnected? && v.id in StepIds(g.steps) && v.id !in chain)
                 || (exists i :: (0 <= i < |chain| - 1 && v == Incompatible(chain[i], chain[i + 1])
                                  && ClashesAt(catalog, metadataById, chain, i))))
        else connectivity == [])
  }

  lemma StructuralPart<M>(g: Graph, catalog: Catalog<M>, counts: seq<Violation>, faults: seq<Violation>,
                          connectivity: seq<Violation>, metadataById: map<Id, M>, chain: seq<Id>, v: Violation)
    requires Parts(g, catalog, counts, faults, connectivity, metadataById, chain) && v.Structural()
    ensures v in counts + faults + connectivity <==> Reports(g, v)
  {
    FaultsAreBranches(g, catalog, faults, v);
    if v.Disconnected? && |StepsOfKind(g.steps, Source)| > 0 && |StepsOfKind(g.steps, Export)| == 1 {
      OffWalkMeans(g, chain, v.id);
    }
  }

  ghost predicate MetadataKnown<M>(g: Graph, catalog: Catalog<M>, metadataById: map<Id, M>) {
    && (forall s :: s in g.steps ==> (s.id in metadataById <==> ComponentKey(s) in catalog.metadata))
    && (forall s :: s in g.steps && s.id in metadataById ==> metadataById[s.id] == catalog.metadata[ComponentKey(s)])
    && (forall id :: id in metadataById ==> id in StepIds(g.steps))
  }

  lemma QuietWalkIsAccepted<M>(g: Graph, catalog: Catalog<M>, metadataById: map<Id, M>, chain: seq<Id>)
    requires MetadataKnown(g, catalog, metadataById) && forall s :: s in g.steps ==> Faults(s, catalog) == []
    requires forall i :: 0 <= i < |chain| - 1 ==> !ClashesAt(catalog, metadataById, chain, i)
    ensures ComponentsAccepted(g, catalog, chain)
  {
    forall i, a, b | 0 <= i < |chain| - 1 && a in g.steps && b in g.steps && a.id == chain[i] && b.id == chain[i + 1]
        && ComponentKey(a) in catalog.metadata && ComponentKey(b) in catalog.metadata
      ensures catalog.compatible(catalog.metadata[ComponentKey(a)], catalog.metadata[ComponentKey(b)])
    {
      assert !ClashesAt(catalog, metadataById, chain, i);
    }
  }

  lemma AcceptedDoesNotClash<M>(g: Graph, catalog: Catalog<M>, metadataById: map<Id, M>, chain: seq<Id>, i: nat)
    requires MetadataKnown(g, catalog, metadataById) && ComponentsAccepted(g, catalog, chain) && i + 1 < |chain|
    ensures !ClashesAt(catalog, metadataById, chain, i)
  {
    if chain[i] in metadataById && chain[i + 1] in metadataById {
      var a :| a in g.steps && a.id == chain[i];
      var b :| b in g.steps && b.id == chain[i + 1];
    }
  }

  /** No clash is reported exactly when adjacent components are compatible. */
  lemma ClashPart<M>(g: Graph, catalog: Catalog<M>, metadataById: map<Id, M>, chain: seq<Id>)
    requires MetadataKnown(g, catalog, metadataById) && forall s :: s in g.steps ==> Faults(s, catalog) == []
    ensures (forall i :: 0 <= i < |chain| - 1 ==> !ClashesAt(catalog, metadataById, chain, i))
            <==> ComponentsAccepted(g, catalog, chain)
  {
    if ComponentsAccepted(g, catalog, chain) {
      forall i | 0 <= i < |chain| - 1 ensures !ClashesAt(catalog, metadataById, chain, i) {
        AcceptedDoesNotClash(g, catalog, metadataById, chain, i);
      }
    } else if forall i :: 0 <= i < |chain| - 1 ==> !ClashesAt(catalog, metadataById, chain, i) {
      QuietWalkIsAccepted(g, catalog, metadataById, chain);
    }
  }

  lemma NoFaults<M>(g: Graph, catalog: Catalog<M>, faults: seq<Violation>)
    requires FaultsReport(g, catalog, faults)
    ensures faults == [] <==> forall s :: s in g.steps ==> Faults(s, catalog) == [] && !Branches(g, s.id)
  {
    if faults == [] {
      forall s | s in g.steps ensures Faults(s, catalog) == [] && !Branches(g, s.id) {
        var i :| 0 <= i < |g.steps| && g.steps[i] == s;
        assert !StepFault(g, catalog, |g.steps|, Branching(g.steps[i].id));
        forall v | v in Faults(g.steps[i], catalog) ensures StepFault(g, catalog, |g.steps|, v) {}
        NoMembers(Faults(s, catalog));
      }
    } else {
      assert faults[0] in faults;
    }
  }

  lemma Collected<M>(g: Graph, catalog: Catalog<M>, counts: seq<Violation>, faults: seq<Violation>,
                     connectivity: seq<Violation>, metadataById: map<Id, M>, chain: seq<Id>)
    requires Parts(g, catalog, counts, faults, connectivity, metadataById, chain)
    requires UniqueIds(g.steps) ==> MetadataKnown(g, catalog, metadataById)
    ensures forall v: Violation :: v.Structural() ==> (v in counts + faults + connectivity <==> Reports(g, v))
    ensures UniqueIds(g.steps) ==> (counts + faults + connectivity == [] <==>
                                    StructurallyExecutable(g) && FirstWalkAccepted(g, catalog))
  {
    var all := counts + faults + connectivity;
    forall v: Violation | v.Structural() ensures v in all <==> Reports(g, v) {
      StructuralPart(g, catalog, counts, faults, connectivity, metadataById, chain, v);
    }
    NothingToReport(g);
    if UniqueIds(g.steps) && StructurallyExecutable(g) {
      ExecutableMeansAccepted(g, catalog, counts, faults, connectivity, metadataById, chain);
    }
  }

  lemma ExecutableMeansAccepted<M>(g: Graph, catalog: Catalog<M>, counts: seq<Violation>, faults: seq<Violation>,
                                   connectivity: seq<Violation>, metadataById: map<Id, M>, chain: seq<Id>)
    requires Parts(g, catalog, counts, faults, connectivity, metadataById, chain)
    requires MetadataKnown(g, catalog, metadataById) && StructurallyExecutable(g)
    ensures counts + faults + connectivity == [] <==> FirstWalkAccepted(g, catalog)
  {
    NoFaults(g, catalog, faults);
    NothingToReport(g);
    if FirstWalkAccepted(g, catalog) {
      assert LinearWalk(g.edges, StepsOfKind(g.steps, Source)[0].id, chain);
      ClashPart(g, catalog, metadataById, chain);
      NoMembers(counts);
      NoConnectivity(g, catalog, counts, faults, connectivity, metadataById, chain);
    }
    if counts + faults + connectivity == [] {
      assert connectivity == [] && faults == [];
      WalkIsAccepted(g, catalog, counts, faults, connectivity, metadataById, chain);
    }
  }

  lemma NoConnectivity<M>(g: Graph, catalog: Catalog<M>, counts: seq<Violation>, faults: seq<Violation>,
                          connectivity: seq<Violation>, metadataById: map<Id, M>, chain: seq<Id>)
    requires Parts(g, catalog, counts, faults, connectivity, metadataById, chain) && StructurallyExecutable(g)
    requires forall i :: 0 <= i < |chain| - 1 ==> !ClashesAt(catalog, metadataById, chain, i)
    ensures connectivity == []
  {
    forall v ensures v !in connectivity {
      if v.Disconnected? && v.id in StepIds(g.steps) {
        OffWalkMeans(g, chain, v.id);
        NothingOffWalk(g, v.id);
      }
    }
    NoMembers(connectivity);
  }

  lemma NothingOffWalk(g: Graph, id: Id)
    requires StructurallyExecutable(g) && id in StepIds(g.steps)
    ensures !OffWalk(g, id)
  {
    var s :| s in g.steps && s.id == id;
  }

  lemma NoMembers<T>(s: seq<T>)
    requires forall x :: x !in s
    ensures s == []
  {
    if s != [] {
      HeadIsMember(s);
    }
  }

  lemma HeadIsMember<T>(s: seq<T>)
    requires s != []
    ensures s[0] in s
  {
  }

  lemma WalkIsAccepted<M>(g: Graph, catalog: Catalog<M>, counts: seq<Violation>, faults: seq<Violation>,
                          connectivity: seq<Violation>, metadataById: map<Id, M>, chain: seq<Id>)
    requires Parts(g, catalog, counts, faults, connectivity, metadataById, chain) && connectivity == []
    requires MetadataKnown(g, catalog, metadataById) && StructurallyExecutable(g)
    requires forall s :: s in g.steps ==> Faults(s, catalog) == []
    ensures FirstWalkAccepted(g, catalog)
  {
    var source := StepsOfKind(g.steps, Source)[0].id;
    forall i | 0 <= i < |chain| - 1 ensures !ClashesAt(catalog, metadataById, chain, i) {
      assert Incompatible(chain[i], chain[i + 1]) !in connectivity;
    }
    ClashPart(g, catalog, metadataById, chain);
    forall walk | LinearWalk(g.edges, source, walk) ensures ComponentsAccepted(g, catalog, walk) {
      WalkIsUnique(g.edges, source, walk, chain);
    }
  }
}
