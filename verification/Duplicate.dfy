/** Copying a pipeline under new component identities (packages/database/src/pipelines/duplicate.ts). */
module Duplicate {
  import opened Wrappers
  import opened Graphs
  import opened Topologies
  import opened SaveValidation
  import opened Chains
  import opened ExecutableCheck

  datatype Trigger = Manual(enabled: bool) | Schedule(cron: string, timezone: string, enabled: bool)

  datatype Definition = Definition(name: string, graph: Graph, triggers: seq<Trigger>)

  datatype CopyError = AbsentComponent

  // ---------- The copy ----------

  /** The copied configuration loses its credential bindings. */
  function CopyPortableStep(s: Step): Step {
    s.(configuration := s.configuration.(secretBindings := []))
  }

  function CopyDisabledTrigger(t: Trigger): Trigger {
    t.(enabled := false)
  }

  /** The identity given to each source identity; a repeated one keeps the last. */
  function Renaming(steps: seq<Step>, createId: nat -> Id): map<Id, Id> {
    if steps == [] then map[]
    else
      var last := |steps| - 1;
      Renaming(steps[..last], createId)[steps[last].id := createId(last)]
  }

  predicate Resolves(renaming: map<Id, Id>, id: Id) {
    id in renaming && !renaming[id].Empty()
  }

  ghost predicate IsCopy(g: Graph, renaming: map<Id, Id>, createId: nat -> Id, copy: Graph) {
    && |copy.steps| == |g.steps|
    && (forall i :: 0 <= i < |g.steps| ==> copy.steps[i] == CopyPortableStep(g.steps[i]).(id := createId(i)))
    && |copy.edges| == |g.edges|
    && (forall i :: 0 <= i < |g.edges| ==>
          && g.edges[i].from in renaming && g.edges[i].to in renaming
          && copy.edges[i] == Edge(renaming[g.edges[i].from], renaming[g.edges[i].to]))
  }

  /** The new identity with the old component and its values, and without a credential. */
  ghost predicate IsPortableCopy(s: Step, copy: Step, id: Id) {
    copy == Step(id, s.kind, s.componentType, s.componentVersion, Configuration(s.configuration.values, []))
  }

  ghost predicate IsDisabledCopy(t: Trigger, copy: Trigger) {
    match t
    case Manual(_) => copy == Manual(false)
    case Schedule(cron, timezone, _) => copy == Schedule(cron, timezone, false)
  }

  /** Each source identity is renamed to the identity its last step was given, and no other one is renamed. */
  lemma {:induction false} LastStepNames(steps: seq<Step>, createId: nat -> Id, i: nat)
    requires i < |steps| && forall k :: i < k < |steps| ==> steps[k].id != steps[i].id
    ensures steps[i].id in Renaming(steps, createId) && Renaming(steps, createId)[steps[i].id] == createId(i)
    decreases |steps|
  {
    var last := |steps| - 1;
    if i < last {
      assert steps[last].id != steps[i].id;
      LastStepNames(steps[..last], createId, i);
    }
  }

  lemma {:induction false} OnlyStepsAreNamed(steps: seq<Step>, createId: nat -> Id)
    ensures Renaming(steps, createId).Keys == StepIds(steps)
  {
    if steps != [] {
      var last := |steps| - 1;
      OnlyStepsAreNamed(steps[..last], createId);
      assert steps == steps[..last] + [steps[last]];
    }
  }

  method CopySteps(steps: seq<Step>, createId: nat -> Id) returns (copies: seq<Step>, renaming: map<Id, Id>)
    ensures |copies| == |steps| && renaming == Renaming(steps, createId)
    ensures forall i :: 0 <= i < |steps| ==> copies[i] == CopyPortableStep(steps[i]).(id := createId(i))
    ensures forall i :: 0 <= i < |steps| ==> IsPortableCopy(steps[i], copies[i], createId(i))
  {
    copies, renaming := [], map[];
    for i := 0 to |steps|
      invariant |copies| == i && renaming == Renaming(steps[..i], createId)
      invariant forall k :: 0 <= k < i ==> copies[k] == CopyPortableStep(steps[k]).(id := createId(k))
    {
      var id := createId(i);
      renaming := renaming[steps[i].id := id];
      copies := copies + [CopyPortableStep(steps[i]).(id := id)];
      assert steps[..i + 1][..i] == steps[..i];
    }
    assert steps[..|steps|] == steps;
  }

  method RemapEdges(edges: seq<Edge>, renaming: map<Id, Id>) returns (copies: Result<seq<Edge>, CopyError>)
    ensures copies.Ok? <==> forall e :: e in edges ==> Resolves(renaming, e.from) && Resolves(renaming, e.to)
    ensures copies.Ok? <==> forall i :: 0 <= i < |edges| ==>
              && edges[i].from in renaming && renaming[edges[i].from].text != ""
              && edges[i].to in renaming && renaming[edges[i].to].text != ""
    ensures copies.Ok? ==>
              && |copies.value| == |edges|
              && forall i :: 0 <= i < |edges| ==>
                   && edges[i].from in renaming && edges[i].to in renaming
                   && copies.value[i] == Edge(renaming[edges[i].from], renaming[edges[i].to])
  {
    var all: seq<Edge> := [];
    for i := 0 to |edges|
      invariant |all| == i
      invariant forall k :: 0 <= k < i ==>
                  && Resolves(renaming, edges[k].from) && Resolves(renaming, edges[k].to)
                  && all[k] == Edge(renaming[edges[k].from], renaming[edges[k].to])
    {
      if !Resolves(renaming, edges[i].from) || !Resolves(renaming, edges[i].to) {
        assert edges[i] in edges;
        return Err(AbsentComponent);
      }
      all := all + [Edge(renaming[edges[i].from], renaming[edges[i].to])];
    }
    copies := Ok(all);
  }

  method BuildDuplicateCreateRequest(source: Definition, name: string, createId: nat -> Id)
      returns (request: Result<Definition, CopyError>)
    ensures var renaming := Renaming(source.graph.steps, createId);
            && (request.Ok? <==> forall e :: e in source.graph.edges ==> Resolves(renaming, e.from) && Resolves(renaming, e.to))
            && (request.Ok? ==>
                  && IsCopy(source.graph, renaming, createId, request.value.graph)
                  && request.value.name == name
                  && |request.value.triggers| == |source.triggers|
                  && forall i :: 0 <= i < |source.triggers| ==>
                       request.value.triggers[i] == CopyDisabledTrigger(source.triggers[i]))
    ensures request.Ok? ==>
              && |request.value.graph.steps| == |source.graph.steps|
              && (forall i :: 0 <= i < |source.graph.steps| ==>
                    IsPortableCopy(source.graph.steps[i], request.value.graph.steps[i], createId(i)))
              && (forall i :: 0 <= i < |source.triggers| ==> IsDisabledCopy(source.triggers[i], request.value.triggers[i]))
  {
    var steps, renaming := CopySteps(source.graph.steps, createId);
    var edges := RemapEdges(source.graph.edges, renaming);
    if edges.Err? {
      return Err(edges.error);
    }
    var triggers := seq(|source.triggers|, i requires 0 <= i < |source.triggers| => CopyDisabledTrigger(source.triggers[i]));
    request := Ok(Definition(name, Graph(steps, edges.value), triggers));
  }

  // ---------- Graphs that differ only in their identities ----------

  /** `f` and `b` rename the steps of one graph into those of the other and back, keeping kinds, edges and order. */
  ghost predicate Isomorphic(g: Graph, h: Graph, f: map<Id, Id>, b: map<Id, Id>) {
    && f.Keys == StepIds(g.steps) && b.Keys == StepIds(h.steps)
    && (forall x :: x in f ==> f[x] in b && b[f[x]] == x)
    && (forall y :: y in b ==> b[y] in f && f[b[y]] == y)
    && SameSteps(g.steps, h.steps, f)
    && SameEdges(g.edges, h.edges, f)
  }

  ghost predicate SameSteps(steps: seq<Step>, steps': seq<Step>, f: map<Id, Id>) {
    && |steps'| == |steps|
    && forall i :: 0 <= i < |steps| ==>
         steps[i].id in f && steps'[i].id == f[steps[i].id] && steps'[i].kind == steps[i].kind
  }

  ghost predicate SameEdges(edges: seq<Edge>, edges': seq<Edge>, f: map<Id, Id>) {
    && |edges'| == |edges|
    && forall i :: 0 <= i < |edges| ==>
         edges[i].from in f && edges[i].to in f && edges'[i] == Edge(f[edges[i].from], f[edges[i].to])
  }

  lemma Flipped(g: Graph, h: Graph, f: map<Id, Id>, b: map<Id, Id>)
    requires Isomorphic(g, h, f, b)
    ensures Isomorphic(h, g, b, f)
  {
  }

  // ---------- Saving ----------

  lemma ArcAcross(g: Graph, h: Graph, f: map<Id, Id>, b: map<Id, Id>, e: Edge)
    requires Isomorphic(g, h, f, b) && e in EdgeSet(g.edges)
    ensures e.from in f && e.to in f && Edge(f[e.from], f[e.to]) in EdgeSet(h.edges)
  {
    var i :| 0 <= i < |g.edges| && g.edges[i] == e;
    assert h.edges[i] in h.edges;
  }

  lemma PathAcross(g: Graph, h: Graph, f: map<Id, Id>, b: map<Id, Id>, x: Id, y: Id)
    requires Isomorphic(g, h, f, b) && x in f && Reaches(EdgeSet(g.edges), x, y)
    ensures y in f && Reaches(EdgeSet(h.edges), f[x], f[y])
  {
    var p :| PathBetween(EdgeSet(g.edges), p, x, y);
    forall i | 0 <= i < |p| ensures p[i] in f {
      if i > 0 {
        assert Edge(p[i - 1], p[i - 1 + 1]) in EdgeSet(g.edges);
        ArcAcross(g, h, f, b, Edge(p[i - 1], p[i]));
      }
    }
    var q := seq(|p|, i requires 0 <= i < |p| => f[p[i]]);
    forall i | 0 <= i < |q| - 1 ensures Edge(q[i], q[i + 1]) in EdgeSet(h.edges) {
      ArcAcross(g, h, f, b, Edge(p[i], p[i + 1]));
    }
    assert PathBetween(EdgeSet(h.edges), q, f[x], f[y]);
  }

  lemma NoCycleAcross(g: Graph, h: Graph, f: map<Id, Id>, b: map<Id, Id>)
    requires Isomorphic(g, h, f, b) && Acyclic(EdgeSet(g.edges))
    ensures Acyclic(EdgeSet(h.edges))
  {
    Flipped(g, h, f, b);
    forall y ensures !ReachesPlus(EdgeSet(h.edges), y, y) {
      if ReachesPlus(EdgeSet(h.edges), y, y) {
        var m :| Edge(y, m) in EdgeSet(h.edges) && Reaches(EdgeSet(h.edges), m, y);
        ArcAcross(h, g, b, f, Edge(y, m));
        PathAcross(h, g, b, f, m, y);
        assert ReachesPlus(EdgeSet(g.edges), b[y], b[y]);
      }
    }
  }

  lemma KindAcross(g: Graph, h: Graph, f: map<Id, Id>, b: map<Id, Id>, s: Step) returns (t: Step)
    requires Isomorphic(g, h, f, b) && s in g.steps
    ensures t in h.steps && s.id in f && t.id == f[s.id] && t.kind == s.kind
  {
    var i :| 0 <= i < |g.steps| && g.steps[i] == s;
    t := h.steps[i];
  }

  lemma OnPathAcross(g: Graph, h: Graph, f: map<Id, Id>, b: map<Id, Id>, id: Id)
    requires Isomorphic(g, h, f, b) && id in f && OnSourceToExportPath(g, id)
    ensures OnSourceToExportPath(h, f[id])
  {
    var a :| a in g.steps && a.kind.Source? && Reaches(EdgeSet(g.edges), a.id, id);
    var z :| z in g.steps && z.kind.Export? && Reaches(EdgeSet(g.edges), id, z.id);
    var a' := KindAcross(g, h, f, b, a);
    var z' := KindAcross(g, h, f, b, z);
    PathAcross(g, h, f, b, a.id, id);
    PathAcross(g, h, f, b, id, z.id);
  }

  lemma PathsAcross(g: Graph, h: Graph, f: map<Id, Id>, b: map<Id, Id>)
    requires Isomorphic(g, h, f, b) && EveryStepOnPath(g) && (forall s :: s in h.steps ==> !s.id.Empty())
    ensures EveryStepOnPath(h)
  {
    forall t {:trigger OnSourceToExportPath(h, t.id)} | t in h.steps ensures !t.id.Empty() && OnSourceToExportPath(h, t.id) {
      Flipped(g, h, f, b);
      var s := KindAcross(h, g, b, f, t);
      OnPathAcross(g, h, f, b, s.id);
    }
  }

  lemma DirectionAcross(g: Graph, h: Graph, f: map<Id, Id>, b: map<Id, Id>)
    requires Isomorphic(g, h, f, b) && FlowsForward(g) && NoSelfLoops(g)
    ensures FlowsForward(h) && NoSelfLoops(h) && EdgesReferToSteps(h)
  {
    Flipped(g, h, f, b);
    forall e | e in h.edges ensures e.from in b && e.to in b && Edge(b[e.from], b[e.to]) in g.edges && e.from != e.to {
      ArcAcross(h, g, b, f, e);
    }
    forall e, t | e in h.edges && t in h.steps
      ensures (t.id == e.from ==> !t.kind.Export?) && (t.id == e.to ==> !t.kind.Source?)
    {
      var s := KindAcross(h, g, b, f, t);
      assert Edge(b[e.from], b[e.to]) in g.edges;
    }
  }

  /** A renamed graph is accepted when the graph was, as long as its identities are contract identifiers. */
  lemma SavedAcross(g: Graph, h: Graph, f: map<Id, Id>, b: map<Id, Id>)
    requires Isomorphic(g, h, f, b) && SaveValid(g) && (forall s :: s in h.steps ==> ContractId(s.id))
    ensures SaveValid(h)
  {
    DirectionAcross(g, h, f, b);
    NoCycleAcross(g, h, f, b);
    PathsAcross(g, h, f, b);
    UniqueAcross(g, h, f, b);
    KindsAcross(g, h, f, b);
  }

  lemma KindsAcross(g: Graph, h: Graph, f: map<Id, Id>, b: map<Id, Id>)
    requires Isomorphic(g, h, f, b) && HasKind(g, Source) && HasKind(g, Export)
    ensures HasKind(h, Source) && HasKind(h, Export)
  {
    var a :| a in g.steps && a.kind.Source?;
    var z :| z in g.steps && z.kind.Export?;
    var a' := KindAcross(g, h, f, b, a);
    var z' := KindAcross(g, h, f, b, z);
  }

  lemma UniqueAcross(g: Graph, h: Graph, f: map<Id, Id>, b: map<Id, Id>)
    requires Isomorphic(g, h, f, b) && UniqueIds(g.steps) && UniqueEdgeKeys(g.edges)
    requires EdgesReferToSteps(h) && forall s :: s in h.steps ==> ContractId(s.id)
    ensures UniqueIds(h.steps) && UniqueEdgeKeys(h.edges)
  {
    forall i, j | 0 <= i < j < |h.edges| ensures h.edges[i] != h.edges[j] {
      assert g.edges[i] != g.edges[j];
    }
    forall e | e in h.edges ensures ContractId(e.from) {
      assert e.from in StepIds(h.steps);
    }
    KeysAreEdges(h.edges);
  }

  // ---------- Structural violations ----------

  function Renamed(ids: seq<Id>, f: map<Id, Id>): (renamed: seq<Id>)
    requires forall id :: id in ids ==> id in f
    ensures |renamed| == |ids| && forall i :: 0 <= i < |ids| ==> renamed[i] == f[ids[i]]
  {
    seq(|ids|, i requires 0 <= i < |ids| => f[ids[i]])
  }

  lemma {:induction false} EdgesOfAcross(edges: seq<Edge>, edges': seq<Edge>, f: map<Id, Id>, id: Id)
    requires SameEdges(edges, edges', f) && id in f && forall x, y :: x in f && y in f && f[x] == f[y] ==> x == y
    ensures SameEdges(EdgesFrom(edges, id), EdgesFrom(edges', f[id]), f)
    ensures SameEdges(EdgesTo(edges, id), EdgesTo(edges', f[id]), f)
  {
    if edges != [] {
      EdgesOfAcross(edges[..|edges| - 1], edges'[..|edges| - 1], f, id);
    }
  }

  lemma {:induction false} KindListAcross(steps: seq<Step>, steps': seq<Step>, f: map<Id, Id>, kind: Kind)
    requires SameSteps(steps, steps', f)
    ensures SameSteps(StepsOfKind(steps, kind), StepsOfKind(steps', kind), f)
  {
    if steps != [] {
      KindListAcross(steps[1..], steps'[1..], f, kind);
    }
  }

  lemma Injective(g: Graph, h: Graph, f: map<Id, Id>, b: map<Id, Id>)
    requires Isomorphic(g, h, f, b)
    ensures forall x, y :: x in f && y in f && f[x] == f[y] ==> x == y
  {
    forall x, y | x in f && y in f && f[x] == f[y] ensures x == y {
      assert b[f[x]] == b[f[y]];
    }
  }

  lemma BranchAcross(g: Graph, h: Graph, f: map<Id, Id>, b: map<Id, Id>, id: Id)
    requires Isomorphic(g, h, f, b) && id in f
    ensures Branches(g, id) <==> Branches(h, f[id])
  {
    Injective(g, h, f, b);
    EdgesOfAcross(g.edges, h.edges, f, id);
  }

  lemma WalkStaysInside(g: Graph, f: map<Id, Id>, edges': seq<Edge>, walk: seq<Id>)
    requires SameEdges(g.edges, edges', f) && walk != [] && walk[0] in f && LinearWalk(g.edges, walk[0], walk)
    ensures forall id :: id in walk ==> id in f
  {
    forall i | 0 <= i < |walk| ensures walk[i] in f {
      if i > 0 {
        EdgesFromMembers(g.edges, walk[i - 1]);
        assert EdgesFrom(g.edges, walk[i - 1]) == [Edge(walk[i - 1], walk[i - 1 + 1])];
        assert Edge(walk[i - 1], walk[i]) in EdgesFrom(g.edges, walk[i - 1]);
      }
    }
  }

  lemma WalkAcross(g: Graph, h: Graph, f: map<Id, Id>, b: map<Id, Id>, start: Id, walk: seq<Id>)
    requires Isomorphic(g, h, f, b) && start in f && LinearWalk(g.edges, start, walk)
    ensures (forall id :: id in walk ==> id in f) && LinearWalk(h.edges, f[start], Renamed(walk, f))
  {
    Injective(g, h, f, b);
    WalkStaysInside(g, f, h.edges, walk);
    var walk' := Renamed(walk, f);
    forall i | 0 <= i < |walk| - 1 ensures EdgesFrom(h.edges, walk'[i]) == [Edge(walk'[i], walk'[i + 1])] {
      assert EdgesFrom(g.edges, walk[i]) == [Edge(walk[i], walk[i + 1])];
      OnlyEdgeAcross(g.edges, h.edges, f, walk[i], walk[i + 1]);
    }
    RenamedDistinct(walk, f);
    WalkEndsAcross(g.edges, h.edges, f, walk);
  }

  lemma RenamedDistinct(walk: seq<Id>, f: map<Id, Id>)
    requires Distinct(walk) && forall id :: id in walk ==> id in f
    requires forall x, y :: x in f && y in f && f[x] == f[y] ==> x == y
    ensures Distinct(Renamed(walk, f))
  {
  }

  lemma OnlyEdgeAcross(edges: seq<Edge>, edges': seq<Edge>, f: map<Id, Id>, x: Id, y: Id)
    requires SameEdges(edges, edges', f) && x in f && forall x, y :: x in f && y in f && f[x] == f[y] ==> x == y
    requires EdgesFrom(edges, x) == [Edge(x, y)]
    ensures y in f && EdgesFrom(edges', f[x]) == [Edge(f[x], f[y])]
  {
    EdgesOfAcross(edges, edges', f, x);
    assert EdgesFrom(edges, x)[0] == Edge(x, y);
  }

  lemma WalkEndsAcross(edges: seq<Edge>, edges': seq<Edge>, f: map<Id, Id>, walk: seq<Id>)
    requires SameEdges(edges, edges', f) && forall x, y :: x in f && y in f && f[x] == f[y] ==> x == y
    requires walk != [] && (forall id :: id in walk ==> id in f) && WalkEnds(edges, walk)
    ensures WalkEnds(edges', Renamed(walk, f))
  {
    var last, walk' := walk[|walk| - 1], Renamed(walk, f);
    EdgesOfAcross(edges, edges', f, last);
    if |EdgesFrom(edges, last)| == 1 {
      var k :| 0 <= k < |walk| && walk[k] == EdgesFrom(edges, last)[0].to;
      assert walk'[k] == EdgesFrom(edges', f[last])[0].to;
    }
  }

  lemma OffWalkAcross(g: Graph, h: Graph, f: map<Id, Id>, b: map<Id, Id>, id: Id)
    requires Isomorphic(g, h, f, b) && id in f && OffWalk(g, id)
    ensures OffWalk(h, f[id])
  {
    Flipped(g, h, f, b);
    KindListAcross(g.steps, h.steps, f, Source);
    var start, start' := StepsOfKind(g.steps, Source)[0].id, StepsOfKind(h.steps, Source)[0].id;
    forall walk' | LinearWalk(h.edges, start', walk') ensures f[id] !in walk' {
      WalkAcross(h, g, b, f, start', walk');
      var walk := Renamed(walk', b);
      assert LinearWalk(g.edges, start, walk);
      forall k | 0 <= k < |walk'| ensures walk'[k] != f[id] {
        assert walk[k] in walk;
      }
    }
  }

  /** A structural violation with its identities renamed. */
  ghost predicate SameViolation(v: Violation, v': Violation, f: map<Id, Id>) {
    match v
    case MissingSource => v' == MissingSource
    case MissingExport => v' == MissingExport
    case MultipleSources(ids) => (forall id :: id in ids ==> id in f) && v' == MultipleSources(Renamed(ids, f))
    case MultipleExports(ids) => (forall id :: id in ids ==> id in f) && v' == MultipleExports(Renamed(ids, f))
    case Branching(id) => id in f && v' == Branching(f[id])
    case Disconnected(id) => id in f && v' == Disconnected(f[id])
    case _ => false
  }

  /** The structural violations of a renamed graph are those of the graph, renamed. */
  lemma ViolationAcross(g: Graph, h: Graph, f: map<Id, Id>, b: map<Id, Id>, v: Violation, v': Violation)
    requires Isomorphic(g, h, f, b) && SameViolation(v, v', f) && Reports(g, v)
    ensures Reports(h, v')
  {
    KindListAcross(g.steps, h.steps, f, Source);
    KindListAcross(g.steps, h.steps, f, Export);
    match v {
      case Branching(id) =>
        BranchAcross(g, h, f, b, id);
      case Disconnected(id) =>
        OffWalkAcross(g, h, f, b, id);
      case MultipleSources(ids) =>
        assert Renamed(ids, f) == IdsOf(StepsOfKind(h.steps, Source));
      case MultipleExports(ids) =>
        assert Renamed(ids, f) == IdsOf(StepsOfKind(h.steps, Export));
      case _ =>
    }
  }

  lemma FlippedViolation(g: Graph, h: Graph, f: map<Id, Id>, b: map<Id, Id>, v: Violation, v': Violation)
    requires Isomorphic(g, h, f, b) && SameViolation(v, v', f)
    ensures SameViolation(v', v, b)
  {
    if v.MultipleSources? || v.MultipleExports? {
      assert Renamed(Renamed(v.ids, f), b) == v.ids;
    }
  }

  lemma ExecutableAcross(g: Graph, h: Graph, f: map<Id, Id>, b: map<Id, Id>)
    requires Isomorphic(g, h, f, b)
    ensures StructurallyExecutable(g) <==> StructurallyExecutable(h)
  {
    Flipped(g, h, f, b);
    KindListAcross(g.steps, h.steps, f, Source);
    KindListAcross(g.steps, h.steps, f, Export);
    if StructurallyExecutable(g) {
      ExecutableOneWay(g, h, f, b);
    }
    if StructurallyExecutable(h) {
      ExecutableOneWay(h, g, b, f);
    }
  }

  lemma ExecutableOneWay(g: Graph, h: Graph, f: map<Id, Id>, b: map<Id, Id>)
    requires Isomorphic(g, h, f, b) && StructurallyExecutable(g)
    ensures StructurallyExecutable(h)
  {
    Flipped(g, h, f, b);
    KindListAcross(g.steps, h.steps, f, Source);
    KindListAcross(g.steps, h.steps, f, Export);
    forall t | t in h.steps ensures !Branches(h, t.id) && !OffWalk(h, t.id) {
      var s := KindAcross(h, g, b, f, t);
      BranchAcross(g, h, f, b, s.id);
      if OffWalk(h, t.id) {
        OffWalkAcross(h, g, b, f, t.id);
      }
    }
  }

  // ---------- The copy is such a graph ----------

  ghost predicate FreshIds(createId: nat -> Id) {
    Injects(createId) && forall i: nat :: ContractId(createId(i))
  }

  ghost predicate Injects(createId: nat -> Id) {
    forall i: nat, j: nat :: createId(i) == createId(j) ==> i == j
  }

  function Back(steps: seq<Step>, createId: nat -> Id): map<Id, Id> {
    if steps == [] then map[]
    else Back(steps[..|steps| - 1], createId)[createId(|steps| - 1) := steps[|steps| - 1].id]
  }

  lemma {:induction false} RenamingAt(steps: seq<Step>, n: nat, createId: nat -> Id)
    requires UniqueIds(steps) && n <= |steps|
    ensures forall x :: x in Renaming(steps[..n], createId) <==> exists i: nat :: i < n && steps[i].id == x
    ensures forall i: nat :: i < n ==> Renaming(steps[..n], createId)[steps[i].id] == createId(i)
  {
    if n > 0 {
      RenamingAt(steps, n - 1, createId);
      assert steps[..n][..n - 1] == steps[..n - 1];
    }
  }

  lemma {:induction false} BackAt(steps: seq<Step>, n: nat, createId: nat -> Id)
    requires Injects(createId) && n <= |steps|
    ensures forall y :: y in Back(steps[..n], createId) <==> exists i: nat :: i < n && createId(i) == y
    ensures forall i: nat :: i < n ==> Back(steps[..n], createId)[createId(i)] == steps[i].id
  {
    if n > 0 {
      BackAt(steps, n - 1, createId);
      assert steps[..n][..n - 1] == steps[..n - 1];
    }
  }

  /** The two maps belong to the positions of the steps. */
  ghost predicate NamesSteps(steps: seq<Step>, createId: nat -> Id, f: map<Id, Id>, b: map<Id, Id>) {
    && (forall x :: x in f <==> exists i: nat :: i < |steps| && steps[i].id == x)
    && (forall y :: y in b <==> exists i: nat :: i < |steps| && createId(i) == y)
    && (forall i: nat :: i < |steps| ==> steps[i].id in f && f[steps[i].id] == createId(i))
    && (forall i: nat :: i < |steps| ==> createId(i) in b && b[createId(i)] == steps[i].id)
  }

  lemma RenamingInverts(steps: seq<Step>, createId: nat -> Id)
    requires UniqueIds(steps) && FreshIds(createId)
    ensures NamesSteps(steps, createId, Renaming(steps, createId), Back(steps, createId))
  {
    RenamingAt(steps, |steps|, createId);
    BackAt(steps, |steps|, createId);
    assert steps[..|steps|] == steps;
  }

  lemma NamesAreInverse(steps: seq<Step>, createId: nat -> Id, f: map<Id, Id>, b: map<Id, Id>)
    requires NamesSteps(steps, createId, f, b)
    ensures f.Keys == StepIds(steps)
    ensures (forall x :: x in f ==> f[x] in b && b[f[x]] == x) && (forall y :: y in b ==> b[y] in f && f[b[y]] == y)
  {
    forall x ensures x in f <==> x in StepIds(steps) {
      if x in f {
        var i: nat :| i < |steps| && steps[i].id == x;
        assert steps[i] in steps;
      }
    }
  }

  lemma CopyIsNamed(g: Graph, createId: nat -> Id, f: map<Id, Id>, b: map<Id, Id>, copy: Graph)
    requires NamesSteps(g.steps, createId, f, b) && IsCopy(g, f, createId, copy)
    ensures b.Keys == StepIds(copy.steps)
    ensures SameSteps(g.steps, copy.steps, f) && SameEdges(g.edges, copy.edges, f)
    ensures FreshIds(createId) ==> forall s :: s in copy.steps ==> ContractId(s.id)
  {
    CopiedSteps(g, createId, f, b, copy);
    CopyKeys(createId, b, copy.steps);
  }

  lemma CopiedSteps(g: Graph, createId: nat -> Id, f: map<Id, Id>, b: map<Id, Id>, copy: Graph)
    requires NamesSteps(g.steps, createId, f, b) && IsCopy(g, f, createId, copy)
    ensures forall i: nat :: i < |copy.steps| ==> copy.steps[i].id == createId(i)
    ensures SameSteps(g.steps, copy.steps, f)
  {
    forall i: nat | i < |copy.steps| ensures copy.steps[i].id == createId(i) && copy.steps[i].kind == g.steps[i].kind {
      assert copy.steps[i] == CopyPortableStep(g.steps[i]).(id := createId(i));
    }
  }

  lemma CopyKeys(createId: nat -> Id, b: map<Id, Id>, copies: seq<Step>)
    requires forall y :: y in b <==> exists i: nat :: i < |copies| && createId(i) == y
    requires forall i: nat :: i < |copies| ==> copies[i].id == createId(i)
    ensures b.Keys == StepIds(copies)
  {
    forall y | y in b ensures y in StepIds(copies) {
      var i: nat :| i < |copies| && createId(i) == y;
      assert copies[i] in copies && copies[i].id == y;
    }
    forall y | y in StepIds(copies) ensures y in b {
      var s :| s in copies && s.id == y;
      var i: nat :| i < |copies| && copies[i] == s;
      assert createId(i) == y;
    }
  }

  lemma CopyIsIsomorphic(g: Graph, createId: nat -> Id, copy: Graph)
    requires UniqueIds(g.steps) && FreshIds(createId)
    requires IsCopy(g, Renaming(g.steps, createId), createId, copy)
    ensures Isomorphic(g, copy, Renaming(g.steps, createId), Back(g.steps, createId))
    ensures forall s :: s in copy.steps ==> ContractId(s.id)
  {
    RenamingInverts(g.steps, createId);
    NamesAreInverse(g.steps, createId, Renaming(g.steps, createId), Back(g.steps, createId));
    CopyIsNamed(g, createId, Renaming(g.steps, createId), Back(g.steps, createId), copy);
  }

  /**
   * A saved pipeline can always be duplicated: no edge is left behind, the copy is accepted on saving, and it has
   * the same structural violations under its new identities.
   */
  lemma DuplicateIsAccepted(g: Graph, createId: nat -> Id, copy: Graph)
    requires SaveValid(g) && FreshIds(createId)
    ensures var f := Renaming(g.steps, createId); forall e :: e in g.edges ==> Resolves(f, e.from) && Resolves(f, e.to)
    ensures IsCopy(g, Renaming(g.steps, createId), createId, copy) ==>
              SaveValid(copy) && (StructurallyExecutable(g) <==> StructurallyExecutable(copy))
  {
    RenamingInverts(g.steps, createId);
    var f, b := Renaming(g.steps, createId), Back(g.steps, createId);
    NamesAreInverse(g.steps, createId, f, b);
    forall id | id in f ensures Resolves(f, id) {
      var i: nat :| i < |g.steps| && g.steps[i].id == id;
      assert ContractId(createId(i));
    }
    if IsCopy(g, f, createId, copy) {
      CopyIsIsomorphic(g, createId, copy);
      SavedAcross(g, copy, f, b);
      ExecutableAcross(g, copy, f, b);
    }
  }

  lemma DuplicateHasSameViolations(g: Graph, createId: nat -> Id, copy: Graph, v: Violation, v': Violation)
    requires UniqueIds(g.steps) && FreshIds(createId)
    requires IsCopy(g, Renaming(g.steps, createId), createId, copy)
    requires SameViolation(v, v', Renaming(g.steps, createId))
    ensures Reports(g, v) <==> Reports(copy, v')
  {
    var f, b := Renaming(g.steps, createId), Back(g.steps, createId);
    CopyIsIsomorphic(g, createId, copy);
    Flipped(g, copy, f, b);
    FlippedViolation(g, copy, f, b, v, v');
    if Reports(g, v) {
      ViolationAcross(g, copy, f, b, v, v');
    }
    if Reports(copy, v') {
      ViolationAcross(copy, g, b, f, v', v);
    }
  }

  /** An unsound graph stays unsound: on contract identifiers, a copy is accepted only if its original was. */
  lemma RejectedStaysRejected(g: Graph, createId: nat -> Id, copy: Graph)
    requires UniqueIds(g.steps) && FreshIds(createId)
    requires forall s :: s in g.steps ==> ContractId(s.id)
    requires IsCopy(g, Renaming(g.steps, createId), createId, copy)
    ensures SaveValid(g) <==> SaveValid(copy)
  {
    var f, b := Renaming(g.steps, createId), Back(g.steps, createId);
    CopyIsIsomorphic(g, createId, copy);
    Flipped(g, copy, f, b);
    if SaveValid(g) {
      SavedAcross(g, copy, f, b);
    }
    if SaveValid(copy) {
      SavedAcross(copy, g, b, f);
    }
  }
}
