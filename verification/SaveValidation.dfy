/** The rule every saved graph must meet (packages/database/src/pipelines/create.ts). */
module SaveValidation {
  import opened Wrappers
  import opened Graphs
  import opened Topologies

  datatype TopologyError =
    | DuplicateStep
    | MissingStep
    | SelfLoop
    | DuplicateEdge
    | WrongDirection
    | MissingSourceOrExport
    | SourceHasInput
    | ExportHasOutput
    | SourceWithoutOutput
    | TransformNotConnected
    | ExportWithoutInput
    | OffSourceToExportPath
    | HasCycle

  /** The text under which an edge is remembered. */
  function EdgeKey(e: Edge): string {
    e.from.text + ":" + e.to.text
  }

  // ---------- What a saved graph must be ----------

  ghost predicate EdgesReferToSteps(g: Graph) {
    forall e :: e in g.edges ==> e.from in StepIds(g.steps) && e.to in StepIds(g.steps)
  }

  ghost predicate NoSelfLoops(g: Graph) {
    forall e :: e in g.edges ==> e.from != e.to
  }

  ghost predicate UniqueEdgeKeys(edges: seq<Edge>) {
    forall i, j :: 0 <= i < j < |edges| ==> EdgeKey(edges[i]) != EdgeKey(edges[j])
  }

  ghost predicate FlowsForward(g: Graph) {
    forall e, s :: e in g.edges && s in g.steps ==>
      (s.id == e.from ==> !s.kind.Export?) && (s.id == e.to ==> !s.kind.Source?)
  }

  ghost predicate HasKind(g: Graph, kind: Kind) {
    exists s :: s in g.steps && s.kind == kind
  }

  ghost predicate OnSourceToExportPath(g: Graph, id: Id) {
    && (exists a :: a in g.steps && a.kind.Source? && Reaches(EdgeSet(g.edges), a.id, id))
    && (exists b :: b in g.steps && b.kind.Export? && Reaches(EdgeSet(g.edges), id, b.id))
  }

  ghost predicate EveryStepOnPath(g: Graph) {
    forall s {:trigger OnSourceToExportPath(g, s.id)} :: s in g.steps ==> !s.id.Empty() && OnSourceToExportPath(g, s.id)
  }

  ghost predicate SaveValid(g: Graph) {
    && UniqueIds(g.steps)
    && EdgesReferToSteps(g)
    && NoSelfLoops(g)
    && UniqueEdgeKeys(g.edges)
    && FlowsForward(g)
    && HasKind(g, Source)
    && HasKind(g, Export)
    && EveryStepOnPath(g)
    && Acyclic(EdgeSet(g.edges))
  }

  /** What each rejection says about the graph. */
  ghost predicate Explains(g: Graph, error: TopologyError) {
    match error
    case DuplicateStep => !UniqueIds(g.steps)
    case MissingStep => !EdgesReferToSteps(g)
    case SelfLoop => !NoSelfLoops(g)
    case DuplicateEdge => !UniqueEdgeKeys(g.edges)
    case WrongDirection => !FlowsForward(g)
    case MissingSourceOrExport => !HasKind(g, Source) || !HasKind(g, Export)
    case SourceHasInput => false
    case ExportHasOutput => false
    case SourceWithoutOutput => exists s :: s in g.steps && s.kind.Source? && EdgesFrom(g.edges, s.id) == []
    case TransformNotConnected =>
      exists s :: s in g.steps && s.kind.Transform? && (EdgesFrom(g.edges, s.id) == [] || EdgesTo(g.edges, s.id) == [])
    case ExportWithoutInput => exists s :: s in g.steps && s.kind.Export? && EdgesTo(g.edges, s.id) == []
    case OffSourceToExportPath => !EveryStepOnPath(g)
    case HasCycle => !Acyclic(EdgeSet(g.edges))
  }

  // ---------- Worklist ----------

  /** The end of an edge that is not the given one. */
  function OtherEnd(e: Edge, id: Id): Id {
    if e.from == id then e.to else e.from
  }

  function Arcs(index: EdgeIndex): set<Edge> {
    set v, e | v in index && e in index[v] :: Edge(v, OtherEnd(e, v))
  }

  /** The empty identifier counts as absent, so no walk passes through it. */
  function NonEmptyArcs(arcs: set<Edge>): set<Edge> {
    set a | a in arcs && !a.from.Empty() && !a.to.Empty()
  }

  ghost predicate ReachedFrom(arcs: set<Edge>, initial: seq<Id>, v: Id) {
    exists i :: 0 <= i < |initial| && !initial[i].Empty() && Reaches(NonEmptyArcs(arcs), initial[i], v)
  }

  function OtherEnds(edges: seq<Edge>, id: Id): seq<Id> {
    seq(|edges|, k requires 0 <= k < |edges| => OtherEnd(edges[k], id))
  }

  ghost function Universe(initial: seq<Id>, index: EdgeIndex): set<Id> {
    (set v | v in initial) + (set a | a in Arcs(index) :: a.to)
  }

  method PushOtherEnds(pending: seq<Id>, edges: seq<Edge>, id: Id) returns (pending': seq<Id>)
    ensures pending' == pending + OtherEnds(edges, id)
  {
    pending' := pending;
    for k := 0 to |edges|
      invariant pending' == pending + OtherEnds(edges[..k], id)
    {
      pending' := pending' + [OtherEnd(edges[k], id)];
    }
    assert edges[..|edges|] == edges;
  }

  method VisitGraph(initial: seq<Id>, index: EdgeIndex) returns (visited: set<Id>)
    ensures forall v :: v in visited <==> ReachedFrom(Arcs(index), initial, v)
  {
    visited := {};
    var pending := initial;
    ghost var unvisited := Universe(initial, index);
    WorklistStarts(index, initial);
    while pending != []
      invariant WorklistState(index, initial, visited, pending)
      invariant unvisited == Universe(initial, index) - visited
      decreases unvisited, |pending|
    {
      var stepId := pending[|pending| - 1];
      var rest := pending[..|pending| - 1];
      assert pending == rest + [stepId];
      if stepId.Empty() || stepId in visited {
        Skipped(index, initial, visited, rest, stepId);
        pending := rest;
      } else {
        Expanded(index, initial, visited, rest, stepId);
        pending := PushOtherEnds(rest, At(index, stepId), stepId);
        visited := visited + {stepId};
        unvisited := Universe(initial, index) - visited;
      }
    }
    WorklistDone(index, initial, visited);
  }

  ghost predicate WorklistState(index: EdgeIndex, initial: seq<Id>, visited: set<Id>, pending: seq<Id>) {
    && (forall v :: v in visited ==> !v.Empty())
    && visited <= Universe(initial, index)
    && (forall v :: v in visited ==> ReachedFrom(Arcs(index), initial, v))
    && (forall v :: v in pending ==> v in Universe(initial, index) && (!v.Empty() ==> ReachedFrom(Arcs(index), initial, v)))
    && (forall v :: v in initial && !v.Empty() ==> v in visited || v in pending)
    && (forall a :: a in NonEmptyArcs(Arcs(index)) && a.from in visited ==> a.to in visited || a.to in pending)
  }

  lemma WorklistStarts(index: EdgeIndex, initial: seq<Id>)
    ensures WorklistState(index, initial, {}, initial)
  {
    forall v | v in initial && !v.Empty() ensures ReachedFrom(Arcs(index), initial, v) {
      ReachesSelf(NonEmptyArcs(Arcs(index)), v);
    }
  }

  lemma Skipped(index: EdgeIndex, initial: seq<Id>, visited: set<Id>, rest: seq<Id>, id: Id)
    requires WorklistState(index, initial, visited, rest + [id]) && (id.Empty() || id in visited)
    ensures WorklistState(index, initial, visited, rest)
  {
    assert forall v :: v in rest + [id] <==> v in rest || v == id;
  }

  lemma WorklistDone(index: EdgeIndex, initial: seq<Id>, visited: set<Id>)
    requires WorklistState(index, initial, visited, [])
    ensures forall v :: v in visited <==> ReachedFrom(Arcs(index), initial, v)
  {
    forall v | ReachedFrom(Arcs(index), initial, v) ensures v in visited {
      var i :| 0 <= i < |initial| && !initial[i].Empty() && Reaches(NonEmptyArcs(Arcs(index)), initial[i], v);
      ClosedKeepsReach(NonEmptyArcs(Arcs(index)), visited, initial[i], v);
    }
  }

  lemma OtherEndsAreTargets(index: EdgeIndex, id: Id)
    ensures forall v :: v in OtherEnds(At(index, id), id) <==> Edge(id, v) in Arcs(index)
  {
    forall v | v in OtherEnds(At(index, id), id) ensures Edge(id, v) in Arcs(index) {
      var k :| 0 <= k < |At(index, id)| && v == OtherEnd(At(index, id)[k], id);
      assert id in index && At(index, id)[k] in index[id];
    }
    forall v | Edge(id, v) in Arcs(index) ensures v in OtherEnds(At(index, id), id) {
      var e :| id in index && e in index[id] && v == OtherEnd(e, id);
      var k :| 0 <= k < |index[id]| && index[id][k] == e;
      assert OtherEnds(At(index, id), id)[k] == v;
    }
  }

  /** Visiting one step and pushing its neighbours keeps the worklist's meaning and grows the visited set. */
  lemma Expanded(index: EdgeIndex, initial: seq<Id>, visited: set<Id>, rest: seq<Id>, id: Id)
    requires !id.Empty() && id !in visited
    requires WorklistState(index, initial, visited, rest + [id])
    ensures WorklistState(index, initial, visited + {id}, rest + OtherEnds(At(index, id), id))
    ensures Universe(initial, index) - (visited + {id}) < Universe(initial, index) - visited
  {
    OtherEndsAreTargets(index, id);
    assert (rest + [id])[|rest|] == id;
    assert forall v :: v in rest + [id] <==> v in rest || v == id;
    var pushed := OtherEnds(At(index, id), id);
    assert forall v :: v in rest + pushed <==> v in rest || v in pushed;
    forall v | v in pushed
      ensures v in Universe(initial, index) && (!v.Empty() ==> ReachedFrom(Arcs(index), initial, v))
    {
      assert Edge(id, v) in Arcs(index);
      if !v.Empty() {
        ReachedByArc(Arcs(index), initial, id, v);
      }
    }
    forall a | a in NonEmptyArcs(Arcs(index)) && a.from == id ensures a.to in pushed {
      assert a == Edge(id, a.to);
    }
    assert id in Universe(initial, index) - visited && id !in Universe(initial, index) - (visited + {id});
  }

  lemma ReachedByArc(arcs: set<Edge>, initial: seq<Id>, a: Id, b: Id)
    requires ReachedFrom(arcs, initial, a) && Edge(a, b) in arcs && !a.Empty() && !b.Empty()
    ensures ReachedFrom(arcs, initial, b)
  {
    var i :| 0 <= i < |initial| && !initial[i].Empty() && Reaches(NonEmptyArcs(arcs), initial[i], a);
    ArcReaches(NonEmptyArcs(arcs), a, b);
    ReachesTransitive(NonEmptyArcs(arcs), initial[i], a, b);
  }

  // ---------- Depth-first search ----------

  ghost predicate NoCycleThrough(arcs: set<Edge>, nodes: set<Id>) {
    forall v :: v in nodes ==> !ReachesPlus(arcs, v, v)
  }

  /** The state of the search: finished steps are closed and cycle-free, open ones lead to the current step. */
  ghost predicate SearchState(arcs: set<Edge>, visiting: set<Id>, visited: set<Id>) {
    && Closed(arcs, visited)
    && NoCycleThrough(arcs, visited)
    && visiting !! visited
  }

  lemma CycleFurtherAhead(arcs: set<Edge>, a: Id, b: Id)
    requires Edge(a, b) in arcs && CycleAhead(arcs, b)
    ensures CycleAhead(arcs, a)
  {
    var v :| Reaches(arcs, b, v) && ReachesPlus(arcs, v, v);
    ArcReaches(arcs, a, b);
    ReachesTransitive(arcs, a, b, v);
  }

  lemma OpenStepsLead(arcs: set<Edge>, visiting: set<Id>, stepId: Id, next: Id)
    requires (forall v :: v in visiting ==> ReachesPlus(arcs, v, stepId)) && Edge(stepId, next) in arcs
    ensures forall v :: v in visiting + {stepId} ==> ReachesPlus(arcs, v, next)
  {
    forall v | v in visiting + {stepId} ensures ReachesPlus(arcs, v, next) {
      if v == stepId {
        ReachesSelf(arcs, next);
      } else {
        ArcReaches(arcs, stepId, next);
        PlusThenReaches(arcs, v, stepId, next);
      }
    }
  }

  method AssertNoCycle(stepId: Id, outgoing: EdgeIndex, visiting: set<Id>, visited: set<Id>,
                       ghost arcs: set<Edge>, ghost universe: set<Id>)
    returns (ok: bool, visiting': set<Id>, visited': set<Id>)
    requires forall v, w :: Edge(v, w) in arcs <==> exists e :: e in At(outgoing, v) && e.to == w
    requires forall a :: a in arcs ==> a.to in universe
    requires stepId in universe && visiting <= universe
    requires SearchState(arcs, visiting, visited)
    requires forall v :: v in visiting ==> ReachesPlus(arcs, v, stepId)
    ensures ok ==> visiting' == visiting && visited <= visited' && stepId in visited'
    ensures ok ==> SearchState(arcs, visiting', visited')
    ensures !ok ==> CycleAhead(arcs, stepId)
    decreases universe - visiting
  {
    if stepId in visiting {
      assert ReachesPlus(arcs, stepId, stepId);
      ReachesSelf(arcs, stepId);
      return false, visiting, visited;
    }
    if stepId in visited {
      return true, visiting, visited;
    }
    visiting', visited' := visiting + {stepId}, visited;
    assert universe - visiting' < universe - visiting by {
      assert stepId in universe - visiting && stepId !in universe - visiting';
    }
    var edges := At(outgoing, stepId);
    for k := 0 to |edges|
      invariant visiting' == visiting + {stepId} && visited <= visited'
      invariant SearchState(arcs, visiting', visited')
      invariant forall n :: 0 <= n < k ==> edges[n].to in visited'
    {
      var next := edges[k].to;
      assert Edge(stepId, next) in arcs;
      OpenStepsLead(arcs, visiting, stepId, next);
      ok, visiting', visited' := AssertNoCycle(next, outgoing, visiting', visited', arcs, universe);
      if !ok {
        CycleFurtherAhead(arcs, stepId, next);
        return;
      }
    }
    FinishedStep(arcs, stepId, visited');
    visiting' := visiting' - {stepId};
    assert visiting' == visiting;
    visited' := visited' + {stepId};
    ok := true;
  }

  /** A step whose successors are all finished is on no cycle. */
  lemma FinishedStep(arcs: set<Edge>, stepId: Id, visited: set<Id>)
    requires Closed(arcs, visited) && NoCycleThrough(arcs, visited) && stepId !in visited
    requires forall e :: e in arcs && e.from == stepId ==> e.to in visited
    ensures Closed(arcs, visited + {stepId}) && NoCycleThrough(arcs, visited + {stepId})
  {
    if ReachesPlus(arcs, stepId, stepId) {
      var m :| Edge(stepId, m) in arcs && Reaches(arcs, m, stepId);
      ClosedKeepsReach(arcs, visited, m, stepId);
    }
  }

  // ---------- The whole check ----------

  function SourceIds(edges: seq<Edge>): set<Id> {
    set e | e in edges :: e.from
  }

  function TargetIds(edges: seq<Edge>): set<Id> {
    set e | e in edges :: e.to
  }

  method CheckStepIds(steps: seq<Step>) returns (unique: bool)
    ensures unique <==> UniqueIds(steps)
  {
    var stepIds: set<Id> := {};
    for i := 0 to |steps|
      invariant UniqueIds(steps[..i])
      invariant stepIds == StepIds(steps[..i])
    {
      assert steps[..i + 1] == steps[..i] + [steps[i]];
      if steps[i].id in stepIds {
        var s :| s in steps[..i] && s.id == steps[i].id;
        var j :| 0 <= j < i && steps[j] == s;
        return false;
      }
      stepIds := stepIds + {steps[i].id};
      assert StepIds(steps[..i + 1]) == stepIds by {
        forall s | s in steps[..i] ensures s in steps[..i + 1] {}
        assert steps[..i + 1][i] == steps[i];
      }
    }
    assert steps[..|steps|] == steps;
    unique := true;
  }

  ghost predicate EdgesAccepted(g: Graph, edges: seq<Edge>) {
    && EdgesReferToSteps(Graph(g.steps, edges))
    && NoSelfLoops(Graph(g.steps, edges))
    && UniqueEdgeKeys(edges)
    && FlowsForward(Graph(g.steps, edges))
  }

  lemma OneMoreEdge(g: Graph, t: Topology, edges: seq<Edge>, e: Edge)
    requires UniqueIds(g.steps) && IndexesSteps(t.stepsById, g.steps) && EdgesAccepted(g, edges)
    requires e.from in t.stepsById && e.to in t.stepsById && e.from != e.to
    requires forall x :: x in edges ==> EdgeKey(x) != EdgeKey(e)
    requires !t.stepsById[e.from].kind.Export? && !t.stepsById[e.to].kind.Source?
    ensures EdgesAccepted(g, edges + [e])
  {
    var longer := edges + [e];
    assert forall x :: x in longer <==> x in edges || x == e;
    forall i, j | 0 <= i < j < |longer| ensures EdgeKey(longer[i]) != EdgeKey(longer[j]) {
      assert longer[i] in edges;
    }
    forall x, s | x in longer && s in g.steps
      ensures (s.id == x.from ==> !s.kind.Export?) && (s.id == x.to ==> !s.kind.Source?)
    {
      var i :| 0 <= i < |g.steps| && g.steps[i] == s;
      assert t.stepsById[g.steps[i].id] == g.steps[i];
    }
  }

  lemma OneMoreEnd(edges: seq<Edge>, e: Edge)
    ensures SourceIds(edges + [e]) == SourceIds(edges) + {e.from}
    ensures TargetIds(edges + [e]) == TargetIds(edges) + {e.to}
  {
    assert forall x :: x in edges + [e] <==> x in edges || x == e;
  }

  lemma WrongWay(g: Graph, t: Topology, e: Edge)
    requires UniqueIds(g.steps) && IndexesSteps(t.stepsById, g.steps) && e in g.edges
    requires e.from in t.stepsById && e.to in t.stepsById
    requires t.stepsById[e.from].kind.Export? || t.stepsById[e.to].kind.Source?
    ensures !FlowsForward(g)
  {
    var id := if t.stepsById[e.from].kind.Export? then e.from else e.to;
    var s :| s in g.steps && s.id == id;
    var i :| 0 <= i < |g.steps| && g.steps[i] == s;
    assert t.stepsById[g.steps[i].id] == g.steps[i];
  }

  ghost predicate IsKeySet(keys: set<string>, edges: seq<Edge>) {
    forall k :: k in keys <==> exists j :: 0 <= j < |edges| && EdgeKey(edges[j]) == k
  }

  /** The rules for the edge at position i, given the keys of the edges before it. */
  method CheckEdge(g: Graph, t: Topology, i: nat, edgeKeys: set<string>)
    returns (error: Option<TopologyError>, edgeKeys': set<string>)
    requires UniqueIds(g.steps) && IndexesSteps(t.stepsById, g.steps)
    requires i < |g.edges| && EdgesAccepted(g, g.edges[..i]) && IsKeySet(edgeKeys, g.edges[..i])
    ensures error.Some? ==> Explains(g, error.value) && !EdgesAccepted(g, g.edges)
    ensures error.None? ==> EdgesAccepted(g, g.edges[..i + 1]) && IsKeySet(edgeKeys', g.edges[..i + 1])
  {
    var edge := g.edges[i];
    edgeKeys' := edgeKeys;
    if edge.from !in t.stepsById || edge.to !in t.stepsById {
      return Some(MissingStep), edgeKeys';
    }
    if edge.from == edge.to {
      return Some(SelfLoop), edgeKeys';
    }
    if EdgeKey(edge) in edgeKeys {
      return Some(DuplicateEdge), edgeKeys';
    }
    edgeKeys' := edgeKeys + {EdgeKey(edge)};
    if t.stepsById[edge.from].kind.Export? || t.stepsById[edge.to].kind.Source? {
      WrongWay(g, t, edge);
      return Some(WrongDirection), edgeKeys';
    }
    OneMoreEdge(g, t, g.edges[..i], edge);
    TakeOneMore(g.edges, i);
    error := None;
  }

  method CheckEdges(g: Graph, t: Topology)
    returns (error: Option<TopologyError>, incoming: set<Id>, outgoing: set<Id>)
    requires UniqueIds(g.steps) && IndexesSteps(t.stepsById, g.steps)
    ensures error.Some? ==> Explains(g, error.value) && !EdgesAccepted(g, g.edges)
    ensures error.None? ==> EdgesAccepted(g, g.edges)
    ensures error.None? ==> incoming == TargetIds(g.edges) && outgoing == SourceIds(g.edges)
  {
    incoming, outgoing := {}, {};
    var edgeKeys: set<string> := {};
    for i := 0 to |g.edges|
      invariant EdgesAccepted(g, g.edges[..i]) && IsKeySet(edgeKeys, g.edges[..i])
      invariant incoming == TargetIds(g.edges[..i]) && outgoing == SourceIds(g.edges[..i])
    {
      error, edgeKeys := CheckEdge(g, t, i, edgeKeys);
      if error.Some? {
        return;
      }
      OneMoreEnd(g.edges[..i], g.edges[i]);
      TakeOneMore(g.edges, i);
      incoming := incoming + {g.edges[i].to};
      outgoing := outgoing + {g.edges[i].from};
    }
    assert g.edges[..|g.edges|] == g.edges;
    error := None;
  }

  ghost predicate DegreeAccepted(g: Graph, s: Step) {
    && (s.kind.Source? ==> s.id in SourceIds(g.edges))
    && (s.kind.Transform? ==> s.id in TargetIds(g.edges) && s.id in SourceIds(g.edges))
    && (s.kind.Export? ==> s.id in TargetIds(g.edges))
  }

  ghost predicate DegreesAccepted(g: Graph) {
    forall i :: 0 <= i < |g.steps| ==> DegreeAccepted(g, g.steps[i])
  }

  lemma NoEdges(edges: seq<Edge>, id: Id)
    ensures id !in SourceIds(edges) <==> EdgesFrom(edges, id) == []
    ensures id !in TargetIds(edges) <==> EdgesTo(edges, id) == []
  {
    EdgesFromMembers(edges, id);
    EdgesToMembers(edges, id);
    if EdgesFrom(edges, id) != [] { assert EdgesFrom(edges, id)[0] in edges; }
    if EdgesTo(edges, id) != [] { assert EdgesTo(edges, id)[0] in edges; }
  }

  method AnyIdIn(steps: seq<Step>, ids: set<Id>) returns (found: bool)
    ensures found <==> exists i :: 0 <= i < |steps| && steps[i].id in ids
  {
    for i := 0 to |steps|
      invariant forall j :: 0 <= j < i ==> steps[j].id !in ids
    {
      if steps[i].id in ids {
        return true;
      }
    }
    found := false;
  }

  /** Once the edges are accepted, no Source has input and no Export has output. */
  lemma NoEndOfKind(g: Graph)
    requires EdgesAccepted(g, g.edges)
    ensures forall i :: 0 <= i < |StepsOfKind(g.steps, Source)| ==>
              StepsOfKind(g.steps, Source)[i].id !in TargetIds(g.edges)
    ensures forall i :: 0 <= i < |StepsOfKind(g.steps, Export)| ==>
              StepsOfKind(g.steps, Export)[i].id !in SourceIds(g.edges)
  {
    StepsOfKindMembers(g.steps, Source);
    StepsOfKindMembers(g.steps, Export);
    forall i | 0 <= i < |StepsOfKind(g.steps, Source)|
      ensures StepsOfKind(g.steps, Source)[i].id !in TargetIds(g.edges)
    {
      assert StepsOfKind(g.steps, Source)[i] in g.steps;
    }
    forall i | 0 <= i < |StepsOfKind(g.steps, Export)|
      ensures StepsOfKind(g.steps, Export)[i].id !in SourceIds(g.edges)
    {
      assert StepsOfKind(g.steps, Export)[i] in g.steps;
    }
  }

  /** The two direction checks made after the edges: neither can fail any more. */
  method CheckEnds(g: Graph, sources: seq<Step>, exports: seq<Step>, incoming: set<Id>, outgoing: set<Id>)
    returns (error: Option<TopologyError>)
    requires EdgesAccepted(g, g.edges)
    requires sources == StepsOfKind(g.steps, Source) && exports == StepsOfKind(g.steps, Export)
    requires incoming == TargetIds(g.edges) && outgoing == SourceIds(g.edges)
    ensures error.None?
  {
    NoEndOfKind(g);
    var sourceHasInput := AnyIdIn(sources, incoming);
    if sourceHasInput {
      return Some(SourceHasInput);
    }
    var exportHasOutput := AnyIdIn(exports, outgoing);
    if exportHasOutput {
      return Some(ExportHasOutput);
    }
    error := None;
  }

  method CheckDegrees(g: Graph, incoming: set<Id>, outgoing: set<Id>) returns (error: Option<TopologyError>)
    requires incoming == TargetIds(g.edges) && outgoing == SourceIds(g.edges)
    ensures error.Some? ==> Explains(g, error.value) && !DegreesAccepted(g)
    ensures error.None? ==> DegreesAccepted(g)
  {
    for i := 0 to |g.steps|
      invariant forall j :: 0 <= j < i ==> DegreeAccepted(g, g.steps[j])
    {
      error := CheckDegree(g, i, incoming, outgoing);
      if error.Some? {
        return;
      }
    }
    error := None;
  }

  method CheckDegree(g: Graph, i: nat, incoming: set<Id>, outgoing: set<Id>) returns (error: Option<TopologyError>)
    requires i < |g.steps| && incoming == TargetIds(g.edges) && outgoing == SourceIds(g.edges)
    ensures error.Some? ==> Explains(g, error.value)
    ensures error.None? <==> DegreeAccepted(g, g.steps[i])
  {
    var step := g.steps[i];
    NoEdges(g.edges, step.id);
    if step.kind.Source? && step.id !in outgoing {
      return Some(SourceWithoutOutput);
    }
    if step.kind.Transform? && (step.id !in incoming || step.id !in outgoing) {
      return Some(TransformNotConnected);
    }
    if step.kind.Export? && step.id !in incoming {
      return Some(ExportWithoutInput);
    }
    error := None;
  }

  lemma OutgoingArcs(g: Graph, t: Topology)
    requires IndexesEdges(t, g.edges)
    ensures Arcs(t.outgoing) == EdgeSet(g.edges)
  {
    forall e | e in EdgeSet(g.edges) ensures e in Arcs(t.outgoing) {
      EdgesFromMembers(g.edges, e.from);
      assert e in At(t.outgoing, e.from);
    }
    forall a | a in Arcs(t.outgoing) ensures a in EdgeSet(g.edges) {
      var v, e :| v in t.outgoing && e in t.outgoing[v] && a == Edge(v, OtherEnd(e, v));
      assert e in At(t.outgoing, v);
      EdgesFromMembers(g.edges, v);
    }
  }

  lemma IncomingArcs(g: Graph, t: Topology)
    requires IndexesEdges(t, g.edges)
    ensures Arcs(t.incoming) == Reversed(EdgeSet(g.edges))
  {
    forall a | a in Reversed(EdgeSet(g.edges)) ensures a in Arcs(t.incoming) {
      var e := Edge(a.to, a.from);
      EdgesToMembers(g.edges, e.to);
      assert e in At(t.incoming, e.to);
      assert a == Edge(e.to, OtherEnd(e, e.to));
    }
    forall a | a in Arcs(t.incoming) ensures a in Reversed(EdgeSet(g.edges)) {
      var v, e :| v in t.incoming && e in t.incoming[v] && a == Edge(v, OtherEnd(e, v));
      assert e in At(t.incoming, v);
      EdgesToMembers(g.edges, v);
      assert e in EdgeSet(g.edges);
    }
  }

  /** With every edge between non-empty steps, skipping the empty identifier changes nothing. */
  lemma NonEmptyEdges(g: Graph)
    requires EdgesReferToSteps(g) && (forall s :: s in g.steps ==> !s.id.Empty())
    ensures NonEmptyArcs(EdgeSet(g.edges)) == EdgeSet(g.edges)
    ensures NonEmptyArcs(Reversed(EdgeSet(g.edges))) == Reversed(EdgeSet(g.edges))
  {
  }

  /** Both walks reach a step exactly when it is on a Source-to-Export path. */
  lemma WalksDecidePaths(g: Graph, id: Id, forward: bool, backward: bool)
    requires EdgesReferToSteps(g) && forall s :: s in g.steps ==> !s.id.Empty()
    requires forward <==> ReachedFrom(EdgeSet(g.edges), IdsOf(StepsOfKind(g.steps, Source)), id)
    requires backward <==> ReachedFrom(Reversed(EdgeSet(g.edges)), IdsOf(StepsOfKind(g.steps, Export)), id)
    ensures forward && backward <==> OnSourceToExportPath(g, id)
  {
    NonEmptyEdges(g);
    WalkFromKind(g.steps, EdgeSet(g.edges), Source, id);
    WalkFromKind(g.steps, Reversed(EdgeSet(g.edges)), Export, id);
    forall b: Step ensures Reaches(EdgeSet(g.edges), id, b.id) <==> Reaches(Reversed(EdgeSet(g.edges)), b.id, id) {
      ReversedReach(EdgeSet(g.edges), id, b.id);
    }
  }

  /** Where no identifier is empty, a walk from the steps of a kind arrives where a path from one of them leads. */
  lemma WalkFromKind(steps: seq<Step>, arcs: set<Edge>, kind: Kind, id: Id)
    requires NonEmptyArcs(arcs) == arcs && forall s :: s in steps ==> !s.id.Empty()
    ensures ReachedFrom(arcs, IdsOf(StepsOfKind(steps, kind)), id)
       <==> exists a :: a in steps && a.kind == kind && Reaches(arcs, a.id, id)
  {
    var ends := StepsOfKind(steps, kind);
    StepsOfKindMembers(steps, kind);
    if ReachedFrom(arcs, IdsOf(ends), id) {
      var i :| 0 <= i < |ends| && Reaches(arcs, IdsOf(ends)[i], id);
      assert ends[i] in steps && ends[i].kind == kind;
    }
    if a :| a in steps && a.kind == kind && Reaches(arcs, a.id, id) {
      var i :| 0 <= i < |ends| && ends[i] == a;
      assert IdsOf(ends)[i] == a.id;
    }
  }

  /** A walk never arrives at an empty identifier. */
  lemma ReachedIsNonEmpty(arcs: set<Edge>, initial: seq<Id>, v: Id)
    requires ReachedFrom(arcs, initial, v)
    ensures !v.Empty()
  {
    var i :| 0 <= i < |initial| && !initial[i].Empty() && Reaches(NonEmptyArcs(arcs), initial[i], v);
    var p :| PathBetween(NonEmptyArcs(arcs), p, initial[i], v);
    if |p| > 1 {
      assert Edge(p[|p| - 2], p[|p| - 2 + 1]) in NonEmptyArcs(arcs);
    }
  }

  /** The two reached sets hold every step exactly when every step lies on a Source-to-Export path. */
  lemma CoverageIsPaths(g: Graph, fromSources: set<Id>, toExports: set<Id>)
    requires EdgesReferToSteps(g)
    requires forall v :: v in fromSources <==> ReachedFrom(EdgeSet(g.edges), IdsOf(StepsOfKind(g.steps, Source)), v)
    requires forall v :: v in toExports <==>
               ReachedFrom(Reversed(EdgeSet(g.edges)), IdsOf(StepsOfKind(g.steps, Export)), v)
    ensures (forall s :: s in g.steps ==> s.id in fromSources && s.id in toExports) <==> EveryStepOnPath(g)
  {
    if forall s :: s in g.steps ==> !s.id.Empty() {
      forall s | s in g.steps ensures s.id in fromSources && s.id in toExports <==> OnSourceToExportPath(g, s.id) {
        WalksDecidePaths(g, s.id, s.id in fromSources, s.id in toExports);
      }
    } else {
      var s :| s in g.steps && s.id.Empty();
      if s.id in fromSources {
        ReachedIsNonEmpty(EdgeSet(g.edges), IdsOf(StepsOfKind(g.steps, Source)), s.id);
      }
      assert OnSourceToExportPath(g, s.id) || !OnSourceToExportPath(g, s.id);
    }
  }

  lemma StepIdsWithin(steps: seq<Step>, ids: set<Id>)
    ensures StepIds(steps) <= ids <==> forall s :: s in steps ==> s.id in ids
  {
    forall s | s in steps && StepIds(steps) <= ids ensures s.id in ids {
      assert s.id in StepIds(steps);
    }
  }

  method AssertGraphConnects(g: Graph, t: Topology, sourceIds: seq<Id>, exportIds: seq<Id>)
    returns (error: Option<TopologyError>)
    requires IndexesSteps(t.stepsById, g.steps) && IndexesEdges(t, g.edges) && EdgesReferToSteps(g)
    requires sourceIds == IdsOf(StepsOfKind(g.steps, Source)) && exportIds == IdsOf(StepsOfKind(g.steps, Export))
    ensures error.Some? ==> Explains(g, error.value)
    ensures error.None? <==> EveryStepOnPath(g) && Acyclic(EdgeSet(g.edges))
  {
    OutgoingArcs(g, t);
    IncomingArcs(g, t);
    var fromSources := VisitGraph(sourceIds, t.outgoing);
    var toExports := VisitGraph(exportIds, t.incoming);
    CoverageIsPaths(g, fromSources, toExports);
    StepIdsWithin(g.steps, fromSources);
    StepIdsWithin(g.steps, toExports);
    if !(t.stepsById.Keys <= fromSources && t.stepsById.Keys <= toExports) {
      return Some(OffSourceToExportPath);
    }
    var acyclic := SearchFromSources(g, t, sourceIds);
    error := if acyclic then None else Some(HasCycle);
  }

  lemma OutgoingEnumeratesArcs(g: Graph, t: Topology)
    requires IndexesEdges(t, g.edges)
    ensures forall v, w :: Edge(v, w) in EdgeSet(g.edges) <==> exists e :: e in At(t.outgoing, v) && e.to == w
  {
    forall v, w ensures Edge(v, w) in EdgeSet(g.edges) <==> exists e :: e in At(t.outgoing, v) && e.to == w {
      EdgesFromMembers(g.edges, v);
      if Edge(v, w) in EdgeSet(g.edges) {
        assert Edge(v, w) in At(t.outgoing, v);
      }
    }
  }

  /** Searching from the Sources alone decides acyclicity of the whole graph once every step is on a path. */
  method SearchFromSources(g: Graph, t: Topology, sourceIds: seq<Id>) returns (acyclic: bool)
    requires IndexesEdges(t, g.edges) && EdgesReferToSteps(g) && EveryStepOnPath(g)
    requires sourceIds == IdsOf(StepsOfKind(g.steps, Source))
    ensures acyclic <==> Acyclic(EdgeSet(g.edges))
  {
    ghost var arcs := EdgeSet(g.edges);
    OutgoingEnumeratesArcs(g, t);
    StepsOfKindMembers(g.steps, Source);
    var visiting: set<Id>, visited: set<Id> := {}, {};
    for i := 0 to |sourceIds|
      invariant visiting == {} && SearchState(arcs, visiting, visited)
      invariant forall j :: 0 <= j < i ==> sourceIds[j] in visited
    {
      assert StepsOfKind(g.steps, Source)[i] in g.steps;
      acyclic, visiting, visited :=
        AssertNoCycle(sourceIds[i], t.outgoing, visiting, visited, arcs, StepIds(g.steps));
      if !acyclic {
        return;
      }
    }
    AllFinished(g, visited);
    acyclic := true;
  }

  lemma AllFinished(g: Graph, visited: set<Id>)
    requires EdgesReferToSteps(g) && EveryStepOnPath(g) && SearchState(EdgeSet(g.edges), {}, visited)
    requires forall j :: 0 <= j < |StepsOfKind(g.steps, Source)| ==> StepsOfKind(g.steps, Source)[j].id in visited
    ensures Acyclic(EdgeSet(g.edges))
  {
    StepsOfKindMembers(g.steps, Source);
    forall v ensures !ReachesPlus(EdgeSet(g.edges), v, v) {
      if ReachesPlus(EdgeSet(g.edges), v, v) {
        var m :| Edge(v, m) in EdgeSet(g.edges) && Reaches(EdgeSet(g.edges), m, v);
        var s :| s in g.steps && s.id == v;
        assert OnSourceToExportPath(g, s.id);
        var a :| a in g.steps && a.kind.Source? && Reaches(EdgeSet(g.edges), a.id, v);
        var j :| 0 <= j < |StepsOfKind(g.steps, Source)| && StepsOfKind(g.steps, Source)[j] == a;
        ClosedKeepsReach(EdgeSet(g.edges), visited, a.id, v);
      }
    }
  }

  /** The degree rules are implied by the path rule, so they reject nothing that the path rule accepts. */
  lemma DegreesFollow(g: Graph)
    requires UniqueIds(g.steps) && EdgesAccepted(g, g.edges) && EveryStepOnPath(g)
    ensures DegreesAccepted(g)
  {
    forall i | 0 <= i < |g.steps| ensures DegreeAccepted(g, g.steps[i]) {
      DegreeFollows(g, g.steps[i]);
    }
  }

  lemma DegreeFollows(g: Graph, s: Step)
    requires UniqueIds(g.steps) && EdgesAccepted(g, g.edges) && EveryStepOnPath(g) && s in g.steps
    ensures DegreeAccepted(g, s)
  {
    assert OnSourceToExportPath(g, s.id);
    if !s.kind.Export? {
      var b :| b in g.steps && b.kind.Export? && Reaches(EdgeSet(g.edges), s.id, b.id);
      var p :| PathBetween(EdgeSet(g.edges), p, s.id, b.id);
      assert |p| > 1 by { SameIdSameStep(g.steps, s, b); }
      assert Edge(p[0], p[0 + 1]) in g.edges;
    }
    if !s.kind.Source? {
      var a :| a in g.steps && a.kind.Source? && Reaches(EdgeSet(g.edges), a.id, s.id);
      var p :| PathBetween(EdgeSet(g.edges), p, a.id, s.id);
      assert |p| > 1 by { SameIdSameStep(g.steps, s, a); }
      assert Edge(p[|p| - 2], p[|p| - 2 + 1]) in g.edges;
    }
  }

  lemma SameIdSameStep(steps: seq<Step>, s: Step, t: Step)
    requires UniqueIds(steps) && s in steps && t in steps
    ensures s.id == t.id ==> s == t
  {
    var i :| 0 <= i < |steps| && steps[i] == s;
    var j :| 0 <= j < |steps| && steps[j] == t;
  }

  /** Accepts exactly the graphs described by SaveValid, and every rejection names a rule that is broken. */
  method ValidatePipelineGraph(g: Graph) returns (error: Option<TopologyError>)
    ensures error.None? <==> SaveValid(g)
    ensures error.Some? ==> Explains(g, error.value)
  {
    var t := BuildPipelineTopology(g);
    var unique := CheckStepIds(g.steps);
    if !unique {
      return Some(DuplicateStep);
    }
    var incoming, outgoing;
    error, incoming, outgoing := CheckEdges(g, t);
    if error.Some? {
      return;
    }
    var sources := StepsOfKind(g.steps, Source);
    var exports := StepsOfKind(g.steps, Export);
    KindIsPresent(g, Source);
    KindIsPresent(g, Export);
    if |sources| == 0 || |exports| == 0 {
      return Some(MissingSourceOrExport);
    }
    error := CheckEnds(g, sources, exports, incoming, outgoing);
    if error.Some? {
      return;
    }
    error := CheckDegrees(g, incoming, outgoing);
    if error.Some? {
      if EveryStepOnPath(g) { DegreesFollow(g); }
      return;
    }
    error := AssertGraphConnects(g, t, IdsOf(sources), IdsOf(exports));
  }

  lemma KindIsPresent(g: Graph, kind: Kind)
    ensures HasKind(g, kind) <==> |StepsOfKind(g.steps, kind)| > 0
  {
    StepsOfKindMembers(g.steps, kind);
    if |StepsOfKind(g.steps, kind)| > 0 {
      assert StepsOfKind(g.steps, kind)[0] in g.steps;
    }
  }

  // ---------- Contract identifiers ----------

  /** Contract identifiers are UUIDs: never empty and without a colon. */
  ghost predicate ContractId(id: Id) {
    !id.Empty() && ':' !in id.text
  }

  /** The text before the first colon gives back the first end of an edge. */
  lemma {:induction false} FirstColon(a: string, b: string, x: string, y: string)
    requires ':' !in a && ':' !in x && a + ":" + b == x + ":" + y
    ensures a == x && b == y
  {
    var k := a + ":" + b;
    assert k[|a|] == ':' && k[|x|] == ':';
    assert forall i :: 0 <= i < |a| ==> k[i] == a[i];
    assert forall i :: 0 <= i < |x| ==> k[i] == x[i];
    assert |a| == |x|;
    assert k[..|a|] == a && k[..|x|] == x;
    assert k[|a| + 1..] == b && k[|x| + 1..] == y;
  }

  lemma KeyDeterminesEdge(a: Edge, b: Edge)
    requires ContractId(a.from) && ContractId(b.from) && EdgeKey(a) == EdgeKey(b)
    ensures a == b
  {
    FirstColon(a.from.text, a.to.text, b.from.text, b.to.text);
  }

  /** On contract identifiers, distinct keys mean distinct edges. */
  lemma KeysAreEdges(edges: seq<Edge>)
    requires forall e :: e in edges ==> ContractId(e.from)
    ensures UniqueEdgeKeys(edges) <==> forall i, j :: 0 <= i < j < |edges| ==> edges[i] != edges[j]
  {
    if forall i, j :: 0 <= i < j < |edges| ==> edges[i] != edges[j] {
      forall i, j | 0 <= i < j < |edges| ensures EdgeKey(edges[i]) != EdgeKey(edges[j]) {
        if EdgeKey(edges[i]) == EdgeKey(edges[j]) {
          KeyDeterminesEdge(edges[i], edges[j]);
        }
      }
    }
  }

  /** Everything that save validation asks of a graph, with edges told apart as edges and not by their keys. */
  ghost predicate SaveValidByEdges(g: Graph) {
    && UniqueIds(g.steps) && EdgesReferToSteps(g) && NoSelfLoops(g) && FlowsForward(g)
    && (forall i, j :: 0 <= i < j < |g.edges| ==> g.edges[i] != g.edges[j])
    && HasKind(g, Source) && HasKind(g, Export) && EveryStepOnPath(g) && Acyclic(EdgeSet(g.edges))
  }

  lemma TwoPairs(g: Graph, a: Step, b: Step, c: Step, d: Step)
    requires UniqueIds([a, b, c, d]) && !a.id.Empty() && !b.id.Empty() && !c.id.Empty() && !d.id.Empty()
    requires a.kind.Source? && c.kind.Source? && b.kind.Export? && d.kind.Export?
    requires g == Graph([a, b, c, d], [Edge(a.id, b.id), Edge(c.id, d.id)])
    ensures SaveValidByEdges(g)
  {
    var arcs := EdgeSet(g.edges);
    var ids := IdsOf(g.steps);
    assert ids == [a.id, b.id, c.id, d.id] && ids[0] != ids[1] && ids[0] != ids[2] && ids[0] != ids[3]
        && ids[1] != ids[2] && ids[1] != ids[3] && ids[2] != ids[3];
    assert a in g.steps && b in g.steps && c in g.steps && d in g.steps;
    TwoPairsHavePaths(g, a, b, c, d);
    forall v ensures !ReachesPlus(arcs, v, v) {
      PairHasNoCycle(arcs, a.id, b.id, c.id, d.id, v);
    }
  }

  lemma TwoPairsHavePaths(g: Graph, a: Step, b: Step, c: Step, d: Step)
    requires !a.id.Empty() && !b.id.Empty() && !c.id.Empty() && !d.id.Empty()
    requires a.kind.Source? && c.kind.Source? && b.kind.Export? && d.kind.Export?
    requires g == Graph([a, b, c, d], [Edge(a.id, b.id), Edge(c.id, d.id)])
    ensures EveryStepOnPath(g)
  {
    var arcs := EdgeSet(g.edges);
    assert Edge(a.id, b.id) in arcs && Edge(c.id, d.id) in arcs;
    ArcReaches(arcs, a.id, b.id);
    ArcReaches(arcs, c.id, d.id);
    ReachesSelf(arcs, a.id);
    ReachesSelf(arcs, b.id);
    ReachesSelf(arcs, c.id);
    ReachesSelf(arcs, d.id);
    assert a in g.steps && b in g.steps && c in g.steps && d in g.steps;
  }

  lemma PairHasNoCycle(arcs: set<Edge>, a: Id, b: Id, c: Id, d: Id, v: Id)
    requires arcs == {Edge(a, b), Edge(c, d)} && a != b && a != d && c != b && c != d
    ensures !ReachesPlus(arcs, v, v)
  {
    if ReachesPlus(arcs, v, v) {
      var m :| Edge(v, m) in arcs && Reaches(arcs, m, v);
      ClosedKeepsReach(arcs, {b, d}, m, v);
    }
  }

  /** Without that, two different edges can share a key, and a graph that is sound in every other way is refused. */
  lemma KeysCanCollide() returns (g: Graph)
    ensures SaveValidByEdges(g) && !SaveValid(g) && Explains(g, DuplicateEdge)
  {
    var none := Configuration(map[], []);
    var a, b := Step(Id("a:b"), Source, "s", "v1", none), Step(Id("c"), Export, "e", "v1", none);
    var c, d := Step(Id("a"), Source, "s", "v1", none), Step(Id("b:c"), Export, "e", "v1", none);
    assert |a.id.text| == 3 && |b.id.text| == 1 && |c.id.text| == 1 && |d.id.text| == 3;
    assert a.id.text[0] != d.id.text[0] && b.id.text[0] != c.id.text[0];
    g := Graph([a, b, c, d], [Edge(a.id, b.id), Edge(c.id, d.id)]);
    TwoPairs(g, a, b, c, d);
    assert EdgeKey(g.edges[0]) == "a:b:c" == EdgeKey(g.edges[1]);
  }

  /** Save validation is exactly that on contract identifiers, where keys are as good as edges. */
  lemma ContractGraphsByEdges(g: Graph)
    requires forall s :: s in g.steps ==> ContractId(s.id)
    ensures SaveValid(g) <==> SaveValidByEdges(g)
  {
    if EdgesReferToSteps(g) {
      forall e | e in g.edges ensures ContractId(e.from) {
        var s :| s in g.steps && s.id == e.from;
      }
      KeysAreEdges(g.edges);
    }
  }
}
