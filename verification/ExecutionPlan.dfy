/** The worker's reading of a graph as a linear plan (workers/python/execution.py, _linear_plan). */
module ExecutionPlan {
  import opened Wrappers
  import opened Graphs
  import opened Chains
  import opened Following

  datatype PlanError = NotASource | NotLinear | NotSourceToExport

  ghost predicate IsPlan(components: seq<PlanNode>, edges: seq<Edge>, source: Id, order: seq<PlanNode>) {
    IsChain(components, edges, order) && order[0].id == source
  }

  ghost predicate HasPlan(components: seq<PlanNode>, edges: seq<Edge>, source: Id) {
    exists order :: IsPlan(components, edges, source, order)
  }

  // ---------- The indexes the plan is walked with ----------

  ghost predicate IndexesById(byId: map<Id, PlanNode>, components: seq<PlanNode>) {
    && (forall id :: id in byId ==> byId[id] in components && byId[id].id == id)
    && (forall c :: c in components ==> c.id in byId)
  }

  method IndexById(components: seq<PlanNode>) returns (byId: map<Id, PlanNode>)
    ensures IndexesById(byId, components)
  {
    byId := map[];
    for i := 0 to |components|
      invariant IndexesById(byId, components[..i])
    {
      TakeOneMore(components, i);
      byId := byId[components[i].id := components[i]];
    }
    assert components[..|components|] == components;
  }

  /** Every step has at most one edge out and one edge in, and both ends are known. */
  ghost predicate SingleEdges(byId: map<Id, PlanNode>, edges: seq<Edge>) {
    && (forall e :: e in edges ==> e.from in byId && e.to in byId)
    && (forall i, j :: 0 <= i < j < |edges| ==> edges[i].from != edges[j].from && edges[i].to != edges[j].to)
  }

  ghost predicate IndexesTargets(outgoing: map<Id, Id>, edges: seq<Edge>) {
    && (forall e :: e in edges ==> e.from in outgoing && outgoing[e.from] == e.to)
    && (forall v :: v in outgoing ==> Edge(v, outgoing[v]) in edges)
  }

  lemma OneMoreTarget(byId: map<Id, PlanNode>, edges: seq<Edge>, outgoing: map<Id, Id>, incoming: set<Id>, e: Edge)
    requires SingleEdges(byId, edges) && IndexesTargets(outgoing, edges)
    requires forall v :: v in incoming <==> exists x :: x in edges && x.to == v
    requires e.from in byId && e.to in byId
    ensures SingleEdges(byId, edges + [e]) <==> e.from !in outgoing && e.to !in incoming
    ensures e.from !in outgoing ==> IndexesTargets(outgoing[e.from := e.to], edges + [e])
    ensures forall v :: v in incoming + {e.to} <==> exists x :: x in edges + [e] && x.to == v
  {
    var longer := edges + [e];
    assert longer[|edges|] == e;
    assert forall x :: x in longer <==> x in edges || x == e;
    if e.from !in outgoing && e.to !in incoming {
      forall i, j | 0 <= i < j < |longer| ensures longer[i].from != longer[j].from && longer[i].to != longer[j].to {
        assert longer[i] in edges;
      }
    }
    if e.from in outgoing || e.to in incoming {
      SharedEnd(edges, outgoing, incoming, e);
    }
  }

  lemma SharedEnd(edges: seq<Edge>, outgoing: map<Id, Id>, incoming: set<Id>, e: Edge)
    requires IndexesTargets(outgoing, edges) && forall v :: v in incoming <==> exists x :: x in edges && x.to == v
    requires e.from in outgoing || e.to in incoming
    ensures exists i :: 0 <= i < |edges| && ((edges + [e])[i].from == e.from || (edges + [e])[i].to == e.to)
  {
    if e.from in outgoing {
      var i :| 0 <= i < |edges| && edges[i] == Edge(e.from, outgoing[e.from]);
      assert (edges + [e])[i].from == e.from;
    } else {
      var x :| x in edges && x.to == e.to;
      var i :| 0 <= i < |edges| && edges[i] == x;
      assert (edges + [e])[i].to == e.to;
    }
  }

  /** The targets recorded for the edges so far. */
  ghost predicate Recorded(byId: map<Id, PlanNode>, edges: seq<Edge>, outgoing: map<Id, Id>, incoming: set<Id>) {
    && SingleEdges(byId, edges)
    && IndexesTargets(outgoing, edges)
    && forall v :: v in incoming <==> exists x :: x in edges && x.to == v
  }

  method RecordEdge(byId: map<Id, PlanNode>, edges: seq<Edge>, i: nat, outgoing: map<Id, Id>, incoming: set<Id>)
    returns (ok: bool, outgoing': map<Id, Id>, incoming': set<Id>)
    requires i < |edges| && Recorded(byId, edges[..i], outgoing, incoming)
    ensures ok <==> SingleEdges(byId, edges[..i + 1])
    ensures ok ==> Recorded(byId, edges[..i + 1], outgoing', incoming')
  {
    var e := edges[i];
    TakeOneMore(edges, i);
    ok, outgoing', incoming' := false, outgoing, incoming;
    if e.from !in byId || e.to !in byId {
      assert e in edges[..i + 1];
      return;
    }
    OneMoreTarget(byId, edges[..i], outgoing, incoming, e);
    if e.from in outgoing || e.to in incoming {
      return;
    }
    ok, outgoing', incoming' := true, outgoing[e.from := e.to], incoming + {e.to};
  }

  method IndexTargets(byId: map<Id, PlanNode>, edges: seq<Edge>) returns (outgoing: Option<map<Id, Id>>)
    ensures outgoing.Some? <==> SingleEdges(byId, edges)
    ensures outgoing.Some? ==> IndexesTargets(outgoing.value, edges)
  {
    var targets: map<Id, Id> := map[];
    var incoming: set<Id> := {};
    for i := 0 to |edges|
      invariant Recorded(byId, edges[..i], targets, incoming)
    {
      var ok;
      ok, targets, incoming := RecordEdge(byId, edges, i, targets, incoming);
      if !ok {
        if SingleEdges(byId, edges) {
          PrefixSingle(byId, edges, i + 1);
        }
        return None;
      }
    }
    assert edges[..|edges|] == edges;
    outgoing := Some(targets);
  }

  lemma PrefixSingle(byId: map<Id, PlanNode>, edges: seq<Edge>, n: nat)
    requires n <= |edges| && SingleEdges(byId, edges)
    ensures SingleEdges(byId, edges[..n])
  {
  }

  // ---------- The walk ----------

  /** A walk in progress: no repetition, along the edges, from the source. */
  ghost predicate WalkFrom(edges: seq<Edge>, source: Id, walk: seq<Id>) {
    walk != [] && walk[0] == source && Distinct(walk) && Follows(edges, walk)
  }

  lemma {:induction false} WalkReaches(edges: seq<Edge>, walk: seq<Id>, i: nat)
    requires Follows(edges, walk) && i < |walk|
    ensures Reaches(EdgeSet(edges), walk[0], walk[i])
    decreases i
  {
    if i == 0 {
      ReachesSelf(EdgeSet(edges), walk[0]);
    } else {
      WalkReaches(edges, walk, i - 1);
      assert Edge(walk[i - 1], walk[i - 1 + 1]) in edges;
      ArcReaches(EdgeSet(edges), walk[i - 1], walk[i]);
      ReachesTransitive(EdgeSet(edges), walk[0], walk[i - 1], walk[i]);
    }
  }

  /** An edge from the end of a walk back into it closes a cycle. */
  lemma ReturningWalk(edges: seq<Edge>, walk: seq<Id>, j: nat)
    requires Follows(edges, walk) && j < |walk| && Edge(walk[|walk| - 1], walk[j]) in edges
    ensures ReachesPlus(EdgeSet(edges), walk[|walk| - 1], walk[|walk| - 1])
  {
    var rest := walk[j..];
    forall i | 0 <= i < |rest| - 1 ensures Edge(rest[i], rest[i + 1]) in edges {
      assert Edge(walk[j + i], walk[j + i + 1]) in edges;
    }
    WalkReaches(edges, rest, |rest| - 1);
    assert Edge(walk[|walk| - 1], walk[j]) in EdgeSet(edges);
  }

  lemma OneEdgeEachWay(byId: map<Id, PlanNode>, edges: seq<Edge>, a: Edge, b: Edge)
    requires SingleEdges(byId, edges) && a in edges && b in edges
    ensures a.from == b.from || a.to == b.to ==> a == b
  {
    var m :| 0 <= m < |edges| && edges[m] == a;
    var n :| 0 <= n < |edges| && edges[n] == b;
  }

  /** With one edge in at most, only the head of the walk could be met again, and the source is on no cycle. */
  lemma WalkAdvances(byId: map<Id, PlanNode>, edges: seq<Edge>, source: Id, walk: seq<Id>, next: Id)
    requires SingleEdges(byId, edges) && WalkFrom(edges, source, walk)
    requires !ReachesPlus(EdgeSet(edges), source, source)
    requires Edge(walk[|walk| - 1], next) in edges
    ensures WalkFrom(edges, source, walk + [next])
  {
    var last := walk[|walk| - 1];
    assert next != source by {
      WalkReaches(edges, walk, |walk| - 1);
      ReachesSelf(EdgeSet(edges), next);
      assert ReachesPlus(EdgeSet(edges), last, next);
      ReachesThenPlus(EdgeSet(edges), source, last, next);
    }
    forall i | 0 <= i < |walk| ensures walk[i] != next {
      if i > 0 {
        assert Edge(walk[i - 1], walk[i - 1 + 1]) in edges;
        OneEdgeEachWay(byId, edges, Edge(walk[i - 1], walk[i]), Edge(last, next));
      }
    }
    var longer := walk + [next];
    forall i | 0 <= i < |longer| - 1 ensures Edge(longer[i], longer[i + 1]) in edges {
      if i < |walk| - 1 {
        assert Edge(walk[i], walk[i + 1]) in edges;
      }
    }
  }

  /** Distinct identifiers of known components are no more than the components. */
  lemma WalkIsBounded(byId: map<Id, PlanNode>, walk: seq<Id>)
    requires Distinct(walk) && forall v :: v in walk ==> v in byId
    ensures |walk| <= |byId|
  {
    DistinctIsSmall(walk, byId.Keys);
  }

  method WalkPlan(byId: map<Id, PlanNode>, edges: seq<Edge>, outgoing: map<Id, Id>, source: Id)
    returns (ordered: seq<PlanNode>)
    requires source in byId && (forall id :: id in byId ==> byId[id].id == id)
    requires SingleEdges(byId, edges) && IndexesTargets(outgoing, edges)
    requires !ReachesPlus(EdgeSet(edges), source, source)
    ensures WalkFrom(edges, source, NodeIds(ordered))
    ensures forall i :: 0 <= i < |ordered| ==> ordered[i].id in byId && byId[ordered[i].id] == ordered[i]
    ensures forall e :: e in edges ==> e.from != ordered[|ordered| - 1].id
  {
    var current := source;
    ordered := [byId[current]];
    assert NodeIds(ordered) == [source];
    while current in outgoing
      invariant WalkFrom(edges, source, NodeIds(ordered)) && ordered[|ordered| - 1].id == current
      invariant forall i :: 0 <= i < |ordered| ==> ordered[i].id in byId && byId[ordered[i].id] == ordered[i]
      decreases |byId| - |ordered|
    {
      var next := outgoing[current];
      assert Edge(current, next) in edges;
      WalkAdvances(byId, edges, source, NodeIds(ordered), next);
      assert NodeIds(ordered + [byId[next]]) == NodeIds(ordered) + [next];
      ordered := ordered + [byId[next]];
      WalkIsBounded(byId, NodeIds(ordered));
      current := next;
    }
  }

  // ---------- The plan ----------

  predicate Shaped(components: seq<PlanNode>, ordered: seq<PlanNode>) {
    && |ordered| == |components|
    && |ordered| >= 1
    && ordered[0].kind.Source?
    && ordered[|ordered| - 1].kind.Export?
    && forall i :: 0 < i < |ordered| - 1 ==> ordered[i].kind.Transform?
  }

  /** A finished walk of the right length and kinds is a chain order. */
  lemma WalkGivesPlan(components: seq<PlanNode>, byId: map<Id, PlanNode>, edges: seq<Edge>, source: Id,
                      ordered: seq<PlanNode>)
    requires IndexesById(byId, components) && SingleEdges(byId, edges) && WalkFrom(edges, source, NodeIds(ordered))
    requires forall i :: 0 <= i < |ordered| ==> ordered[i].id in byId && byId[ordered[i].id] == ordered[i]
    requires forall e :: e in edges ==> e.from != ordered[|ordered| - 1].id
    requires Shaped(components, ordered)
    ensures IsPlan(components, edges, source, ordered)
  {
    forall i, j | 0 <= i < j < |ordered| ensures ordered[i] != ordered[j] {
      assert NodeIds(ordered)[i] != NodeIds(ordered)[j];
    }
    FillsList(ordered, components);
    SameElements(ordered, components);
    EdgesAreLinks(components, byId, edges, ordered);
  }

  lemma EdgesAreLinks(components: seq<PlanNode>, byId: map<Id, PlanNode>, edges: seq<Edge>, ordered: seq<PlanNode>)
    requires IndexesById(byId, components) && SingleEdges(byId, edges)
    requires ordered != [] && Distinct(NodeIds(ordered)) && Follows(edges, NodeIds(ordered))
    requires forall c :: c in components ==> c in ordered
    requires forall e :: e in edges ==> e.from != ordered[|ordered| - 1].id
    ensures multiset(edges) == multiset(Links(NodeIds(ordered)))
  {
    var ids := NodeIds(ordered);
    forall i, j | 0 <= i < j < |Links(ids)| ensures Links(ids)[i] != Links(ids)[j] {
      assert ids[i] != ids[j];
    }
    forall e | e in edges ensures e in Links(ids) {
      assert byId[e.from] in ordered;
      var i :| 0 <= i < |ordered| && ordered[i] == byId[e.from];
      assert Edge(ids[i], ids[i + 1]) in edges;
      OneEdgeEachWay(byId, edges, e, Edge(ids[i], ids[i + 1]));
      assert Links(ids)[i] == e;
    }
    forall e | e in Links(ids) ensures e in edges {
      var i :| 0 <= i < |Links(ids)| && Links(ids)[i] == e;
      assert Edge(ids[i], ids[i + 1]) in edges;
    }
    SameMembers(edges, Links(ids));
  }

  /** A chain has single edges between known components. */
  lemma PlanHasSingleEdges(components: seq<PlanNode>, byId: map<Id, PlanNode>, edges: seq<Edge>, order: seq<PlanNode>)
    requires IsChain(components, edges, order) && IndexesById(byId, components)
    ensures SingleEdges(byId, edges)
  {
    var ids := NodeIds(order);
    SameElements(components, order);
    SameElements(edges, Links(ids));
    forall e | e in edges ensures e.from in byId && e.to in byId {
      var i :| 0 <= i < |Links(ids)| && Links(ids)[i] == e;
      assert order[i] in components && order[i + 1] in components;
    }
    forall i, j | 0 <= i < j < |Links(ids)|
      ensures Links(ids)[i].from != Links(ids)[j].from && Links(ids)[i].to != Links(ids)[j].to
    {
      assert ids[i] != ids[j] && ids[i + 1] != ids[j + 1];
    }
    SingleIgnoresOrder(Links(ids), edges);
  }

  /** Having no two edges with a common end does not depend on the order of the list. */
  lemma SingleIgnoresOrder(a: seq<Edge>, b: seq<Edge>)
    requires multiset(a) == multiset(b)
    requires forall i, j :: 0 <= i < j < |a| ==> a[i].from != a[j].from && a[i].to != a[j].to
    ensures forall i, j :: 0 <= i < j < |b| ==> b[i].from != b[j].from && b[i].to != b[j].to
  {
    SameElements(a, b);
    forall i, j | 0 <= i < j < |b| ensures b[i].from != b[j].from && b[i].to != b[j].to {
      assert b[i] in a && b[j] in a;
      var m :| 0 <= m < |a| && a[m] == b[i];
      var n :| 0 <= n < |a| && a[n] == b[j];
      if m == n {
        DistinctCount(a, a[m]);
        TwiceInList(b, i, j);
      }
    }
  }

  lemma TwiceInList<T>(s: seq<T>, i: nat, j: nat)
    requires i < j < |s| && s[i] == s[j]
    ensures multiset(s)[s[i]] >= 2
  {
    assert s == s[..j] + [s[j]] + s[j + 1..];
    assert s[i] in s[..j];
    assert multiset(s[..j])[s[i]] >= 1;
  }

  /** If there is a plan at all, a finished walk found it. */
  lemma PlanIsWalk(components: seq<PlanNode>, byId: map<Id, PlanNode>, edges: seq<Edge>, source: Id,
                   ordered: seq<PlanNode>, order: seq<PlanNode>)
    requires IndexesById(byId, components) && WalkFrom(edges, source, NodeIds(ordered))
    requires forall i :: 0 <= i < |ordered| ==> ordered[i].id in byId && byId[ordered[i].id] == ordered[i]
    requires forall e :: e in edges ==> e.from != ordered[|ordered| - 1].id
    requires IsPlan(components, edges, source, order)
    ensures ordered == order && Shaped(components, ordered)
  {
    WalkIsChain(edges, NodeIds(order), NodeIds(ordered));
    NodesFollowIds(components, order, ordered);
    SameElements(components, order);
  }

  /** All edges join known components, and no two of them share an end. */
  ghost predicate EdgesSingle(components: seq<PlanNode>, edges: seq<Edge>) {
    exists byId: map<Id, PlanNode> :: IndexesById(byId, components) && SingleEdges(byId, edges)
  }

  ghost predicate HasSource(components: seq<PlanNode>, source: Id) {
    exists c :: c in components && c.id == source && c.kind.Source?
  }

  lemma IndexIsAnyIndex(components: seq<PlanNode>, byId: map<Id, PlanNode>, edges: seq<Edge>)
    requires IndexesById(byId, components)
    ensures EdgesSingle(components, edges) <==> SingleEdges(byId, edges)
  {
    if EdgesSingle(components, edges) {
      var other: map<Id, PlanNode> :| IndexesById(other, components) && SingleEdges(other, edges);
      forall id | id in other ensures id in byId {
        assert other[id] in components;
      }
    }
  }

  lemma SourceIsIndexed(components: seq<PlanNode>, byId: map<Id, PlanNode>, source: Id)
    requires IndexesById(byId, components) && Distinct(NodeIds(components))
    ensures HasSource(components, source) <==> source in byId && byId[source].kind.Source?
  {
    if HasSource(components, source) {
      var c :| c in components && c.id == source && c.kind.Source?;
      var i :| 0 <= i < |components| && components[i] == c;
      var j :| 0 <= j < |components| && components[j] == byId[source];
      assert NodeIds(components)[i] == NodeIds(components)[j];
    }
  }

  /**
   * Succeeds exactly when the components form a chain led by the claimed Source, and then returns that chain.
   * The walk keeps no record of where it has been, so it needs a Source that is on no cycle.
   */
  method LinearPlan(components: seq<PlanNode>, edges: seq<Edge>, source: Id)
    returns (plan: Result<seq<PlanNode>, PlanError>)
    requires WalkBegins(components, edges, source) ==> !ReachesPlus(EdgeSet(edges), source, source)
    ensures plan.Ok? <==> HasPlan(components, edges, source)
    ensures plan.Ok? ==> IsPlan(components, edges, source, plan.value)
    ensures Distinct(NodeIds(components)) ==> (plan == Err(NotASource) <==> !HasSource(components, source))
    ensures plan == Err(NotLinear) ==> !EdgesSingle(components, edges)
    ensures plan == Err(NotSourceToExport) ==> EdgesSingle(components, edges)
  {
    var byId := IndexById(components);
    IndexIsAnyIndex(components, byId, edges);
    if Distinct(NodeIds(components)) {
      SourceIsIndexed(components, byId, source);
    }
    if source !in byId || !byId[source].kind.Source? {
      if HasPlan(components, edges, source) {
        SourceIsNeeded(components, byId, edges, source);
      }
      return Err(NotASource);
    }
    var outgoing := IndexTargets(byId, edges);
    if outgoing.None? {
      forall order | IsPlan(components, edges, source, order) ensures false {
        PlanHasSingleEdges(components, byId, edges, order);
      }
      return Err(NotLinear);
    }
    var ordered := WalkPlan(byId, edges, outgoing.value, source);
    if !Shaped(components, ordered) {
      forall order | IsPlan(components, edges, source, order) ensures false {
        PlanIsWalk(components, byId, edges, source, ordered, order);
      }
      return Err(NotSourceToExport);
    }
    WalkGivesPlan(components, byId, edges, source, ordered);
    plan := Ok(ordered);
  }

  lemma SourceIsNeeded(components: seq<PlanNode>, byId: map<Id, PlanNode>, edges: seq<Edge>, source: Id)
    requires IndexesById(byId, components) && HasPlan(components, edges, source)
    ensures source in byId && byId[source].kind.Source?
  {
    var order :| IsPlan(components, edges, source, order);
    SameElements(components, order);
    assert order[0] in components;
    var k :| 0 <= k < |order| && order[k] == byId[source];
    assert NodeIds(order)[k] == NodeIds(order)[0];
  }

  // ---------- Without that, the walk does not end ----------

  /** The checks before the walk pass. */
  ghost predicate WalkBegins(components: seq<PlanNode>, edges: seq<Edge>, source: Id) {
    exists byId: map<Id, PlanNode> ::
      IndexesById(byId, components) && source in byId && byId[source].kind.Source? && SingleEdges(byId, edges)
  }

  /** With one edge into each step at most, a walk that comes back comes back to where it started. */
  lemma {:induction false} BackToStart(byId: map<Id, PlanNode>, edges: seq<Edge>, outgoing: map<Id, Id>, source: Id, i: nat,
                                       j: nat)
    requires SingleEdges(byId, edges) && IndexesTargets(outgoing, edges) && i < j
    requires After(outgoing, source, i).Some? && After(outgoing, source, i) == After(outgoing, source, j)
    ensures After(outgoing, source, j - i) == Some(source)
  {
    if i > 0 {
      var v, w := After(outgoing, source, i - 1).value, After(outgoing, source, j - 1).value;
      OneEdgeEachWay(byId, edges, Edge(v, outgoing[v]), Edge(w, outgoing[w]));
      BackToStart(byId, edges, outgoing, source, i - 1, j - 1);
    }
  }

  /** Once the checks have passed, the walk returns exactly when the Source is on no cycle. */
  lemma WalkEndsExactly(byId: map<Id, PlanNode>, edges: seq<Edge>, outgoing: map<Id, Id>, source: Id)
    requires SingleEdges(byId, edges) && IndexesTargets(outgoing, edges)
    ensures Ends(outgoing, source) <==> !ReachesPlus(EdgeSet(edges), source, source)
  {
    assert MapArcs(outgoing) == EdgeSet(edges);
    if ReachesPlus(EdgeSet(edges), source, source) {
      ReachesSelf(EdgeSet(edges), source);
      CycleNeverEnds(outgoing, source);
    }
    if !Ends(outgoing, source) {
      var i, j := EndsOrReturns(outgoing, source);
      BackToStart(byId, edges, outgoing, source, i, j);
      AfterReachesPlus(outgoing, source, j - i);
    }
  }
}
