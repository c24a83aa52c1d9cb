/** On every saved graph the enable-time check and the worker's plan say the same thing. */
module PlanAgreement {
  import opened Graphs
  import opened Topologies
  import opened SaveValidation
  import opened Chains
  import opened ExecutionPlan
  import opened ExecutableCheck

  /** What both checks take for granted: identifiers are unique and edges join steps. */
  ghost predicate Sound(g: Graph) {
    UniqueIds(g.steps) && EdgesReferToSteps(g)
  }

  /** What the enable-time check does not look at: nothing leaves an Export. */
  ghost predicate ExportsEnd(g: Graph) {
    forall s :: s in g.steps && s.kind.Export? ==> EdgesFrom(g.edges, s.id) == []
  }

  /** The components of a graph joined to one run step each. */
  ghost predicate Joins(g: Graph, rows: map<Id, nat>, components: seq<PlanNode>) {
    && StepIds(g.steps) <= rows.Keys
    && multiset(components) == multiset(NodesOf(g.steps, rows))
  }

  ghost function NodesOf(steps: seq<Step>, rows: map<Id, nat>): (nodes: seq<PlanNode>)
    requires StepIds(steps) <= rows.Keys
    ensures |nodes| == |steps|
    ensures forall i :: 0 <= i < |nodes| ==> nodes[i] == NodeOf(steps[i], rows)
  {
    forall i | 0 <= i < |steps| ensures steps[i].id in StepIds(steps) {
      assert steps[i] in steps;
    }
    seq(|steps|, i requires 0 <= i < |steps| && steps[i].id in rows => NodeOf(steps[i], rows))
  }

  ghost function NodeOf(s: Step, rows: map<Id, nat>): PlanNode
    requires s.id in rows
  {
    PlanNode(s.id, s.kind, rows[s.id])
  }

  // ---------- Lists picked out of a list without repetition ----------

  /** The links of a chain differ, so its edges do. */
  lemma ChainEdgesDistinct(edges: seq<Edge>, ids: seq<Id>)
    requires LinksInOrder(edges, ids)
    ensures Distinct(edges)
  {
    LinksAreDistinct(ids);
    forall i, j | 0 <= i < j < |edges| ensures edges[i] != edges[j] {
      DistinctCount(Links(ids), edges[i]);
      if edges[i] == edges[j] {
        TwiceInList(edges, i, j);
      }
    }
  }

  /** Two edges out of one step make it branch. */
  lemma {:induction false} TwoEdgesFrom(edges: seq<Edge>, i: nat, j: nat)
    requires i < j < |edges| && edges[i].from == edges[j].from
    ensures |EdgesFrom(edges, edges[i].from)| >= 2
  {
    var init := edges[..|edges| - 1];
    if j < |init| {
      TwoEdgesFrom(init, i, j);
    } else {
      EdgesFromMembers(init, edges[i].from);
      assert init[i] in EdgesFrom(init, edges[i].from);
    }
  }

  lemma UnbranchedEdgesDistinct(g: Graph)
    requires EdgesReferToSteps(g) && forall s :: s in g.steps ==> !Branches(g, s.id)
    ensures Distinct(g.edges)
  {
    forall i, j | 0 <= i < j < |g.edges| ensures g.edges[i] != g.edges[j] {
      assert g.edges[i].from in StepIds(g.steps);
      var s :| s in g.steps && s.id == g.edges[i].from;
      if g.edges[i].from == g.edges[j].from {
        TwoEdgesFrom(g.edges, i, j);
      }
    }
  }

  lemma {:induction false} EdgesFromDistinct(edges: seq<Edge>, id: Id)
    requires Distinct(edges)
    ensures Distinct(EdgesFrom(edges, id))
  {
    if edges != [] {
      EdgesFromDistinct(edges[..|edges| - 1], id);
      EdgesFromMembers(edges[..|edges| - 1], id);
    }
  }

  lemma {:induction false} EdgesToDistinct(edges: seq<Edge>, id: Id)
    requires Distinct(edges)
    ensures Distinct(EdgesTo(edges, id))
  {
    if edges != [] {
      EdgesToDistinct(edges[..|edges| - 1], id);
      EdgesToMembers(edges[..|edges| - 1], id);
    }
  }

  lemma {:induction false} StepsOfKindDistinct(steps: seq<Step>, kind: Kind)
    requires UniqueIds(steps)
    ensures UniqueIds(StepsOfKind(steps, kind))
  {
    if steps != [] {
      StepsOfKindDistinct(steps[1..], kind);
      StepsOfKindMembers(steps[1..], kind);
      forall s | s in steps[1..] ensures s.id != steps[0].id {}
    }
  }

  lemma AllEqual<T>(s: seq<T>, x: T)
    requires Distinct(s) && forall y :: y in s ==> y == x
    ensures s == [] || s == [x]
  {
    assert |s| > 1 ==> s[0] != s[1];
    forall i | 0 <= i < |s| ensures s[i] == x {
      assert s[i] in s;
    }
  }

  // ---------- A plan makes the graph executable ----------

  ghost predicate ChainedGraph(g: Graph, rows: map<Id, nat>, order: seq<PlanNode>) {
    Sound(g) && StepIds(g.steps) <= rows.Keys && IsChain(NodesOf(g.steps, rows), g.edges, order)
  }

  lemma StepInOrder(g: Graph, rows: map<Id, nat>, order: seq<PlanNode>, s: Step) returns (k: nat)
    requires StepIds(g.steps) <= rows.Keys && IsChain(NodesOf(g.steps, rows), g.edges, order) && s in g.steps
    ensures k < |order| && s.id in rows && order[k] == NodeOf(s, rows)
  {
    SameElements(NodesOf(g.steps, rows), order);
    var i :| 0 <= i < |g.steps| && g.steps[i] == s;
    assert s.id in StepIds(g.steps);
    assert NodesOf(g.steps, rows)[i] in order;
    k :| 0 <= k < |order| && order[k] == NodeOf(s, rows);
  }

  lemma OrderIsSteps(g: Graph, rows: map<Id, nat>, order: seq<PlanNode>, k: nat) returns (s: Step)
    requires StepIds(g.steps) <= rows.Keys && IsChain(NodesOf(g.steps, rows), g.edges, order) && k < |order|
    ensures s in g.steps && s.id in rows && order[k] == NodeOf(s, rows)
  {
    SameElements(NodesOf(g.steps, rows), order);
    assert order[k] in NodesOf(g.steps, rows);
    var i :| 0 <= i < |g.steps| && NodesOf(g.steps, rows)[i] == order[k];
    s := g.steps[i];
    assert s in g.steps && s.id in StepIds(g.steps);
  }

  /** On a chain, the edges out of a position are the single link, and the last position has none. */
  lemma ChainOut(edges: seq<Edge>, ids: seq<Id>, i: nat)
    requires Distinct(edges) && LinksInOrder(edges, ids) && i < |ids|
    ensures EdgesFrom(edges, ids[i]) == if i + 1 < |ids| then [Edge(ids[i], ids[i + 1])] else []
  {
    var out := EdgesFrom(edges, ids[i]);
    EdgesFromDistinct(edges, ids[i]);
    EdgesFromMembers(edges, ids[i]);
    forall e | e in out ensures i + 1 < |ids| && e == Edge(ids[i], ids[i + 1]) {
      ChainEdge(edges, ids, e, i);
    }
    if i + 1 < |ids| {
      AllEqual(out, Edge(ids[i], ids[i + 1]));
      ChainLink(edges, ids, i);
    } else {
      NoMembers(out);
    }
  }

  lemma ChainIn(edges: seq<Edge>, ids: seq<Id>, i: nat)
    requires Distinct(edges) && LinksInOrder(edges, ids) && i < |ids|
    ensures |EdgesTo(edges, ids[i])| <= 1
  {
    var into := EdgesTo(edges, ids[i]);
    EdgesToDistinct(edges, ids[i]);
    EdgesToMembers(edges, ids[i]);
    forall e | e in into ensures i > 0 && e == Edge(ids[i - 1], ids[i]) {
      ChainEdgeInto(edges, ids, e, i);
    }
    if into != [] {
      HeadIsMember(into);
      AllEqual(into, Edge(ids[i - 1], ids[i]));
    }
  }

  lemma ChainEdgeInto(edges: seq<Edge>, ids: seq<Id>, e: Edge, i: nat)
    requires LinksInOrder(edges, ids) && e in edges && i < |ids| && e.to == ids[i]
    ensures i > 0 && e == Edge(ids[i - 1], ids[i])
  {
    SameElements(edges, Links(ids));
    var k :| 0 <= k < |Links(ids)| && Links(ids)[k] == e;
    assert ids[k + 1] == ids[i];
  }

  lemma ChainIsWalk(edges: seq<Edge>, ids: seq<Id>)
    requires Distinct(edges) && LinksInOrder(edges, ids) && ids != []
    ensures LinearWalk(edges, ids[0], ids)
  {
    forall i | 0 <= i < |ids| - 1 ensures EdgesFrom(edges, ids[i]) == [Edge(ids[i], ids[i + 1])] {
      ChainOut(edges, ids, i);
    }
    ChainOut(edges, ids, |ids| - 1);
  }

  lemma OneOfKind(g: Graph, rows: map<Id, nat>, order: seq<PlanNode>, kind: Kind, k: nat)
    requires ChainedGraph(g, rows, order) && k < |order| && order[k].kind == kind
    requires forall i :: 0 <= i < |order| && order[i].kind == kind ==> i == k
    ensures |StepsOfKind(g.steps, kind)| == 1 && StepsOfKind(g.steps, kind)[0].id == order[k].id
  {
    var picked := StepsOfKind(g.steps, kind);
    StepsOfKindMembers(g.steps, kind);
    StepsOfKindDistinct(g.steps, kind);
    var head := OrderIsSteps(g, rows, order, k);
    forall s | s in picked ensures s == head {
      var i := StepInOrder(g, rows, order, s);
      assert s.id == head.id;
      SameIdSameStep(g.steps, s, head);
    }
    AllEqual(picked, head);
  }

  lemma PlanIsExecutable(g: Graph, rows: map<Id, nat>, order: seq<PlanNode>)
    requires ChainedGraph(g, rows, order)
    ensures StructurallyExecutable(g) && LinearWalk(g.edges, order[0].id, NodeIds(order))
  {
    ChainEdgesDistinct(g.edges, NodeIds(order));
    ChainIsWalk(g.edges, NodeIds(order));
    OneOfKind(g, rows, order, Source, 0);
    OneOfKind(g, rows, order, Export, |order| - 1);
    forall s | s in g.steps ensures !Branches(g, s.id) && !OffWalk(g, s.id) {
      var k := StepInOrder(g, rows, order, s);
      assert NodeIds(order)[k] == s.id;
      ChainOut(g.edges, NodeIds(order), k);
      ChainIn(g.edges, NodeIds(order), k);
    }
  }

  lemma PlanEndsAtExport(g: Graph, rows: map<Id, nat>, order: seq<PlanNode>)
    requires ChainedGraph(g, rows, order)
    ensures ExportsEnd(g)
  {
    ChainEdgesDistinct(g.edges, NodeIds(order));
    forall s | s in g.steps && s.kind.Export? ensures EdgesFrom(g.edges, s.id) == [] {
      var k := StepInOrder(g, rows, order, s);
      assert k == |order| - 1 && NodeIds(order)[k] == s.id;
      ChainOut(g.edges, NodeIds(order), k);
    }
  }

  // ---------- An executable graph has a plan ----------

  ghost predicate CoveringWalk(g: Graph, source: Id, walk: seq<Id>) {
    LinearWalk(g.edges, source, walk) && forall s :: s in g.steps ==> s.id in walk
  }

  lemma ExecutableHasWalk(g: Graph) returns (walk: seq<Id>)
    requires StructurallyExecutable(g)
    ensures CoveringWalk(g, StepsOfKind(g.steps, Source)[0].id, walk)
  {
    StepsOfKindMembers(g.steps, Source);
    var source := StepsOfKind(g.steps, Source)[0];
    HeadIsMember(StepsOfKind(g.steps, Source));
    assert !OffWalk(g, source.id);
    walk :| LinearWalk(g.edges, source.id, walk) && source.id in walk;
    forall s | s in g.steps ensures s.id in walk {
      OffWalkMeans(g, walk, s.id);
    }
  }

  lemma WalkStaysInGraph(g: Graph, source: Id, walk: seq<Id>)
    requires EdgesReferToSteps(g) && LinearWalk(g.edges, source, walk) && source in StepIds(g.steps)
    ensures forall i :: 0 <= i < |walk| ==> walk[i] in StepIds(g.steps)
    ensures Follows(g.edges, walk)
  {
    forall i | 0 <= i < |walk| - 1 ensures Edge(walk[i], walk[i + 1]) in g.edges {
      EdgesFromMembers(g.edges, walk[i]);
      assert EdgesFrom(g.edges, walk[i]) == [Edge(walk[i], walk[i + 1])];
      HeadIsMember(EdgesFrom(g.edges, walk[i]));
    }
    forall i | 0 <= i < |walk| ensures walk[i] in StepIds(g.steps) {
      if i > 0 {
        assert Edge(walk[i - 1], walk[i - 1 + 1]) in g.edges;
      }
    }
  }

  lemma WalkGoesOnFrom(edges: seq<Edge>, source: Id, walk: seq<Id>, k: nat)
    requires LinearWalk(edges, source, walk) && k < |walk| - 1
    ensures EdgesFrom(edges, walk[k]) != []
  {
    assert EdgesFrom(edges, walk[k]) == [Edge(walk[k], walk[k + 1])];
  }

  lemma WalkEndsThere(edges: seq<Edge>, source: Id, walk: seq<Id>, k: nat)
    requires LinearWalk(edges, source, walk) && k < |walk| && EdgesFrom(edges, walk[k]) == []
    ensures k == |walk| - 1
  {
    if k < |walk| - 1 {
      WalkGoesOnFrom(edges, source, walk, k);
    }
  }

  /** A walk over all steps ends at the Export, where nothing leaves. */
  lemma WalkEndsAtExport(g: Graph, source: Id, walk: seq<Id>)
    requires Sound(g) && StructurallyExecutable(g) && ExportsEnd(g) && CoveringWalk(g, source, walk)
    ensures walk[|walk| - 1] in StepIds(g.steps) && EdgesFrom(g.edges, walk[|walk| - 1]) == []
    ensures exists s :: s in g.steps && s.kind.Export? && s.id == walk[|walk| - 1]
  {
    StepsOfKindMembers(g.steps, Export);
    HeadIsMember(StepsOfKind(g.steps, Export));
    var sink := StepsOfKind(g.steps, Export)[0];
    var k :| 0 <= k < |walk| && walk[k] == sink.id;
    WalkEndsThere(g.edges, source, walk, k);
  }

  lemma WalkStopsAtEnd(g: Graph, source: Id, walk: seq<Id>, e: Edge)
    requires Sound(g) && StructurallyExecutable(g) && ExportsEnd(g) && CoveringWalk(g, source, walk)
    requires e in g.edges
    ensures e.from != walk[|walk| - 1]
  {
    WalkEndsAtExport(g, source, walk);
    EdgesFromMembers(g.edges, walk[|walk| - 1]);
  }

  lemma EdgeIsLink(edges: seq<Edge>, source: Id, walk: seq<Id>, e: Edge)
    requires LinearWalk(edges, source, walk) && e in edges && e.from in walk && e.from != walk[|walk| - 1]
    ensures e in Links(walk)
  {
    var i :| 0 <= i < |walk| && walk[i] == e.from;
    EdgesFromMembers(edges, walk[i]);
    assert EdgesFrom(edges, walk[i]) == [Edge(walk[i], walk[i + 1])];
    assert Links(walk)[i] == e;
  }

  lemma EdgesStartOnWalk(g: Graph, source: Id, walk: seq<Id>, e: Edge)
    requires Sound(g) && CoveringWalk(g, source, walk) && e in g.edges
    ensures e.from in walk
  {
    var s :| s in g.steps && s.id == e.from;
  }

  lemma LinksAreDistinct(ids: seq<Id>)
    requires Distinct(ids)
    ensures Distinct(Links(ids))
  {
    forall i, j | 0 <= i < j < |Links(ids)| ensures Links(ids)[i] != Links(ids)[j] {
      assert ids[i] != ids[j];
    }
  }

  lemma LinkIsEdge(edges: seq<Edge>, walk: seq<Id>, e: Edge)
    requires Follows(edges, walk) && e in Links(walk)
    ensures e in edges
  {
    var i :| 0 <= i < |Links(walk)| && Links(walk)[i] == e;
    assert Edge(walk[i], walk[i + 1]) in edges;
  }

  lemma WalkLinksAreEdges(g: Graph, source: Id, walk: seq<Id>)
    requires Sound(g) && StructurallyExecutable(g) && ExportsEnd(g) && CoveringWalk(g, source, walk)
    requires source in StepIds(g.steps)
    ensures LinksInOrder(g.edges, walk)
  {
    UnbranchedEdgesDistinct(g);
    LinksAreDistinct(walk);
    WalkStaysInGraph(g, source, walk);
    forall e | e in g.edges ensures e in Links(walk) {
      EdgesStartOnWalk(g, source, walk, e);
      WalkStopsAtEnd(g, source, walk, e);
      EdgeIsLink(g.edges, source, walk, e);
    }
    forall e | e in Links(walk) ensures e in g.edges {
      LinkIsEdge(g.edges, walk, e);
    }
    SameMembers(g.edges, Links(walk));
  }

  ghost function StepWithId(steps: seq<Step>, id: Id): (s: Step)
    requires id in StepIds(steps)
    ensures s in steps && s.id == id
  {
    var s :| s in steps && s.id == id;
    s
  }

  ghost function Ordered(g: Graph, rows: map<Id, nat>, walk: seq<Id>): (order: seq<PlanNode>)
    requires StepIds(g.steps) <= rows.Keys && forall i :: 0 <= i < |walk| ==> walk[i] in StepIds(g.steps)
    ensures |order| == |walk|
    ensures forall i :: 0 <= i < |order| ==> order[i] == NodeOf(StepWithId(g.steps, walk[i]), rows)
  {
    seq(|walk|, i requires 0 <= i < |walk| => NodeOf(StepWithId(g.steps, walk[i]), rows))
  }

  lemma OrderedIsNodes(g: Graph, rows: map<Id, nat>, source: Id, walk: seq<Id>)
    requires Sound(g) && CoveringWalk(g, source, walk) && StepIds(g.steps) <= rows.Keys
    requires forall i :: 0 <= i < |walk| ==> walk[i] in StepIds(g.steps)
    ensures NodeIds(Ordered(g, rows, walk)) == walk
    ensures multiset(NodesOf(g.steps, rows)) == multiset(Ordered(g, rows, walk))
  {
    var nodes, order := NodesOf(g.steps, rows), Ordered(g, rows, walk);
    forall i, j | 0 <= i < j < |order| ensures order[i] != order[j] {
      assert walk[i] != walk[j];
    }
    forall i, j | 0 <= i < j < |nodes| ensures nodes[i] != nodes[j] {
      assert g.steps[i].id != g.steps[j].id;
    }
    forall n | n in nodes ensures n in order {
      var i :| 0 <= i < |nodes| && nodes[i] == n;
      assert g.steps[i] in g.steps;
      var k :| 0 <= k < |walk| && walk[k] == g.steps[i].id;
      SameIdSameStep(g.steps, g.steps[i], StepWithId(g.steps, walk[k]));
      assert order[k] == n;
    }
    forall n | n in order ensures n in nodes {
      var k :| 0 <= k < |order| && order[k] == n;
      var s := StepWithId(g.steps, walk[k]);
      var i :| 0 <= i < |g.steps| && g.steps[i] == s;
      assert nodes[i] == n;
    }
    SameMembers(nodes, order);
  }

  lemma OnlyOne(g: Graph, kind: Kind, s: Step, t: Step)
    requires |StepsOfKind(g.steps, kind)| == 1 && s in g.steps && t in g.steps && s.kind == t.kind == kind
    ensures s == t
  {
    StepsOfKindMembers(g.steps, kind);
  }

  lemma LastIsExport(g: Graph, source: Id, walk: seq<Id>)
    requires Sound(g) && StructurallyExecutable(g) && ExportsEnd(g) && CoveringWalk(g, source, walk)
    ensures walk[|walk| - 1] in StepIds(g.steps) && StepWithId(g.steps, walk[|walk| - 1]).kind.Export?
  {
    WalkEndsAtExport(g, source, walk);
    var s :| s in g.steps && s.kind.Export? && s.id == walk[|walk| - 1];
    SameIdSameStep(g.steps, s, StepWithId(g.steps, s.id));
  }

  /** With one Source and one Export, every other step is a Transform. */
  lemma OthersAreTransforms(g: Graph, first: Step, last: Step, s: Step)
    requires |StepsOfKind(g.steps, Source)| == 1 && |StepsOfKind(g.steps, Export)| == 1
    requires first in g.steps && first.kind.Source? && last in g.steps && last.kind.Export?
    requires s in g.steps && s != first && s != last
    ensures s.kind.Transform?
  {
    if s.kind.Source? { OnlyOne(g, Source, s, first); }
    if s.kind.Export? { OnlyOne(g, Export, s, last); }
  }

  lemma OrderedKinds(g: Graph, rows: map<Id, nat>, source: Id, walk: seq<Id>)
    requires Sound(g) && StructurallyExecutable(g) && ExportsEnd(g) && CoveringWalk(g, source, walk)
    requires StepIds(g.steps) <= rows.Keys && forall i :: 0 <= i < |walk| ==> walk[i] in StepIds(g.steps)
    requires StepWithId(g.steps, source).kind.Source?
    ensures SourceToExport(Ordered(g, rows, walk))
  {
    LastIsExport(g, source, walk);
    KindsInOrder(g, rows, source, walk);
  }

  lemma KindsInOrder(g: Graph, rows: map<Id, nat>, source: Id, walk: seq<Id>)
    requires |StepsOfKind(g.steps, Source)| == 1 && |StepsOfKind(g.steps, Export)| == 1
    requires walk != [] && walk[0] == source && Distinct(walk)
    requires StepIds(g.steps) <= rows.Keys && forall i :: 0 <= i < |walk| ==> walk[i] in StepIds(g.steps)
    requires StepWithId(g.steps, source).kind.Source? && StepWithId(g.steps, walk[|walk| - 1]).kind.Export?
    ensures SourceToExport(Ordered(g, rows, walk))
  {
    var order := Ordered(g, rows, walk);
    forall i | 0 < i < |order| - 1 ensures order[i].kind.Transform? {
      assert walk[i] != walk[0] && walk[i] != walk[|walk| - 1];
      OthersAreTransforms(g, StepWithId(g.steps, walk[0]), StepWithId(g.steps, walk[|walk| - 1]),
                          StepWithId(g.steps, walk[i]));
    }
  }

  lemma ExecutableHasPlan(g: Graph, rows: map<Id, nat>) returns (order: seq<PlanNode>)
    requires Sound(g) && StructurallyExecutable(g) && ExportsEnd(g) && StepIds(g.steps) <= rows.Keys
    ensures ChainedGraph(g, rows, order)
  {
    var walk := ExecutableHasWalk(g);
    var source := StepsOfKind(g.steps, Source)[0];
    StepsOfKindMembers(g.steps, Source);
    HeadIsMember(StepsOfKind(g.steps, Source));
    assert source.id in StepIds(g.steps);
    SameIdSameStep(g.steps, source, StepWithId(g.steps, source.id));
    WalkStaysInGraph(g, source.id, walk);
    WalkLinksAreEdges(g, source.id, walk);
    OrderedIsNodes(g, rows, source.id, walk);
    OrderedKinds(g, rows, source.id, walk);
    order := Ordered(g, rows, walk);
  }

  // ---------- Agreement ----------

  /**
   * What the enable-time check leaves open, on every graph with unique identifiers and edges between steps: an
   * executable graph has a plan exactly when no edge leaves its Export, and no other graph has one.
   */
  lemma PlanExactly(g: Graph, rows: map<Id, nat>, components: seq<PlanNode>, source: Step)
    requires Sound(g) && Joins(g, rows, components) && source in g.steps && source.kind.Source?
    ensures HasPlan(components, g.edges, source.id) <==> StructurallyExecutable(g) && ExportsEnd(g)
    ensures forall order :: IsPlan(components, g.edges, source.id, order) ==>
              LinearWalk(g.edges, source.id, NodeIds(order))
  {
    forall order | IsPlan(components, g.edges, source.id, order)
      ensures StructurallyExecutable(g) && ExportsEnd(g) && LinearWalk(g.edges, source.id, NodeIds(order))
    {
      PlanIsExecutable(g, rows, order);
      PlanEndsAtExport(g, rows, order);
    }
    if StructurallyExecutable(g) && ExportsEnd(g) {
      ExecutableHasPlanFrom(g, rows, components, source);
    }
  }

  /** On a saved graph edges flow forward, so nothing leaves an Export. */
  lemma SavedExportsEnd(g: Graph)
    requires SaveValid(g)
    ensures Sound(g) && ExportsEnd(g)
  {
    forall s | s in g.steps && s.kind.Export? ensures EdgesFrom(g.edges, s.id) == [] {
      EdgesFromMembers(g.edges, s.id);
      forall e ensures e !in EdgesFrom(g.edges, s.id) {
        assert e in g.edges && s.id == e.from ==> !s.kind.Export?;
      }
      NoMembers(EdgesFrom(g.edges, s.id));
    }
  }

  /**
   * From any Source of a saved graph the worker's plan exists exactly when the enable-time check finds no
   * structural violation, and the plan is the order in which the check walked.
   */
  lemma ChecksAgree(g: Graph, rows: map<Id, nat>, components: seq<PlanNode>, source: Step)
    requires SaveValid(g) && Joins(g, rows, components) && source in g.steps && source.kind.Source?
    ensures HasPlan(components, g.edges, source.id) <==> StructurallyExecutable(g)
    ensures forall order :: IsPlan(components, g.edges, source.id, order) ==>
              LinearWalk(g.edges, source.id, NodeIds(order))
  {
    SavedExportsEnd(g);
    PlanExactly(g, rows, components, source);
  }

  lemma ExecutableHasPlanFrom(g: Graph, rows: map<Id, nat>, components: seq<PlanNode>, source: Step)
    requires Sound(g) && Joins(g, rows, components) && source in g.steps && source.kind.Source?
    requires StructurallyExecutable(g) && ExportsEnd(g)
    ensures HasPlan(components, g.edges, source.id)
  {
    var order := ExecutableHasPlan(g, rows);
    SourceLeads(g, rows, order, source);
    assert IsPlan(components, g.edges, source.id, order);
  }

  lemma SourceLeads(g: Graph, rows: map<Id, nat>, order: seq<PlanNode>, source: Step)
    requires StepIds(g.steps) <= rows.Keys && IsChain(NodesOf(g.steps, rows), g.edges, order)
    requires source in g.steps && source.kind.Source?
    ensures order[0].id == source.id
  {
    var k := StepInOrder(g, rows, order, source);
  }

  /** A saved graph has no cycle through a Source, so the worker's walk over it ends. */
  lemma SavedGraphsEnd(g: Graph, source: Id)
    requires SaveValid(g)
    ensures !ReachesPlus(EdgeSet(g.edges), source, source)
  {
  }

  lemma ChainHasNoCycle(edges: seq<Edge>, ids: seq<Id>)
    requires LinksInOrder(edges, ids)
    ensures Acyclic(EdgeSet(edges))
  {
    SameElements(edges, Links(ids));
    forall a ensures !ReachesPlus(EdgeSet(edges), a, a) {
      if ReachesPlus(EdgeSet(edges), a, a) {
        var m :| Edge(a, m) in EdgeSet(edges) && Reaches(EdgeSet(edges), m, a);
        var i :| 0 <= i < |Links(ids)| && Links(ids)[i] == Edge(a, m);
        var later := set k | i < k < |ids| :: ids[k];
        LaterIsClosed(edges, ids, i, later);
        ClosedKeepsReach(EdgeSet(edges), later, m, a);
        assert false;
      }
    }
  }

  lemma LaterIsClosed(edges: seq<Edge>, ids: seq<Id>, i: nat, later: set<Id>)
    requires LinksInOrder(edges, ids) && later == set k | i < k < |ids| :: ids[k]
    ensures Closed(EdgeSet(edges), later)
  {
    forall e | e in EdgeSet(edges) && e.from in later ensures e.to in later {
      var k :| i < k < |ids| && ids[k] == e.from;
      ChainEdge(edges, ids, e, k);
    }
  }

  // ---------- Chains pass every check ----------

  lemma ForwardReach(edges: seq<Edge>, ids: seq<Id>, i: nat, j: nat)
    requires LinksInOrder(edges, ids) && i <= j < |ids|
    ensures Reaches(EdgeSet(edges), ids[i], ids[j])
  {
    var rest := ids[i..];
    ChainFollows(edges, ids);
    forall k | 0 <= k < |rest| - 1 ensures Edge(rest[k], rest[k + 1]) in edges {
      assert Edge(ids[i + k], ids[i + k + 1]) in edges;
    }
    WalkReaches(edges, rest, j - i);
  }

  ghost predicate ChainShape(steps: seq<Step>) {
    && |steps| >= 2 && UniqueIds(steps)
    && steps[0].kind.Source? && steps[|steps| - 1].kind.Export?
    && (forall i :: 0 < i < |steps| - 1 ==> steps[i].kind.Transform?)
    && forall s :: s in steps ==> ContractId(s.id)
  }

  lemma ChainFlows(steps: seq<Step>, g: Graph)
    requires ChainShape(steps) && g == Graph(steps, Links(IdsOf(steps)))
    ensures EdgesReferToSteps(g) && NoSelfLoops(g) && FlowsForward(g)
  {
    forall e | e in g.edges ensures e.from in StepIds(steps) && e.to in StepIds(steps) && e.from != e.to {
      var i :| 0 <= i < |g.edges| && g.edges[i] == e;
      assert steps[i] in steps && steps[i + 1] in steps;
    }
    forall e, s | e in g.edges && s in steps
      ensures (s.id == e.from ==> !s.kind.Export?) && (s.id == e.to ==> !s.kind.Source?)
    {
      var i :| 0 <= i < |g.edges| && g.edges[i] == e;
      var k :| 0 <= k < |steps| && steps[k] == s;
      StepAtEdge(steps, i, k);
    }
  }

  lemma StepAtEdge(steps: seq<Step>, i: nat, k: nat)
    requires ChainShape(steps) && i + 1 < |steps| && k < |steps|
    ensures steps[k].id == steps[i].id ==> !steps[k].kind.Export?
    ensures steps[k].id == steps[i + 1].id ==> !steps[k].kind.Source?
  {
    assert steps[k].id == steps[i].id ==> k == i;
    assert steps[k].id == steps[i + 1].id ==> k == i + 1;
  }

  lemma ChainKeysDiffer(steps: seq<Step>, g: Graph)
    requires ChainShape(steps) && g == Graph(steps, Links(IdsOf(steps)))
    ensures UniqueEdgeKeys(g.edges)
  {
    assert forall i :: 0 <= i < |g.edges| ==> g.edges[i].from == steps[i].id && steps[i] in steps;
    KeysAreEdges(g.edges);
  }

  lemma ChainOnPath(steps: seq<Step>, g: Graph)
    requires ChainShape(steps) && g == Graph(steps, Links(IdsOf(steps)))
    ensures EveryStepOnPath(g)
  {
    var ids := IdsOf(steps);
    assert LinksInOrder(g.edges, ids);
    assert steps[0] in g.steps && steps[|steps| - 1] in g.steps;
    forall s {:trigger OnSourceToExportPath(g, s.id)} | s in g.steps ensures !s.id.Empty() && OnSourceToExportPath(g, s.id) {
      var k :| 0 <= k < |steps| && steps[k] == s;
      ForwardReach(g.edges, ids, 0, k);
      ForwardReach(g.edges, ids, k, |steps| - 1);
    }
  }

  lemma ChainIsSaved(steps: seq<Step>)
    requires ChainShape(steps)
    ensures SaveValid(Graph(steps, Links(IdsOf(steps))))
  {
    var g := Graph(steps, Links(IdsOf(steps)));
    ChainFlows(steps, g);
    ChainKeysDiffer(steps, g);
    ChainOnPath(steps, g);
    assert LinksInOrder(g.edges, IdsOf(steps));
    ChainHasNoCycle(g.edges, IdsOf(steps));
    assert steps[0] in g.steps && steps[|steps| - 1] in g.steps;
  }

  /** The steps as they stand are the order of the chain. */
  lemma ChainIsInOrder(steps: seq<Step>, g: Graph, rows: map<Id, nat>)
    requires ChainShape(steps) && g == Graph(steps, Links(IdsOf(steps))) && rows.Keys == StepIds(steps)
    ensures ChainedGraph(g, rows, NodesOf(steps, rows))
  {
    ChainFlows(steps, g);
    assert NodeIds(NodesOf(steps, rows)) == IdsOf(steps);
    assert SourceToExport(NodesOf(steps, rows));
  }

  /** A chain also passes the enable-time check: save validation leaves nothing behind its Export. */
  lemma ChainIsExecutable(steps: seq<Step>)
    requires ChainShape(steps)
    ensures StructurallyExecutable(Graph(steps, Links(IdsOf(steps))))
  {
    var g := Graph(steps, Links(IdsOf(steps)));
    var rows := map id | id in StepIds(steps) :: 0;
    ChainIsInOrder(steps, g, rows);
    PlanIsExecutable(g, rows, NodesOf(steps, rows));
  }

  // ---------- Graphs the enable-time check alone lets through ----------

  ghost predicate NeverPlanned(g: Graph, source: Id) {
    forall rows, components :: Joins(g, rows, components) ==> !HasPlan(components, g.edges, source)
  }

  lemma OpenExportIsNeverPlanned(g: Graph, source: Step)
    requires Sound(g) && source in g.steps && source.kind.Source? && !ExportsEnd(g)
    ensures NeverPlanned(g, source.id)
  {
    forall rows, components | Joins(g, rows, components) ensures !HasPlan(components, g.edges, source.id) {
      PlanExactly(g, rows, components, source);
    }
  }

  lemma ThreeSteps() returns (source: Step, sink: Step, extra: Step)
    ensures source.kind.Source? && sink.kind.Export? && extra.kind.Transform?
    ensures source.id != sink.id && source.id != extra.id && sink.id != extra.id
    ensures ContractId(source.id) && ContractId(sink.id) && ContractId(extra.id)
  {
    var none := Configuration(map[], []);
    var a, b, c := Id("a"), Id("b"), Id("c");
    source := Step(a, Source, "source.csv", "v1", none);
    sink := Step(b, Export, "export.csv", "v1", none);
    extra := Step(c, Transform, "transform.columns", "v1", none);
    assert a.text != b.text && a.text != c.text && b.text != c.text;
  }

  /** A chain whose Export leads back to its Source: accepted, and the worker's walk does not end. */
  lemma CheckAloneAcceptsCycle() returns (g: Graph, source: Step)
    ensures Sound(g) && StructurallyExecutable(g) && source in g.steps && source.kind.Source?
    ensures ReachesPlus(EdgeSet(g.edges), source.id, source.id) && NeverPlanned(g, source.id)
  {
    var sink, extra;
    source, sink, extra := ThreeSteps();
    g := Graph([source, sink], [Edge(source.id, sink.id), Edge(sink.id, source.id)]);
    TwoStepCycle(g, source, sink);
    OpenExportIsNeverPlanned(g, source);
  }

  /** Without any cycle: a Transform behind the Export. The check accepts, and the worker finds no plan. */
  lemma CheckAloneAcceptsTail() returns (g: Graph, source: Step)
    ensures Sound(g) && StructurallyExecutable(g) && source in g.steps && source.kind.Source?
    ensures Acyclic(EdgeSet(g.edges)) && NeverPlanned(g, source.id)
  {
    var sink, extra;
    source, sink, extra := ThreeSteps();
    g := Graph([source, sink, extra], [Edge(source.id, sink.id), Edge(sink.id, extra.id)]);
    ThreeStepTail(g, source, sink, extra);
    OpenExportIsNeverPlanned(g, source);
  }

  lemma TwoStepCycle(g: Graph, source: Step, sink: Step)
    requires source.kind.Source? && sink.kind.Export? && source.id != sink.id
    requires g == Graph([source, sink], [Edge(source.id, sink.id), Edge(sink.id, source.id)])
    ensures Sound(g) && StructurallyExecutable(g) && !ExportsEnd(g)
    ensures source in g.steps && ReachesPlus(EdgeSet(g.edges), source.id, source.id)
  {
    assert sink in g.steps;
    CycleIsExecutable(g, source, sink);
    ArcReaches(EdgeSet(g.edges), sink.id, source.id);
    assert Edge(source.id, sink.id) in EdgeSet(g.edges);
  }

  lemma CycleIsExecutable(g: Graph, source: Step, sink: Step)
    requires source.kind.Source? && sink.kind.Export? && source.id != sink.id
    requires g == Graph([source, sink], [Edge(source.id, sink.id), Edge(sink.id, source.id)])
    ensures StructurallyExecutable(g) && !ExportsEnd(g)
  {
    CycleIndexes(g.edges, source.id, sink.id);
    CycleWalk(g.edges, source.id, sink.id);
    EndsOfKind(g.steps, source, sink, []);
    assert sink in g.steps;
    ExecutableByWalk(g, source, sink, [source.id, sink.id]);
  }

  lemma CycleIndexes(edges: seq<Edge>, a: Id, b: Id)
    requires a != b && edges == [Edge(a, b), Edge(b, a)]
    ensures EdgesFrom(edges, a) == [Edge(a, b)] && EdgesFrom(edges, b) == [Edge(b, a)]
    ensures EdgesTo(edges, a) == [Edge(b, a)] && EdgesTo(edges, b) == [Edge(a, b)]
  {
    TwoEdges(edges, Edge(a, b), Edge(b, a), a);
    TwoEdges(edges, Edge(a, b), Edge(b, a), b);
  }

  lemma CycleWalk(edges: seq<Edge>, a: Id, b: Id)
    requires a != b && EdgesFrom(edges, a) == [Edge(a, b)] && EdgesFrom(edges, b) == [Edge(b, a)]
    ensures LinearWalk(edges, a, [a, b])
  {
    assert [a, b][0] == a && a in [a, b];
  }

  lemma ExecutableByWalk(g: Graph, source: Step, sink: Step, walk: seq<Id>)
    requires StepsOfKind(g.steps, Source) == [source] && StepsOfKind(g.steps, Export) == [sink]
    requires LinearWalk(g.edges, source.id, walk)
    requires forall s :: s in g.steps ==> s.id in walk
    requires forall s :: s in g.steps ==> |EdgesFrom(g.edges, s.id)| <= 1 && |EdgesTo(g.edges, s.id)| <= 1
    ensures StructurallyExecutable(g)
  {
  }

  ghost predicate IsTail(g: Graph, source: Step, sink: Step, extra: Step) {
    && source.kind.Source? && sink.kind.Export? && extra.kind.Transform?
    && source.id != sink.id && source.id != extra.id && sink.id != extra.id
    && g == Graph([source, sink, extra], [Edge(source.id, sink.id), Edge(sink.id, extra.id)])
  }

  lemma ThreeStepTail(g: Graph, source: Step, sink: Step, extra: Step)
    requires IsTail(g, source, sink, extra)
    ensures Sound(g) && StructurallyExecutable(g) && !ExportsEnd(g) && source in g.steps && Acyclic(EdgeSet(g.edges))
  {
    var a, b, c := source.id, sink.id, extra.id;
    assert sink in g.steps && extra in g.steps;
    TailIsExecutable(g, source, sink, extra);
    assert Links([a, b, c]) == g.edges;
    ChainHasNoCycle(g.edges, [a, b, c]);
  }

  lemma TailIsExecutable(g: Graph, source: Step, sink: Step, extra: Step)
    requires IsTail(g, source, sink, extra)
    ensures StructurallyExecutable(g) && !ExportsEnd(g)
  {
    var a, b, c := source.id, sink.id, extra.id;
    TwoEdges(g.edges, Edge(a, b), Edge(b, c), a);
    TwoEdges(g.edges, Edge(a, b), Edge(b, c), b);
    TwoEdges(g.edges, Edge(a, b), Edge(b, c), c);
    EndsOfKind(g.steps, source, sink, [extra]);
    assert sink in g.steps;
    var walk := [a, b, c];
    assert walk[0] == a && walk[1] == b && walk[2] == c;
    assert LinearWalk(g.edges, a, walk);
    ExecutableByWalk(g, source, sink, walk);
  }

  lemma EndsOfKind(steps: seq<Step>, source: Step, sink: Step, rest: seq<Step>)
    requires source.kind.Source? && sink.kind.Export? && |rest| <= 1 && forall s :: s in rest ==> s.kind.Transform?
    requires steps == [source, sink] + rest
    ensures StepsOfKind(steps, Source) == [source] && StepsOfKind(steps, Export) == [sink]
  {
    assert steps[1..] == [sink] + rest && steps[1..][1..] == rest;
    assert rest != [] ==> rest[0] in rest && rest[1..] == [];
    assert StepsOfKind(rest, Source) == [] && StepsOfKind(rest, Export) == [];
    assert StepsOfKind(steps[1..], Source) == [] && StepsOfKind(steps[1..], Export) == [sink];
  }

  lemma TwoEdges(edges: seq<Edge>, x: Edge, y: Edge, id: Id)
    requires edges == [x, y]
    ensures EdgesFrom(edges, id) == (if x.from == id then [x] else []) + (if y.from == id then [y] else [])
    ensures EdgesTo(edges, id) == (if x.to == id then [x] else []) + (if y.to == id then [y] else [])
  {
    assert edges[..1] == [x] && [x][..0] == [];
    assert EdgesFrom([x], id) == if x.from == id then [x] else [];
    assert EdgesTo([x], id) == if x.to == id then [x] else [];
  }
}
