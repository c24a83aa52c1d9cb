/** Linear chains: the only shape the worker can execute, defined apart from any walk that finds one. */
module Chains {
  import opened Graphs

  /** One persisted component joined to the row of its run step. */
  datatype PlanNode = PlanNode(id: Id, kind: Kind, row: nat)

  function NodeIds(order: seq<PlanNode>): (ids: seq<Id>)
    ensures |ids| == |order| && forall i :: 0 <= i < |ids| ==> ids[i] == order[i].id
  {
    seq(|order|, i requires 0 <= i < |order| => order[i].id)
  }

  /** Each identifier linked to the one after it. */
  function Links(ids: seq<Id>): (links: seq<Edge>)
    ensures |links| == if ids == [] then 0 else |ids| - 1
    ensures forall i :: 0 <= i < |links| ==> links[i] == Edge(ids[i], ids[i + 1])
  {
    if ids == [] then [] else seq(|ids| - 1, i requires 0 <= i < |ids| - 1 => Edge(ids[i], ids[i + 1]))
  }

  ghost predicate Distinct<T>(s: seq<T>) {
    forall i, j :: 0 <= i < j < |s| ==> s[i] != s[j]
  }

  /** The edges are exactly the links of the sequence, in some order. */
  ghost predicate LinksInOrder(edges: seq<Edge>, ids: seq<Id>) {
    Distinct(ids) && multiset(edges) == multiset(Links(ids))
  }

  ghost predicate SourceToExport(order: seq<PlanNode>) {
    && |order| >= 2
    && order[0].kind.Source?
    && order[|order| - 1].kind.Export?
    && forall i :: 0 < i < |order| - 1 ==> order[i].kind.Transform?
  }

  /** The nodes form one Source, its Transforms and one Export, linked in this order and nothing else. */
  ghost predicate IsChain(nodes: seq<PlanNode>, edges: seq<Edge>, order: seq<PlanNode>) {
    multiset(nodes) == multiset(order) && LinksInOrder(edges, NodeIds(order)) && SourceToExport(order)
  }

  // ---------- Sequences without repetition ----------

  lemma {:induction false} DistinctCount<T>(s: seq<T>, x: T)
    requires Distinct(s)
    ensures multiset(s)[x] == if x in s then 1 else 0
  {
    if s != [] {
      assert s == s[..|s| - 1] + [s[|s| - 1]];
      DistinctCount(s[..|s| - 1], x);
    }
  }

  lemma SameMembers<T>(a: seq<T>, b: seq<T>)
    requires Distinct(a) && Distinct(b) && (forall x :: x in a <==> x in b)
    ensures multiset(a) == multiset(b)
  {
    forall x ensures multiset(a)[x] == multiset(b)[x] {
      DistinctCount(a, x);
      DistinctCount(b, x);
    }
  }

  /** Distinct members of a list of the same length exhaust it. */
  lemma FillsList<T>(a: seq<T>, b: seq<T>)
    requires Distinct(a) && (forall x :: x in a ==> x in b) && |a| == |b|
    ensures multiset(a) == multiset(b)
  {
    forall x ensures multiset(a)[x] <= multiset(b)[x] {
      DistinctCount(a, x);
    }
    assert multiset(a) <= multiset(b);
    assert |multiset(b) - multiset(a)| == 0;
    assert multiset(b) == multiset(a) + (multiset(b) - multiset(a));
  }

  lemma SameElements<T>(a: seq<T>, b: seq<T>)
    requires multiset(a) == multiset(b)
    ensures |a| == |b| && forall x :: x in a <==> x in b
  {
    assert |multiset(a)| == |a| && |multiset(b)| == |b|;
    forall x ensures x in a <==> x in b {
      assert x in a <==> x in multiset(a);
      assert x in b <==> x in multiset(b);
    }
  }

  // ---------- Chains are unique ----------

  /** An edge of a chain leads from one position to the next. */
  lemma ChainEdge(edges: seq<Edge>, ids: seq<Id>, e: Edge, i: nat)
    requires LinksInOrder(edges, ids) && e in edges && i < |ids| && ids[i] == e.from
    ensures i + 1 < |ids| && ids[i + 1] == e.to
  {
    SameElements(edges, Links(ids));
    var k :| 0 <= k < |Links(ids)| && Links(ids)[k] == e;
    assert ids[k] == ids[i];
  }

  lemma ChainLink(edges: seq<Edge>, ids: seq<Id>, i: nat)
    requires LinksInOrder(edges, ids) && i + 1 < |ids|
    ensures Edge(ids[i], ids[i + 1]) in edges
  {
    SameElements(edges, Links(ids));
    assert Links(ids)[i] in Links(ids);
  }

  ghost predicate Follows(edges: seq<Edge>, walk: seq<Id>) {
    forall i :: 0 <= i < |walk| - 1 ==> Edge(walk[i], walk[i + 1]) in edges
  }

  /** Any walk along the edges from the head of a chain is a prefix of the chain. */
  lemma {:induction false} WalkIsPrefix(edges: seq<Edge>, ids: seq<Id>, walk: seq<Id>)
    requires LinksInOrder(edges, ids) && ids != [] && walk != [] && walk[0] == ids[0] && Follows(edges, walk)
    ensures walk <= ids
    decreases |walk|
  {
    if |walk| > 1 {
      var shorter := walk[..|walk| - 1];
      WalkIsPrefix(edges, ids, shorter);
      assert Edge(walk[|walk| - 2], walk[|walk| - 2 + 1]) in edges;
      ChainEdge(edges, ids, Edge(walk[|walk| - 2], walk[|walk| - 2 + 1]), |walk| - 2);
    }
  }

  /** A walk that cannot be continued is the whole chain. */
  lemma WalkIsChain(edges: seq<Edge>, ids: seq<Id>, walk: seq<Id>)
    requires LinksInOrder(edges, ids) && ids != [] && walk != [] && walk[0] == ids[0] && Follows(edges, walk)
    requires forall e :: e in edges ==> e.from != walk[|walk| - 1]
    ensures walk == ids
  {
    WalkIsPrefix(edges, ids, walk);
    if |walk| < |ids| {
      ChainLink(edges, ids, |walk| - 1);
    }
  }

  lemma ChainFollows(edges: seq<Edge>, ids: seq<Id>)
    requires LinksInOrder(edges, ids) && ids != []
    ensures Follows(edges, ids) && forall e :: e in edges ==> e.from != ids[|ids| - 1]
  {
    forall i | 0 <= i < |ids| - 1 ensures Edge(ids[i], ids[i + 1]) in edges {
      ChainLink(edges, ids, i);
    }
    forall e | e in edges ensures e.from != ids[|ids| - 1] {
      if e.from == ids[|ids| - 1] {
        ChainEdge(edges, ids, e, |ids| - 1);
      }
    }
  }

  /** Nodes with the same identifier are the same when identifiers are distinct. */
  lemma NodesFollowIds(nodes: seq<PlanNode>, a: seq<PlanNode>, b: seq<PlanNode>)
    requires multiset(nodes) == multiset(a) && Distinct(NodeIds(a))
    requires (forall i :: 0 <= i < |b| ==> b[i] in nodes) && NodeIds(a) == NodeIds(b)
    ensures a == b
  {
    SameElements(nodes, a);
    assert |a| == |NodeIds(a)| == |NodeIds(b)| == |b|;
    forall i | 0 <= i < |a| ensures a[i] == b[i] {
      assert b[i] in a;
      var k :| 0 <= k < |a| && a[k] == b[i];
      assert NodeIds(a)[k] == NodeIds(b)[i] == NodeIds(a)[i];
    }
  }

  /** The only Source of a chain is its head. */
  lemma HeadIsOnlySource(nodes: seq<PlanNode>, edges: seq<Edge>, order: seq<PlanNode>, n: PlanNode)
    requires IsChain(nodes, edges, order) && n in nodes && n.kind.Source?
    ensures n == order[0]
  {
    SameElements(nodes, order);
    var k :| 0 <= k < |order| && order[k] == n;
  }

  /** No graph has two chain orders. */
  lemma ChainIsUnique(nodes: seq<PlanNode>, edges: seq<Edge>, a: seq<PlanNode>, b: seq<PlanNode>)
    requires IsChain(nodes, edges, a) && IsChain(nodes, edges, b)
    ensures a == b
  {
    SameElements(nodes, a);
    SameElements(nodes, b);
    assert a[0] in nodes;
    HeadIsOnlySource(nodes, edges, b, a[0]);
    ChainFollows(edges, NodeIds(b));
    WalkIsChain(edges, NodeIds(a), NodeIds(b));
    forall i | 0 <= i < |b| ensures b[i] in nodes {
      assert b[i] in b;
    }
    NodesFollowIds(nodes, a, b);
  }

  /** The order of the lists does not matter. */
  lemma ChainIgnoresListOrder(nodes: seq<PlanNode>, nodes': seq<PlanNode>, edges: seq<Edge>, edges': seq<Edge>,
                              order: seq<PlanNode>)
    requires multiset(nodes) == multiset(nodes') && multiset(edges) == multiset(edges')
    ensures IsChain(nodes, edges, order) <==> IsChain(nodes', edges', order)
  {
  }

  lemma {:induction false} DistinctIsSmall<T>(s: seq<T>, all: set<T>)
    requires Distinct(s) && forall x :: x in s ==> x in all
    ensures |s| <= |all|
    decreases |s|
  {
    if s != [] {
      var last := s[|s| - 1];
      forall x | x in s[..|s| - 1] ensures x in all - {last} {}
      DistinctIsSmall(s[..|s| - 1], all - {last});
    }
  }
}
