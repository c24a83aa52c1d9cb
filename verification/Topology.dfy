/** The indexes built over a graph before any rule is checked (packages/pipeline/src/topology.ts). */
module Topologies {
  import opened Graphs

  type EdgeIndex = map<Id, seq<Edge>>

  datatype Topology = Topology(stepsById: map<Id, Step>, outgoing: EdgeIndex, incoming: EdgeIndex)

  /** The edges leaving a step, in list order. */
  function EdgesFrom(edges: seq<Edge>, id: Id): seq<Edge> {
    if edges == [] then []
    else EdgesFrom(edges[..|edges| - 1], id)
         + (if edges[|edges| - 1].from == id then [edges[|edges| - 1]] else [])
  }

  /** The edges entering a step, in list order. */
  function EdgesTo(edges: seq<Edge>, id: Id): seq<Edge> {
    if edges == [] then []
    else EdgesTo(edges[..|edges| - 1], id)
         + (if edges[|edges| - 1].to == id then [edges[|edges| - 1]] else [])
  }

  function At(index: EdgeIndex, id: Id): seq<Edge> {
    if id in index then index[id] else []
  }

  /** The later of two steps with one identifier is the one that is found. */
  ghost predicate IndexesSteps(stepsById: map<Id, Step>, steps: seq<Step>) {
    && stepsById.Keys == StepIds(steps)
    && forall i :: 0 <= i < |steps| && (forall j :: i < j < |steps| ==> steps[j].id != steps[i].id)
         ==> stepsById[steps[i].id] == steps[i]
  }

  ghost predicate IndexesEdges(t: Topology, edges: seq<Edge>) {
    && (forall id :: At(t.outgoing, id) == EdgesFrom(edges, id))
    && (forall id :: At(t.incoming, id) == EdgesTo(edges, id))
    && (forall id :: id in t.outgoing ==> t.outgoing[id] != [])
    && (forall id :: id in t.incoming ==> t.incoming[id] != [])
  }

  lemma {:induction false} EdgesFromMembers(edges: seq<Edge>, id: Id)
    ensures forall e :: e in EdgesFrom(edges, id) <==> e in edges && e.from == id
  {
    if edges != [] {
      EdgesFromMembers(edges[..|edges| - 1], id);
      assert edges == edges[..|edges| - 1] + [edges[|edges| - 1]];
    }
  }

  lemma {:induction false} EdgesToMembers(edges: seq<Edge>, id: Id)
    ensures forall e :: e in EdgesTo(edges, id) <==> e in edges && e.to == id
  {
    if edges != [] {
      EdgesToMembers(edges[..|edges| - 1], id);
      assert edges == edges[..|edges| - 1] + [edges[|edges| - 1]];
    }
  }

  /** The edges at a step, from a list and one more edge: those of the list, and then the edge if it is at the step. */
  lemma EdgesInTurn(edges: seq<Edge>, e: Edge, id: Id)
    ensures EdgesFrom([], id) == [] && EdgesTo([], id) == []
    ensures EdgesFrom(edges + [e], id) == EdgesFrom(edges, id) + (if e.from == id then [e] else [])
    ensures EdgesTo(edges + [e], id) == EdgesTo(edges, id) + (if e.to == id then [e] else [])
  {
    assert (edges + [e])[..|edges|] == edges;
  }

  /** Append an edge to the list kept for one of its ends. */
  method AddEdge(index: EdgeIndex, id: Id, edge: Edge) returns (index': EdgeIndex)
    ensures index'.Keys == index.Keys + {id}
    ensures forall k :: At(index', k) == At(index, k) + (if k == id then [edge] else [])
  {
    if id in index {
      index' := index[id := index[id] + [edge]];
    } else {
      index' := index[id := [edge]];
    }
  }

  method IndexStepsById(steps: seq<Step>) returns (stepsById: map<Id, Step>)
    ensures IndexesSteps(stepsById, steps)
  {
    stepsById := map[];
    for i := 0 to |steps|
      invariant IndexesSteps(stepsById, steps[..i])
    {
      ghost var before := stepsById;
      stepsById := stepsById[steps[i].id := steps[i]];
      assert steps[..i + 1] == steps[..i] + [steps[i]];
      IndexedOneMore(before, steps[..i], steps[i]);
    }
    assert steps[..|steps|] == steps;
  }

  lemma IndexedOneMore(stepsById: map<Id, Step>, steps: seq<Step>, step: Step)
    requires IndexesSteps(stepsById, steps)
    ensures IndexesSteps(stepsById[step.id := step], steps + [step])
  {
    var longer := steps + [step];
    var grown := stepsById[step.id := step];
    assert StepIds(longer) == StepIds(steps) + {step.id} by {
      forall s | s in steps ensures s in longer {}
      assert longer[|steps|] == step;
    }
    forall i | 0 <= i < |longer| && (forall j :: i < j < |longer| ==> longer[j].id != longer[i].id)
      ensures grown[longer[i].id] == longer[i]
    {
      if i < |steps| {
        assert longer[|steps|].id != longer[i].id;
        forall j | i < j < |steps| ensures steps[j].id != steps[i].id {
          assert longer[j] == steps[j];
        }
      }
    }
  }

  /** Index the next edge under both of its ends. */
  method IndexEdge(t: Topology, edges: seq<Edge>, i: nat) returns (t': Topology)
    requires i < |edges| && IndexesEdges(t, edges[..i])
    ensures t'.stepsById == t.stepsById && IndexesEdges(t', edges[..i + 1])
  {
    var outgoing := AddEdge(t.outgoing, edges[i].from, edges[i]);
    var incoming := AddEdge(t.incoming, edges[i].to, edges[i]);
    t' := Topology(t.stepsById, outgoing, incoming);
    assert edges[..i + 1] == edges[..i] + [edges[i]];
    EdgesIndexedOneMore(t, t', edges[..i], edges[i]);
  }

  method BuildPipelineTopology(g: Graph) returns (t: Topology)
    ensures IndexesSteps(t.stepsById, g.steps)
    ensures IndexesEdges(t, g.edges)
  {
    var stepsById := IndexStepsById(g.steps);
    t := Topology(stepsById, map[], map[]);
    for i := 0 to |g.edges|
      invariant t.stepsById == stepsById
      invariant IndexesEdges(t, g.edges[..i])
    {
      t := IndexEdge(t, g.edges, i);
    }
    assert g.edges[..|g.edges|] == g.edges;
  }

  lemma EdgesIndexedOneMore(t: Topology, t': Topology, edges: seq<Edge>, edge: Edge)
    requires IndexesEdges(t, edges)
    requires t'.outgoing.Keys == t.outgoing.Keys + {edge.from} && t'.incoming.Keys == t.incoming.Keys + {edge.to}
    requires forall k :: At(t'.outgoing, k) == At(t.outgoing, k) + (if k == edge.from then [edge] else [])
    requires forall k :: At(t'.incoming, k) == At(t.incoming, k) + (if k == edge.to then [edge] else [])
    ensures IndexesEdges(t', edges + [edge])
  {
    assert (edges + [edge])[..|edges|] == edges;
    forall id ensures At(t'.outgoing, id) == EdgesFrom(edges + [edge], id) {}
    forall id ensures At(t'.incoming, id) == EdgesTo(edges + [edge], id) {}
    forall id | id in t'.outgoing ensures t'.outgoing[id] != [] {
      assert At(t'.outgoing, id) == t'.outgoing[id];
      if id in t.outgoing { assert At(t.outgoing, id) == t.outgoing[id]; }
    }
    forall id | id in t'.incoming ensures t'.incoming[id] != [] {
      assert At(t'.incoming, id) == t'.incoming[id];
      if id in t.incoming { assert At(t.incoming, id) == t.incoming[id]; }
    }
  }
}
