/** Pipeline graphs as the contracts describe them, and the paths through them. */
module Graphs {

  datatype Kind = Source | Transform | Export

  /** The identity of a step. The empty text counts as no identifier at all. */
  datatype Id = Id(text: string) {
    predicate Empty() { text == "" }
  }

  datatype Configuration = Configuration(values: map<string, string>, secretBindings: seq<(string, string)>)

  datatype Step = Step(id: Id, kind: Kind, componentType: string, componentVersion: string,
                       configuration: Configuration)

  datatype Edge = Edge(from: Id, to: Id)

  datatype Graph = Graph(steps: seq<Step>, edges: seq<Edge>)

  lemma TakeOneMore<T>(s: seq<T>, i: nat)
    requires i < |s|
    ensures s[..i + 1] == s[..i] + [s[i]]
  {
  }

  lemma SomeLeft<T>(rows: set<T>) returns (row: T)
    requires rows != {}
    ensures row in rows
  {
    row :| row in rows;
  }

  function StepIds(steps: seq<Step>): set<Id> {
    set s | s in steps :: s.id
  }

  function EdgeSet(edges: seq<Edge>): set<Edge> {
    set e | e in edges
  }

  ghost predicate UniqueIds(steps: seq<Step>) {
    forall i, j :: 0 <= i < j < |steps| ==> steps[i].id != steps[j].id
  }

  function StepsOfKind(steps: seq<Step>, kind: Kind): seq<Step> {
    if steps == [] then []
    else (if steps[0].kind == kind then [steps[0]] else []) + StepsOfKind(steps[1..], kind)
  }

  lemma {:induction false} StepsOfKindMembers(steps: seq<Step>, kind: Kind)
    ensures forall s :: s in StepsOfKind(steps, kind) <==> s in steps && s.kind == kind
  {
    if steps != [] {
      StepsOfKindMembers(steps[1..], kind);
      assert steps == [steps[0]] + steps[1..];
    }
  }

  /** The steps of a kind, in list order. */
  lemma {:induction false} StepsOfKindOneMore(steps: seq<Step>, step: Step, kind: Kind)
    ensures StepsOfKind([], kind) == []
    ensures StepsOfKind(steps + [step], kind) == StepsOfKind(steps, kind) + (if step.kind == kind then [step] else [])
  {
    if steps != [] {
      StepsOfKindOneMore(steps[1..], step, kind);
      assert (steps + [step])[1..] == steps[1..] + [step];
    }
  }

  function IdsOf(steps: seq<Step>): (ids: seq<Id>)
    ensures |ids| == |steps| && forall i :: 0 <= i < |ids| ==> ids[i] == steps[i].id
  {
    seq(|steps|, i requires 0 <= i < |steps| => steps[i].id)
  }

  // ---------- Paths ----------

  ghost predicate IsPath(arcs: set<Edge>, p: seq<Id>) {
    |p| > 0 && forall i :: 0 <= i < |p| - 1 ==> Edge(p[i], p[i + 1]) in arcs
  }

  ghost predicate PathBetween(arcs: set<Edge>, p: seq<Id>, a: Id, b: Id) {
    IsPath(arcs, p) && p[0] == a && p[|p| - 1] == b
  }

  /** b is reached from a by zero or more arcs. */
  ghost predicate Reaches(arcs: set<Edge>, a: Id, b: Id) {
    exists p :: PathBetween(arcs, p, a, b)
  }

  /** b is reached from a by at least one arc. */
  ghost predicate ReachesPlus(arcs: set<Edge>, a: Id, b: Id) {
    exists m :: Edge(a, m) in arcs && Reaches(arcs, m, b)
  }

  /** A cycle that can be reached from a step. */
  ghost predicate CycleAhead(arcs: set<Edge>, a: Id) {
    exists v :: Reaches(arcs, a, v) && ReachesPlus(arcs, v, v)
  }

  ghost predicate Acyclic(arcs: set<Edge>) {
    forall a :: !ReachesPlus(arcs, a, a)
  }

  ghost predicate Closed(arcs: set<Edge>, nodes: set<Id>) {
    forall e :: e in arcs && e.from in nodes ==> e.to in nodes
  }

  function Reversed(arcs: set<Edge>): set<Edge> {
    set e | e in arcs :: Edge(e.to, e.from)
  }

  lemma ReachesSelf(arcs: set<Edge>, a: Id)
    ensures Reaches(arcs, a, a)
  {
    assert PathBetween(arcs, [a], a, a);
  }

  lemma ReachesTransitive(arcs: set<Edge>, a: Id, b: Id, c: Id)
    requires Reaches(arcs, a, b) && Reaches(arcs, b, c)
    ensures Reaches(arcs, a, c)
  {
    var p :| PathBetween(arcs, p, a, b);
    var q :| PathBetween(arcs, q, b, c);
    var r := p + q[1..];
    forall i | 0 <= i < |r| - 1 ensures Edge(r[i], r[i + 1]) in arcs {
      if i < |p| - 1 {
        assert r[i] == p[i] && r[i + 1] == p[i + 1];
      } else {
        assert r[i] == q[i - (|p| - 1)] && r[i + 1] == q[i - (|p| - 1) + 1];
      }
    }
    assert PathBetween(arcs, r, a, c);
  }

  lemma ArcReaches(arcs: set<Edge>, a: Id, b: Id)
    requires Edge(a, b) in arcs
    ensures Reaches(arcs, a, b)
  {
    assert PathBetween(arcs, [a, b], a, b);
  }

  lemma PlusThenReaches(arcs: set<Edge>, a: Id, b: Id, c: Id)
    requires ReachesPlus(arcs, a, b) && Reaches(arcs, b, c)
    ensures ReachesPlus(arcs, a, c)
  {
    var m :| Edge(a, m) in arcs && Reaches(arcs, m, b);
    ReachesTransitive(arcs, m, b, c);
  }

  lemma ReachesThenPlus(arcs: set<Edge>, a: Id, b: Id, c: Id)
    requires Reaches(arcs, a, b) && ReachesPlus(arcs, b, c)
    ensures ReachesPlus(arcs, a, c)
  {
    var p :| PathBetween(arcs, p, a, b);
    if |p| > 1 {
      var m :| Edge(b, m) in arcs && Reaches(arcs, m, c);
      ArcReaches(arcs, b, m);
      ReachesTransitive(arcs, b, m, c);
      assert PathBetween(arcs, p[1..], p[1], b);
      ReachesTransitive(arcs, p[1], b, c);
    }
  }

  lemma MoreArcsReachPlus(fewer: set<Edge>, more: set<Edge>, a: Id, b: Id)
    requires fewer <= more && ReachesPlus(fewer, a, b)
    ensures ReachesPlus(more, a, b)
  {
    var m :| Edge(a, m) in fewer && Reaches(fewer, m, b);
    var p :| PathBetween(fewer, p, m, b);
    assert PathBetween(more, p, m, b);
  }

  /** What a closed set cannot be left by. */
  lemma {:induction false} ClosedKeepsPath(arcs: set<Edge>, nodes: set<Id>, p: seq<Id>)
    requires Closed(arcs, nodes) && IsPath(arcs, p) && p[0] in nodes
    ensures p[|p| - 1] in nodes
    decreases |p|
  {
    if |p| > 1 {
      assert Edge(p[0], p[1]) in arcs;
      ClosedKeepsPath(arcs, nodes, p[1..]);
    }
  }

  lemma ClosedKeepsReach(arcs: set<Edge>, nodes: set<Id>, a: Id, b: Id)
    requires Closed(arcs, nodes) && a in nodes && Reaches(arcs, a, b)
    ensures b in nodes
  {
    var p :| PathBetween(arcs, p, a, b);
    ClosedKeepsPath(arcs, nodes, p);
  }

  lemma {:induction false} ReversedPath(arcs: set<Edge>, a: Id, b: Id)
    requires Reaches(arcs, a, b)
    ensures Reaches(Reversed(arcs), b, a)
  {
    var p :| PathBetween(arcs, p, a, b);
    var q := seq(|p|, i requires 0 <= i < |p| => p[|p| - 1 - i]);
    forall i | 0 <= i < |q| - 1 ensures Edge(q[i], q[i + 1]) in Reversed(arcs) {
      assert Edge(p[|p| - 2 - i], p[|p| - 2 - i + 1]) in arcs;
    }
    assert PathBetween(Reversed(arcs), q, b, a);
  }

  lemma ReversedTwice(arcs: set<Edge>)
    ensures Reversed(Reversed(arcs)) == arcs
  {
    forall e | e in arcs ensures e in Reversed(Reversed(arcs)) {
      assert Edge(e.to, e.from) in Reversed(arcs);
    }
  }

  lemma ReversedReach(arcs: set<Edge>, a: Id, b: Id)
    ensures Reaches(arcs, a, b) <==> Reaches(Reversed(arcs), b, a)
  {
    if Reaches(arcs, a, b) {
      ReversedPath(arcs, a, b);
    }
    if Reaches(Reversed(arcs), b, a) {
      ReversedPath(Reversed(arcs), b, a);
      ReversedTwice(arcs);
    }
  }
}
