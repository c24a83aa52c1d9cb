/** Following one next step after the other, without remembering where one has been. */
module Following {
  import opened Wrappers
  import opened Graphs
  import opened Chains

  /** The step a walk stands on after n moves, while there is one. */
  function After(targets: map<Id, Id>, start: Id, n: nat): Option<Id> {
    if n == 0 then Some(start)
    else match After(targets, start, n - 1)
      case None => None
      case Some(v) => if v in targets then Some(targets[v]) else None
  }

  /** A loop that goes on while there is a next step returns. */
  ghost predicate Ends(targets: map<Id, Id>, start: Id) {
    exists n: nat :: After(targets, start, n).None?
  }

  function MapArcs(targets: map<Id, Id>): set<Edge> {
    set v | v in targets :: Edge(v, targets[v])
  }

  lemma {:induction false} StaysEnded(targets: map<Id, Id>, start: Id, n: nat, m: nat)
    requires n <= m && After(targets, start, n).None?
    ensures After(targets, start, m).None?
  {
    if n < m {
      StaysEnded(targets, start, n, m - 1);
    }
  }

  lemma EndsLater(targets: map<Id, Id>, start: Id, n: nat, end: nat)
    requires After(targets, start, n).Some? && After(targets, start, end).None?
    ensures n < end
  {
    if end <= n {
      StaysEnded(targets, start, end, n);
    }
  }

  lemma {:induction false} GoesOnFrom(targets: map<Id, Id>, start: Id, i: nat, n: nat)
    requires After(targets, start, i).Some?
    ensures After(targets, start, i + n) == After(targets, After(targets, start, i).value, n)
  {
    if n > 0 {
      GoesOnFrom(targets, start, i, n - 1);
    }
  }

  /** Who comes back to a step goes round for ever. */
  lemma {:induction false} RepeatGoesOn(targets: map<Id, Id>, start: Id, i: nat, j: nat, n: nat)
    requires i < j && After(targets, start, i).Some? && After(targets, start, i) == After(targets, start, j)
    ensures After(targets, start, n).Some?
  {
    if n <= j {
      if After(targets, start, n).None? {
        StaysEnded(targets, start, n, j);
      }
    } else {
      GoesOnFrom(targets, start, i, n - j);
      GoesOnFrom(targets, start, j, n - j);
      RepeatGoesOn(targets, start, i, j, i + (n - j));
    }
  }

  // ---------- Walks and arcs ----------

  lemma {:induction false} AfterReaches(targets: map<Id, Id>, start: Id, n: nat)
    requires After(targets, start, n).Some?
    ensures Reaches(MapArcs(targets), start, After(targets, start, n).value)
  {
    if n == 0 {
      ReachesSelf(MapArcs(targets), start);
    } else {
      AfterReaches(targets, start, n - 1);
      var v, w := After(targets, start, n - 1).value, After(targets, start, n).value;
      ArcReaches(MapArcs(targets), v, w);
      ReachesTransitive(MapArcs(targets), start, v, w);
    }
  }

  lemma AfterReachesPlus(targets: map<Id, Id>, start: Id, n: nat)
    requires n > 0 && After(targets, start, n).Some?
    ensures ReachesPlus(MapArcs(targets), start, After(targets, start, n).value)
  {
    if After(targets, start, 1).None? {
      StaysEnded(targets, start, 1, n);
    }
    assert After(targets, start, 0) == Some(start);
    GoesOnFrom(targets, start, 1, n - 1);
    AfterReaches(targets, After(targets, start, 1).value, n - 1);
    assert Edge(start, targets[start]) in MapArcs(targets);
  }

  lemma {:induction false} PathIsAfter(targets: map<Id, Id>, p: seq<Id>, k: nat)
    requires IsPath(MapArcs(targets), p) && k < |p|
    ensures After(targets, p[0], k) == Some(p[k])
  {
    if k > 0 {
      PathIsAfter(targets, p, k - 1);
      assert Edge(p[k - 1], p[k - 1 + 1]) in MapArcs(targets);
    }
  }

  lemma ReachIsAfter(targets: map<Id, Id>, a: Id, b: Id) returns (n: nat)
    requires Reaches(MapArcs(targets), a, b)
    ensures After(targets, a, n) == Some(b)
  {
    var p :| PathBetween(MapArcs(targets), p, a, b);
    n := |p| - 1;
    PathIsAfter(targets, p, n);
  }

  // ---------- When the loop returns ----------

  /** There are only finitely many steps with a next one, so a walk that goes on comes back. */
  lemma EndsOrReturns(targets: map<Id, Id>, start: Id) returns (i: nat, j: nat)
    requires !Ends(targets, start)
    ensures i < j && After(targets, start, i).Some? && After(targets, start, i) == After(targets, start, j)
  {
    var walk := seq(|targets| + 1, k requires 0 <= k => if After(targets, start, k).Some? then After(targets, start, k).value else start);
    forall k: nat | k < |walk| ensures After(targets, start, k) == Some(walk[k]) && walk[k] in targets {
      assert After(targets, start, k).Some? && After(targets, start, k + 1).Some?;
    }
    if Distinct(walk) {
      DistinctIsSmall(walk, targets.Keys);
    }
    i, j :| 0 <= i < j < |walk| && walk[i] == walk[j];
  }

  lemma CycleNeverEnds(targets: map<Id, Id>, start: Id)
    requires CycleAhead(MapArcs(targets), start)
    ensures !Ends(targets, start)
  {
    var arcs := MapArcs(targets);
    var v :| Reaches(arcs, start, v) && ReachesPlus(arcs, v, v);
    var m :| Edge(v, m) in arcs && Reaches(arcs, m, v);
    var i := ReachIsAfter(targets, start, v);
    var k := ReachIsAfter(targets, m, v);
    assert After(targets, start, i + 1) == Some(m);
    GoesOnFrom(targets, start, i + 1, k);
    forall n: nat ensures After(targets, start, n).Some? {
      RepeatGoesOn(targets, start, i, i + 1 + k, n);
    }
  }

  /** A loop without memory returns exactly when it cannot run into a cycle. */
  lemma EndsExactly(targets: map<Id, Id>, start: Id)
    ensures Ends(targets, start) <==> !CycleAhead(MapArcs(targets), start)
  {
    if CycleAhead(MapArcs(targets), start) {
      CycleNeverEnds(targets, start);
    }
    if !Ends(targets, start) {
      var i, j := EndsOrReturns(targets, start);
      var v := After(targets, start, i).value;
      AfterReaches(targets, start, i);
      GoesOnFrom(targets, start, i, j - i);
      AfterReachesPlus(targets, v, j - i);
    }
  }

  /** The steps of a walk that ends all differ. */
  lemma EndsWithoutRepeat(targets: map<Id, Id>, start: Id, i: nat, j: nat)
    requires Ends(targets, start) && i < j && After(targets, start, j).Some?
    ensures After(targets, start, i).Some? && After(targets, start, i) != After(targets, start, j)
  {
    if After(targets, start, i).None? {
      StaysEnded(targets, start, i, j);
    }
    if After(targets, start, i) == After(targets, start, j) {
      var n: nat :| After(targets, start, n).None?;
      RepeatGoesOn(targets, start, i, j, n);
    }
  }
}
