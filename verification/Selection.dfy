/** Row selections with an order and a limit, as the scheduler's passes make them. */
module Selection {
  import opened Graphs
  import opened Chains

  /** Ordered by a column, then by identity. */
  predicate Earlier(key: int -> int, a: int, b: int) {
    key(a) < key(b) || (key(a) == key(b) && a < b)
  }

  ghost predicate InOrder(key: int -> int, rows: seq<int>) {
    forall i, j :: 0 <= i < j < |rows| ==> Earlier(key, rows[i], rows[j])
  }

  /** The first rows of the candidates, in order: all of them, or as many as the limit allows. */
  ghost predicate FirstRows(candidates: set<int>, key: int -> int, limit: nat, rows: seq<int>) {
    && |rows| <= limit && InOrder(key, rows)
    && (forall r :: r in rows ==> r in candidates)
    && (forall r :: r in candidates && r !in rows ==> |rows| == limit && forall x :: x in rows ==> Earlier(key, x, r))
  }

  method Least(candidates: set<int>, key: int -> int) returns (least: int)
    requires candidates != {}
    ensures least in candidates && forall x :: x in candidates && x != least ==> Earlier(key, least, x)
  {
    ghost var some := SomeLeft(candidates);
    least :| least in candidates;
    var unseen := candidates - {least};
    while unseen != {}
      invariant least in candidates && unseen <= candidates
      invariant forall x :: x in candidates && x !in unseen && x != least ==> Earlier(key, least, x)
      decreases |unseen|
    {
      ghost var left := SomeLeft(unseen);
      var x :| x in unseen;
      if Earlier(key, x, least) {
        least := x;
      }
      unseen := unseen - {x};
    }
  }

  method SelectFirst(candidates: set<int>, key: int -> int, limit: nat) returns (rows: seq<int>)
    ensures FirstRows(candidates, key, limit, rows)
    ensures |rows| <= limit && forall r :: r in rows ==> r in candidates
    ensures forall i, j :: 0 <= i < j < |rows| ==>
              key(rows[i]) <= key(rows[j]) && (key(rows[i]) == key(rows[j]) ==> rows[i] < rows[j])
    ensures forall r :: r in candidates && r !in rows ==>
              && |rows| == limit
              && forall x :: x in rows ==> key(x) <= key(r) && (key(x) == key(r) ==> x < r)
  {
    rows := [];
    var rest := candidates;
    while |rows| < limit && rest != {}
      invariant |rows| <= limit && InOrder(key, rows)
      invariant forall r :: r in candidates <==> r in rows || r in rest
      invariant forall x, r :: x in rows && r in rest ==> Earlier(key, x, r)
      decreases |rest|
    {
      var least := Least(rest, key);
      rows, rest := rows + [least], rest - {least};
    }
  }

  lemma FirstAreCandidates(candidates: set<int>, key: int -> int, limit: nat, rows: seq<int>)
    requires FirstRows(candidates, key, limit, rows)
    ensures Distinct(rows) && forall i :: 0 <= i < |rows| ==> rows[i] in candidates
  {
    forall i | 0 <= i < |rows| ensures rows[i] in candidates {
      assert rows[i] in rows;
    }
    forall i, j | 0 <= i < j < |rows| ensures rows[i] != rows[j] {
      assert Earlier(key, rows[i], rows[j]);
    }
  }

  /** Candidates, order and limit determine the selection. */
  lemma {:induction false} SelectionIsUnique(candidates: set<int>, key: int -> int, limit: nat, a: seq<int>, b: seq<int>)
    requires FirstRows(candidates, key, limit, a) && FirstRows(candidates, key, limit, b)
    ensures a == b
    decreases |a|
  {
    NoRows(candidates, key, limit, a, b);
    NoRows(candidates, key, limit, b, a);
    if a != [] {
      SameFirst(candidates, key, limit, a, b);
      WithoutFirst(candidates, key, limit, a);
      WithoutFirst(candidates, key, limit, b);
      SelectionIsUnique(candidates - {a[0]}, key, limit - 1, a[1..], b[1..]);
    }
  }

  lemma NoRows(candidates: set<int>, key: int -> int, limit: nat, a: seq<int>, b: seq<int>)
    requires FirstRows(candidates, key, limit, a) && FirstRows(candidates, key, limit, b)
    ensures a == [] ==> b == []
  {
    assert b != [] ==> b[0] in b;
  }

  lemma SameFirst(candidates: set<int>, key: int -> int, limit: nat, a: seq<int>, b: seq<int>)
    requires FirstRows(candidates, key, limit, a) && FirstRows(candidates, key, limit, b) && a != [] && b != []
    ensures a[0] == b[0]
  {
    assert a[0] in a && b[0] in b;
    if a[0] != b[0] {
      FirstIsLeast(candidates, key, limit, a, b[0]);
      FirstIsLeast(candidates, key, limit, b, a[0]);
    }
  }

  lemma FirstIsLeast(candidates: set<int>, key: int -> int, limit: nat, rows: seq<int>, r: int)
    requires FirstRows(candidates, key, limit, rows) && rows != [] && r in candidates && r != rows[0]
    ensures Earlier(key, rows[0], r)
  {
    if r in rows {
      var k :| 0 <= k < |rows| && rows[k] == r;
    }
    assert rows[0] in rows;
  }

  lemma WithoutFirst(candidates: set<int>, key: int -> int, limit: nat, rows: seq<int>)
    requires FirstRows(candidates, key, limit, rows) && rows != []
    ensures limit > 0 && FirstRows(candidates - {rows[0]}, key, limit - 1, rows[1..])
  {
    assert rows == [rows[0]] + rows[1..];
    assert InOrder(key, rows[1..]);
    assert forall k :: 0 < k < |rows| ==> rows[k] != rows[0];
  }
}
