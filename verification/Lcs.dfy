/** Longest common subsequences. */
module Lcs {
  // The algorithm keeps piles (Hunt and Szymanski). What it should return is stated in two independent
  // ways: the table that the unit tests fill in, and the longest pair of matching index lists.

  predicate Increasing(l: seq<nat>) { forall i, j :: 0 <= i < j < |l| ==> l[i] < l[j] }

  /** `ps` and `qs` pick equal letters, in order, from the two sequences. */
  ghost predicate Common<T>(s1: seq<T>, s2: seq<T>, ps: seq<nat>, qs: seq<nat>) {
    && |ps| == |qs| && Increasing(ps) && Increasing(qs)
    && (forall i :: 0 <= i < |ps| ==> ps[i] < |s1|)
    && (forall i :: 0 <= i < |qs| ==> qs[i] < |s2|)
    && (forall i :: 0 <= i < |ps| ==> s1[ps[i]] == s2[qs[i]])
  }

  function Max(a: nat, b: nat): nat { if a > b then a else b }

  /** The classical table: best length for the first `r` letters of s1 and the first `j` of s2. */
  function Table<T(==)>(s1: seq<T>, s2: seq<T>, r: nat, j: nat): nat
    requires r <= |s1| && j <= |s2|
  {
    if r == 0 || j == 0 then 0
    else if s1[r - 1] == s2[j - 1] then Table(s1, s2, r - 1, j - 1) + 1
    else Max(Table(s1, s2, r - 1, j), Table(s1, s2, r, j - 1))
  }

  function Length<T(==)>(s1: seq<T>, s2: seq<T>): nat { Table(s1, s2, |s1|, |s2|) }

  /** A neighbour in the table is at most one smaller. */
  lemma {:induction false} TableSteps<T>(s1: seq<T>, s2: seq<T>, r: nat, j: nat)
    requires r <= |s1| && j <= |s2|
    ensures r > 0 ==> Table(s1, s2, r - 1, j) <= Table(s1, s2, r, j) <= Table(s1, s2, r - 1, j) + 1
    ensures j > 0 ==> Table(s1, s2, r, j - 1) <= Table(s1, s2, r, j) <= Table(s1, s2, r, j - 1) + 1
    decreases r + j
  {
    if r > 0 { TableSteps(s1, s2, r - 1, j); }
    if j > 0 { TableSteps(s1, s2, r, j - 1); }
  }

  // ---------------------------------------------------------------- the table is the longest pair of index lists

  lemma {:induction false} TableIsBound<T>(s1: seq<T>, s2: seq<T>, r: nat, j: nat, ps: seq<nat>, qs: seq<nat>)
    requires r <= |s1| && j <= |s2| && Common(s1[..r], s2[..j], ps, qs)
    ensures |ps| <= Table(s1, s2, r, j)
    decreases r + j
  {
    if ps != [] {
      var k := |ps| - 1;
      var p, q := ps[k], qs[k];
      assert r > 0 && j > 0;
      TableSteps(s1, s2, r, j);
      if p < r - 1 {
        assert forall i :: 0 <= i < k ==> ps[i] < ps[k];
        assert Common(s1[..r - 1], s2[..j], ps, qs);
        TableIsBound(s1, s2, r - 1, j, ps, qs);
      } else if q < j - 1 {
        assert forall i :: 0 <= i < k ==> qs[i] < qs[k];
        assert Common(s1[..r], s2[..j - 1], ps, qs);
        TableIsBound(s1, s2, r, j - 1, ps, qs);
      } else {
        assert s1[..r][p] == s2[..j][q];
        assert forall i :: 0 <= i < k ==> ps[i] < p && qs[i] < q;
        assert Common(s1[..r - 1], s2[..j - 1], ps[..k], qs[..k]);
        TableIsBound(s1, s2, r - 1, j - 1, ps[..k], qs[..k]);
      }
    }
  }

  lemma {:induction false} TableIsReached<T>(s1: seq<T>, s2: seq<T>, r: nat, j: nat)
    returns (ps: seq<nat>, qs: seq<nat>)
    requires r <= |s1| && j <= |s2|
    ensures Common(s1[..r], s2[..j], ps, qs) && |ps| == Table(s1, s2, r, j)
    decreases r + j
  {
    if r == 0 || j == 0 {
      ps, qs := [], [];
    } else if s1[r - 1] == s2[j - 1] {
      ps, qs := TableIsReached(s1, s2, r - 1, j - 1);
      ps, qs := ps + [r - 1], qs + [j - 1];
    } else if Table(s1, s2, r - 1, j) > Table(s1, s2, r, j - 1) {
      ps, qs := TableIsReached(s1, s2, r - 1, j);
    } else {
      ps, qs := TableIsReached(s1, s2, r, j - 1);
    }
  }

  /** Length is the length of a longest common subsequence: it is reached and not exceeded. */
  lemma LengthIsLongest<T>(s1: seq<T>, s2: seq<T>)
    ensures exists ps, qs :: Common(s1, s2, ps, qs) && |ps| == Length(s1, s2)
    ensures forall ps, qs :: Common(s1, s2, ps, qs) ==> |ps| <= Length(s1, s2)
  {
    assert s1[..|s1|] == s1 && s2[..|s2|] == s2;
    var ps, qs := TableIsReached(s1, s2, |s1|, |s2|);
    forall ps, qs | Common(s1, s2, ps, qs) ensures |ps| <= Length(s1, s2) {
      TableIsBound(s1, s2, |s1|, |s2|, ps, qs);
    }
  }

  /** The order of the arguments does not matter, so swapping them to make s1 the longer is sound. */
  lemma LengthSymmetric<T>(s1: seq<T>, s2: seq<T>)
    ensures Length(s1, s2) == Length(s2, s1)
  {
    assert s1[..|s1|] == s1 && s2[..|s2|] == s2;
    var ps, qs := TableIsReached(s1, s2, |s1|, |s2|);
    TableIsBound(s2, s1, |s2|, |s1|, qs, ps);
    var us, vs := TableIsReached(s2, s1, |s2|, |s1|);
    TableIsBound(s1, s2, |s1|, |s2|, vs, us);
  }

  // ---------------------------------------------------------------- what lastindex means

  /** `k` is where lower_bound puts `x`. */
  predicate IsLowerBound(l: seq<nat>, x: nat, k: nat) {
    k <= |l| && (forall i :: 0 <= i < k ==> l[i] < x) && (forall i :: k <= i < |l| ==> x <= l[i])
  }

  /** Row r+1 of the table when letter r of s1 may be matched only from position `from` of s2 on. */
  function Partial<T(==)>(s1: seq<T>, s2: seq<T>, r: nat, from: nat, j: nat): nat
    requires r < |s1| && j <= |s2|
  {
    if j <= from then Table(s1, s2, r, j)
    else
      var best := Max(Table(s1, s2, r, j), Partial(s1, s2, r, from, j - 1));
      if s1[r] == s2[j - 1] then Max(best, Table(s1, s2, r, j - 1) + 1) else best
  }

  lemma {:induction false} PartialFromZero<T>(s1: seq<T>, s2: seq<T>, r: nat, j: nat)
    requires r < |s1| && j <= |s2|
    ensures Partial(s1, s2, r, 0, j) == Table(s1, s2, r + 1, j)
  {
    if j > 0 {
      PartialFromZero(s1, s2, r, j - 1);
      TableSteps(s1, s2, r, j);
      TableSteps(s1, s2, r + 1, j - 1);
    }
  }

  /** Allowing one more position raises exactly the entries beyond it, to what that match gives. */
  lemma {:induction false} PartialStep<T>(s1: seq<T>, s2: seq<T>, r: nat, x: nat, j: nat)
    requires r < |s1| && x < |s2| && j <= |s2|
    ensures Partial(s1, s2, r, x, j)
      == if j > x && s1[r] == s2[x] then Max(Partial(s1, s2, r, x + 1, j), Table(s1, s2, r, x) + 1)
         else Partial(s1, s2, r, x + 1, j)
  {
    if j > x + 1 {
      PartialStep(s1, s2, r, x, j - 1);
    } else if j == x + 1 {
      TableSteps(s1, s2, r, j);
    }
  }

  lemma {:induction false} PartialAtEnd<T>(s1: seq<T>, s2: seq<T>, r: nat, from: nat, j: nat)
    requires r < |s1| && j <= |s2| <= from
    ensures Partial(s1, s2, r, from, j) == Table(s1, s2, r, j)
  {
  }

  /** lastindex[k] is the least end, in s2, of a common subsequence of length k + 1. */
  ghost predicate Represents<T>(last: seq<nat>, s1: seq<T>, s2: seq<T>, r: nat, from: nat)
    requires r < |s1|
  {
    && Increasing(last) && (forall k :: 0 <= k < |last| ==> last[k] < |s2|)
    && forall j :: 0 <= j <= |s2| ==> IsLowerBound(last, j, Partial(s1, s2, r, from, j))
  }

  ghost predicate RepresentsRow<T>(last: seq<nat>, s1: seq<T>, s2: seq<T>, r: nat)
    requires r <= |s1|
  {
    && Increasing(last) && (forall k :: 0 <= k < |last| ==> last[k] < |s2|)
    && forall j :: 0 <= j <= |s2| ==> IsLowerBound(last, j, Table(s1, s2, r, j))
  }

  function Put(last: seq<nat>, k: nat, x: nat): seq<nat>
    requires k <= |last|
  {
    if k == |last| then last + [x] else last[k := x]
  }

  lemma RowBegins<T>(last: seq<nat>, s1: seq<T>, s2: seq<T>, r: nat, from: nat)
    requires r < |s1| && RepresentsRow(last, s1, s2, r) && from >= |s2|
    ensures Represents(last, s1, s2, r, from)
  {
    forall j | 0 <= j <= |s2| ensures IsLowerBound(last, j, Partial(s1, s2, r, from, j)) {
      PartialAtEnd(s1, s2, r, from, j);
    }
  }

  lemma RowEnds<T>(last: seq<nat>, s1: seq<T>, s2: seq<T>, r: nat)
    requires r < |s1| && Represents(last, s1, s2, r, 0)
    ensures RepresentsRow(last, s1, s2, r + 1)
  {
    var r1 := r + 1;
    forall j | 0 <= j <= |s2| ensures IsLowerBound(last, j, Table(s1, s2, r1, j)) {
      PartialFromZero(s1, s2, r, j);
    }
  }

  /** A position that does not match changes nothing. */
  lemma RowSkips<T>(last: seq<nat>, s1: seq<T>, s2: seq<T>, r: nat, x: nat)
    requires r < |s1| && x < |s2| && Represents(last, s1, s2, r, x + 1) && s1[r] != s2[x]
    ensures Represents(last, s1, s2, r, x)
  {
    forall j | 0 <= j <= |s2| ensures IsLowerBound(last, j, Partial(s1, s2, r, x, j)) {
      PartialStep(s1, s2, r, x, j);
    }
  }

  lemma LowerBoundUnique(l: seq<nat>, x: nat, k: nat, m: nat)
    requires IsLowerBound(l, x, k) && IsLowerBound(l, x, m)
    ensures k == m
  {
    var atK, atM := if k < |l| then l[k] else 0, if m < |l| then l[m] else 0;
  }

  lemma PutKeepsOrder(last: seq<nat>, x: nat, k: nat)
    requires Increasing(last) && IsLowerBound(last, x, k)
    ensures Increasing(Put(last, k, x))
  {
    var z := Put(last, k, x);
    forall i, j | 0 <= i < j < |z| ensures z[i] < z[j] {
      if j == k { assert last[i] < x; } else if i == k { assert x <= last[k] < last[j]; }
    }
  }

  lemma PutMovesBound(last: seq<nat>, x: nat, k: nat, j: nat, m: nat)
    requires Increasing(last) && IsLowerBound(last, x, k) && IsLowerBound(last, j, m)
    ensures IsLowerBound(Put(last, k, x), j, if j > x then Max(m, k + 1) else m)
  {
    var atK, atM := if k < |last| then last[k] else 0, if m < |last| then last[m] else 0;
  }

  /** A matching position replaces the entry that lower_bound finds. */
  lemma RowPuts<T>(last: seq<nat>, s1: seq<T>, s2: seq<T>, r: nat, x: nat, k: nat)
    requires r < |s1| && x < |s2| && Represents(last, s1, s2, r, x + 1) && s1[r] == s2[x] && IsLowerBound(last, x, k)
    ensures Represents(Put(last, k, x), s1, s2, r, x)
    ensures k == Table(s1, s2, r, x)
  {
    assert IsLowerBound(last, x, Partial(s1, s2, r, x + 1, x));
    LowerBoundUnique(last, x, k, Partial(s1, s2, r, x + 1, x));
    PutKeepsOrder(last, x, k);
    forall j | 0 <= j <= |s2| ensures IsLowerBound(Put(last, k, x), j, Partial(s1, s2, r, x, j)) {
      PartialStep(s1, s2, r, x, j);
      PutMovesBound(last, x, k, j, Partial(s1, s2, r, x + 1, j));
    }
  }

  lemma LastIsLength<T>(last: seq<nat>, s1: seq<T>, s2: seq<T>)
    requires RepresentsRow(last, s1, s2, |s1|)
    ensures |last| == Length(s1, s2)
  {
    assert IsLowerBound(last, |s2|, Length(s1, s2));
    var greatest := if last != [] then last[|last| - 1] else 0;
  }
}
