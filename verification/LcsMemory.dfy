/** The working memory of MakeLCS and its two branches: the length alone, and the length with a
    witness read back from the piles. */
module LcsMemory {
  import opened Lcs

  // ---------------------------------------------------------------- positions of a letter

  /** `occ` lists the positions of `c` in `s`, in order. */
  ghost predicate Occurrences<T>(occ: seq<nat>, s: seq<T>, c: T) {
    && Increasing(occ)
    && (forall i :: 0 <= i < |occ| ==> occ[i] < |s| && s[occ[i]] == c)
    && (forall p :: 0 <= p < |s| && s[p] == c ==> p in occ)
  }

  ghost predicate Indexed<T>(index: map<T, seq<nat>>, s1: seq<T>, s2: seq<T>) {
    && (forall c :: c in s1 ==> c in index)
    && (forall c :: c in index ==> Occurrences(index[c], s2, c))
  }

  lemma OccurrencesExtend<T>(occ: seq<nat>, s: seq<T>, c: T, d: T)
    requires Occurrences(occ, s, c)
    ensures Occurrences(if c == d then occ + [|s|] else occ, s + [d], c)
  {
    var occ', s' := if c == d then occ + [|s|] else occ, s + [d];
    forall p | 0 <= p < |s'| && s'[p] == c ensures p in occ' {
      if p < |s| { assert s[p] == c && p in occ; } else { assert occ'[|occ|] == p; }
    }
  }

  method BuildIndex<T(==)>(s1: seq<T>, s2: seq<T>) returns (index: map<T, seq<nat>>)
    ensures Indexed(index, s1, s2)
  {
    index := map[];
    for i := 0 to |s1|
      invariant forall k :: 0 <= k < i ==> s1[k] in index
      invariant forall c :: c in index ==> index[c] == []
    {
      index := index[s1[i] := []];
    }
    for j := 0 to |s2|
      invariant forall c :: c in s1 ==> c in index
      invariant forall c :: c in index ==> Occurrences(index[c], s2[..j], c)
    {
      ghost var before := index;
      if s2[j] in index {
        index := index[s2[j] := index[s2[j]] + [j]];
      }
      assert s2[..j + 1] == s2[..j] + [s2[j]];
      forall c | c in index ensures Occurrences(index[c], s2[..j + 1], c) {
        OccurrencesExtend(before[c], s2[..j], c, s2[j]);
      }
    }
    assert s2[..|s2|] == s2;
  }

  // ---------------------------------------------------------------- binary searches

  method LowerBound(l: seq<nat>, x: nat) returns (k: nat)
    requires Increasing(l)
    ensures IsLowerBound(l, x, k)
  {
    k := 0;
    var count := |l|;
    while count > 0
      invariant 0 <= k <= k + count <= |l|
      invariant forall i :: 0 <= i < k ==> l[i] < x
      invariant forall i :: k + count <= i < |l| ==> x <= l[i]
    {
      var step := count / 2;
      if l[k + step] < x {
        k, count := k + step + 1, count - step - 1;
      } else {
        count := step;
      }
    }
  }

  function Firsts(l: seq<(nat, nat)>): (f: seq<nat>)
    ensures |f| == |l| && forall i :: 0 <= i < |l| ==> f[i] == l[i].0
  {
    seq(|l|, i requires 0 <= i < |l| => l[i].0)
  }

  /** The order on pairs, against (x, 0). */
  predicate PairLess(a: (nat, nat), b: (nat, nat)) { a.0 < b.0 || (a.0 == b.0 && a.1 < b.1) }

  method LowerBoundPair(l: seq<(nat, nat)>, x: nat) returns (k: nat)
    requires Increasing(Firsts(l))
    ensures IsLowerBound(Firsts(l), x, k)
  {
    k := 0;
    var count := |l|;
    while count > 0
      invariant 0 <= k <= k + count <= |l|
      invariant forall i :: 0 <= i < k ==> Firsts(l)[i] < x
      invariant forall i :: k + count <= i < |l| ==> x <= Firsts(l)[i]
    {
      var step := count / 2;
      if PairLess(l[k + step], (x, 0)) {
        k, count := k + step + 1, count - step - 1;
      } else {
        count := step;
      }
    }
  }

  predicate Falling(l: seq<nat>) { forall i, j :: 0 <= i < j < |l| ==> l[i] >= l[j] }

  predicate Rising(l: seq<nat>) { forall i, j :: 0 <= i < j < |l| ==> l[i] <= l[j] }

  /** In a list that falls, the first element below `v`, or its end. */
  method UpperBoundGreater(l: seq<nat>, v: nat) returns (k: nat)
    requires Falling(l)
    ensures k <= |l| && (forall i :: 0 <= i < k ==> l[i] >= v) && (k < |l| ==> l[k] < v)
  {
    k := 0;
    var count := |l|;
    while count > 0
      invariant 0 <= k <= k + count <= |l|
      invariant forall i :: 0 <= i < k ==> l[i] >= v
      invariant forall i :: k + count <= i < |l| ==> l[i] < v
    {
      var step := count / 2;
      if !(v > l[k + step]) {
        k, count := k + step + 1, count - step - 1;
      } else {
        count := step;
      }
    }
  }

  // ---------------------------------------------------------------- skipping to the next occurrence

  lemma {:induction false} SkipTo<T>(last: seq<nat>, s1: seq<T>, s2: seq<T>, r: nat, from: nat, to: nat)
    requires r < |s1| && to <= from <= |s2| && Represents(last, s1, s2, r, from)
    requires forall p :: to <= p < from ==> s2[p] != s1[r]
    ensures Represents(last, s1, s2, r, to)
    decreases from
  {
    if to < from {
      RowSkips(last, s1, s2, r, from - 1);
      SkipTo(last, s1, s2, r, from - 1, to);
    }
  }

  /** Where a row stands when `n` of the occurrences are still to be visited. */
  function Frontier(occ: seq<nat>, n: nat, end: nat): nat { if n < |occ| then occ[n] else end }

  lemma SkipToOccurrence<T>(last: seq<nat>, s1: seq<T>, s2: seq<T>, r: nat, occ: seq<nat>, n: nat)
    requires r < |s1| && Occurrences(occ, s2, s1[r]) && n <= |occ|
    requires Represents(last, s1, s2, r, Frontier(occ, n, |s2|))
    ensures n > 0 ==> Represents(last, s1, s2, r, occ[n - 1] + 1)
    ensures n == 0 ==> Represents(last, s1, s2, r, 0)
  {
    var from, to := Frontier(occ, n, |s2|), if n > 0 then occ[n - 1] + 1 else 0;
    assert forall i :: 0 <= i < n ==> occ[i] < to;
    assert forall i :: n <= i < |occ| ==> from <= occ[i];
    assert forall p :: p in occ ==> p < to || from <= p;
    SkipTo(last, s1, s2, r, from, to);
  }

  // ---------------------------------------------------------------- piles

  function Put2(cover: seq<seq<nat>>, k: nat, x: nat): seq<seq<nat>>
    requires k <= |cover|
  {
    if k == |cover| then cover + [[x]] else cover[k := cover[k] + [x]]
  }

  /** Pile k holds the successive values of lastindex[k]; `rows` says, entry by entry, which
      letter of s1 each was matched with. */
  ghost predicate Piles<T>(cover: seq<seq<nat>>, rows: seq<seq<nat>>, last: seq<nat>, s1: seq<T>, s2: seq<T>) {
    && |cover| == |rows| == |last|
    && forall k :: 0 <= k < |cover| ==> Pile(cover[k], rows[k], last[k], s1, s2)
  }

  ghost predicate Pile<T>(pile: seq<nat>, row: seq<nat>, top: nat, s1: seq<T>, s2: seq<T>) {
    && |pile| == |row| > 0 && pile[|pile| - 1] == top && Falling(pile) && Rising(row)
    && forall i :: 0 <= i < |pile| ==> row[i] < |s1| && pile[i] < |s2| && s1[row[i]] == s2[pile[i]]
  }

  /** Entry `x` of row `r` continues some earlier entry of the pile below. */
  ghost predicate Rests(pile: seq<nat>, row: seq<nat>, x: nat, r: nat)
    requires |pile| == |row|
  {
    exists i :: 0 <= i < |pile| && pile[i] < x && row[i] < r
  }

  ghost predicate Supported(cover: seq<seq<nat>>, rows: seq<seq<nat>>)
    requires |cover| == |rows| && forall k :: 0 <= k < |cover| ==> |cover[k]| == |rows[k]|
  {
    forall k, i :: 0 < k < |cover| && 0 <= i < |cover[k]| ==> Rests(cover[k - 1], rows[k - 1], cover[k][i], rows[k][i])
  }

  /** Nothing is from a row after `r`, and of row `r` only what lies at `from` or beyond. */
  ghost predicate UpTo(cover: seq<seq<nat>>, rows: seq<seq<nat>>, r: nat, from: nat)
    requires |cover| == |rows| && forall k :: 0 <= k < |cover| ==> |cover[k]| == |rows[k]|
  {
    forall k, i :: 0 <= k < |cover| && 0 <= i < |cover[k]| ==>
      rows[k][i] <= r && (rows[k][i] == r ==> cover[k][i] >= from)
  }

  lemma PilePut<T>(pile: seq<nat>, row: seq<nat>, top: nat, s1: seq<T>, s2: seq<T>, r: nat, x: nat)
    requires Pile(pile, row, top, s1, s2) && x <= top && r < |s1| && x < |s2| && s1[r] == s2[x]
    requires forall i :: 0 <= i < |row| ==> row[i] <= r
    ensures Pile(pile + [x], row + [r], x, s1, s2)
  {
    assert forall i :: 0 <= i < |pile| ==> pile[i] >= pile[|pile| - 1];
  }

  lemma PilesPut<T>(cover: seq<seq<nat>>, rows: seq<seq<nat>>, last: seq<nat>, s1: seq<T>, s2: seq<T>, r: nat,
                    x: nat, k: nat)
    requires Piles(cover, rows, last, s1, s2) && UpTo(cover, rows, r, x + 1)
    requires r < |s1| && x < |s2| && s1[r] == s2[x] && IsLowerBound(last, x, k)
    ensures Piles(Put2(cover, k, x), Put2(rows, k, r), Put(last, k, x), s1, s2)
    ensures UpTo(Put2(cover, k, x), Put2(rows, k, r), r, x)
  {
    var c, w, l := Put2(cover, k, x), Put2(rows, k, r), Put(last, k, x);
    if k < |cover| {
      assert forall i :: 0 <= i < |cover[k]| ==> rows[k][i] <= r;
      PilePut(cover[k], rows[k], last[k], s1, s2, r, x);
    }
    forall j | 0 <= j < |c| ensures Pile(c[j], w[j], l[j], s1, s2) {
      if j != k { assert c[j] == cover[j] && w[j] == rows[j] && l[j] == last[j]; }
    }
    forall j, i | 0 <= j < |c| && 0 <= i < |c[j]| ensures w[j][i] <= r && (w[j][i] == r ==> c[j][i] >= x) {
      if j != k || i < |c[j]| - 1 { assert c[j][i] == cover[j][i] && w[j][i] == rows[j][i]; }
    }
  }

  lemma RestsPut(pile: seq<nat>, row: seq<nat>, x: nat, r: nat, pile': seq<nat>, row': seq<nat>)
    requires |pile| == |row| && Rests(pile, row, x, r) && pile <= pile' && row <= row' && |pile'| == |row'|
    ensures Rests(pile', row', x, r)
  {
    var q :| 0 <= q < |pile| && pile[q] < x && row[q] < r;
    assert pile'[q] == pile[q] && row'[q] == row[q];
  }

  /** The top of the pile below is smaller, and so comes from an earlier row. */
  lemma TopRests<T>(cover: seq<seq<nat>>, rows: seq<seq<nat>>, last: seq<nat>, s1: seq<T>, s2: seq<T>, r: nat,
                    x: nat, k: nat)
    requires Piles(cover, rows, last, s1, s2) && UpTo(cover, rows, r, x + 1) && k < |cover| && last[k] < x
    ensures Rests(cover[k], rows[k], x, r)
  {
    var top := |cover[k]| - 1;
    assert Pile(cover[k], rows[k], last[k], s1, s2);
    assert cover[k][top] < x && rows[k][top] < r;
  }

  lemma SupportedPut<T>(cover: seq<seq<nat>>, rows: seq<seq<nat>>, last: seq<nat>, s1: seq<T>, s2: seq<T>, r: nat,
                        x: nat, k: nat)
    requires Piles(cover, rows, last, s1, s2) && UpTo(cover, rows, r, x + 1) && Supported(cover, rows)
    requires IsLowerBound(last, x, k)
    requires forall j :: 0 <= j < |Put2(cover, k, x)| ==> |Put2(cover, k, x)[j]| == |Put2(rows, k, r)[j]|
    ensures Supported(Put2(cover, k, x), Put2(rows, k, r))
  {
    var c, w := Put2(cover, k, x), Put2(rows, k, r);
    forall j, i | 0 < j < |c| && 0 <= i < |c[j]| ensures Rests(c[j - 1], w[j - 1], c[j][i], w[j][i]) {
      if j == k && i == |c[j]| - 1 {
        TopRests(cover, rows, last, s1, s2, r, x, k - 1);
        assert c[k - 1] == cover[k - 1] && w[k - 1] == rows[k - 1];
      } else {
        assert c[j][i] == cover[j][i] && w[j][i] == rows[j][i];
        RestsPut(cover[j - 1], rows[j - 1], c[j][i], w[j][i], c[j - 1], w[j - 1]);
      }
    }
  }

  /** All that a run of the inner loop keeps about the piles. */
  ghost predicate Stacked<T>(cover: seq<seq<nat>>, rows: seq<seq<nat>>, last: seq<nat>, s1: seq<T>, s2: seq<T>,
                             r: nat, from: nat) {
    Piles(cover, rows, last, s1, s2) && Supported(cover, rows) && UpTo(cover, rows, r, from)
  }

  lemma StackedPut<T>(cover: seq<seq<nat>>, rows: seq<seq<nat>>, last: seq<nat>, s1: seq<T>, s2: seq<T>, r: nat,
                      x: nat, k: nat)
    requires Stacked(cover, rows, last, s1, s2, r, x + 1)
    requires r < |s1| && x < |s2| && s1[r] == s2[x] && IsLowerBound(last, x, k)
    ensures Stacked(Put2(cover, k, x), Put2(rows, k, r), Put(last, k, x), s1, s2, r, x)
  {
    PilesPut(cover, rows, last, s1, s2, r, x, k);
    SupportedPut(cover, rows, last, s1, s2, r, x, k);
  }

  function PutPair(l: seq<(nat, nat)>, k: nat, x: nat): (z: seq<(nat, nat)>)
    requires k <= |l|
    ensures Firsts(z) == Put(Firsts(l), k, x)
    ensures Numbered(l) ==> Numbered(z)
  {
    if k == |l| then l + [(x, |l|)] else l[k := (x, l[k].1)]
  }

  /** Every entry of LastIndex carries the number of its own pile. */
  predicate Numbered(l: seq<(nat, nat)>) { forall k :: 0 <= k < |l| ==> l[k].1 == k }

  // ---------------------------------------------------------------- reading the witness back

  function Reverse<A>(s: seq<A>): (r: seq<A>)
    ensures |r| == |s| && forall i :: 0 <= i < |s| ==> r[i] == s[|s| - 1 - i]
  {
    seq(|s|, i requires 0 <= i < |s| => s[|s| - 1 - i])
  }

  /** The first entry below `v` comes from a row no later than any entry below `v` does. */
  lemma PickRests(pile: seq<nat>, row: seq<nat>, v: nat, r: nat, k: nat)
    requires |pile| == |row| && Rising(row) && Rests(pile, row, v, r)
    requires k <= |pile| && (forall i :: 0 <= i < k ==> pile[i] >= v)
    ensures k < |pile| && row[k] < r
  {
    var i :| 0 <= i < |pile| && pile[i] < v && row[i] < r;
    assert k <= i;
    assert row[k] <= row[i];
  }

  /** The last `a` piles have given one entry each, falling in s2 and in s1 alike. */
  ghost predicate Picked(piles: seq<seq<nat>>, rows: seq<seq<nat>>, buf: seq<nat>, picked: seq<nat>, a: nat) {
    && |piles| == |rows| && |buf| == |picked| == a <= |piles|
    && (forall i :: 0 <= i < a ==> From(piles[|piles| - 1 - i], rows[|piles| - 1 - i], buf[i], picked[i]))
    && (forall i :: 0 < i < a ==> buf[i] < buf[i - 1] && picked[i] < picked[i - 1])
  }

  ghost predicate From(pile: seq<nat>, row: seq<nat>, x: nat, r: nat) {
    |pile| == |row| && exists k :: 0 <= k < |pile| && pile[k] == x && row[k] == r
  }

  lemma PickedRests(piles: seq<seq<nat>>, rows: seq<seq<nat>>, buf: seq<nat>, picked: seq<nat>, a: nat)
    requires 0 < a < |piles| && Picked(piles, rows, buf, picked, a)
    requires (forall k :: 0 <= k < |piles| ==> |piles[k]| == |rows[k]|) && Supported(piles, rows)
    ensures Rests(piles[|piles| - 1 - a], rows[|piles| - 1 - a], buf[a - 1], picked[a - 1])
  {
    var k := |piles| - a;
    assert From(piles[|piles| - 1 - (a - 1)], rows[|piles| - 1 - (a - 1)], buf[a - 1], picked[a - 1]);
    var i :| 0 <= i < |piles[k]| && piles[k][i] == buf[a - 1] && rows[k][i] == picked[a - 1];
    assert Rests(piles[k - 1], rows[k - 1], piles[k][i], rows[k][i]);
  }

  lemma PickedStart<T>(piles: seq<seq<nat>>, rows: seq<seq<nat>>, last: seq<nat>, s1: seq<T>, s2: seq<T>)
    requires piles != [] && Piles(piles, rows, last, s1, s2)
    ensures var q := |piles| - 1; |piles[q]| == |rows[q]| > 0 && Picked(piles, rows, [piles[q][0]], [rows[q][0]], 1)
  {
    var q := |piles| - 1;
    assert Pile(piles[q], rows[q], last[q], s1, s2);
    assert From(piles[q], rows[q], piles[q][0], rows[q][0]);
  }

  lemma PileFalls<T>(piles: seq<seq<nat>>, rows: seq<seq<nat>>, last: seq<nat>, s1: seq<T>, s2: seq<T>, q: nat)
    requires Piles(piles, rows, last, s1, s2) && q < |piles|
    ensures Falling(piles[q]) && |piles[q]| == |rows[q]|
  {
    assert Pile(piles[q], rows[q], last[q], s1, s2);
  }

  lemma PickedPush(piles: seq<seq<nat>>, rows: seq<seq<nat>>, buf: seq<nat>, picked: seq<nat>, a: nat, x: nat, r: nat)
    requires 0 < a < |piles| && Picked(piles, rows, buf, picked, a)
    requires From(piles[|piles| - 1 - a], rows[|piles| - 1 - a], x, r) && x < buf[a - 1] && r < picked[a - 1]
    ensures Picked(piles, rows, buf + [x], picked + [r], a + 1)
  {
    var buf', picked' := buf + [x], picked + [r];
    forall i | 0 <= i < a + 1 ensures From(piles[|piles| - 1 - i], rows[|piles| - 1 - i], buf'[i], picked'[i]) {
      if i < a { assert buf'[i] == buf[i] && picked'[i] == picked[i]; }
    }
  }

  /** The next pick: the pile below has an entry to the left, and the first such one will do. */
  lemma PickedExtend<T>(piles: seq<seq<nat>>, rows: seq<seq<nat>>, last: seq<nat>, s1: seq<T>, s2: seq<T>,
                        buf: seq<nat>, picked: seq<nat>, a: nat, k: nat, q: nat)
    requires 0 < a && q + a + 1 == |piles| && Picked(piles, rows, buf, picked, a)
    requires Piles(piles, rows, last, s1, s2) && Supported(piles, rows)
    requires k <= |piles[q]| && forall i :: 0 <= i < k ==> piles[q][i] >= buf[a - 1]
    requires k < |piles[q]| ==> piles[q][k] < buf[a - 1]
    ensures k < |piles[q]| && k < |rows[q]|
    ensures Picked(piles, rows, buf + [piles[q][k]], picked + [rows[q][k]], a + 1)
  {
    PickedRests(piles, rows, buf, picked, a);
    assert Pile(piles[q], rows[q], last[q], s1, s2);
    PickRests(piles[q], rows[q], buf[a - 1], picked[a - 1], k);
    PickedPush(piles, rows, buf, picked, a, piles[q][k], rows[q][k]);
  }

  lemma {:induction false} FallsStrictly(l: seq<nat>, i: nat, j: nat)
    requires i < j < |l| && forall k :: 0 < k < |l| ==> l[k] < l[k - 1]
    ensures l[j] < l[i]
    decreases j
  {
    if j > i + 1 { FallsStrictly(l, i, j - 1); }
  }

  lemma ReverseIncreasing(l: seq<nat>)
    requires forall k :: 0 < k < |l| ==> l[k] < l[k - 1]
    ensures Increasing(Reverse(l))
  {
    var z := Reverse(l);
    forall i, j | 0 <= i < j < |z| ensures z[i] < z[j] { FallsStrictly(l, |l| - 1 - j, |l| - 1 - i); }
  }

  lemma PickedSpells<T>(piles: seq<seq<nat>>, rows: seq<seq<nat>>, last: seq<nat>, s1: seq<T>, s2: seq<T>,
                        buf: seq<nat>, picked: seq<nat>)
    requires Piles(piles, rows, last, s1, s2) && Picked(piles, rows, buf, picked, |piles|)
    ensures Common(s1, s2, Reverse(picked), Reverse(buf))
  {
    ReverseIncreasing(buf);
    ReverseIncreasing(picked);
    var ps, qs := Reverse(picked), Reverse(buf);
    forall i | 0 <= i < |ps| ensures ps[i] < |s1| && qs[i] < |s2| && s1[ps[i]] == s2[qs[i]] {
      var j := |ps| - 1 - i;
      var p := |piles| - 1 - j;
      assert From(piles[p], rows[p], buf[j], picked[j]);
      assert Pile(piles[p], rows[p], last[p], s1, s2);
    }
  }

  function Letters<T>(s: seq<T>, qs: seq<nat>): (w: seq<T>)
    requires forall i :: 0 <= i < |qs| ==> qs[i] < |s|
    ensures |w| == |qs| && forall i :: 0 <= i < |qs| ==> w[i] == s[qs[i]]
  {
    seq(|qs|, i requires 0 <= i < |qs| => s[qs[i]])
  }

  class Context<T(==)> {
    var Encounters: map<T, seq<nat>>
    var LastIndex: seq<(nat, nat)>
    var Cover: seq<seq<nat>>
    var ResultBuffer: seq<nat>

    constructor ()
      ensures LastIndex == [] && Cover == [] && ResultBuffer == [] && Encounters == map[]
    {
      Encounters, LastIndex, Cover, ResultBuffer := map[], [], [], [];
    }

    method Reset()
      modifies this
      ensures LastIndex == [] && Cover == [] && ResultBuffer == [] && Encounters == map[]
    {
      Encounters, LastIndex, Cover, ResultBuffer := map[], [], [], [];
    }

    /** The branch without a result: ResultBuffer serves as lastindex. */
    method Measure(s1: seq<T>, s2: seq<T>) returns (length: nat)
      modifies this
      ensures length == Length(s1, s2)
      ensures |ResultBuffer| == length && RepresentsRow(ResultBuffer, s1, s2, |s1|)
    {
      Reset();
      Encounters := BuildIndex(s1, s2);
      for r := 0 to |s1|
        invariant Indexed(Encounters, s1, s2)
        invariant RepresentsRow(ResultBuffer, s1, s2, r)
      {
        MeasureRow(s1, s2, r);
      }
      LastIsLength(ResultBuffer, s1, s2);
      length := |ResultBuffer|;
    }

    /** One letter of s1. */
    method MeasureRow(s1: seq<T>, s2: seq<T>, r: nat)
      requires r < |s1| && Indexed(Encounters, s1, s2) && RepresentsRow(ResultBuffer, s1, s2, r)
      modifies this`ResultBuffer
      ensures RepresentsRow(ResultBuffer, s1, s2, r + 1)
    {
      var sub2 := Encounters[s1[r]];
      RowBegins(ResultBuffer, s1, s2, r, |s2|);
      for n := |sub2| downto 0
        invariant Represents(ResultBuffer, s1, s2, r, Frontier(sub2, n, |s2|))
      {
        var x := sub2[n];
        SkipToOccurrence(ResultBuffer, s1, s2, r, sub2, n + 1);
        var k := LowerBound(ResultBuffer, x);
        RowPuts(ResultBuffer, s1, s2, r, x, k);
        if k == |ResultBuffer| {
          ResultBuffer := ResultBuffer + [x];
        } else {
          ResultBuffer := ResultBuffer[k := x];
        }
      }
      SkipToOccurrence(ResultBuffer, s1, s2, r, sub2, 0);
      RowEnds(ResultBuffer, s1, s2, r);
    }

    /** One pass of the inner loop: `x` goes onto the pile that lower_bound finds. */
    method Place(s1: seq<T>, s2: seq<T>, r: nat, x: nat, ghost rows: seq<seq<nat>>) returns (ghost rows': seq<seq<nat>>)
      requires r < |s1| && x < |s2| && s1[r] == s2[x]
      requires Represents(Firsts(LastIndex), s1, s2, r, x + 1)
      requires Numbered(LastIndex) && Stacked(Cover, rows, Firsts(LastIndex), s1, s2, r, x + 1)
      modifies this`LastIndex, this`Cover
      ensures Represents(Firsts(LastIndex), s1, s2, r, x)
      ensures Numbered(LastIndex) && Stacked(Cover, rows', Firsts(LastIndex), s1, s2, r, x)
    {
      var k := LowerBoundPair(LastIndex, x);
      RowPuts(Firsts(LastIndex), s1, s2, r, x, k);
      StackedPut(Cover, rows, Firsts(LastIndex), s1, s2, r, x, k);
      rows' := Put2(rows, k, r);
      ghost var cover, index := Put2(Cover, k, x), PutPair(LastIndex, k, x);
      if k == |LastIndex| {
        LastIndex := LastIndex + [(x, |Cover|)];
        Cover := Cover + [[x]];
      } else {
        var pile := LastIndex[k].1;
        LastIndex := LastIndex[k := (x, pile)];
        Cover := Cover[pile := Cover[pile] + [x]];
      }
      assert Cover == cover && LastIndex == index;
    }

    /** The main loops of the branch with a result. */
    method Stack(s1: seq<T>, s2: seq<T>) returns (ghost rows: seq<seq<nat>>)
      modifies this
      ensures ResultBuffer == []
      ensures |LastIndex| == |Cover| == Length(s1, s2)
      ensures Piles(Cover, rows, Firsts(LastIndex), s1, s2) && Supported(Cover, rows)
    {
      Reset();
      Encounters := BuildIndex(s1, s2);
      rows := [];
      for r := 0 to |s1|
        invariant ResultBuffer == [] && Indexed(Encounters, s1, s2)
        invariant RepresentsRow(Firsts(LastIndex), s1, s2, r)
        invariant Numbered(LastIndex) && Stacked(Cover, rows, Firsts(LastIndex), s1, s2, r, |s2|)
      {
        rows := StackRow(s1, s2, r, rows);
      }
      LastIsLength(Firsts(LastIndex), s1, s2);
    }

    /** One letter of s1. */
    method StackRow(s1: seq<T>, s2: seq<T>, r: nat, ghost rows: seq<seq<nat>>) returns (ghost rows': seq<seq<nat>>)
      requires r < |s1| && Indexed(Encounters, s1, s2) && RepresentsRow(Firsts(LastIndex), s1, s2, r)
      requires Numbered(LastIndex) && Stacked(Cover, rows, Firsts(LastIndex), s1, s2, r, |s2|)
      modifies this`LastIndex, this`Cover
      ensures RepresentsRow(Firsts(LastIndex), s1, s2, r + 1)
      ensures Numbered(LastIndex) && Stacked(Cover, rows', Firsts(LastIndex), s1, s2, r + 1, |s2|)
    {
      var sub2 := Encounters[s1[r]];
      rows' := rows;
      RowBegins(Firsts(LastIndex), s1, s2, r, |s2|);
      for n := |sub2| downto 0
        invariant Represents(Firsts(LastIndex), s1, s2, r, Frontier(sub2, n, |s2|))
        invariant Numbered(LastIndex) && Stacked(Cover, rows', Firsts(LastIndex), s1, s2, r, Frontier(sub2, n, |s2|))
      {
        var x := sub2[n];
        SkipToOccurrence(Firsts(LastIndex), s1, s2, r, sub2, n + 1);
        assert x + 1 <= Frontier(sub2, n + 1, |s2|);
        rows' := Place(s1, s2, r, x, rows');
      }
      SkipToOccurrence(Firsts(LastIndex), s1, s2, r, sub2, 0);
      RowEnds(Firsts(LastIndex), s1, s2, r);
    }

    /** From the last pile down, the first entry that continues to the left of the one before. */
    method ReadBack(s1: seq<T>, s2: seq<T>, ghost rows: seq<seq<nat>>) returns (ghost ps: seq<nat>)
      requires Cover != [] && ResultBuffer == []
      requires Piles(Cover, rows, Firsts(LastIndex), s1, s2) && Supported(Cover, rows)
      modifies this`Cover, this`ResultBuffer
      ensures |ResultBuffer| == |old(Cover)| && Common(s1, s2, ps, ResultBuffer)
    {
      ghost var piles := Cover;
      var m := |Cover|;
      ghost var last := Firsts(LastIndex);
      PickedStart(piles, rows, last, s1, s2);
      Cover := Reverse(Cover);
      ResultBuffer := [Cover[0][0]];
      ghost var picked := [rows[m - 1][0]];
      for a := 1 to m
        invariant Cover == Reverse(piles)
        invariant Picked(piles, rows, ResultBuffer, picked, a)
      {
        PileFalls(piles, rows, last, s1, s2, m - 1 - a);
        var k := UpperBoundGreater(Cover[a], ResultBuffer[a - 1]);
        PickedExtend(piles, rows, last, s1, s2, ResultBuffer, picked, a, k, m - 1 - a);
        // so k < |Cover[a]|: the run-time check of the source cannot fail
        picked := picked + [rows[m - 1 - a][k]];
        ResultBuffer := ResultBuffer + [Cover[a][k]];
      }
      ps := Reverse(picked);
      PickedSpells(piles, rows, last, s1, s2, ResultBuffer, picked);
      ResultBuffer := Reverse(ResultBuffer);
    }

    /** The branch with a result. */
    method Make(s1: seq<T>, s2: seq<T>) returns (length: nat, res: seq<T>)
      modifies this
      ensures length == Length(s1, s2) == |ResultBuffer|
      ensures forall i :: 0 <= i < |ResultBuffer| ==> ResultBuffer[i] < |s2|
      ensures res == Letters(s2, ResultBuffer)
      ensures exists ps :: Common(s1, s2, ps, ResultBuffer)
    {
      ghost var rows := Stack(s1, s2);
      if Cover == [] {
        assert Common(s1, s2, [], ResultBuffer);
        return 0, [];
      }
      ghost var ps := ReadBack(s1, s2, rows);
      res := [];
      for i := 0 to |ResultBuffer|
        invariant |res| == i && forall k :: 0 <= k < i ==> res[k] == s2[ResultBuffer[k]]
      {
        res := res + [s2[ResultBuffer[i]]];
      }
      length := |LastIndex|;
    }
  }

  /** The wrapper puts the longer sequence first; without a context it makes its own. */
  method MakeLcs<T(==)>(a: seq<T>, b: seq<T>) returns (length: nat, res: seq<T>)
    ensures length == Length(a, b) == |res|
    ensures exists ps, qs :: Common(a, b, ps, qs) && res == Letters(a, ps) == Letters(b, qs)
  {
    var ctx := new Context<T>();
    var s1, s2 := a, b;
    if |b| > |a| {
      s1, s2 := b, a;
    }
    LengthSymmetric(a, b);
    length, res := ctx.Make(s1, s2);
    ghost var ps :| Common(s1, s2, ps, ctx.ResultBuffer);
    assert Letters(s1, ps) == Letters(s2, ctx.ResultBuffer);
    assert |b| > |a| ==> Common(a, b, ctx.ResultBuffer, ps);
  }

  method MeasureLcs<T(==)>(a: seq<T>, b: seq<T>) returns (length: nat)
    ensures length == Length(a, b)
    ensures exists ps, qs :: Common(a, b, ps, qs) && |ps| == length
    ensures forall ps, qs :: Common(a, b, ps, qs) ==> |ps| <= length
  {
    var ctx := new Context<T>();
    LengthSymmetric(a, b);
    LengthIsLongest(a, b);
    if |b| > |a| {
      length := ctx.Measure(b, a);
    } else {
      length := ctx.Measure(a, b);
    }
  }
}
