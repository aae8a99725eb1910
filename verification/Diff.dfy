/** InlineDiff: a greedy walk over two sequences, guided by the positions of a longest common
    subsequence in the shorter one, but not bound to follow them. */
module Diff {
  import opened Lcs
  import opened LcsMemory

  datatype Chunk<T> = Chunk(left: seq<T>, right: seq<T>, common: seq<T>)

  function LeftText<T>(chunks: seq<Chunk<T>>): seq<T> {
    if chunks == [] then [] else
      var c := chunks[|chunks| - 1];
      LeftText(chunks[..|chunks| - 1]) + c.left + c.common
  }

  function RightText<T>(chunks: seq<Chunk<T>>): seq<T> {
    if chunks == [] then [] else
      var c := chunks[|chunks| - 1];
      RightText(chunks[..|chunks| - 1]) + c.right + c.common
  }

  /** The letters kept, and the letters that are on one side only. */
  function Kept<T>(chunks: seq<Chunk<T>>): nat {
    if chunks == [] then 0 else Kept(chunks[..|chunks| - 1]) + |chunks[|chunks| - 1].common|
  }

  function Edits<T>(chunks: seq<Chunk<T>>): nat {
    if chunks == [] then 0 else
      var c := chunks[|chunks| - 1];
      Edits(chunks[..|chunks| - 1]) + |c.left| + |c.right|
  }

  lemma {:induction false} EditsAreTheRest<T>(chunks: seq<Chunk<T>>)
    ensures Edits(chunks) + 2 * Kept(chunks) == |LeftText(chunks)| + |RightText(chunks)|
  {
    if chunks != [] { EditsAreTheRest(chunks[..|chunks| - 1]); }
  }

  lemma Snoc<T>(chunks: seq<Chunk<T>>, c: Chunk<T>)
    ensures LeftText(chunks + [c]) == LeftText(chunks) + c.left + c.common
    ensures RightText(chunks + [c]) == RightText(chunks) + c.right + c.common
    ensures Kept(chunks + [c]) == Kept(chunks) + |c.common|
  {
    var z := chunks + [c];
    assert z[..|z| - 1] == chunks;
  }

  // ---------------------------------------------------------------- any diff is a common subsequence

  function Shift(l: seq<nat>, n: nat): (z: seq<nat>)
    ensures |z| == |l| && forall i :: 0 <= i < |l| ==> z[i] == l[i] + n
  {
    seq(|l|, i requires 0 <= i < |l| => l[i] + n)
  }

  function Upto(n: nat): (z: seq<nat>)
    ensures |z| == n && forall i :: 0 <= i < n ==> z[i] == i
  {
    seq(n, i requires 0 <= i < n => i)
  }

  lemma IncreasingJoin(a: seq<nat>, b: seq<nat>, m: nat)
    requires Increasing(a) && Increasing(b) && (forall i :: 0 <= i < |a| ==> a[i] < m)
    requires (forall i :: 0 <= i < |b| ==> m <= b[i])
    ensures Increasing(a + b)
  {
  }

  /** The common parts of any list of chunks are a common subsequence of the texts it spells. */
  lemma {:induction false} ChunksAreCommon<T>(chunks: seq<Chunk<T>>) returns (ps: seq<nat>, qs: seq<nat>)
    ensures Common(LeftText(chunks), RightText(chunks), ps, qs) && |ps| == Kept(chunks)
  {
    if chunks == [] {
      ps, qs := [], [];
    } else {
      var c := chunks[|chunks| - 1];
      var init := chunks[..|chunks| - 1];
      var us, vs := ChunksAreCommon(init);
      var l, r := LeftText(init) + c.left, RightText(init) + c.right;
      var ids := Upto(|c.common|);
      ps, qs := us + Shift(ids, |l|), vs + Shift(ids, |r|);
      IncreasingJoin(us, Shift(ids, |l|), |l|);
      IncreasingJoin(vs, Shift(ids, |r|), |r|);
      forall i | 0 <= i < |ps| ensures LeftText(chunks)[ps[i]] == RightText(chunks)[qs[i]] {
        if i < |us| {
          assert LeftText(init)[us[i]] == RightText(init)[vs[i]];
        } else {
          assert (l + c.common)[ps[i]] == c.common[i - |us|] == (r + c.common)[qs[i]];
        }
      }
    }
  }

  /** No diff of the same two texts has fewer edits than one that keeps `Length` letters. */
  lemma FewestEdits<T>(chunks: seq<Chunk<T>>, other: seq<Chunk<T>>)
    requires LeftText(other) == LeftText(chunks) && RightText(other) == RightText(chunks)
    requires Kept(chunks) == Length(LeftText(chunks), RightText(chunks))
    ensures Kept(other) <= Kept(chunks) && Edits(chunks) <= Edits(other)
  {
    EditsAreTheRest(chunks);
    EditsAreTheRest(other);
    var ps, qs := ChunksAreCommon(other);
    LengthIsLongest(LeftText(chunks), RightText(chunks));
  }

  /** A letter on both sides of one chunk could be kept as well. */
  lemma {:induction false} OneMoreKept<T>(chunks: seq<Chunk<T>>, k: nat, i: nat, j: nat) returns (other: seq<Chunk<T>>)
    requires k < |chunks| && i < |chunks[k].left| && j < |chunks[k].right| && chunks[k].left[i] == chunks[k].right[j]
    ensures LeftText(other) == LeftText(chunks) && RightText(other) == RightText(chunks)
    ensures Kept(other) == Kept(chunks) + 1
  {
    var n := |chunks| - 1;
    var c, init := chunks[n], chunks[..n];
    if k < n {
      var finer := OneMoreKept(init, k, i, j);
      Snoc(finer, c);
      other := finer + [c];
    } else {
      var a := Chunk(c.left[..i], c.right[..j], [c.left[i]]);
      var b := Chunk(c.left[i + 1..], c.right[j + 1..], c.common);
      Snoc(init, a);
      Snoc(init + [a], b);
      SplitAt(LeftText(init), c.left, i, c.common);
      SplitAt(RightText(init), c.right, j, c.common);
      other := init + [a] + [b];
    }
  }

  lemma SplitAt<T>(before: seq<T>, l: seq<T>, i: nat, after: seq<T>)
    requires i < |l|
    ensures before + l[..i] + [l[i]] + l[i + 1..] + after == before + l + after
  {
    assert l == l[..i] + [l[i]] + l[i + 1..];
  }

  /** Where as much as possible is kept, no letter stands on both sides of a chunk. */
  lemma NothingMoreInCommon<T>(chunks: seq<Chunk<T>>, k: nat, i: nat, j: nat)
    requires Kept(chunks) == Length(LeftText(chunks), RightText(chunks))
    requires k < |chunks| && i < |chunks[k].left| && j < |chunks[k].right|
    ensures chunks[k].left[i] != chunks[k].right[j]
  {
    if chunks[k].left[i] == chunks[k].right[j] {
      var other := OneMoreKept(chunks, k, i, j);
      FewestEdits(chunks, other);
    }
  }

  // ---------------------------------------------------------------- what is left of the common word still fits

  /** `w` is a subsequence of `s`, taking each letter as early as possible. */
  predicate Fits<T(==)>(w: seq<T>, s: seq<T>) {
    w == [] || (s != [] && if w[0] == s[0] then Fits(w[1..], s[1..]) else Fits(w, s[1..]))
  }

  lemma {:induction false} FitsInMore<T>(w: seq<T>, x: T, s: seq<T>)
    requires Fits(w, s)
    ensures Fits(w, [x] + s)
    decreases |s|, 1
  {
    assert ([x] + s)[1..] == s;
    if w != [] && w[0] == x { FitsAfterFirst(w, s); }
  }

  /** Dropping the first letter of the word leaves room to drop one letter of the text. */
  lemma {:induction false} FitsAfterFirst<T>(w: seq<T>, s: seq<T>)
    requires Fits(w, s) && w != []
    ensures s != [] && Fits(w[1..], s[1..]) && Fits(w[1..], s)
    decreases |s|, 0
  {
    assert s == [s[0]] + s[1..];
    if w[0] != s[0] { FitsAfterFirst(w, s[1..]); }
    FitsInMore(w[1..], s[0], s[1..]);
  }

  /** The letter sought is there, and the word still fits from its first occurrence on. */
  lemma {:induction false} FitsFromFirst<T>(w: seq<T>, s: seq<T>, k: nat)
    requires Fits(w, s) && w != [] && k <= |s|
    requires (forall i :: 0 <= i < k ==> s[i] != w[0]) && (k < |s| ==> s[k] == w[0])
    ensures k < |s| && Fits(w, s[k..])
    decreases k
  {
    if k > 0 {
      FitsFromFirst(w, s[1..], k - 1);
      assert s[1..][k - 1..] == s[k..];
    }
  }

  lemma {:induction false} CommonFits<T>(w: seq<T>, s: seq<T>, ps: seq<nat>, n: nat)
    requires Increasing(ps) && |w| == |ps| && n <= |s|
    requires forall i :: 0 <= i < |ps| ==> n <= ps[i] < |s| && s[ps[i]] == w[i]
    ensures Fits(w, s[n..])
    decreases |s| - n
  {
    if w != [] {
      assert n <= ps[0] < |s|;
      var t := s[n..];
      assert t[1..] == s[n + 1..] && t[0] == s[n];
      if ps[0] == n {
        CommonFits(w[1..], s, ps[1..], n + 1);
      } else {
        assert forall i :: 0 <= i < |ps| ==> ps[0] <= ps[i];
        CommonFits(w, s, ps, n + 1);
        assert t == [s[n]] + s[n + 1..];
        FitsInMore(w, s[n], s[n + 1..]);
      }
    }
  }

  // ---------------------------------------------------------------- the walk

  /** First occurrence of `c` at or after `start`, or the end. */
  method FindFrom<T(==)>(s: seq<T>, start: nat, c: T) returns (k: nat)
    requires start <= |s|
    ensures start <= k <= |s| && (forall i :: start <= i < k ==> s[i] != c) && (k < |s| ==> s[k] == c)
  {
    k := start;
    while k < |s| && s[k] != c
      invariant start <= k <= |s| && forall i :: start <= i < k ==> s[i] != c
    {
      k := k + 1;
    }
  }

  /** With `i` letters of the common word used up, the rest lies ahead in both sequences. */
  ghost predicate Ahead<T>(s1: seq<T>, s2: seq<T>, buf: seq<nat>, i: nat, e1: nat, e2: nat) {
    && i <= |buf| && e1 <= |s1| && e2 <= |s2| && Increasing(buf)
    && (forall k :: 0 <= k < |buf| ==> buf[k] < |s2|)
    && (i < |buf| ==> e2 <= buf[i])
    && Fits(Letters(s2, buf[i..]), s1[e1..])
  }

  /** The jump to the next common letter. */
  lemma AheadJump<T>(s1: seq<T>, s2: seq<T>, buf: seq<nat>, i: nat, e1: nat, e2: nat, c1: nat)
    requires Ahead(s1, s2, buf, i, e1, e2) && i < |buf| && e1 <= c1 <= |s1|
    requires (forall k :: e1 <= k < c1 ==> s1[k] != s2[buf[i]]) && (c1 < |s1| ==> s1[c1] == s2[buf[i]])
    ensures c1 < |s1| && Ahead(s1, s2, buf, i, c1, buf[i])
  {
    var w := Letters(s2, buf[i..]);
    FitsFromFirst(w, s1[e1..], c1 - e1);
    assert s1[e1..][c1 - e1..] == s1[c1..];
  }

  /** One equal pair followed: whether or not it is the planned one, a letter is used up. */
  lemma AheadFollow<T>(s1: seq<T>, s2: seq<T>, buf: seq<nat>, i: nat, e1: nat, e2: nat)
    requires Ahead(s1, s2, buf, i, e1, e2) && i < |buf|
    ensures e1 < |s1| && e2 < |s2| && Ahead(s1, s2, buf, i + 1, e1 + 1, e2 + 1)
  {
    var w := Letters(s2, buf[i..]);
    FitsAfterFirst(w, s1[e1..]);
    assert s1[e1..][1..] == s1[e1 + 1..];
    assert w[1..] == Letters(s2, buf[i + 1..]);
    assert i + 1 < |buf| ==> buf[i] < buf[i + 1];
  }

  /** No common letter is left when both inputs are used up. */
  lemma AheadDone<T>(s1: seq<T>, s2: seq<T>, buf: seq<nat>, i: nat, e1: nat, e2: nat)
    requires Ahead(s1, s2, buf, i, e1, e2) && (i > |buf| || (e1 == |s1| && e2 == |s2|))
    ensures i == |buf|
  {
    if i < |buf| { AheadFollow(s1, s2, buf, i, e1, e2); }
  }

  ghost predicate Spells<T>(chunks: seq<Chunk<T>>, swapped: bool, t1: seq<T>, t2: seq<T>) {
    if swapped then LeftText(chunks) == t2 && RightText(chunks) == t1
    else LeftText(chunks) == t1 && RightText(chunks) == t2
  }

  lemma SpellsSnoc<T>(chunks: seq<Chunk<T>>, swapped: bool, s1: seq<T>, s2: seq<T>,
                      d1: nat, c1: nat, e1: nat, d2: nat, c2: nat, e2: nat)
    requires d1 <= c1 <= e1 <= |s1| && d2 <= c2 <= e2 <= |s2| && s1[c1..e1] == s2[c2..e2]
    requires Spells(chunks, swapped, s1[..d1], s2[..d2])
    ensures var c := if swapped then Chunk(s2[d2..c2], s1[d1..c1], s2[c2..e2])
      else Chunk(s1[d1..c1], s2[d2..c2], s1[c1..e1]);
      Spells(chunks + [c], swapped, s1[..e1], s2[..e2]) && Kept(chunks + [c]) == Kept(chunks) + (e1 - c1)
  {
    var c := if swapped then Chunk(s2[d2..c2], s1[d1..c1], s2[c2..e2]) else Chunk(s1[d1..c1], s2[d2..c2], s1[c1..e1]);
    Snoc(chunks, c);
    assert s1[..e1] == s1[..d1] + s1[d1..c1] + s1[c1..e1];
    assert s2[..e2] == s2[..d2] + s2[d2..c2] + s2[c2..e2];
  }

  /** Follows equal letters from (c1, c2) while there are common letters left to use. */
  method Follow<T(==)
    >(s1: seq<T>, s2: seq<T>, buf: seq<nat>, i0: nat, c1: nat, c2: nat) returns (i: nat, e1: nat, e2: nat)
    requires Ahead(s1, s2, buf, i0, c1, c2) && i0 < |buf| && c1 < |s1| && c2 < |s2| && s1[c1] == s2[c2]
    ensures Ahead(s1, s2, buf, i, e1, e2) && i > i0
    ensures c1 <= e1 && c2 <= e2 && e1 - c1 == e2 - c2 == i - i0 && s1[c1..e1] == s2[c2..e2]
    ensures i < |buf| ==> e1 < |s1| && e2 < |s2| && s1[e1] != s2[e2]
  {
    i, e1, e2 := i0, c1, c2;
    while i < |buf| && s1[e1] == s2[e2]
      invariant c1 <= e1 && c2 <= e2 && e1 - c1 == e2 - c2 == i - i0
      invariant Ahead(s1, s2, buf, i, e1, e2) && (i < |buf| ==> e1 < |s1| && e2 < |s2|)
      invariant i == i0 ==> s1[e1] == s2[e2]
      invariant s1[c1..e1] == s2[c2..e2]
      decreases |buf| - i
    {
      AheadFollow(s1, s2, buf, i, e1, e2);
      if i + 1 < |buf| { AheadFollow(s1, s2, buf, i + 1, e1 + 1, e2 + 1); }
      assert s1[c1..e1 + 1] == s1[c1..e1] + [s1[e1]] && s2[c2..e2 + 1] == s2[c2..e2] + [s2[e2]];
      i, e1, e2 := i + 1, e1 + 1, e2 + 1;
    }
  }

  lemma AheadAtEnd<T>(s1: seq<T>, s2: seq<T>, buf: seq<nat>)
    requires Increasing(buf) && forall k :: 0 <= k < |buf| ==> buf[k] < |s2|
    ensures Ahead(s1, s2, buf, |buf|, |s1|, |s2|)
  {
  }

  /** Where the next common part begins and ends; after the last letter, the end of both inputs. */
  method NextCommon<T(==)>(s1: seq<T>, s2: seq<T>, buf: seq<nat>, i0: nat, e1_0: nat, e2_0: nat)
    returns (c1: nat, c2: nat, i: nat, e1: nat, e2: nat)
    requires Ahead(s1, s2, buf, i0, e1_0, e2_0)
    ensures Ahead(s1, s2, buf, i, e1, e2) && e1_0 <= c1 <= e1 && e2_0 <= c2 <= e2
    ensures s1[c1..e1] == s2[c2..e2] && e1 - c1 == i - i0
    ensures if i0 < |buf| then i > i0 else e1 == |s1| && e2 == |s2|
    ensures i0 < |buf| ==> c1 < |s1| && c2 < |s2| && s1[c1] == s2[c2]
    ensures i < |buf| ==> e1 < |s1| && e2 < |s2| && s1[e1] != s2[e2]
  {
    if i0 < |buf| {
      c2 := buf[i0];
      c1 := FindFrom(s1, e1_0, s2[c2]);
      AheadJump(s1, s2, buf, i0, e1_0, e2_0, c1);
      i, e1, e2 := Follow(s1, s2, buf, i0, c1, c2);
    } else {
      c1, c2, i, e1, e2 := |s1|, |s2|, i0, |s1|, |s2|;
      AheadAtEnd(s1, s2, buf);
    }
  }

  method InlineDiff<T(==)>(left: seq<T>, right: seq<T>) returns (chunks: seq<Chunk<T>>)
    ensures LeftText(chunks) == left && RightText(chunks) == right
    ensures Kept(chunks) == Length(left, right)
    ensures forall k :: 0 <= k < |chunks| - 1 ==> chunks[k].common != []
    ensures forall k :: 0 < k < |chunks| ==> chunks[k].left != [] || chunks[k].right != []
    ensures forall k, i, j :: 0 <= k < |chunks| && 0 <= i < |chunks[k].left| && 0 <= j < |chunks[k].right| ==>
      chunks[k].left[i] != chunks[k].right[j]
  {
    var s1, s2, swapped := left, right, false;
    if |s1| < |s2| {
      s1, s2, swapped := right, left, true;
    }
    LengthSymmetric(left, right);
    var ctx := new Context<T>();
    var length, lcs := ctx.Make(s1, s2);
    chunks := Walk(s1, s2, swapped, ctx.ResultBuffer);
    forall k | 0 <= k < |chunks|
      ensures k < |chunks| - 1 ==> chunks[k].common != []
      ensures k > 0 ==> chunks[k].left != [] || chunks[k].right != []
    {
      assert JointAt(chunks, k, false);
    }
    forall k, i, j | 0 <= k < |chunks| && 0 <= i < |chunks[k].left| && 0 <= j < |chunks[k].right|
      ensures chunks[k].left[i] != chunks[k].right[j]
    {
      NothingMoreInCommon(chunks, k, i, j);
    }
  }

  /** Every chunk but the first has an edit, and every one has a common part, but the last if it may have none. */
  predicate Joints<T(==)>(chunks: seq<Chunk<T>>, all: bool) {
    forall k :: 0 <= k < |chunks| ==> JointAt(chunks, k, all)
  }

  predicate JointAt<T(==)>(chunks: seq<Chunk<T>>, k: nat, all: bool)
    requires k < |chunks|
  {
    (all || k + 1 < |chunks| ==> chunks[k].common != []) && (k > 0 ==> chunks[k].left != [] || chunks[k].right != [])
  }

  lemma JointsSnoc<T>(chunks: seq<Chunk<T>>, c: Chunk<T>, all: bool)
    requires Joints(chunks, true) && (all ==> c.common != []) && (chunks != [] ==> c.left != [] || c.right != [])
    ensures Joints(chunks + [c], all)
  {
    forall k | 0 <= k < |chunks + [c]| ensures JointAt(chunks + [c], k, all) {
      assert k < |chunks| ==> JointAt(chunks, k, true);
    }
  }

  /** The chunk between two places in either sequence. */
  method Part<T(==)>(s1: seq<T>, s2: seq<T>, swapped: bool, d1: nat, c1: nat, e1: nat, d2: nat, c2: nat, e2: nat)
    returns (chunk: Chunk<T>)
    requires d1 <= c1 <= e1 <= |s1| && d2 <= c2 <= e2 <= |s2| && s1[c1..e1] == s2[c2..e2]
    ensures chunk == if swapped then Chunk(s2[d2..c2], s1[d1..c1], s2[c2..e2])
      else Chunk(s1[d1..c1], s2[d2..c2], s1[c1..e1])
    ensures chunk.common != [] <==> c1 < e1
    ensures chunk.left != [] || chunk.right != [] <==> d1 < c1 || d2 < c2
  {
    chunk := Chunk(s1[d1..c1], s2[d2..c2], s1[c1..e1]);
    if swapped {
      chunk := Chunk(chunk.right, chunk.left, s2[c2..e2]);
    }
    assert |s1[c1..e1]| == |s2[c2..e2]|;
  }

  /** The loop of InlineDiff: positions in `buf` are positions in s2. */
  method Walk<T(==)>(s1: seq<T>, s2: seq<T>, swapped: bool, buf: seq<nat>) returns (chunks: seq<Chunk<T>>)
    requires exists ps :: Common(s1, s2, ps, buf)
    ensures Spells(chunks, swapped, s1, s2) && Kept(chunks) == |buf| && Joints(chunks, false)
  {
    ghost var ps :| Common(s1, s2, ps, buf);
    CommonFits(Letters(s2, buf), s1, ps, 0);
    assert buf[0..] == buf && s1[0..] == s1;

    chunks := [];
    var d1, d2, e1, e2, i := 0, 0, 0, 0, 0;
    var n := |buf|;
    while i <= n && (e1 != |s1| || e2 != |s2|)
      invariant d1 == e1 && d2 == e2 && Ahead(s1, s2, buf, i, e1, e2)
      invariant Spells(chunks, swapped, s1[..e1], s2[..e2]) && Kept(chunks) == i
      invariant Joints(chunks, i < n || e1 != |s1| || e2 != |s2|)
      invariant chunks != [] && i < n ==> e1 < |s1| && e2 < |s2| && s1[e1] != s2[e2]
      decreases n - i, if e1 != |s1| || e2 != |s2| then 1 else 0
    {
      var c1, c2;
      c1, c2, i, e1, e2 := NextCommon(s1, s2, buf, i, e1, e2);
      var chunk := Part(s1, s2, swapped, d1, c1, e1, d2, c2, e2);
      SpellsSnoc(chunks, swapped, s1, s2, d1, c1, e1, d2, c2, e2);
      JointsSnoc(chunks, chunk, i < n || e1 != |s1| || e2 != |s2|);
      chunks := chunks + [chunk];
      d1, d2 := e1, e2;
    }
    AheadDone(s1, s2, buf, i, e1, e2);
    assert s1[..e1] == s1 && s2[..e2] == s2;
  }
}
