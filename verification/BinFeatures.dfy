/** Feature sets as runs of consecutive bins, and the background of enabled bins. */
module BinFeatures {

  predicate Between(from: int, b: int, to: int) { from <= b < to }

  function Interval(from: int, to: int): (z: set<int>) { set b: int | from <= b < to && Between(from, b, to) }

  /** `starts[i]` is the first bin of feature i; the bins of a feature are consecutive. */
  datatype FeatureSet = FeatureSet(starts: seq<nat>, count: nat) {
    predicate Valid() {
      && starts != [] && starts[0] == 0 && starts[|starts| - 1] <= count
      && forall i, j :: 0 <= i <= j < |starts| ==> starts[i] <= starts[j]
    }

    function End(f: nat): nat
      requires f < |starts|
    {
      if f < |starts| - 1 then starts[f + 1] else count
    }

    function Range(f: nat): set<int>
      requires f < |starts|
    {
      Interval(starts[f], End(f))
    }

    /** No feature is empty. */
    predicate Proper() {
      Valid() && forall f :: 0 <= f < |starts| ==> starts[f] < End(f)
    }
  }

  /** GetFeatureIndexByBinIndex: lower_bound of bin + 1 among the starts, less one. */
  method FeatureOf(fs: FeatureSet, bin: nat) returns (f: nat)
    requires fs.Valid() && bin < fs.count
    ensures f < |fs.starts| && fs.starts[f] <= bin < fs.End(f)
  {
    var lo, hi := 0, |fs.starts|;
    while lo < hi
      invariant 0 <= lo <= hi <= |fs.starts|
      invariant forall i :: 0 <= i < lo ==> fs.starts[i] < bin + 1
      invariant forall i :: hi <= i < |fs.starts| ==> fs.starts[i] >= bin + 1
    {
      var mid := (lo + hi) / 2;
      if fs.starts[mid] < bin + 1 {
        lo := mid + 1;
      } else {
        hi := mid;
      }
    }
    assert fs.starts[0] < bin + 1;
    f := lo - 1;
  }

  /** A feature's bins are those from its start up to the start of the next, or to the end. */
  lemma RangeIs(fs: FeatureSet, f: nat, b: int)
    requires fs.Valid() && f < |fs.starts|
    ensures b in fs.Range(f) <==> fs.starts[f] <= b < if f + 1 < |fs.starts| then fs.starts[f + 1] else fs.count
  {
    assert b in fs.Range(f) <==> Between(fs.starts[f], b, fs.End(f));
  }

  /** Every bin belongs to one feature. */
  lemma RangesDisjoint(fs: FeatureSet, f: nat, g: nat)
    requires fs.Valid() && f < |fs.starts| && g < |fs.starts| && f != g
    ensures fs.Range(f) !! fs.Range(g)
  {
    assert if f < g then fs.End(f) <= fs.starts[g] else fs.End(g) <= fs.starts[f];
  }

  ghost predicate SameFeature(fs: FeatureSet, b: int, e: int)
    requires fs.Valid()
  {
    exists g :: 0 <= g < |fs.starts| && b in fs.Range(g) && e in fs.Range(g)
  }

  lemma SameFeatureIs(fs: FeatureSet, g: nat, b: int, e: int)
    requires fs.Valid() && g < |fs.starts| && e in fs.Range(g)
    ensures SameFeature(fs, b, e) <==> b in fs.Range(g)
  {
    forall h | 0 <= h < |fs.starts| && h != g ensures fs.Range(h) !! fs.Range(g) {
      RangesDisjoint(fs, h, g);
    }
  }

  /** A background is copied by value in the source, so it is a value here. */
  datatype Background = Background(enabled: seq<bool>, lastFrom: nat, lastTo: nat) {
    predicate Valid() { lastFrom <= lastTo <= |enabled| }

    function On(): set<int> { set b: int | 0 <= b < |enabled| && enabled[b] }

    function Last(): set<int> { Interval(lastFrom, lastTo) }

    function SetBin(b: int, on: bool): (z: Background)
      requires 0 <= b < |enabled| && Valid()
      ensures z.Valid() && |z.enabled| == |enabled|
      ensures z.On() == if on then On() + {b} else On() - {b}
    {
      var z := enabled[b := on];
      if on then Background(z, b, b + 1) else Background(z, lastFrom, lastTo)
    }

    /** Only the bins enabled last. */
    function LastEnabled(): (z: Background)
      requires Valid()
      ensures z.Valid() && |z.enabled| == |enabled| && z.On() == Last()
    {
      Background(seq(|enabled|, b requires 0 <= b < |enabled| => lastFrom <= b < lastTo), 0, 0)
    }

    function SetRange(from: nat, to: nat, on: bool): (z: Background)
      requires from <= to <= |enabled| && Valid()
      ensures z.Valid() && |z.enabled| == |enabled|
      ensures z.On() == if on then On() + Interval(from, to) else On() - Interval(from, to)
      ensures on ==> z.Last() == Interval(from, to)
    {
      var z := seq(|enabled|, b requires 0 <= b < |enabled| => if from <= b < to then on else enabled[b]);
      if on then Background(z, from, to) else Background(z, lastFrom, lastTo)
    }
  }

  /** The indexes of the bins that are on (or off), in order. */
  function Indexes(enabled: seq<bool>, on: bool, n: nat): (l: seq<int>)
    requires n <= |enabled|
    ensures forall b :: b in l <==> 0 <= b < n && enabled[b] == on
    ensures forall i, j :: 0 <= i < j < |l| ==> l[i] < l[j]
  {
    if n == 0 then [] else
      var l := Indexes(enabled, on, n - 1);
      assert forall i :: 0 <= i < |l| ==> l[i] in l;
      if enabled[n - 1] == on then l + [n - 1] else l
  }

  /** The list without the bins in `drop`. */
  function Without(l: seq<int>, drop: seq<int>): (z: seq<int>)
    ensures forall b :: b in z <==> b in l && b !in drop
  {
    if l == [] then [] else (if l[0] in drop then [] else [l[0]]) + Without(l[1..], drop)
  }

  predicate Better(greatest: bool, x: real, y: real) { if greatest then x > y else x < y }

  /** The first element of extreme value: greatest, or least. */
  method ExtremeElementBy<T>(l: seq<T>, value: T -> real, greatest: bool) returns (pos: nat)
    requires l != []
    ensures pos < |l| && (forall i :: 0 <= i < |l| ==> !Better(greatest, value(l[i]), value(l[pos])))
    ensures forall i :: 0 <= i < pos ==> Better(greatest, value(l[pos]), value(l[i]))
  {
    var best := value(l[0]);
    pos := 0;
    for i := 1 to |l|
      invariant pos < i && best == value(l[pos])
      invariant forall k :: 0 <= k < i ==> !Better(greatest, value(l[k]), best)
      invariant forall k :: 0 <= k < pos ==> Better(greatest, best, value(l[k]))
    {
      var cur := value(l[i]);
      if Better(greatest, cur, best) {
        best, pos := cur, i;
      }
    }
  }
}
