/** Entropy of rows packed from bins, and conditional mutual information from four such entropies.
    The entropy is a function of how many rows share each value; the sum itself is left abstract. */
module Entropy {

  type Bin = seq<bool>

  /** What is made of the multiset of counts and the number of rows. */
  type Formula = (multiset<nat>, nat) -> real

  const WORD: nat := 0x1_0000_0000_0000_0000
  const MAX_BIN_COUNT: nat := 64

  function Bit(b: bool): nat { if b then 1 else 0 }

  // ---------------------------------------------------------------- packing

  function Power(n: nat): nat { if n == 0 then 1 else 2 * Power(n - 1) }

  /** Row i, one binary digit a bin. */
  function Packed(bins: seq<Bin>, i: nat): nat
    requires forall b :: b in bins ==> i < |b|
  {
    if bins == [] then 0 else 2 * Packed(bins[..|bins| - 1], i) + Bit(bins[|bins| - 1][i])
  }

  predicate Fitting(bins: seq<Bin>, n: nat) { forall b :: b in bins ==> |b| == n }

  function Rows(bins: seq<Bin>, n: nat): (v: seq<nat>)
    requires Fitting(bins, n)
    ensures |v| == n && forall i :: 0 <= i < n ==> v[i] == Packed(bins, i)
  {
    seq(n, i requires 0 <= i < n => Packed(bins, i))
  }

  lemma {:induction false} PackedBound(bins: seq<Bin>, i: nat)
    requires forall b :: b in bins ==> i < |b|
    ensures Packed(bins, i) < Power(|bins|)
  {
    if bins != [] { PackedBound(bins[..|bins| - 1], i); }
  }

  lemma {:induction false} PowerGrows(m: nat, n: nat)
    requires m <= n
    ensures Power(m) <= Power(n)
    decreases n
  {
    if m < n { PowerGrows(m, n - 1); }
  }

  lemma WordIsPower()
    ensures Power(64) == WORD
  {
    assert Power(8) == 256;
    assert Power(16) == 65536 by { PowerAdd(8, 8); }
    PowerAdd(16, 16);
    PowerAdd(32, 32);
  }

  lemma {:induction false} PowerAdd(m: nat, n: nat)
    ensures Power(m + n) == Power(m) * Power(n)
  {
    if m > 0 { PowerAdd(m - 1, n); }
  }

  predicate Agree(bins: seq<Bin>, i: nat, j: nat)
    requires forall b :: b in bins ==> i < |b| && j < |b|
  {
    forall b :: b in bins ==> b[i] == b[j]
  }

  /** Two rows have the same value exactly when every bin agrees on them. */
  lemma {:induction false} PackedEqual(bins: seq<Bin>, i: nat, j: nat)
    requires forall b :: b in bins ==> i < |b| && j < |b|
    ensures Packed(bins, i) == Packed(bins, j) <==> Agree(bins, i, j)
  {
    if bins != [] {
      var m := |bins| - 1;
      PackedEqual(bins[..m], i, j);
      assert bins == bins[..m] + [bins[m]];
      assert Agree(bins, i, j) <==> Agree(bins[..m], i, j) && bins[m][i] == bins[m][j];
    }
  }

  // ---------------------------------------------------------------- counts

  /** How many of the first n values are x. */
  function Count(v: seq<nat>, n: nat, x: nat): nat
    requires n <= |v|
  {
    if n == 0 then 0 else Count(v, n - 1, x) + if v[n - 1] == x then 1 else 0
  }

  /** A count above zero, once. */
  function Once(c: nat): multiset<nat> { if c > 0 then multiset{c} else multiset{} }

  /** One count goes up by one. */
  function Raised(m: multiset<nat>, c: nat): multiset<nat> { m - Once(c) + multiset{c + 1} }

  /** How often each of the first n values occurs, one entry a value. */
  function Spectrum(v: seq<nat>, n: nat): multiset<nat>
    requires n <= |v|
  {
    if n == 0 then multiset{} else Raised(Spectrum(v, n - 1), Count(v, n - 1, v[n - 1]))
  }

  lemma {:induction false} CountSame(v: seq<nat>, w: seq<nat>, n: nat, x: nat, y: nat)
    requires n <= |v| && n <= |w| && forall i :: 0 <= i < n ==> (v[i] == x <==> w[i] == y)
    ensures Count(v, n, x) == Count(w, n, y)
  {
    if n == 0 {
      return;
    }
    var m := n - 1;
    CountSame(v, w, m, x, y);
  }

  predicate SamePattern(v: seq<nat>, w: seq<nat>, n: nat)
    requires n <= |v| && n <= |w|
  {
    forall i, j :: 0 <= i < n && 0 <= j < n ==> (v[i] == v[j] <==> w[i] == w[j])
  }

  /** The counts depend only on which rows are equal. */
  lemma {:induction false} PatternDecides(v: seq<nat>, w: seq<nat>, n: nat)
    requires n <= |v| && n <= |w| && SamePattern(v, w, n)
    ensures Spectrum(v, n) == Spectrum(w, n)
  {
    if n == 0 {
      return;
    }
    var m := n - 1;
    PatternDecides(v, w, m);
    PatternStep(v, w, m);
  }

  lemma PatternStep(v: seq<nat>, w: seq<nat>, m: nat)
    requires m < |v| && m < |w| && SamePattern(v, w, m + 1) && Spectrum(v, m) == Spectrum(w, m)
    ensures Spectrum(v, m + 1) == Spectrum(w, m + 1)
  {
    CountSame(v, w, m, v[m], w[m]);
  }

  /** One more value raises the count of its class. */
  lemma Snoc(v: seq<nat>, n: nat)
    requires n < |v|
    ensures Spectrum(v, n + 1) == Raised(Spectrum(v, n), Count(v, n, v[n]))
  {
  }

  lemma CountSnoc(v: seq<nat>, n: nat, x: nat)
    requires n < |v|
    ensures Count(v, n + 1, x) == Count(v, n, x) + if v[n] == x then 1 else 0
  {
  }

  /** Place i is the first with its value, and the value is found c times among the first n. */
  predicate Leads(v: seq<nat>, n: nat, c: nat, i: nat)
    requires n <= |v| && i < n
  {
    Count(v, n, v[i]) == c && forall j :: 0 <= j < i ==> v[j] != v[i]
  }

  function Leaders(v: seq<nat>, n: nat, c: nat): set<nat>
    requires n <= |v|
  {
    set i: nat | i < n && Leads(v, n, c, i)
  }

  lemma {:induction false} CountNone(v: seq<nat>, n: nat, x: nat)
    requires n <= |v|
    ensures Count(v, n, x) == 0 <==> forall i :: 0 <= i < n ==> v[i] != x
  {
    if n > 0 {
      var m := n - 1;
      CountNone(v, m, x);
    }
  }

  lemma {:induction false} FirstWith(v: seq<nat>, n: nat, x: nat) returns (i: nat)
    requires n <= |v| && Count(v, n, x) > 0
    ensures i < n && v[i] == x && forall j :: 0 <= j < i ==> v[j] != x
  {
    var m := n - 1;
    if Count(v, m, x) > 0 {
      i := FirstWith(v, m, x);
    } else {
      CountNone(v, m, x);
      i := m;
    }
  }

  /** The counts hold c as often as there are values found c times. */
  lemma {:induction false} SpectrumHas(v: seq<nat>, n: nat, c: nat)
    requires n <= |v|
    ensures Spectrum(v, n)[c] == |Leaders(v, n, c)|
  {
    if n == 0 {
      assert Leaders(v, n, c) == {};
      return;
    }
    var m := n - 1;
    var k := Count(v, m, v[m]);
    SpectrumHas(v, m, c);
    SpectrumHas(v, m, k);
    LeadersNext(v, m, n, c, k);
    SpectrumNext(v, m, n, c, k);
  }

  lemma SpectrumNext(v: seq<nat>, m: nat, n: nat, c: nat, k: nat)
    requires m < |v| && n == m + 1 && k == Count(v, m, v[m]) && (k > 0 ==> Spectrum(v, m)[k] > 0)
    ensures Spectrum(v, n)[c]
      == Spectrum(v, m)[c] + (if c == k + 1 then 1 else 0) - if k > 0 && c == k then 1 else 0
  {
    Snoc(v, m);
    RaisedHas(Spectrum(v, m), k, c);
  }

  lemma RaisedHas(counts: multiset<nat>, k: nat, c: nat)
    requires k > 0 ==> counts[k] > 0
    ensures Raised(counts, k)[c]
      == counts[c] + (if c == k + 1 then 1 else 0) - if k > 0 && c == k then 1 else 0
  {
  }

  lemma LeadersNext(v: seq<nat>, m: nat, n: nat, c: nat, k: nat)
    requires m < |v| && n == m + 1 && k == Count(v, m, v[m])
    ensures k > 0 ==> |Leaders(v, m, k)| > 0
    ensures |Leaders(v, n, c)|
      == |Leaders(v, m, c)| + (if c == k + 1 then 1 else 0) - if k > 0 && c == k then 1 else 0
  {
    if k == 0 { LeadersNew(v, m, c); } else { LeadersAgain(v, m, c); }
  }

  /** The last value was not there before. */
  lemma LeadersNew(v: seq<nat>, m: nat, c: nat)
    requires m < |v| && Count(v, m, v[m]) == 0
    ensures |Leaders(v, m + 1, c)| == |Leaders(v, m, c)| + if c == 1 then 1 else 0
  {
    CountNone(v, m, v[m]);
    var was, now := Leaders(v, m, c), Leaders(v, m + 1, c);
    forall i: nat ensures i in now <==> i in was || (i == m && c == 1) { }
    if c == 1 { assert now == was + {m}; } else { assert now == was; }
  }

  /** It was: the first place with it goes over to the next count. */
  lemma LeadersAgain(v: seq<nat>, m: nat, c: nat)
    requires m < |v| && Count(v, m, v[m]) > 0
    ensures var k := Count(v, m, v[m]);
      && |Leaders(v, m, k)| > 0
      && |Leaders(v, m + 1, c)| == |Leaders(v, m, c)| + (if c == k + 1 then 1 else 0) - if c == k then 1 else 0
  {
    var k := Count(v, m, v[m]);
    var f := FirstWith(v, m, v[m]);
    var was, now := Leaders(v, m, c), Leaders(v, m + 1, c);
    assert f in Leaders(v, m, k);
    forall i: nat ensures i in now <==> if i == f then c == k + 1 else i in was {
      if i < m && v[i] == v[m] && i != f { assert !Leads(v, m, c, i) && !Leads(v, m + 1, c, i); }
    }
    if c == k + 1 { assert now == was + {f}; } else if c == k { assert now == was - {f}; } else { assert now == was; }
  }

  /** The order of the bins, and bins given twice, do not matter. */
  lemma OrderIrrelevant(bins: seq<Bin>, others: seq<Bin>, n: nat)
    requires Fitting(bins, n) && Fitting(others, n) && forall b :: b in bins <==> b in others
    ensures Spectrum(Rows(bins, n), n) == Spectrum(Rows(others, n), n)
  {
    var v, w := Rows(bins, n), Rows(others, n);
    forall i, j | 0 <= i < n && 0 <= j < n ensures v[i] == v[j] <==> w[i] == w[j] {
      PackedEqual(bins, i, j);
      PackedEqual(others, i, j);
    }
    PatternDecides(v, w, n);
  }

  // ---------------------------------------------------------------- the two counters

  /** The entries above zero among the first n, with multiplicity. */
  function Positive(counts: seq<nat>, n: nat): multiset<nat>
    requires n <= |counts|
  {
    if n == 0 then multiset{} else Positive(counts, n - 1) + Once(counts[n - 1])
  }

  lemma {:induction false} PositiveSame(a: seq<nat>, b: seq<nat>, n: nat)
    requires n <= |a| && n <= |b| && forall i :: 0 <= i < n ==> a[i] == b[i]
    ensures Positive(a, n) == Positive(b, n)
  {
    if n == 0 {
      return;
    }
    var m := n - 1;
    PositiveSame(a, b, m);
  }

  lemma Exchange(p: multiset<nat>, c: nat, rest: multiset<nat>)
    requires Once(c) <= p
    ensures Raised(p, c) + rest == Raised(p + rest, c) && Once(c) <= p + rest
  {
  }

  lemma Added(p: multiset<nat>, c: nat)
    ensures p + Once(c + 1) == Raised(p + Once(c), c) && Once(c) <= p + Once(c)
  {
  }

  lemma {:induction false} PositiveRaise(counts: seq<nat>, k: nat, raised: seq<nat>, n: nat)
    requires k < n <= |counts| && raised == counts[k := counts[k] + 1]
    ensures Once(counts[k]) <= Positive(counts, n)
    ensures Positive(raised, n) == Raised(Positive(counts, n), counts[k])
  {
    var m := n - 1;
    var p, q := Positive(counts, m), Positive(raised, m);
    var x, y := Once(counts[m]), Once(raised[m]);
    assert Positive(counts, n) == p + x && Positive(raised, n) == q + y;
    if k < m {
      PositiveRaise(counts, k, raised, m);
      Exchange(p, counts[k], x);
    } else {
      PositiveSame(counts, raised, m);
      Added(p, counts[k]);
    }
  }

  lemma {:induction false} PositiveZeros(counts: seq<nat>, n: nat)
    requires n <= |counts| && forall k :: 0 <= k < n ==> counts[k] == 0
    ensures Positive(counts, n) == multiset{}
  {
    if n == 0 {
      return;
    }
    var m := n - 1;
    PositiveZeros(counts, m);
  }

  /** What is left of a sum, a difference or a double of 64-bit words. */
  function Word(x: int): int { if x < 0 then x + WORD else if x < WORD then x else x - WORD }

  lemma WordIsRemainder(x: int)
    requires 0 - WORD <= x < 2 * WORD
    ensures Word(x) == x % WORD
  {
  }

  predicate Words(v: seq<nat>) { forall x :: x in v ==> x < WORD }

  lemma WordDifference(x: nat, low: nat, k: nat, j: nat)
    requires x < WORD && low < WORD && k == Word(x - low) && j < WORD
    ensures Word(low + k) == x && (Word(low + j) == x ==> j == k)
  {
  }

  predicate PlaceAt(minValue: nat, counts: seq<nat>, v: seq<nat>, n: nat, k: nat)
    requires n <= |v| && minValue < WORD && k < |counts| <= WORD
  {
    counts[k] == Count(v, n, Word(minValue + k))
  }

  /** Places hold the counts of the first n values, from `minValue` on. */
  ghost predicate Placed(minValue: nat, counts: seq<nat>, v: seq<nat>, n: nat) {
    && n <= |v| && minValue < WORD && |counts| <= WORD && forall k :: 0 <= k < |counts| ==>
      PlaceAt(minValue, counts, v, n, k)
  }

  /** The entries keep up with the spectrum when the count of the next value is raised. */
  lemma TotalsNext(counts: seq<nat>, v: seq<nat>, n: nat, k: nat, n': nat, counts': seq<nat>)
    requires n < |v| && k < |counts| && Positive(counts, |counts|) == Spectrum(v, n) && counts[k] == Count(v, n, v[n])
    requires n' == n + 1 && counts' == counts[k := counts[k] + 1]
    ensures Positive(counts', |counts'|) == Spectrum(v, n')
  {
    PositiveRaise(counts, k, counts', |counts|);
    Snoc(v, n);
  }

  lemma PlaceNext(minValue: nat, counts: seq<nat>, v: seq<nat>, n: nat, k: nat, n': nat, counts': seq<nat>)
    requires n < |v| && Placed(minValue, counts, v, n) && k < |counts| && v[n] < WORD
    requires k == Word(v[n] - minValue) && n' == n + 1 && counts' == counts[k := counts[k] + 1]
    ensures Placed(minValue, counts', v, n')
  {
    forall j | 0 <= j < |counts'| ensures PlaceAt(minValue, counts', v, n', j) {
      assert PlaceAt(minValue, counts, v, n, j);
      PlaceKept(minValue, counts, v, n, k, n', counts', j);
    }
  }

  lemma PlaceKept(minValue: nat, counts: seq<nat>, v: seq<nat>, n: nat, k: nat, n': nat, counts': seq<nat>, j: nat)
    requires n < |v| && k < |counts| <= WORD && v[n] < WORD && minValue < WORD && j < |counts|
    requires PlaceAt(minValue, counts, v, n, j)
    requires k == Word(v[n] - minValue) && n' == n + 1 && counts' == counts[k := counts[k] + 1]
    ensures PlaceAt(minValue, counts', v, n', j)
  {
    CountSnoc(v, n, Word(minValue + j));
    WordDifference(v[n], minValue, k, j);
  }

  /** The places above zero are the counts of the first n values, if each of these has a place. */
  lemma {:induction false} PlacesTotal(minValue: nat, counts: seq<nat>, v: seq<nat>, n: nat)
    requires Placed(minValue, counts, v, n) && forall i :: 0 <= i < n ==>
      v[i] < WORD && InPlace(v[i], minValue, |counts|)
    ensures Positive(counts, |counts|) == Spectrum(v, n)
    decreases n
  {
    if n == 0 {
      forall k | 0 <= k < |counts| ensures counts[k] == 0 { assert PlaceAt(minValue, counts, v, n, k); }
      PositiveZeros(counts, |counts|);
      return;
    }
    var m := n - 1;
    var k := Word(v[m] - minValue);
    var before := PlacesBefore(minValue, counts, v, m);
    PlacesTotal(minValue, before, v, m);
    PlaceNext(minValue, before, v, m, k, n, before[k := before[k] + 1]);
    SamePlaces(minValue, counts, before[k := before[k] + 1], v, n);
    WordDifference(v[m], minValue, k, k);
    assert PlaceAt(minValue, before, v, m, k);
    TotalsNext(before, v, m, k, n, counts);
  }

  lemma PlacesBefore(minValue: nat, counts: seq<nat>, v: seq<nat>, m: nat) returns (before: seq<nat>)
    requires m <= |v| && minValue < WORD && |counts| <= WORD
    ensures |before| == |counts| && Placed(minValue, before, v, m)
  {
    before := [];
    for k := 0 to |counts|
      invariant |before| == k && Placed(minValue, before, v, m)
    {
      PlacedSnoc(minValue, before, v, m, before + [Count(v, m, Word(minValue + k))]);
      before := before + [Count(v, m, Word(minValue + k))];
    }
  }

  lemma PlacedSnoc(minValue: nat, a: seq<nat>, v: seq<nat>, m: nat, b: seq<nat>)
    requires Placed(minValue, a, v, m) && |b| == |a| + 1 <= WORD && b[..|a|] == a && PlaceAt(minValue, b, v, m, |a|)
    ensures Placed(minValue, b, v, m)
  {
    forall k | 0 <= k < |b| ensures PlaceAt(minValue, b, v, m, k) {
      assert k < |a| ==> PlaceAt(minValue, a, v, m, k) && b[k] == b[..|a|][k];
    }
  }

  lemma SamePlaces(minValue: nat, a: seq<nat>, b: seq<nat>, v: seq<nat>, n: nat)
    requires |a| == |b| && Placed(minValue, a, v, n) && Placed(minValue, b, v, n)
    ensures a == b
  {
    forall k | 0 <= k < |a| ensures a[k] == b[k] {
      assert PlaceAt(minValue, a, v, n, k) && PlaceAt(minValue, b, v, n, k);
    }
  }

  /** TVectorCounter: one place for every value of the range. */
  class TVectorCounter {
    const minValue: nat
    var valueCount: seq<nat>

    constructor (minValue: nat, maxValue: nat, ghost v: seq<nat>)
      requires minValue < WORD && maxValue < WORD
      ensures Placed(minValue, valueCount, v, 0) && this.minValue == minValue
      ensures |valueCount| == Word(maxValue - minValue + 1)
    {
      this.minValue := minValue;
      valueCount := seq(Word(maxValue - minValue + 1), _ => 0);
    }

    /** Raises the place of the value. */
    method Add(value: nat, ghost v: seq<nat>, ghost n: nat)
      requires n < |v| && value == v[n] < WORD && Placed(minValue, valueCount, v, n)
      requires InPlace(value, minValue, |valueCount|)
      modifies this
      ensures Placed(minValue, valueCount, v, n + 1) && |valueCount| == |old(valueCount)|
    {
      var k := Word(value - minValue);
      var counts := valueCount[k := valueCount[k] + 1];
      PlaceNext(minValue, valueCount, v, n, k, n + 1, counts);
      valueCount := counts;
    }

    /** The sum over the places above zero. */
    method GetEntropy(h: Formula, total: nat) returns (r: real)
      ensures r == h(Positive(valueCount, |valueCount|), total)
    {
      r := h(Entries(valueCount), total);
    }
  }

  /** The loop over the entries, which skips zeros. */
  function Entries(counts: seq<nat>): multiset<nat> { Positive(counts, |counts|) }

  /** Each key once, with the positive count of the first n values equal to it. */
  ghost predicate Tallies(keys: seq<nat>, counts: seq<nat>, v: seq<nat>, n: nat) {
    && n <= |v| && |keys| == |counts| && (forall i, j :: 0 <= i < j < |keys| ==> keys[i] != keys[j])
    && (forall k :: 0 <= k < |keys| ==> counts[k] > 0 && counts[k] == Count(v, n, keys[k]))
    && (forall x: nat :: x !in keys ==> Count(v, n, x) == 0)
    && Positive(counts, |counts|) == Spectrum(v, n)
  }

  lemma TallyAgain(keys: seq<nat>, counts: seq<nat>, v: seq<nat>, n: nat, k: nat, n': nat, counts': seq<nat>)
    requires n < |v| && Tallies(keys, counts, v, n) && k < |keys| && keys[k] == v[n]
    requires n' == n + 1 && counts' == counts[k := counts[k] + 1]
    ensures Tallies(keys, counts', v, n')
  {
    TotalsNext(counts, v, n, k, n', counts');
    forall j | 0 <= j < |keys| ensures counts'[j] == Count(v, n', keys[j]) { CountSnoc(v, n, keys[j]); }
    forall x: nat | x !in keys ensures Count(v, n', x) == 0 {
      assert keys[k] in keys;
      CountSnoc(v, n, x);
    }
  }

  lemma TallyNew(keys: seq<nat>, counts: seq<nat>, v: seq<nat>, n: nat, n': nat, keys': seq<nat>, counts': seq<nat>)
    requires n < |v| && Tallies(keys, counts, v, n) && v[n] !in keys
    requires n' == n + 1 && keys' == keys + [v[n]] && counts' == counts + [1]
    ensures Tallies(keys', counts', v, n')
  {
    PositiveSame(counts, counts', |counts|);
    Snoc(v, n);
    assert Count(v, n, v[n]) == 0;
    forall j | 0 <= j < |keys'| ensures counts'[j] == Count(v, n', keys'[j]) {
      CountSnoc(v, n, keys'[j]);
      assert j < |keys| ==> keys[j] in keys;
    }
    forall x: nat | x !in keys' ensures Count(v, n', x) == 0 {
      assert keys'[|keys|] == v[n];
      assert x !in keys;
      CountSnoc(v, n, x);
    }
    NewEntry(counts, counts');
  }

  lemma NewEntry(counts: seq<nat>, counts': seq<nat>)
    requires counts' == counts + [1] && Positive(counts', |counts|) == Positive(counts, |counts|)
    ensures Positive(counts', |counts'|) == Raised(Positive(counts, |counts|), 0)
  {
    var n := |counts|;
    assert counts'[n] == 1;
  }

  /** The place of a key, or the number of keys. */
  method Find(keys: seq<nat>, value: nat) returns (k: nat)
    ensures k <= |keys| && (k < |keys| ==> keys[k] == value) && (k == |keys| ==> value !in keys)
  {
    k := 0;
    while k < |keys| && keys[k] != value
      invariant k <= |keys| && value !in keys[..k]
    {
      k := k + 1;
    }
    assert k == |keys| ==> keys[..k] == keys;
  }

  method Tally(keys0: seq<nat>, counts0: seq<nat>, value: nat, ghost v: seq<nat>, ghost n: nat)
    returns (keys: seq<nat>, counts: seq<nat>)
    requires n < |v| && value == v[n] && Tallies(keys0, counts0, v, n)
    ensures Tallies(keys, counts, v, n + 1)
  {
    var k := Find(keys0, value);
    ghost var n' := n + 1;
    if k < |keys0| {
      keys, counts := keys0, counts0[k := counts0[k] + 1];
      TallyAgain(keys0, counts0, v, n, k, n', counts);
    } else {
      keys, counts := keys0 + [value], counts0 + [1];
      TallyNew(keys0, counts0, v, n, n', keys, counts);
    }
  }

  /** THashMapCounter: one entry for every value met, in any order. */
  class THashMapCounter {
    var keys: seq<nat>
    var counts: seq<nat>

    constructor (ghost v: seq<nat>)
      ensures Tallies(keys, counts, v, 0)
    {
      keys, counts := [], [];
    }

    method Add(value: nat, ghost v: seq<nat>, ghost n: nat)
      requires n < |v| && value == v[n] && Tallies(keys, counts, v, n)
      modifies this
      ensures Tallies(keys, counts, v, n + 1)
    {
      keys, counts := Tally(keys, counts, value, v, n);
    }

    /** The sum over all entries. */
    method GetEntropy(h: Formula, total: nat) returns (r: real)
      ensures r == h(Positive(counts, |counts|), total)
    {
      r := h(Entries(counts), total);
    }
  }

  /** The places from `minValue` to `maxValue` take all the values. */
  predicate InPlaces(values: seq<nat>, minValue: nat, maxValue: nat) {
    forall x :: x in values ==> InPlace(x, minValue, Word(maxValue - minValue + 1))
  }

  predicate InPlace(x: nat, minValue: nat, size: int) { Word(x - minValue) < size }

  method CountInPlaces(h: Formula, values: seq<nat>, minValue: nat, maxValue: nat) returns (ok: bool, r: real)
    requires Words(values) && minValue < WORD && maxValue < WORD
    ensures ok <==> InPlaces(values, minValue, maxValue)
    ensures ok ==> r == h(Spectrum(values, |values|), |values|)
  {
    var counter := new TVectorCounter(minValue, maxValue, values);
    r := 0.0;
    ok := AddAll(counter, values, Word(maxValue - minValue + 1));
    if ok {
      forall i | 0 <= i < |values| ensures values[i] < WORD && InPlace(values[i], minValue, |counter.valueCount|) {
        assert values[i] in values;
      }
      PlacesTotal(minValue, counter.valueCount, values, |values|);
      r := counter.GetEntropy(h, |values|);
    }
  }

  /** It goes wrong, unnoticed, at a value that has no place. */
  method AddAll(counter: TVectorCounter, values: seq<nat>, ghost size: nat) returns (ok: bool)
    requires Words(values) && |counter.valueCount| == size && Placed(counter.minValue, counter.valueCount, values, 0)
    modifies counter
    ensures ok <==> forall x :: x in values ==> InPlace(x, counter.minValue, size)
    ensures |counter.valueCount| == size && (ok ==> Placed(counter.minValue, counter.valueCount, values, |values|))
  {
    for i := 0 to |values|
      invariant Placed(counter.minValue, counter.valueCount, values, i) && |counter.valueCount| == size
      invariant forall k :: 0 <= k < i ==> InPlace(values[k], counter.minValue, size)
    {
      assert values[i] in values;
      if !InPlace(values[i], counter.minValue, |counter.valueCount|) {
        return false;
      }
      counter.Add(values[i], values, i);
    }
    ok := true;
  }

  method CountInMap(h: Formula, values: seq<nat>) returns (r: real)
    ensures r == h(Spectrum(values, |values|), |values|)
  {
    var counter := new THashMapCounter(values);
    for i := 0 to |values|
      invariant Tallies(counter.keys, counter.counts, values, i)
    {
      counter.Add(values[i], values, i);
    }
    r := counter.GetEntropy(h, |values|);
  }

  /** The counter is chosen by the range of the values, a 64-bit word; either gives the entropy of
      the counts, as long as the values have their places. */
  method CountValues(h: Formula, values: seq<nat>, minValue: nat, maxValue: nat) returns (ok: bool, r: real)
    requires Words(values) && minValue < WORD && maxValue < WORD
    ensures ok <==> Word(maxValue - minValue + 1) > 0x40_0000 || InPlaces(values, minValue, maxValue)
    ensures ok ==> r == h(Spectrum(values, |values|), |values|)
  {
    var rangeSize := Word(maxValue - minValue + 1);
    if rangeSize > 0x40_0000 {
      ok := true;
      r := CountInMap(h, values);
    } else {
      ok, r := CountInPlaces(h, values, minValue, maxValue);
    }
  }

  /** Values between the bounds have their places, unless the bounds are the least and the greatest word. */
  lemma RangeWraps(values: seq<nat>, low: nat, high: nat)
    requires values != [] && low <= high < WORD && forall x :: x in values ==> low <= x <= high
    ensures low == 0 && high == WORD - 1 ==> Word(high - low + 1) == 0 && !InPlaces(values, low, high)
    ensures !(low == 0 && high == WORD - 1) ==> InPlaces(values, low, high)
  {
    assert values[0] in values;
  }

  method MinMax(values: seq<nat>) returns (low: nat, high: nat)
    requires values != []
    ensures low <= high && low in values && high in values && forall x :: x in values ==> low <= x <= high
  {
    low, high := values[0], values[0];
    for i := 1 to |values|
      invariant low <= high && low in values && high in values && forall k :: 0 <= k < i ==> low <= values[k] <= high
    {
      low := if values[i] < low then values[i] else low;
      high := if values[i] > high then values[i] else high;
    }
  }

  // ---------------------------------------------------------------- the calculators

  function WithBit(values: seq<nat>, bin: Bin): (v: seq<nat>)
    requires |bin| == |values|
    ensures |v| == |values| && forall i :: 0 <= i < |v| ==> v[i] == 2 * values[i] + Bit(bin[i])
  {
    seq(|values|, i requires 0 <= i < |values| => 2 * values[i] + Bit(bin[i]))
  }

  /** TEntropyCalculator: the packed rows. `bins` are those added so far. */
  datatype Calculator = Calculator(binCount: nat, values: seq<nat>) {
    ghost predicate Holds(bins: seq<Bin>)
    {
      |bins| == binCount <= MAX_BIN_COUNT && Fitting(bins, |values|) && values == Rows(bins, |values|)
    }
  }

  lemma RowsSnoc(bins: seq<Bin>, bin: Bin, n: nat)
    requires Fitting(bins, n) && |bin| == n
    ensures Fitting(bins + [bin], n) && Rows(bins + [bin], n) == WithBit(Rows(bins, n), bin)
  {
    assert (bins + [bin])[..|bins|] == bins;
  }

  /** AddBin: shifts in place, in 64-bit words; it fails for a bin of another size and after 64 bins. */
  method AddBin(c: Calculator, bin: Bin, ghost bins: seq<Bin>) returns (ok: bool, c': Calculator)
    requires c.Holds(bins)
    ensures ok <==> |bin| == |c.values| && c.binCount < MAX_BIN_COUNT
    ensures ok ==> c'.values == WithBit(c.values, bin) && c'.binCount == c.binCount + 1 && c'.Holds(bins + [bin])
  {
    c' := c;
    if |bin| != |c.values| || c.binCount + 1 > MAX_BIN_COUNT {
      return false, c;
    }
    var values := c.values;
    RowsSnoc(bins, bin, |c.values|);
    NoCarry(c, bins, bin);
    for i := 0 to |bin|
      invariant |values| == |bin|
      invariant forall k :: 0 <= k < i ==> values[k] == WithBit(c.values, bin)[k]
      invariant forall k :: i <= k < |bin| ==> values[k] == c.values[k]
    {
      assert c.values[i] in c.values;
      values := values[i := Word(2 * values[i]) + Bit(bin[i])];
    }
    c' := Calculator(c.binCount + 1, values);
    ok := true;
  }

  /** The bins added so far fit a word, so the packed rows are words below the power of two. */
  lemma HeldWords(c: Calculator, bins: seq<Bin>)
    requires c.Holds(bins)
    ensures Words(c.values) && forall x :: x in c.values ==> x < Power(c.binCount)
  {
    PowerGrows(c.binCount, 64);
    WordIsPower();
    forall x | x in c.values ensures x < Power(c.binCount) <= WORD {
      var i :| 0 <= i < |c.values| && c.values[i] == x;
      PackedBound(bins, i);
    }
  }

  lemma HalfWord(n: nat)
    requires n < 64
    ensures 2 * Power(n) <= WORD && if n < 63 then Power(n) < WORD / 2 else Power(n) == WORD / 2
  {
    WordIsPower();
    PowerGrows(n + 1, 64);
    if n < 63 {
      PowerGrows(n + 2, 64);
      PowerPositive(n);
    }
  }

  lemma {:induction false} PowerPositive(n: nat)
    ensures Power(n) > 0
  {
    if n > 0 { PowerPositive(n - 1); }
  }

  /** Both the least and the greatest word of this many bins occur: then the range wraps to 0. */
  predicate FullRange(values: seq<nat>, greatest: nat) { 0 in values && greatest in values }

  /** GetEntropy: it goes wrong exactly when both the least and the greatest word occur, for which
      64 bins are needed. */
  method GetEntropy(h: Formula, c: Calculator, ghost bins: seq<Bin>) returns (ok: bool, r: real)
    requires c.Holds(bins) && c.values != []
    ensures ok <==> !FullRange(c.values, WORD - 1)
    ensures c.binCount < MAX_BIN_COUNT ==> ok
    ensures ok ==> r == h(Spectrum(c.values, |c.values|), |c.values|)
  {
    var low, high := MinMax(c.values);
    HeldWords(c, bins);
    RangeWraps(c.values, low, high);
    if c.binCount < MAX_BIN_COUNT { HalfWord(c.binCount); }
    ok, r := CountValues(h, c.values, low, high);
  }

  /** Doubling in 64-bit words. */
  function WordWithBit(values: seq<nat>, bin: Bin): (v: seq<nat>)
    requires |bin| == |values|
    ensures |v| == |values| && forall i :: 0 <= i < |v| ==> v[i] == Word(2 * values[i] + Bit(bin[i]))
  {
    seq(|values|, i requires 0 <= i < |values| => Word(2 * values[i] + Bit(bin[i])))
  }

  lemma NoCarry(c: Calculator, bins: seq<Bin>, bin: Bin)
    requires c.Holds(bins) && c.binCount < MAX_BIN_COUNT && |bin| == |c.values|
    ensures WordWithBit(c.values, bin) == WithBit(c.values, bin)
    ensures forall x :: x in c.values ==> 2 * x + 1 < WORD
  {
    HeldWords(c, bins);
    HalfWord(c.binCount);
    var v, w := WithBit(c.values, bin), WordWithBit(c.values, bin);
    forall i | 0 <= i < |v| ensures v[i] == w[i] {
      assert c.values[i] in c.values;
    }
  }

  /** The first bin has the greatest weight. */
  lemma {:induction false} FirstBinWeighs(bins: seq<Bin>, i: nat)
    requires bins != [] && forall b :: b in bins ==> i < |b|
    ensures Packed(bins, i) == (if bins[0][i] then Power(|bins| - 1) else 0) + Packed(bins[1..], i)
  {
    var m := |bins| - 1;
    if m > 0 {
      var init := bins[..m];
      FirstBinWeighs(init, i);
      assert bins[1..][..m - 1] == init[1..];
    }
  }

  /** With 64 bins the first of them is lost when one more is looked at: the others and the new one are seen. */
  lemma FirstBinLost(c: Calculator, bins: seq<Bin>, bin: Bin)
    requires c.Holds(bins) && c.binCount == MAX_BIN_COUNT && |bin| == |c.values|
    ensures Fitting(bins[1..] + [bin], |bin|) && WordWithBit(c.values, bin) == Rows(bins[1..] + [bin], |bin|)
  {
    var n := |bin|;
    RowsSnoc(bins[1..], bin, n);
    forall i | 0 <= i < n ensures WordWithBit(c.values, bin)[i] == WithBit(Rows(bins[1..], n), bin)[i] {
      FirstBinWeighs(bins, i);
      PackedBound(bins[1..], i);
      HalfWord(63);
    }
  }

  /** GetEntropyWithExtraBin: with room for the bin it gives what GetEntropy would give after AddBin,
      and goes wrong exactly when both the least and the greatest word of 63 bins occur. */
  method GetEntropyWithExtraBin(h: Formula, c: Calculator, bin: Bin, ghost bins: seq<Bin>) returns (ok: bool, r: real)
    requires c.Holds(bins) && c.values != []
    ensures |bin| != |c.values| ==> !ok
    ensures ok ==> r == h(Spectrum(WordWithBit(c.values, bin), |c.values|), |c.values|)
    ensures c.binCount < MAX_BIN_COUNT && |bin| == |c.values| ==> (ok <==> !FullRange(c.values, WORD / 2 - 1))
    ensures c.binCount < MAX_BIN_COUNT && ok ==> r == h(Spectrum(WithBit(c.values, bin), |c.values|), |c.values|)
    ensures c.binCount + 1 < MAX_BIN_COUNT && |bin| == |c.values| ==> ok
    ensures c.binCount == MAX_BIN_COUNT && ok ==>
      && Fitting(bins[1..] + [bin], |bin|)
      && r == h(Spectrum(Rows(bins[1..] + [bin], |bin|), |bin|), |bin|)
  {
    if |bin| != |c.values| {
      return false, 0.0;
    }
    var low, high := MinMax(c.values);
    var values := [];
    for i := 0 to |bin|
      invariant |values| == i && forall k :: 0 <= k < i ==> values[k] == Word(2 * c.values[k] + Bit(bin[k]))
    {
      values := values + [Word(2 * c.values[i] + Bit(bin[i]))];
    }
    assert values == WordWithBit(c.values, bin);
    HeldWords(c, bins);
    DoubledWords(c.values, bin);
    if c.binCount < MAX_BIN_COUNT { ExtraRange(c, bins, bin, low, high); } else { FirstBinLost(c, bins, bin); }
    ok, r := CountValues(h, values, Word(2 * low), Word(2 * high + 1));
  }

  lemma DoubledWords(values: seq<nat>, bin: Bin)
    requires |bin| == |values| && Words(values)
    ensures Words(WordWithBit(values, bin))
  {
    var v := WordWithBit(values, bin);
    forall x | x in v ensures x < WORD {
      var k :| 0 <= k < |v| && v[k] == x;
      assert values[k] in values;
    }
  }

  lemma ExtraRange(c: Calculator, bins: seq<Bin>, bin: Bin, low: nat, high: nat)
    requires c.Holds(bins) && c.binCount < MAX_BIN_COUNT && |bin| == |c.values| > 0
    requires low in c.values && high in c.values && forall x :: x in c.values ==> low <= x <= high
    ensures WordWithBit(c.values, bin) == WithBit(c.values, bin)
    ensures Word(2 * low) == 2 * low && Word(2 * high + 1) == 2 * high + 1
    ensures (Word(2 * high + 1 - 2 * low + 1) > 0x40_0000 || InPlaces(WithBit(c.values, bin), 2 * low, 2 * high + 1))
      <==> !FullRange(c.values, WORD / 2 - 1)
    ensures c.binCount + 1 < MAX_BIN_COUNT ==> !FullRange(c.values, WORD / 2 - 1)
  {
    NoCarry(c, bins, bin);
    HeldWords(c, bins);
    HalfWord(c.binCount);
    DoubledBetween(c.values, bin, low, high);
    RangeWraps(WithBit(c.values, bin), 2 * low, 2 * high + 1);
    assert FullRange(c.values, WORD / 2 - 1) <==> low == 0 && high == WORD / 2 - 1;
  }

  lemma DoubledBetween(values: seq<nat>, bin: Bin, low: nat, high: nat)
    requires |bin| == |values| && forall x :: x in values ==> low <= x <= high
    ensures forall x :: x in WithBit(values, bin) ==> 2 * low <= x <= 2 * high + 1
  {
    var v := WithBit(values, bin);
    forall x | x in v ensures 2 * low <= x <= 2 * high + 1 {
      var k :| 0 <= k < |v| && v[k] == x;
      assert values[k] in values;
    }
  }

  /** The value of the four entropies. */
  function Value(h: Formula, n: nat, fc: seq<nat>, cond: seq<nat>, fsc: seq<nat>, sc: seq<nat>): real
    requires |fc| == |cond| == |fsc| == |sc| == n
  {
    h(Spectrum(fc, n), n) - h(Spectrum(cond, n), n) - h(Spectrum(fsc, n), n) + h(Spectrum(sc, n), n)
  }

  /** The conditional mutual information of the first and second bins, given the condition. */
  function Information(h: Formula, n: nat, first: seq<Bin>, second: seq<Bin>, condition: seq<Bin>): real
    requires Fitting(first, n) && Fitting(second, n) && Fitting(condition, n)
  {
    Value(h, n, Rows(first + condition, n), Rows(condition, n), Rows(first + second + condition, n),
      Rows(second + condition, n))
  }

  /** The calculators of first and condition, of all three, and of second and condition hold just the bins
      of these, in some order. */
  ghost predicate Joined(firsts: seq<Bin>, seconds: seq<Bin>, conditions: seq<Bin>, fc: seq<Bin>, fsc: seq<Bin>,
                         sc: seq<Bin>) {
    forall b :: JoinedAt(firsts, seconds, conditions, fc, fsc, sc, b)
  }

  predicate JoinedAt(firsts: seq<Bin>, seconds: seq<Bin>, conditions: seq<Bin>, fc: seq<Bin>, fsc: seq<Bin>,
                     sc: seq<Bin>, b: Bin) {
    && (b in fc <==> b in firsts || b in conditions)
    && (b in fsc <==> b in firsts || b in seconds || b in conditions)
    && (b in sc <==> b in seconds || b in conditions)
  }

  lemma JoinedMeans(firsts: seq<Bin>, seconds: seq<Bin>, conditions: seq<Bin>, fc: seq<Bin>, fsc: seq<Bin>,
                    sc: seq<Bin>)
    requires Joined(firsts, seconds, conditions, fc, fsc, sc)
    ensures forall b :: b in fc <==> b in firsts || b in conditions
    ensures forall b :: b in fsc <==> b in firsts || b in seconds || b in conditions
    ensures forall b :: b in sc <==> b in seconds || b in conditions
  {
    forall b
      ensures b in fc <==> b in firsts || b in conditions
      ensures b in fsc <==> b in firsts || b in seconds || b in conditions
      ensures b in sc <==> b in seconds || b in conditions
    {
      assert JoinedAt(firsts, seconds, conditions, fc, fsc, sc, b);
    }
  }

  /** The information does not depend on the order in which bins were added. */
  lemma InformationOrder(h: Formula, n: nat, first: seq<Bin>, second: seq<Bin>, condition: seq<Bin>,
                         fc: seq<Bin>, cond: seq<Bin>, fsc: seq<Bin>, sc: seq<Bin>)
    requires Fitting(first, n) && Fitting(second, n) && Fitting(condition, n)
    requires Joined(first, second, condition, fc, fsc, sc) && forall b :: b in cond <==> b in condition
    ensures Fitting(fc, n) && Fitting(cond, n) && Fitting(fsc, n) && Fitting(sc, n)
    ensures Value(h, n, Rows(fc, n), Rows(cond, n), Rows(fsc, n), Rows(sc, n))
      == Information(h, n, first, second, condition)
  {
    JoinedMeans(first, second, condition, fc, fsc, sc);
    OrderIrrelevant(fc, first + condition, n);
    OrderIrrelevant(cond, condition, n);
    OrderIrrelevant(fsc, first + second + condition, n);
    OrderIrrelevant(sc, second + condition, n);
  }

  /** The entropy of the rows of some bins. */
  function Entropy(h: Formula, n: nat, bins: seq<Bin>): real
    requires Fitting(bins, n)
  {
    h(Spectrum(Rows(bins, n), n), n)
  }

  lemma SameEntropy(h: Formula, n: nat, a: seq<Bin>, b: seq<Bin>)
    requires Fitting(a, n) && Fitting(b, n) && forall x :: x in a <==> x in b
    ensures Entropy(h, n, a) == Entropy(h, n, b)
  {
    OrderIrrelevant(a, b, n);
  }

  /** Whatever is made of the counts: the information that first and second bins have of each other is the same
      both ways; there is none in bins that are in the condition; and of itself a list of bins has what it adds
      to the entropy of the condition. */
  lemma InformationLaws(h: Formula, n: nat, first: seq<Bin>, second: seq<Bin>, condition: seq<Bin>)
    requires Fitting(first, n) && Fitting(second, n) && Fitting(condition, n)
    ensures Information(h, n, first, second, condition) == Information(h, n, second, first, condition)
    ensures (forall b :: b in second ==> b in condition) ==> Information(h, n, first, second, condition) == 0.0
    ensures Information(h, n, first, first, condition)
      == Entropy(h, n, first + condition) - Entropy(h, n, condition)
  {
    SameEntropy(h, n, first + second + condition, second + first + condition);
    SameEntropy(h, n, first + first + condition, first + condition);
    if forall b :: b in second ==> b in condition {
      SameEntropy(h, n, first + second + condition, first + condition);
      SameEntropy(h, n, second + condition, condition);
    }
  }

  /** The chain rule: further second bins add what they have in common with the first, given those before. */
  lemma ChainRule(h: Formula, n: nat, first: seq<Bin>, second: seq<Bin>, third: seq<Bin>, condition: seq<Bin>)
    requires Fitting(first, n) && Fitting(second, n) && Fitting(third, n) && Fitting(condition, n)
    ensures Information(h, n, first, second + third, condition)
      == Information(h, n, first, second, condition) + Information(h, n, first, third, second + condition)
  {
    SameEntropy(h, n, first + (second + third) + condition, first + third + (second + condition));
    SameEntropy(h, n, second + third + condition, third + (second + condition));
    SameEntropy(h, n, first + (second + condition), first + second + condition);
  }

  lemma JoinedSnoc(firsts: seq<Bin>, seconds: seq<Bin>, conditions: seq<Bin>, fc: seq<Bin>, fsc: seq<Bin>,
                   sc: seq<Bin>, bin: Bin)
    requires Joined(firsts, seconds, conditions, fc, fsc, sc)
    ensures Joined(firsts + [bin], seconds, conditions, fc + [bin], fsc + [bin], sc)
    ensures Joined(firsts, seconds + [bin], conditions, fc, fsc + [bin], sc + [bin])
    ensures Joined(firsts, seconds, conditions + [bin], fc + [bin], fsc + [bin], sc + [bin])
  {
    var f, s, c := firsts + [bin], seconds + [bin], conditions + [bin];
    var fc', fsc', sc' := fc + [bin], fsc + [bin], sc + [bin];
    forall b ensures JoinedAt(f, seconds, conditions, fc', fsc', sc, b) {
      assert JoinedAt(firsts, seconds, conditions, fc, fsc, sc, b);
    }
    forall b ensures JoinedAt(firsts, s, conditions, fc, fsc', sc', b) {
      assert JoinedAt(firsts, seconds, conditions, fc, fsc, sc, b);
    }
    forall b ensures JoinedAt(firsts, seconds, c, fc', fsc', sc', b) {
      assert JoinedAt(firsts, seconds, conditions, fc, fsc, sc, b);
    }
  }

  lemma FittingAll(n: nat, firsts: seq<Bin>, seconds: seq<Bin>, conditions: seq<Bin>, fc: seq<Bin>, fsc: seq<Bin>,
                   sc: seq<Bin>)
    requires Joined(firsts, seconds, conditions, fc, fsc, sc)
    requires Fitting(firsts, n) && Fitting(seconds, n) && Fitting(conditions, n)
    ensures Fitting(fc, n) && Fitting(fsc, n) && Fitting(sc, n)
  {
    JoinedMeans(firsts, seconds, conditions, fc, fsc, sc);
  }

  /** One bin more in the condition. */
  lemma ConditionExtended(h: Formula, n: nat, first: seq<Bin>, second: seq<Bin>, condition: seq<Bin>,
                          fc: seq<Bin>, fsc: seq<Bin>, sc: seq<Bin>, bin: Bin)
    requires Fitting(first, n) && Fitting(second, n) && Fitting(condition, n) && |bin| == n
    requires Joined(first, second, condition, fc, fsc, sc)
    ensures Fitting(fc, n) && Fitting(fsc, n) && Fitting(sc, n) && Fitting(condition + [bin], n)
    ensures Value(h, n, WithBit(Rows(fc, n), bin), WithBit(Rows(condition, n), bin), WithBit(Rows(fsc, n), bin),
      WithBit(Rows(sc, n), bin))
         == Information(h, n, first, second, condition + [bin])
  {
    FittingAll(n, first, second, condition, fc, fsc, sc);
    JoinedSnoc(first, second, condition, fc, fsc, sc, bin);
    RowsSnoc(fc, bin, n);
    RowsSnoc(condition, bin, n);
    RowsSnoc(fsc, bin, n);
    RowsSnoc(sc, bin, n);
    InformationOrder(h, n, first, second, condition + [bin], fc + [bin], condition + [bin], fsc + [bin], sc + [bin]);
  }

  /** The four entropies with a bin ahead. */
  method FourWithExtraBin(h: Formula, a: Calculator, b: Calculator, c: Calculator, d: Calculator, bin: Bin,
                          ghost la: seq<Bin>, ghost lb: seq<Bin>, ghost lc: seq<Bin>, ghost ld: seq<Bin>)
    returns (ok: bool, r: real)
    requires a.Holds(la) && b.Holds(lb) && c.Holds(lc) && d.Holds(ld)
    requires |a.values| == |b.values| == |c.values| == |d.values| > 0
    ensures |bin| != |a.values| ==> !ok
    ensures Roomy(a, b, c, d, 0) && |bin| == |a.values| ==>
      (ok <==> !SomeFullRange(a, b, c, d, WORD / 2 - 1))
      && (ok ==> r == Value(h, |a.values|, WithBit(a.values, bin), WithBit(b.values, bin), WithBit(c.values, bin),
        WithBit(d.values, bin)))
    ensures Roomy(a, b, c, d, 1) && |bin| == |a.values| ==> ok
  {
    var ok1, x := GetEntropyWithExtraBin(h, a, bin, la);
    var ok2, y := GetEntropyWithExtraBin(h, b, bin, lb);
    var ok3, z := GetEntropyWithExtraBin(h, c, bin, lc);
    var ok4, w := GetEntropyWithExtraBin(h, d, bin, ld);
    ok, r := ok1 && ok2 && ok3 && ok4, x - y - z + w;
  }

  /** There is room in each for this many more bins, and one to spare. */
  predicate Roomy(a: Calculator, b: Calculator, c: Calculator, d: Calculator, more: nat) {
    && a.binCount + more < MAX_BIN_COUNT && b.binCount + more < MAX_BIN_COUNT
    && c.binCount + more < MAX_BIN_COUNT && d.binCount + more < MAX_BIN_COUNT
  }

  /** In some calculator the range of the values wraps. */
  predicate SomeFullRange(a: Calculator, b: Calculator, c: Calculator, d: Calculator, greatest: nat) {
    FullRange(a.values, greatest) || FullRange(b.values, greatest) || FullRange(c.values, greatest)
      || FullRange(d.values, greatest)
  }

  class TCmiCalculator {
    var firstCondition: Calculator
    var condition: Calculator
    var firstSecondCondition: Calculator
    var secondCondition: Calculator
    ghost var firsts: seq<Bin>
    ghost var seconds: seq<Bin>
    ghost var conditions: seq<Bin>
    ghost var fc: seq<Bin>
    ghost var fsc: seq<Bin>
    ghost var sc: seq<Bin>
    const n: nat

    /** Every calculator holds its bins, in the order of adding. */
    ghost predicate Valid()
      reads this
    {
      && n > 0 && |firstCondition.values| == n && |condition.values| == n && |firstSecondCondition.values| == n
        && |secondCondition.values| == n
      && Fitting(firsts, n) && Fitting(seconds, n) && Fitting(conditions, n)
      && firstCondition.Holds(fc) && condition.Holds(conditions) && firstSecondCondition.Holds(fsc)
        && secondCondition.Holds(sc)
      && Joined(firsts, seconds, conditions, fc, fsc, sc)
    }

    predicate Room(more: nat)
      reads this
    {
      Roomy(firstCondition, condition, firstSecondCondition, secondCondition, more)
    }

    predicate Wraps(greatest: nat)
      reads this
    {
      SomeFullRange(firstCondition, condition, firstSecondCondition, secondCondition, greatest)
    }

    constructor (binSize: nat)
      requires binSize > 0
      ensures Valid() && n == binSize && firsts == [] && seconds == [] && conditions == []
    {
      n := binSize;
      var empty := Calculator(0, seq(binSize, _ => 0));
      firstCondition, condition, firstSecondCondition, secondCondition := empty, empty, empty, empty;
      firsts, seconds, conditions, fc, fsc, sc := [], [], [], [], [], [];
    }

    method AddFirstVariableBin(bin: Bin) returns (ok: bool)
      requires Valid()
      modifies this
      ensures ok <==>
        |bin| == n && old(firstCondition.binCount < MAX_BIN_COUNT && firstSecondCondition.binCount < MAX_BIN_COUNT)
      ensures ok ==>
        Valid() && firsts == old(firsts) + [bin] && seconds == old(seconds) && conditions == old(conditions)
    {
      ok, firstCondition := AddBin(firstCondition, bin, fc);
      if ok {
        ok, firstSecondCondition := AddBin(firstSecondCondition, bin, fsc);
        JoinedSnoc(firsts, seconds, conditions, fc, fsc, sc, bin);
        firsts, fc, fsc := firsts + [bin], fc + [bin], fsc + [bin];
      }
    }

    method AddSecondVariableBin(bin: Bin) returns (ok: bool)
      requires Valid()
      modifies this
      ensures ok <==>
        |bin| == n && old(secondCondition.binCount < MAX_BIN_COUNT && firstSecondCondition.binCount < MAX_BIN_COUNT)
      ensures ok ==>
        Valid() && firsts == old(firsts) && seconds == old(seconds) + [bin] && conditions == old(conditions)
    {
      ok, secondCondition := AddBin(secondCondition, bin, sc);
      if ok {
        ok, firstSecondCondition := AddBin(firstSecondCondition, bin, fsc);
        JoinedSnoc(firsts, seconds, conditions, fc, fsc, sc, bin);
        seconds, sc, fsc := seconds + [bin], sc + [bin], fsc + [bin];
      }
    }

    method AddConditionBin(bin: Bin) returns (ok: bool)
      requires Valid()
      modifies this
      ensures ok <==> |bin| == n && old(Room(0))
      ensures ok ==>
        Valid() && firsts == old(firsts) && seconds == old(seconds) && conditions == old(conditions) + [bin]
    {
      var ok1, c1 := AddBin(firstCondition, bin, fc);
      var ok2, c2 := AddBin(condition, bin, conditions);
      var ok3, c3 := AddBin(firstSecondCondition, bin, fsc);
      var ok4, c4 := AddBin(secondCondition, bin, sc);
      ok := ok1 && ok2 && ok3 && ok4;
      JoinedSnoc(firsts, seconds, conditions, fc, fsc, sc, bin);
      firstCondition, condition, firstSecondCondition, secondCondition := c1, c2, c3, c4;
      conditions, fc, fsc, sc := conditions + [bin], fc + [bin], fsc + [bin], sc + [bin];
    }

    /** GetValue: the information, whatever the order of adding, unless a range wraps. */
    method GetValue(h: Formula) returns (ok: bool, r: real)
      requires Valid()
      ensures ok <==> !Wraps(WORD - 1)
      ensures Room(0) ==> ok
      ensures ok ==> r == Information(h, n, firsts, seconds, conditions)
    {
      var ok1, a := GetEntropy(h, firstCondition, fc);
      var ok2, b := GetEntropy(h, condition, conditions);
      var ok3, c := GetEntropy(h, firstSecondCondition, fsc);
      var ok4, d := GetEntropy(h, secondCondition, sc);
      InformationOrder(h, n, firsts, seconds, conditions, fc, conditions, fsc, sc);
      ok, r := ok1 && ok2 && ok3 && ok4, a - b - c + d;
    }

    /** GetValueWithConditionBin: with room for the bin, what GetValue would give after AddConditionBin. */
    method GetValueWithConditionBin(h: Formula, bin: Bin) returns (ok: bool, r: real)
      requires Valid()
      ensures |bin| != n ==> !ok
      ensures Room(0) && |bin| == n ==> (ok <==> !Wraps(WORD / 2 - 1))
      ensures Room(1) && |bin| == n ==> ok
      ensures Room(0) && ok ==> r == Information(h, n, firsts, seconds, conditions + [bin])
    {
      if |bin| == n { ConditionExtended(h, n, firsts, seconds, conditions, fc, fsc, sc, bin); }
      ok, r := FourWithExtraBin(h, firstCondition, condition, firstSecondCondition, secondCondition, bin, fc,
        conditions, fsc, sc);
    }
  }
}
