/** Feature selection: the plain loop over the plain scorer, the fast one over the caching scorer,
    and the order that both of them report. */
module Selection {
  import opened BinFeatures
  import opened GreedyRuns
  import opened PlainScorer
  import opened CachingScorer

  // ---------------------------------------------------------------- the score of a bin

  ghost predicate IsScore(f: Objective, e: int, on: set<int>, k: nat, x: real) {
    exists maxs: seq<Step>, mins: seq<Step> :: GreedyRun(f, e, on, k, maxs, mins) && k >= 1 && x == mins[k - 1].cmi
  }

  /** The score of bin `e` over the bins on; there is only one when there are no ties. */
  ghost function Score(f: Objective, e: int, on: set<int>, k: nat): real {
    if x: real :| IsScore(f, e, on, k, x) then x else 0.0
  }

  lemma ScoreIs(f: Objective, e: int, on: set<int>, k: nat, maxs: seq<Step>, mins: seq<Step>)
    requires Decided(f, e, on) && 1 <= k <= |on| && GreedyRun(f, e, on, k, maxs, mins)
    ensures Score(f, e, on, k) == mins[k - 1].cmi
  {
    assert IsScore(f, e, on, k, mins[k - 1].cmi);
    var x := Score(f, e, on, k);
    var maxs': seq<Step>, mins': seq<Step> :| GreedyRun(f, e, on, k, maxs', mins') && k >= 1 && x == mins'[k - 1].cmi;
    RunUnique(f, e, on, k, maxs, mins, maxs', mins');
  }

  /** The score of a bin is its information with k - 1 helpers, against k opponents. */
  lemma ScoreSpelled(f: Objective, e: int, on: set<int>, k: nat, x: real)
    returns (helpers: seq<int>, opponents: seq<int>)
    requires IsScore(f, e, on, k, x)
    ensures |helpers| + 1 == k == |opponents| && x == f([e] + helpers, opponents)
    ensures (forall b :: b in helpers ==> b in on + {e}) && forall b :: b in opponents ==> b in on
  {
    var maxs: seq<Step>, mins: seq<Step> :| GreedyRun(f, e, on, k, maxs, mins) && k >= 1 && x == mins[k - 1].cmi;
    helpers, opponents := BinsOf(maxs), BinsOf(mins);
    RunSpelled(f, e, on, on, k, maxs, mins, k - 1);
    assert maxs[..k - 1] == maxs && BinsOf(mins[..k - 1]) + [mins[k - 1].bin] == opponents;
    forall b | b in helpers ensures b in on + {e} {
      var s :| 0 <= s < |maxs| && helpers[s] == b;
      assert MaxAt(f, e, on + {e}, on, maxs, s);
    }
    forall b | b in opponents ensures b in on {
      var s :| 0 <= s < |mins| && opponents[s] == b;
      assert MinAt(f, e, on, on, maxs, mins, s);
    }
  }

  /** No ties for any bin that is off, whichever bins are on. */
  ghost predicate NoTies(f: Objective, n: nat) {
    forall e, on :: e in Interval(0, n) && e !in on && on <= Interval(0, n) ==> Decided(f, e, on)
  }

  // ---------------------------------------------------------------- the order of selection

  function StepCount(on: set<int>, evalSteps: nat): (k: nat)
    ensures k <= |on| && k <= evalSteps && (k == |on| || k == evalSteps)
  {
    if |on| < evalSteps then |on| else evalSteps
  }

  ghost predicate InRange(fs: FeatureSet, order: seq<nat>) { forall i :: 0 <= i < |order| ==> order[i] < |fs.starts| }

  /** All bins of the features selected. */
  ghost function OnOf(fs: FeatureSet, order: seq<nat>): set<int>
    requires fs.Valid() && InRange(fs, order)
  {
    if order == [] then {} else OnOf(fs, order[..|order| - 1]) + fs.Range(order[|order| - 1])
  }

  /** The first of the bins off with the greatest score. */
  ghost predicate FirstBest(f: Objective, n: nat, on: set<int>, k: nat, b: int) {
    && b in Interval(0, n) && b !in on
    && forall x :: x in Interval(0, n) && x !in on ==>
      Score(f, x, on, k) <= Score(f, b, on, k) && (x < b ==> Score(f, x, on, k) < Score(f, b, on, k))
  }

  /** The first bin of greatest mutual information with the label. */
  ghost predicate FirstInformative(mi: int -> real, n: nat, b: int) {
    && b in Interval(0, n)
    && forall x :: x in Interval(0, n) ==> mi(x) <= mi(b) && (x < b ==> mi(x) < mi(b))
  }

  /** Feature `g` holds the bin that is taken when the bins `on` are on and scores are taken with k steps. */
  ghost predicate Chosen(f: Objective, fs: FeatureSet, on: set<int>, k: nat, g: nat)
    requires fs.Valid()
  {
    g < |fs.starts| && exists b :: FirstBest(f, fs.count, on, k, b) && b in fs.Range(g)
  }

  /** Feature `g` is the next one: scores are taken with as many steps as bins are on, or as evaluation steps
      if these are fewer. */
  ghost predicate Next(f: Objective, fs: FeatureSet, evalSteps: nat, on: set<int>, g: nat)
    requires fs.Valid()
  {
    exists k: nat :: Chosen(f, fs, on, k, g) && k <= |on| && k <= evalSteps && (k == |on| || k == evalSteps)
  }

  ghost predicate First(mi: int -> real, fs: FeatureSet, g: nat)
    requires fs.Valid()
  {
    g < |fs.starts| && exists b :: FirstInformative(mi, fs.count, b) && b in fs.Range(g)
  }

  ghost predicate SelectedAt(f: Objective, mi: int -> real, fs: FeatureSet, evalSteps: nat, order: seq<nat>, i: nat)
    requires fs.Valid() && InRange(fs, order) && i < |order|
  {
    if i == 0 then First(mi, fs, order[0]) else Next(f, fs, evalSteps, OnOf(fs, order[..i]), order[i])
  }

  /** The features, in the order of selection. */
  ghost predicate Selected(f: Objective, mi: int -> real, fs: FeatureSet, evalSteps: nat, order: seq<nat>)
    requires fs.Valid()
  {
    InRange(fs, order) && forall i :: 0 <= i < |order| ==> SelectedAt(f, mi, fs, evalSteps, order, i)
  }

  lemma FeatureUnique(fs: FeatureSet, g: nat, h: nat, b: int)
    requires fs.Valid() && g < |fs.starts| && h < |fs.starts| && b in fs.Range(g) && b in fs.Range(h)
    ensures g == h
  {
    SameFeatureIs(fs, g, b, b);
    forall i | 0 <= i < |fs.starts| && i != g ensures fs.Range(i) !! fs.Range(g) {
      RangesDisjoint(fs, i, g);
    }
  }

  lemma NextUnique(f: Objective, fs: FeatureSet, evalSteps: nat, on: set<int>, g: nat, h: nat)
    requires fs.Valid() && Next(f, fs, evalSteps, on, g) && Next(f, fs, evalSteps, on, h)
    ensures g == h
  {
    var k := StepCount(on, evalSteps);
    assert Chosen(f, fs, on, k, g) && Chosen(f, fs, on, k, h);
    var b :| FirstBest(f, fs.count, on, k, b) && b in fs.Range(g);
    var c :| FirstBest(f, fs.count, on, k, c) && c in fs.Range(h);
    assert b == c;
    FeatureUnique(fs, g, h, b);
  }

  lemma FirstUnique(mi: int -> real, fs: FeatureSet, g: nat, h: nat)
    requires fs.Valid() && First(mi, fs, g) && First(mi, fs, h)
    ensures g == h
  {
    var b :| FirstInformative(mi, fs.count, b) && b in fs.Range(g);
    var c :| FirstInformative(mi, fs.count, c) && c in fs.Range(h);
    assert b == c;
    FeatureUnique(fs, g, h, b);
  }

  /** There is one order of selection, so the shorter of two reports is a prefix of the longer. */
  lemma {:induction false} OrderUnique(f: Objective, mi: int -> real, fs: FeatureSet, evalSteps: nat, a: seq<nat>,
                                       b: seq<nat>, n: nat)
    requires fs.Valid() && Selected(f, mi, fs, evalSteps, a) && Selected(f, mi, fs, evalSteps, b)
    requires n <= |a| && n <= |b|
    ensures a[..n] == b[..n]
  {
    if n > 0 {
      var m := n - 1;
      OrderUnique(f, mi, fs, evalSteps, a, b, m);
      SameAt(f, mi, fs, evalSteps, a, b, m);
      assert a[..n] == a[..m] + [a[m]] && b[..n] == b[..m] + [b[m]];
    }
  }

  lemma SameAt(f: Objective, mi: int -> real, fs: FeatureSet, evalSteps: nat, a: seq<nat>, b: seq<nat>, m: nat)
    requires fs.Valid() && Selected(f, mi, fs, evalSteps, a) && Selected(f, mi, fs, evalSteps, b)
    requires m < |a| && m < |b| && a[..m] == b[..m]
    ensures a[m] == b[m]
  {
    assert SelectedAt(f, mi, fs, evalSteps, a, m) && SelectedAt(f, mi, fs, evalSteps, b, m);
    if m == 0 {
      FirstUnique(mi, fs, a[0], b[0]);
    } else {
      NextUnique(f, fs, evalSteps, OnOf(fs, a[..m]), a[m], b[m]);
    }
  }

  // ---------------------------------------------------------------- what is on after some selections

  lemma {:induction false} OnOfHas(fs: FeatureSet, order: seq<nat>, b: int)
    requires fs.Valid() && InRange(fs, order)
    ensures b in OnOf(fs, order) <==> exists i :: 0 <= i < |order| && b in fs.Range(order[i])
  {
    if order != [] {
      var m := |order| - 1;
      OnOfHas(fs, order[..m], b);
      if i :| 0 <= i < |order| && b in fs.Range(order[i]) {
        assert i < m ==> order[..m][i] == order[i];
      }
      if i :| 0 <= i < m && b in fs.Range(order[..m][i]) {
        assert b in fs.Range(order[i]);
      }
    }
  }

  lemma OnOfSnoc(fs: FeatureSet, order: seq<nat>, g: nat)
    requires fs.Valid() && InRange(fs, order) && g < |fs.starts|
    ensures InRange(fs, order + [g]) && OnOf(fs, order + [g]) == OnOf(fs, order) + fs.Range(g)
  {
    assert (order + [g])[..|order|] == order;
  }

  /** Only whole features are on. */
  lemma OnOfWhole(fs: FeatureSet, order: seq<nat>, g: nat, b: int)
    requires fs.Valid() && InRange(fs, order) && g < |fs.starts| && b in fs.Range(g) && b !in OnOf(fs, order)
    ensures OnOf(fs, order) !! fs.Range(g) && g !in order
  {
    OnOfHas(fs, order, b);
    assert forall i :: 0 <= i < |order| ==> order[i] != g;
    forall x | x in fs.Range(g) ensures x !in OnOf(fs, order) {
      OnOfHas(fs, order, x);
      forall i | 0 <= i < |order| ensures x !in fs.Range(order[i]) {
        RangesDisjoint(fs, order[i], g);
      }
    }
  }

  lemma {:induction false} OnOfBins(fs: FeatureSet, order: seq<nat>)
    requires fs.Valid() && InRange(fs, order)
    ensures OnOf(fs, order) <= Interval(0, fs.count)
  {
    if order != [] {
      OnOfBins(fs, order[..|order| - 1]);
      var g := order[|order| - 1];
      assert fs.End(g) <= fs.count;
      forall b | b in fs.Range(g) ensures b in Interval(0, fs.count) {
        assert Between(0, b, fs.count);
      }
    }
  }

  /** No feature is reported twice. */
  lemma NoRepeats(f: Objective, mi: int -> real, fs: FeatureSet, evalSteps: nat, order: seq<nat>, i: nat, j: nat)
    requires fs.Valid() && Selected(f, mi, fs, evalSteps, order) && i < j < |order|
    ensures order[i] != order[j]
  {
    assert SelectedAt(f, mi, fs, evalSteps, order, j);
    var on := OnOf(fs, order[..j]);
    var k: nat :| Chosen(f, fs, on, k, order[j]);
    var b :| FirstBest(f, fs.count, on, k, b) && b in fs.Range(order[j]);
    OnOfWhole(fs, order[..j], order[j], b);
    assert order[i] == order[..j][i];
  }

  // ---------------------------------------------------------------- how many features can be reported

  ghost function Full(fs: FeatureSet): set<nat>
    requires fs.Valid()
  {
    set g | 0 <= g < |fs.starts| && fs.starts[g] < fs.End(g)
  }

  /** Different non-empty features. */
  ghost predicate Different(fs: FeatureSet, order: seq<nat>)
    requires fs.Valid()
  {
    && (forall i :: 0 <= i < |order| ==> order[i] in Full(fs))
    && forall i, j :: 0 <= i < j < |order| ==> order[i] != order[j]
  }

  function Elements(l: seq<nat>): (z: set<nat>)
    ensures forall g :: g in z <==> g in l
  {
    set g | g in l
  }

  lemma {:induction false} DifferentSize(l: seq<nat>)
    requires forall i, j :: 0 <= i < j < |l| ==> l[i] != l[j]
    ensures |Elements(l)| == |l|
  {
    if l == [] {
      assert Elements(l) == {};
    } else {
      var m := |l| - 1;
      DifferentSize(l[..m]);
      assert l == l[..m] + [l[m]];
      assert Elements(l) == Elements(l[..m]) + {l[m]};
    }
  }

  lemma NatSubsetSize(a: set<nat>, b: set<nat>)
    requires a <= b
    ensures |a| <= |b|
  {
    assert b == a + (b - a);
  }

  lemma SameSize(a: set<nat>, b: set<nat>)
    requires a <= b && |b| <= |a|
    ensures a == b
  {
    assert b == a + (b - a);
  }

  lemma AtMostFull(fs: FeatureSet, order: seq<nat>)
    requires fs.Valid() && Different(fs, order)
    ensures |order| <= |Full(fs)|
  {
    DifferentSize(order);
    NatSubsetSize(Elements(order), Full(fs));
  }

  /** When every bin is on, every non-empty feature has been selected. */
  lemma AllFull(fs: FeatureSet, order: seq<nat>)
    requires fs.Valid() && InRange(fs, order) && Different(fs, order)
    requires forall b :: b in Interval(0, fs.count) ==> b in OnOf(fs, order)
    ensures |order| == |Full(fs)|
  {
    forall g | g in Full(fs) ensures g in order {
      var b: int := fs.starts[g];
      assert Between(fs.starts[g], b, fs.End(g)) && b in fs.Range(g);
      assert Between(0, b, fs.count) && b in Interval(0, fs.count);
      if g !in order {
        forall i | 0 <= i < |order| ensures b !in fs.Range(order[i]) {
          assert order[i] != g;
          RangesDisjoint(fs, order[i], g);
        }
      }
      OnOfHas(fs, order, b);
    }
    AtMostFull(fs, order);
    DifferentSize(order);
    NatSubsetSize(Full(fs), Elements(order));
  }

  /** Every feature is non-empty exactly when all of them can be reported. */
  lemma ProperIsFull(fs: FeatureSet)
    requires fs.Valid()
    ensures fs.Proper() <==> |Full(fs)| == |fs.starts|
    ensures |Full(fs)| <= |fs.starts|
  {
    var all := Below(|fs.starts|);
    if fs.Proper() {
      assert all == Full(fs);
    } else {
      var g :| 0 <= g < |fs.starts| && !(fs.starts[g] < fs.End(g));
      LackingSize(Full(fs), all, g);
    }
  }

  lemma {:induction false} Below(n: nat) returns (all: set<nat>)
    ensures |all| == n && forall g: nat :: g in all <==> g < n
  {
    all := {};
    for m := 0 to n
      invariant |all| == m && forall g: nat :: g in all <==> g < m
    {
      all := all + {m};
    }
  }

  lemma LackingSize(part: set<nat>, all: set<nat>, g: nat)
    requires part <= all && g in all && g !in part
    ensures |part| < |all|
  {
    assert all == part + (all - part) && g in all - part;
  }

  // ---------------------------------------------------------------- one selection

  /** What the selection keeps: the features reported are different, and just their bins are on. They are in
      the order of selection if it is `sure`. */
  ghost predicate Selecting(f: Objective, mi: int -> real, fs: FeatureSet, evalSteps: nat, bg: Background,
                            order: seq<nat>, sure: bool) {
    && fs.Valid() && bg.Valid() && |bg.enabled| == fs.count
    && InRange(fs, order) && Different(fs, order) && bg.On() == OnOf(fs, order)
    && (sure ==> Selected(f, mi, fs, evalSteps, order))
  }

  method FirstFeature(mi: int -> real, fs: FeatureSet) returns (g: nat, ok: bool)
    requires fs.Valid()
    ensures ok <==> fs.count > 0
    ensures ok ==> First(mi, fs, g) && g in Full(fs)
  {
    var l := seq(fs.count, b => b);
    if l == [] {
      return 0, false;
    }
    var b := ExtremeElementBy(l, mi, true);
    g := FeatureOf(fs, b);
    assert Between(0, b, fs.count) && b in Interval(0, fs.count);
    assert Between(fs.starts[g], b, fs.End(g)) && b in fs.Range(g);
    forall x | x in Interval(0, fs.count) ensures mi(x) <= mi(b) && (x < b ==> mi(x) < mi(b)) {
      assert l[x] == x;
    }
    assert FirstInformative(mi, fs.count, b);
    ok := true;
  }

  lemma Scaled(scale: real, x: real, y: real, u: real, v: real)
    requires scale > 0.0 && x * scale == u && y * scale == v
    ensures (x <= y <==> u <= v) && (x < y <==> u < v)
  {
  }

  /** The values are the scores of the bins off, up to a common positive factor. */
  ghost predicate Valued(f: Objective, on: set<int>, k: nat, disabled: seq<int>, values: seq<real>, scale: real)
    requires |values| <= |disabled|
  {
    scale > 0.0 && forall i :: 0 <= i < |values| ==> ValuedAt(f, on, k, disabled[i], values[i], scale)
  }

  ghost predicate ValuedAt(f: Objective, on: set<int>, k: nat, e: int, value: real, scale: real) {
    value * scale == Score(f, e, on, k)
  }

  lemma ValuedSnoc(f: Objective, on: set<int>, k: nat, disabled: seq<int>, values: seq<real>, scale: real,
                   value: real)
    requires |values| < |disabled| && Valued(f, on, k, disabled, values, scale)
    requires ValuedAt(f, on, k, disabled[|values|], value, scale)
    ensures Valued(f, on, k, disabled, values + [value], scale)
  {
    var values' := values + [value];
    forall i | 0 <= i < |values'| ensures ValuedAt(f, on, k, disabled[i], values'[i], scale) {
      assert i < |values| ==> ValuedAt(f, on, k, disabled[i], values[i], scale);
    }
  }

  lemma NotAbove(f: Objective, on: set<int>, k: nat, x: int, value: real, b: int, value': real, scale: real)
    requires scale > 0.0 && ValuedAt(f, on, k, x, value, scale) && ValuedAt(f, on, k, b, value', scale)
    requires value <= value'
    ensures Score(f, x, on, k) <= Score(f, b, on, k)
    ensures value < value' ==> Score(f, x, on, k) < Score(f, b, on, k)
  {
    Scaled(scale, value, value', Score(f, x, on, k), Score(f, b, on, k));
  }

  /** `disabled` lists the bins off, in order. */
  ghost predicate OffList(n: nat, on: set<int>, disabled: seq<int>) {
    && (forall b :: OffAt(n, on, disabled, b))
    && forall i, j :: InOrder(disabled, i, j)
  }

  ghost predicate OffAt(n: nat, on: set<int>, disabled: seq<int>, b: int) {
    b in disabled <==> 0 <= b < n && b !in on
  }

  ghost predicate InOrder(disabled: seq<int>, i: int, j: int) {
    0 <= i < j < |disabled| ==> disabled[i] < disabled[j]
  }

  lemma BestIsFirstBest(f: Objective, n: nat, on: set<int>, k: nat, disabled: seq<int>, values: seq<real>,
                        scale: real, best: nat)
    requires best < |values| == |disabled| && Valued(f, on, k, disabled, values, scale)
    requires OffList(n, on, disabled)
    requires forall i :: 0 <= i < |values| ==> values[i] <= values[best]
    requires forall i :: 0 <= i < best ==> values[i] < values[best]
    ensures FirstBest(f, n, on, k, disabled[best])
  {
    var b := disabled[best];
    assert b in disabled && OffAt(n, on, disabled, b) && Between(0, b, n);
    forall x | x in Interval(0, n) && x !in on
      ensures Score(f, x, on, k) <= Score(f, b, on, k) && (x < b ==> Score(f, x, on, k) < Score(f, b, on, k))
    {
      assert OffAt(n, on, disabled, x);
      var i :| 0 <= i < |disabled| && disabled[i] == x;
      assert InOrder(disabled, i, best) && InOrder(disabled, best, i);
      assert ValuedAt(f, on, k, disabled[i], values[i], scale)
        && ValuedAt(f, on, k, disabled[best], values[best], scale);
      NotAbove(f, on, k, x, values[i], b, values[best], scale);
    }
  }

  /** The feature of the first bin with the greatest value. */
  method PickFeature(ghost f: Objective, fs: FeatureSet, ghost evalSteps: nat, bg: Background, disabled: seq<int>,
                     values: seq<real>, ghost scale: real)
    returns (g: nat)
    requires fs.Valid() && OffList(fs.count, bg.On(), disabled)
    requires |values| == |disabled| > 0
    ensures g in Full(fs) && exists b :: b in fs.Range(g) && b !in bg.On()
    ensures Valued(f, bg.On(), StepCount(bg.On(), evalSteps), disabled, values, scale) ==>
      Next(f, fs, evalSteps, bg.On(), g)
  {
    var best := ExtremeElementBy(values, x => x, true);
    var b := disabled[best];
    assert b in disabled && OffAt(fs.count, bg.On(), disabled, b);
    g := FeatureOf(fs, b);
    assert Between(fs.starts[g], b, fs.End(g)) && b in fs.Range(g);
    if Valued(f, bg.On(), StepCount(bg.On(), evalSteps), disabled, values, scale) {
      BestIsFirstBest(f, fs.count, bg.On(), StepCount(bg.On(), evalSteps), disabled, values, scale, best);
      assert Chosen(f, fs, bg.On(), StepCount(bg.On(), evalSteps), g);
    }
  }

  /** SetFeatureEnabled. */
  function WithFeature(fs: FeatureSet, bg: Background, g: nat): (z: Background)
    requires fs.Valid() && g < |fs.starts| && bg.Valid() && |bg.enabled| == fs.count
    ensures z.Valid() && |z.enabled| == fs.count && z.On() == bg.On() + fs.Range(g) && z.Last() == fs.Range(g)
  {
    bg.SetRange(fs.starts[g], fs.End(g), true)
  }

  lemma SelectedSnoc(f: Objective, mi: int -> real, fs: FeatureSet, evalSteps: nat, order: seq<nat>, g: nat)
    requires fs.Valid() && Selected(f, mi, fs, evalSteps, order) && g < |fs.starts|
    requires if order == [] then First(mi, fs, g) else Next(f, fs, evalSteps, OnOf(fs, order), g)
    ensures Selected(f, mi, fs, evalSteps, order + [g])
  {
    var z := order + [g];
    forall i | 0 <= i < |z| ensures SelectedAt(f, mi, fs, evalSteps, z, i) {
      if i < |order| {
        assert z[..i] == order[..i];
        assert SelectedAt(f, mi, fs, evalSteps, order, i);
      } else {
        assert z[..i] == order;
      }
    }
  }

  lemma DifferentSnoc(fs: FeatureSet, order: seq<nat>, g: nat)
    requires fs.Valid() && Different(fs, order) && g in Full(fs) && g !in order
    ensures Different(fs, order + [g])
  {
  }

  lemma SelectingNext(f: Objective, mi: int -> real, fs: FeatureSet, evalSteps: nat, bg: Background, order: seq<nat>,
                      sure: bool, g: nat, sure': bool)
    requires Selecting(f, mi, fs, evalSteps, bg, order, sure) && g in Full(fs)
    requires exists b :: b in fs.Range(g) && b !in bg.On()
    requires sure' ==> sure && if order == [] then First(mi, fs, g) else Next(f, fs, evalSteps, bg.On(), g)
    ensures Selecting(f, mi, fs, evalSteps, WithFeature(fs, bg, g), order + [g], sure')
    ensures bg.On() !! fs.Range(g)
  {
    var b :| b in fs.Range(g) && b !in bg.On();
    OnOfWhole(fs, order, g, b);
    OnOfSnoc(fs, order, g);
    DifferentSnoc(fs, order, g);
    if sure' {
      SelectedSnoc(f, mi, fs, evalSteps, order, g);
    }
  }

  /** The fast selection reports what the plain one reports first. */
  lemma FastReportsPrefix(f: Objective, mi: int -> real, fs: FeatureSet, evalSteps: nat, fast: seq<nat>,
                          plain: seq<nat>)
    requires fs.Valid() && Selected(f, mi, fs, evalSteps, fast) && Selected(f, mi, fs, evalSteps, plain)
    requires |fast| <= |plain|
    ensures fast == plain[..|fast|]
  {
    OrderUnique(f, mi, fs, evalSteps, fast, plain, |fast|);
    assert fast[..|fast|] == fast;
  }

  /** A report of full length names every feature. */
  lemma AllReported(fs: FeatureSet, order: seq<nat>, g: nat)
    requires fs.Valid() && Different(fs, order) && |order| == |fs.starts| && g < |fs.starts|
    ensures g in order
  {
    DifferentSize(order);
    ProperIsFull(fs);
    SameSize(Elements(order), Full(fs));
    assert g in Full(fs);
  }

  // ---------------------------------------------------------------- the plain selection

  lemma OffIsAlone(fs: FeatureSet, bg: Background, order: seq<nat>, e: int)
    requires fs.Valid() && InRange(fs, order) && bg.On() == OnOf(fs, order) && 0 <= e < fs.count && e !in bg.On()
    ensures OthersOn(fs, bg, e) == bg.On()
  {
    forall b | b in bg.On() ensures !SameFeature(fs, b, e) {
      if SameFeature(fs, b, e) {
        var g: nat :| g < |fs.starts| && b in fs.Range(g) && e in fs.Range(g);
        OnOfWhole(fs, order, g, e);
        assert false;
      }
    }
  }

  /** The plain scores of the bins off. */
  method PlainValues(f: Objective, ghost mi: int -> real, fs: FeatureSet, ghost evalSteps: nat, bg: Background,
                     ghost order: seq<nat>, disabled: seq<int>, k: nat)
    returns (values: seq<real>)
    requires Selecting(f, mi, fs, evalSteps, bg, order, NoTies(f, fs.count)) && 1 <= k <= |bg.On()|
    requires OffList(fs.count, bg.On(), disabled)
    ensures |values| == |disabled|
    ensures NoTies(f, fs.count) ==> Valued(f, bg.On(), k, disabled, values, 1.0)
  {
    values := [];
    for i := 0 to |disabled|
      invariant |values| == i
      invariant NoTies(f, fs.count) ==> Valued(f, bg.On(), k, disabled, values, 1.0)
    {
      assert disabled[i] in disabled && OffAt(fs.count, bg.On(), disabled, disabled[i]);
      var value := PlainValue(f, mi, fs, evalSteps, bg, order, disabled[i], k);
      if NoTies(f, fs.count) { ValuedSnoc(f, bg.On(), k, disabled, values, 1.0, value); }
      values := values + [value];
    }
  }

  method PlainValue(f: Objective, ghost mi: int -> real, fs: FeatureSet, ghost evalSteps: nat, bg: Background,
                    ghost order: seq<nat>, e: int, k: nat)
    returns (value: real)
    requires Selecting(f, mi, fs, evalSteps, bg, order, NoTies(f, fs.count)) && 1 <= k <= |bg.On()|
    requires 0 <= e < fs.count && e !in bg.On()
    ensures NoTies(f, fs.count) ==> ValuedAt(f, bg.On(), k, e, value, 1.0)
  {
    assert Between(0, e, fs.count);
    OffIsAlone(fs, bg, order, e);
    var r := GetBinScore(f, fs, bg, e, k);
    PlainRun(f, e, bg.On(), k, r.value.maxSteps, r.value.minSteps);
    if NoTies(f, fs.count) {
      OnOfBins(fs, order);
      ScoreIs(f, e, bg.On(), k, r.value.maxSteps, r.value.minSteps);
    }
    value := r.value.score;
  }

  lemma Offs(bg: Background, disabled: seq<int>)
    requires disabled == Indexes(bg.enabled, false, |bg.enabled|)
    ensures OffList(|bg.enabled|, bg.On(), disabled)
  {
    forall b ensures OffAt(|bg.enabled|, bg.On(), disabled, b) { }
  }

  lemma NoneOff(n: nat, on: set<int>, disabled: seq<int>)
    requires OffList(n, on, disabled) && disabled == []
    ensures forall b :: b in Interval(0, n) ==> b in on
  {
    forall b | b in Interval(0, n) ensures b in on { assert OffAt(n, on, disabled, b); }
  }

  method StepsOf(bg: Background, evalSteps: nat) returns (k: nat)
    ensures k == StepCount(bg.On(), evalSteps)
  {
    OnSize(bg);
    var count := |Indexes(bg.enabled, true, |bg.enabled|)|;
    k := if count < evalSteps then count else evalSteps;
  }

  /** One round: the next feature, by the scores of the bins off. */
  method PlainRound(f: Objective, ghost mi: int -> real, fs: FeatureSet, evalSteps: nat, bg: Background,
                    disabled: seq<int>, ghost order: seq<nat>)
    returns (g: nat)
    requires Selecting(f, mi, fs, evalSteps, bg, order, NoTies(f, fs.count)) && order != []
    requires OffList(fs.count, bg.On(), disabled) && disabled != [] && bg.On() != {} && evalSteps >= 1
    ensures g in Full(fs)
    ensures Selecting(f, mi, fs, evalSteps, WithFeature(fs, bg, g), order + [g], NoTies(f, fs.count))
    ensures WithFeature(fs, bg, g).On() != {}
  {
    SomeOn(bg.On());
    var k := StepsOf(bg, evalSteps);
    var values := PlainValues(f, mi, fs, evalSteps, bg, order, disabled, k);
    g := PickFeature(f, fs, evalSteps, bg, disabled, values, 1.0);
    SelectingNext(f, mi, fs, evalSteps, bg, order, NoTies(f, fs.count), g, NoTies(f, fs.count));
  }

  /** FeatureSelection: the features in the order reported. It stops early, at a failed check or a
      read past the end of an empty list, when it looks for a further feature with no bin left. */
  method FeatureSelection(f: Objective, mi: int -> real, fs: FeatureSet, evalSteps: nat)
    returns (order: seq<nat>, ok: bool)
    requires fs.Valid() && evalSteps >= 1
    ensures Different(fs, order) && (NoTies(f, fs.count) ==> Selected(f, mi, fs, evalSteps, order))
    ensures ok <==> fs.Proper()
    ensures ok ==> |order| == |fs.starts|
    ensures !ok ==> |order| == |Full(fs)|
  {
    order := [];
    var bg := Background(seq(fs.count, _ => false), 0, 0);
    assert bg.On() == {};
    ProperIsFull(fs);
    var g;
    g, ok := FirstFeature(mi, fs);
    if !ok {
      NoBins(fs);
      return;
    }
    StartSelecting(f, mi, fs, evalSteps, bg, g);
    ghost var sure := NoTies(f, fs.count);
    SelectingNext(f, mi, fs, evalSteps, bg, order, sure, g, sure);
    bg, order := WithFeature(fs, bg, g), [g];
    for step := 0 to |fs.starts| - 1
      invariant Selecting(f, mi, fs, evalSteps, bg, order, sure) && |order| == step + 1 && bg.On() != {}
    {
      var disabled := Indexes(bg.enabled, false, |bg.enabled|);
      Offs(bg, disabled);
      if disabled == [] {
        NoneOff(fs.count, bg.On(), disabled);
        AllFull(fs, order);
        return order, false;
      }
      g := PlainRound(f, mi, fs, evalSteps, bg, disabled, order);
      bg, order := WithFeature(fs, bg, g), order + [g];
    }
    AtMostFull(fs, order);
  }

  lemma SomeOn(on: set<int>)
    requires on != {}
    ensures |on| >= 1
  {
  }

  lemma NoBins(fs: FeatureSet)
    requires fs.Valid() && fs.count == 0
    ensures Full(fs) == {}
  {
    assert forall g :: 0 <= g < |fs.starts| ==> fs.starts[g] <= fs.starts[|fs.starts| - 1];
  }

  lemma StartSelecting(f: Objective, mi: int -> real, fs: FeatureSet, evalSteps: nat, bg: Background, g: nat)
    requires fs.Valid() && bg.Valid() && |bg.enabled| == fs.count && bg.On() == {} && g in Full(fs)
    ensures forall sure :: Selecting(f, mi, fs, evalSteps, bg, [], sure)
    ensures exists b :: b in fs.Range(g) && b !in bg.On()
  {
    assert Between(fs.starts[g], fs.starts[g], fs.End(g));
    assert fs.starts[g] in fs.Range(g);
  }

  // ---------------------------------------------------------------- the fast selection

  /** Between rounds: `before` are the bins that were on in the last round, and every bin off has
      an entry in order for those `known`. */
  ghost predicate RoundOk(f: Objective, bg: Background, cache: seq<BinScore>, before: set<int>, known: set<int>,
                          k: nat) {
    && bg.Valid() && |cache| == |bg.enabled| && 1 <= k <= |bg.On()| && known <= before
    && bg.On() == before + bg.Last() && before !! bg.Last() && (exists b :: b in bg.Last())
    && forall e :: 0 <= e < |cache| ==> RoundAt(f, bg, cache, before, known, k, e)
  }

  ghost predicate RoundAt(f: Objective, bg: Background, cache: seq<BinScore>, before: set<int>, known: set<int>,
                          k: nat, e: nat)
    requires e < |cache|
  {
    e !in bg.On() ==> EntryOk(f, e, before, known, k, cache[e])
  }

  /** The entries of the first i bins of the round are runs over all bins on, greedy as far as those `seen` go. */
  ghost predicate Renewed(f: Objective, labelEntropy: real, on: set<int>, seen: set<int>, k: nat, disabled: seq<int>,
                          cache: seq<BinScore>, values: seq<real>)
    requires labelEntropy > 0.0 && |values| <= |disabled|
  {
    forall j :: 0 <= j < |values| ==>
      RenewedAt(f, labelEntropy, on, seen, k, disabled[j], cache, values[j])
  }

  ghost predicate RenewedAt(f: Objective, labelEntropy: real, on: set<int>, seen: set<int>, k: nat, e: int,
                            cache: seq<BinScore>, value: real)
    requires labelEntropy > 0.0
  {
    0 <= e < |cache| && value == cache[e].score && Evaluated(f, labelEntropy, e, on, seen, k, cache[e])
  }

  lemma RenewedSnoc(f: Objective, labelEntropy: real, on: set<int>, seen: set<int>, k: nat, disabled: seq<int>,
                    cache: seq<BinScore>, values: seq<real>, entry: BinScore)
    requires labelEntropy > 0.0 && |values| < |disabled|
    requires Renewed(f, labelEntropy, on, seen, k, disabled, cache, values)
    requires forall i, j :: InOrder(disabled, i, j)
    requires 0 <= disabled[|values|] < |cache| && Evaluated(f, labelEntropy, disabled[|values|], on, seen, k, entry)
    ensures Renewed(f, labelEntropy, on, seen, k, disabled, cache[disabled[|values|] := entry], values + [entry.score])
  {
    var cache', values' := cache[disabled[|values|] := entry], values + [entry.score];
    forall j | 0 <= j < |values'| ensures RenewedAt(f, labelEntropy, on, seen, k, disabled[j], cache', values'[j]) {
      assert InOrder(disabled, j, |values|);
      assert j < |values| ==> RenewedAt(f, labelEntropy, on, seen, k, disabled[j], cache, values[j]);
    }
  }

  /** The entries of all bins from number i on are as they were. */
  ghost predicate Awaiting(disabled: seq<int>, i: nat, cache: seq<BinScore>, cache': seq<BinScore>) {
    |cache'| == |cache| && forall j :: i <= j < |disabled| ==> Same(cache, cache', disabled[j])
  }

  predicate Same(cache: seq<BinScore>, cache': seq<BinScore>, e: int) {
    0 <= e < |cache| && e < |cache'| ==> cache'[e] == cache[e]
  }

  lemma AwaitingNext(disabled: seq<int>, i: nat, cache: seq<BinScore>, was: seq<BinScore>, cache': seq<BinScore>,
                     entry: BinScore)
    requires Awaiting(disabled, i, cache, was) && forall m, j :: InOrder(disabled, m, j)
    requires i < |disabled| && 0 <= disabled[i] < |was| && cache' == was[disabled[i] := entry]
    ensures Awaiting(disabled, i + 1, cache, cache')
  {
    forall j | i + 1 <= j < |disabled| ensures Same(cache, cache', disabled[j]) {
      assert InOrder(disabled, i, j) && Same(cache, was, disabled[j]);
    }
  }

  /** The scores of the bins off, from the caching scorer. */
  method CachedValues(scorer: TCachingBinScorer, bg: Background, disabled: seq<int>, k: nat, ghost before: set<int>,
                      ghost known: set<int>)
    returns (values: seq<real>)
    requires Ranged(scorer.f) && scorer.labelEntropy > 0.0 && RoundOk(scorer.f, bg, scorer.Cache, before, known, k)
    requires OffList(|bg.enabled|, bg.On(), disabled)
    modifies scorer`Cache
    ensures |scorer.Cache| == |old(scorer.Cache)| && |values| == |disabled|
    ensures Renewed(scorer.f, scorer.labelEntropy, bg.On(), known + bg.Last(), k, disabled, scorer.Cache, values)
  {
    values := [];
    ghost var cache := scorer.Cache;
    for i := 0 to |disabled|
      invariant |values| == i && Awaiting(disabled, i, cache, scorer.Cache)
      invariant Renewed(scorer.f, scorer.labelEntropy, bg.On(), known + bg.Last(), k, disabled, scorer.Cache, values)
    {
      var e := disabled[i];
      assert e in disabled && OffAt(|bg.enabled|, bg.On(), disabled, e);
      assert Same(cache, scorer.Cache, disabled[i]) && RoundAt(scorer.f, bg, cache, before, known, k, e);
      ghost var was := scorer.Cache;
      var ok, r := scorer.Evaluate(bg, e, k, before, known);
      RenewedSnoc(scorer.f, scorer.labelEntropy, bg.On(), known + bg.Last(), k, disabled, was, values, r.value);
      AwaitingNext(disabled, i, cache, was, scorer.Cache, r.value);
      values := values + [r.value.score];
    }
  }

  /** The cached scores are the plain ones divided by the entropy of the label. */
  lemma RenewedValued(f: Objective, labelEntropy: real, n: nat, on: set<int>, k: nat, disabled: seq<int>,
                      cache: seq<BinScore>, values: seq<real>)
    requires labelEntropy > 0.0 && |values| == |disabled|
    requires Renewed(f, labelEntropy, on, on, k, disabled, cache, values)
    requires NoTies(f, n) && on <= Interval(0, n) && 1 <= k <= |on|
    requires OffList(n, on, disabled)
    ensures Valued(f, on, k, disabled, values, labelEntropy)
  {
    forall i | 0 <= i < |values| ensures ValuedAt(f, on, k, disabled[i], values[i], labelEntropy) {
      var e := disabled[i];
      assert e in disabled && OffAt(n, on, disabled, e) && Between(0, e, n);
      assert RenewedAt(f, labelEntropy, on, on, k, disabled[i], cache, values[i]);
      EvaluatedScore(f, labelEntropy, e, on, k, cache[e]);
    }
  }

  lemma RoundValued(f: Objective, labelEntropy: real, mi: int -> real, fs: FeatureSet, bg: Background,
                    evalSteps: nat, order: seq<nat>, sure: bool, seen: set<int>, k: nat, disabled: seq<int>,
                    cache: seq<BinScore>, values: seq<real>)
    requires labelEntropy > 0.0 && Selecting(f, mi, fs, evalSteps, bg, order, sure) && 1 <= k <= |bg.On()|
    requires |values| == |disabled| && Renewed(f, labelEntropy, bg.On(), seen, k, disabled, cache, values)
    requires OffList(fs.count, bg.On(), disabled)
    ensures NoTies(f, fs.count) && seen == bg.On() ==> Valued(f, bg.On(), k, disabled, values, labelEntropy)
  {
    OnOfBins(fs, order);
    if NoTies(f, fs.count) && seen == bg.On() {
      RenewedValued(f, labelEntropy, fs.count, bg.On(), k, disabled, cache, values);
    }
  }

  lemma RoundSelects(f: Objective, labelEntropy: real, mi: int -> real, fs: FeatureSet, bg: Background,
                     evalSteps: nat, order: seq<nat>, sure: bool, seen: set<int>, k: nat, disabled: seq<int>,
                     cache: seq<BinScore>, values: seq<real>, g: nat, sure': bool)
    requires labelEntropy > 0.0 && Selecting(f, mi, fs, evalSteps, bg, order, sure) && order != []
    requires 1 <= k <= |bg.On()| && k == StepCount(bg.On(), evalSteps)
    requires |values| == |disabled| && Renewed(f, labelEntropy, bg.On(), seen, k, disabled, cache, values)
    requires OffList(fs.count, bg.On(), disabled)
    requires g in Full(fs) && exists b :: b in fs.Range(g) && b !in bg.On()
    requires Valued(f, bg.On(), k, disabled, values, labelEntropy) ==> Next(f, fs, evalSteps, bg.On(), g)
    requires sure' ==> sure && NoTies(f, fs.count) && seen == bg.On()
    ensures Selecting(f, mi, fs, evalSteps, WithFeature(fs, bg, g), order + [g], sure') && bg.On() !! fs.Range(g)
  {
    RoundValued(f, labelEntropy, mi, fs, bg, evalSteps, order, sure, seen, k, disabled, cache, values);
    SelectingNext(f, mi, fs, evalSteps, bg, order, sure, g, sure');
  }

  lemma EvaluatedScore(f: Objective, labelEntropy: real, e: int, on: set<int>, k: nat, entry: BinScore)
    requires labelEntropy > 0.0 && Evaluated(f, labelEntropy, e, on, on, k, entry) && Decided(f, e, on)
    requires 1 <= k <= |on|
    ensures entry.score * labelEntropy == Score(f, e, on, k)
  {
    ScoreIs(f, e, on, k, entry.maxSteps, entry.minSteps);
    Quotient(entry.minSteps[k - 1].cmi, labelEntropy);
  }

  lemma Quotient(x: real, y: real)
    requires y > 0.0
    ensures x / y * y == x
  {
  }

  lemma LessSeen(f: Objective, e: int, on: set<int>, seen: set<int>, k: nat, maxs: seq<Step>, mins: seq<Step>)
    requires RunOver(f, e, on, seen, k, maxs, mins)
    ensures RunOver(f, e, on, {}, k, maxs, mins)
  {
    forall s | 0 <= s < |maxs| ensures MaxAt(f, e, on + {e}, {}, maxs, s) {
      assert MaxAt(f, e, on + {e}, seen, maxs, s);
    }
    forall s | 0 <= s < |mins| ensures MinAt(f, e, on, {}, maxs, mins, s) {
      assert MinAt(f, e, on, seen, maxs, mins, s);
    }
  }

  /** What is known of the entries in the next round: nothing when more steps are wanted. */
  ghost function KnownNext(seen: set<int>, k: nat, k': nat): set<int> { if k < k' then {} else seen }

  /** After a round, another feature is switched on and the next round may begin. */
  lemma RoundNext(f: Objective, labelEntropy: real, fs: FeatureSet, bg: Background, g: nat, evalSteps: nat,
                  seen: set<int>, disabled: seq<int>, cache: seq<BinScore>, values: seq<real>)
    requires fs.Valid() && g in Full(fs) && bg.Valid() && |bg.enabled| == fs.count == |cache| && bg.On() !! fs.Range(g)
    requires labelEntropy > 0.0 && 1 <= StepCount(bg.On(), evalSteps) && seen <= bg.On()
    requires |values| == |disabled|
    requires Renewed(f, labelEntropy, bg.On(), seen, StepCount(bg.On(), evalSteps), disabled, cache, values)
    requires OffList(fs.count, bg.On(), disabled)
    ensures var z := WithFeature(fs, bg, g);
      var k, k' := StepCount(bg.On(), evalSteps), StepCount(z.On(), evalSteps);
      RoundOk(f, z, cache, bg.On(), KnownNext(seen, k, k'), k')
  {
    var z, k := WithFeature(fs, bg, g), StepCount(bg.On(), evalSteps);
    SubsetSize(bg.On(), z.On());
    assert Between(fs.starts[g], fs.starts[g], fs.End(g)) && fs.starts[g] in z.Last();
    var k' := StepCount(z.On(), evalSteps);
    forall e | 0 <= e < |cache| ensures RoundAt(f, z, cache, bg.On(), KnownNext(seen, k, k'), k', e) {
      if e !in z.On() {
        assert OffAt(fs.count, bg.On(), disabled, e);
        var j :| 0 <= j < |disabled| && disabled[j] == e;
        assert RenewedAt(f, labelEntropy, bg.On(), seen, k, disabled[j], cache, values[j]);
        LessSeen(f, e, bg.On(), seen, k, cache[e].maxSteps, cache[e].minSteps);
      }
    }
  }

  lemma RoundStart(f: Objective, fs: FeatureSet, bg: Background, g: nat, evalSteps: nat, cache: seq<BinScore>)
    requires fs.Valid() && g in Full(fs) && bg.Valid() && |bg.enabled| == fs.count == |cache| && bg.On() == {}
    requires forall e :: 0 <= e < |cache| ==> cache[e] == BinScore(0.0, [], [])
    requires evalSteps >= 1
    ensures var z := WithFeature(fs, bg, g);
      z.On() == fs.Range(g) && RoundOk(f, z, cache, {}, {}, StepCount(z.On(), evalSteps))
  {
    var z := WithFeature(fs, bg, g);
    assert z.On() == fs.Range(g);
    assert Between(fs.starts[g], fs.starts[g], fs.End(g)) && fs.starts[g] in z.Last();
    SomeOn(z.On());
  }

  /** The feature selected first has as many bins as there are evaluation steps. */
  ghost predicate Stocked(mi: int -> real, fs: FeatureSet, evalSteps: nat)
    requires fs.Valid()
  {
    forall g :: First(mi, fs, g) ==> |fs.Range(g)| >= evalSteps
  }

  /** How many features the fast selection is to report: the first one always. */
  function Wanted(featureCount: int, features: nat): (m: nat)
    ensures m >= 1 && (m == 1 || (m <= featureCount && m <= features)) && (m >= featureCount || m >= features)
  {
    var m := if featureCount < features then featureCount else features;
    if m < 1 then 1 else m
  }

  /** One round: the next feature, by the cached scores of the bins off. */
  method FastRound(scorer: TCachingBinScorer, ghost mi: int -> real, fs: FeatureSet, evalSteps: nat, bg: Background,
                   disabled: seq<int>, ghost order: seq<nat>, ghost before: set<int>, ghost known: set<int>,
                   ghost sure: bool, ghost sure': bool)
    returns (g: nat, ghost known': set<int>)
    requires Ranged(scorer.f) && scorer.labelEntropy > 0.0 && order != []
    requires Selecting(scorer.f, mi, fs, evalSteps, bg, order, sure)
    requires RoundOk(scorer.f, bg, scorer.Cache, before, known, StepCount(bg.On(), evalSteps))
    requires OffList(fs.count, bg.On(), disabled) && disabled != []
    requires sure' ==> sure && NoTies(scorer.f, fs.count) && known == before
    modifies scorer`Cache
    ensures g in Full(fs) && Selecting(scorer.f, mi, fs, evalSteps, WithFeature(fs, bg, g), order + [g], sure')
    ensures var z := WithFeature(fs, bg, g);
      RoundOk(scorer.f, z, scorer.Cache, bg.On(), known', StepCount(z.On(), evalSteps))
    ensures known == before && |bg.On()| >= evalSteps ==> known' == bg.On()
  {
    var k := StepsOf(bg, evalSteps);
    ghost var seen := known + bg.Last();
    var values := CachedValues(scorer, bg, disabled, k, before, known);
    g := PickFeature(scorer.f, fs, evalSteps, bg, disabled, values, scorer.labelEntropy);
    RoundSelects(scorer.f, scorer.labelEntropy, mi, fs, bg, evalSteps, order, sure, seen, k, disabled, scorer.Cache,
                 values, g, sure');
    RoundNext(scorer.f, scorer.labelEntropy, fs, bg, g, evalSteps, seen, disabled, scorer.Cache, values);
    known' := KnownNext(seen, k, StepCount(WithFeature(fs, bg, g).On(), evalSteps));
  }

  /** FastFeatureSelection: the features in the order reported. In rounds with more steps than the one
      before, entries only see the bins enabled last; the order is sure when there are no such rounds, or
      they do not matter yet. */
  method FastFeatureSelection(f: Objective, labelEntropy: real, mi: int -> real, fs: FeatureSet, evalSteps: nat,
                              featureCount: int)
    returns (order: seq<nat>, ok: bool)
    requires fs.Valid() && evalSteps >= 1 && Ranged(f) && labelEntropy > 0.0
    ensures Different(fs, order)
    ensures NoTies(f, fs.count) && (Stocked(mi, fs, evalSteps) || |order| <= 2) ==>
      Selected(f, mi, fs, evalSteps, order)
    ensures ok <==> |Full(fs)| >= Wanted(featureCount, |fs.starts|)
    ensures ok ==> |order| == Wanted(featureCount, |fs.starts|)
    ensures !ok ==> |order| == |Full(fs)|
  {
    order := [];
    var bg := Background(seq(fs.count, _ => false), 0, 0);
    assert bg.On() == {};
    var g;
    g, ok := FirstFeature(mi, fs);
    if !ok {
      NoBins(fs);
      return;
    }
    StartSelecting(f, mi, fs, evalSteps, bg, g);
    ghost var stocked, sure := Stocked(mi, fs, evalSteps), NoTies(f, fs.count);
    SelectingNext(f, mi, fs, evalSteps, bg, order, sure, g, sure);
    var scorer := new TCachingBinScorer(f, labelEntropy, fs.count);
    RoundStart(f, fs, bg, g, evalSteps, scorer.Cache);
    ghost var before, known := {}, {};
    bg, order := WithFeature(fs, bg, g), [g];
    for step := 0 to Wanted(featureCount, |fs.starts|) - 1
      invariant Selecting(f, mi, fs, evalSteps, bg, order, sure) && |order| == step + 1
      invariant RoundOk(f, bg, scorer.Cache, before, known, StepCount(bg.On(), evalSteps))
      invariant sure == (NoTies(f, fs.count) && (stocked || |order| <= 2))
      invariant stocked ==> |bg.On()| >= evalSteps
      invariant stocked || |order| == 1 ==> known == before
    {
      var disabled := Indexes(bg.enabled, false, |bg.enabled|);
      Offs(bg, disabled);
      if disabled == [] {
        NoneOff(fs.count, bg.On(), disabled);
        AllFull(fs, order);
        return order, false;
      }
      ghost var sure' := sure && (stocked || |order| == 1);
      g, known := FastRound(scorer, mi, fs, evalSteps, bg, disabled, order, before, known, sure, sure');
      SubsetSize(bg.On(), WithFeature(fs, bg, g).On());
      before, sure := bg.On(), sure';
      bg, order := WithFeature(fs, bg, g), order + [g];
    }
    AtMostFull(fs, order);
  }

  /** The two selections on the same features: when none is empty and there are no ties, the fast one
      reports just what the plain one reports first. */
  method SelectBoth(f: Objective, labelEntropy: real, mi: int -> real, fs: FeatureSet, evalSteps: nat,
                    featureCount: int)
    returns (fast: seq<nat>, plain: seq<nat>)
    requires fs.Valid() && fs.Proper() && NoTies(f, fs.count)
    requires evalSteps >= 1 && Ranged(f) && labelEntropy > 0.0
    requires Stocked(mi, fs, evalSteps) || Wanted(featureCount, |fs.starts|) <= 2
    ensures |plain| == |fs.starts| && Wanted(featureCount, |fs.starts|) <= |plain|
    ensures fast == plain[..Wanted(featureCount, |fs.starts|)]
  {
    var ok;
    ProperIsFull(fs);
    plain, ok := FeatureSelection(f, mi, fs, evalSteps);
    fast, ok := FastFeatureSelection(f, labelEntropy, mi, fs, evalSteps, featureCount);
    FastReportsPrefix(f, mi, fs, evalSteps, fast, plain);
  }
}
