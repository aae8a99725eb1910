/** BestSplit: running sums, one row per threshold in the chosen mode, the last cut, and the
    thresholds read back. */
module BestSplits {
  import opened Splitting
  import opened SplitRows
  import opened SafeRows
  import opened RlmRows

  datatype Mode = Base2 | Safe | DaC | Rlm2

  /** The modes that bracket a cheapest choice, and need not find the last one. */
  predicate Scans(mode: Mode) { mode.Safe? || mode.Rlm2? }

  /** When a mode finds the least total penalty: the plain mode always, divide and conquer for a
      convex penalty, the bracketing scans for a convex penalty whose values are integers, and with
      rebuilding for one that is also steep. */
  ghost predicate Sound(mode: Mode, pen: int -> real) {
    match mode
    case Base2 => true
    case DaC => Convex(pen)
    case Safe => Convex(pen) && Integral(pen)
    case Rlm2 => Steep(pen) && Integral(pen)
  }

  /** What a mode is used for here: otherwise divide and conquer may leave its box, and rebuilding
      may not end. */
  ghost predicate Usable(mode: Mode, p: Problem) {
    (mode.DaC? ==> Convex(p.pen)) && (mode.Rlm2? ==> Sound(mode, p.pen) && Weighed(p))
  }

  function Total(weights: seq<nat>, n: nat): nat
    requires n <= |weights|
  {
    if n == 0 then 0 else Total(weights, n - 1) + weights[n - 1]
  }

  function Sums(weights: seq<nat>): (sums: seq<int>)
    ensures |sums| == |weights| && forall i :: 0 <= i < |sums| ==> sums[i] == Total(weights, i + 1)
  {
    seq(|weights|, i requires 0 <= i < |weights| => Total(weights, i + 1))
  }

  /** The first sum is the first weight, and each next one is greater by the next weight. */
  lemma SumsStep(weights: seq<nat>)
    requires weights != []
    ensures Sums(weights)[0] == weights[0]
    ensures forall i :: 0 < i < |weights| ==> Sums(weights)[i] - Sums(weights)[i - 1] == weights[i]
  {
    assert Total(weights, 1) == Total(weights, 0) + weights[0];
    forall i | 0 < i < |weights| ensures Sums(weights)[i] - Sums(weights)[i - 1] == weights[i] {
      assert Total(weights, i + 1) == Total(weights, i) + weights[i];
    }
  }

  // ---------------------------------------------------------------- the groups' own weights

  /** The weight of a group. */
  function Weight(group: seq<nat>): nat { if group == [] then 0 else group[0] + Weight(group[1..]) }

  lemma {:induction false} WeightAdds(a: seq<nat>, b: seq<nat>)
    ensures Weight(a + b) == Weight(a) + Weight(b)
  {
    if a == [] {
      assert a + b == b;
    } else {
      WeightAdds(a[1..], b);
      assert (a + b)[1..] == a[1..] + b;
    }
  }

  /** The penalties of the groups that end after the places in `ts` and at the end, in all. */
  function Penalties(pen: int -> real, weights: seq<nat>, ts: seq<nat>): real
    requires weights != [] && IsSplit(ts, |weights| - 1)
  {
    if ts == [] then pen(Weight(weights)) else
      var n := |ts| - 1;
      Penalties(pen, weights[..ts[n] + 1], ts[..n]) + pen(Weight(weights[ts[n] + 1..]))
  }

  /** No other split into as many groups costs less. */
  ghost predicate Best(pen: int -> real, weights: seq<nat>, ts: seq<nat>) {
    && weights != [] && IsSplit(ts, |weights| - 1)
    && forall us :: |us| == |ts| && IsSplit(us, |weights| - 1) ==>
      Penalties(pen, weights, ts) <= Penalties(pen, weights, us)
  }

  lemma {:induction false} TotalIs(weights: seq<nat>, n: nat)
    requires n <= |weights|
    ensures Total(weights, n) == Weight(weights[..n])
  {
    if n > 0 {
      var m := n - 1;
      TotalIs(weights, m);
      WeightAdds(weights[..m], [weights[m]]);
      assert weights[..n] == weights[..m] + [weights[m]];
      assert Weight([weights[m]]) == weights[m];
    }
  }

  lemma GroupWeight(weights: seq<nat>, last: nat, end: nat)
    requires last < end < |weights|
    ensures Sums(weights)[end] - Sums(weights)[last] == Weight(weights[last + 1..end + 1])
  {
    TotalIs(weights, last + 1);
    TotalIs(weights, end + 1);
    WeightAdds(weights[..last + 1], weights[last + 1..end + 1]);
    assert weights[..end + 1] == weights[..last + 1] + weights[last + 1..end + 1];
  }

  /** What the programme minimizes are the penalties of the groups' own weights. */
  lemma {:induction false} CostIsPenalties(p: Problem, weights: seq<nat>, ts: seq<nat>, end: nat)
    requires p.sums == Sums(weights) && end < |weights| && IsSplit(ts, end)
    ensures SplitCost(p, ts, end) == Penalties(p.pen, weights[..end + 1], ts)
    decreases |ts|
  {
    var w := weights[..end + 1];
    if ts == [] {
      TotalIs(weights, end + 1);
    } else {
      var n := |ts| - 1;
      var last, init := ts[n], ts[..n];
      CostIsPenalties(p, weights, init, last);
      GroupWeight(weights, last, end);
      assert w[..last + 1] == weights[..last + 1] && w[last + 1..] == weights[last + 1..end + 1];
    }
  }

  lemma OptimalIsBest(p: Problem, weights: seq<nat>, ts: seq<nat>)
    requires weights != [] && p.sums == Sums(weights) && Posed(p) && Optimal(p, ts)
    ensures Best(p.pen, weights, ts)
  {
    var end := |weights| - 1;
    assert weights[..end + 1] == weights;
    CostIsPenalties(p, weights, ts, end);
    forall us | |us| == |ts|
      && IsSplit(us, end) ensures Penalties(p.pen, weights, ts) <= Penalties(p.pen, weights, us) {
      CostIsPenalties(p, weights, us, end);
    }
  }

  lemma {:induction false} TotalAscends(weights: seq<nat>, i: nat, j: nat)
    requires i <= j <= |weights|
    ensures Total(weights, i) <= Total(weights, j)
    decreases j
  {
    if i < j { TotalAscends(weights, i, j - 1); }
  }

  lemma SumsAscend(weights: seq<nat>)
    ensures Ascending(Sums(weights))
  {
    var sums := Sums(weights);
    forall i, j | 0 <= i <= j < |sums| ensures sums[i] <= sums[j] { TotalAscends(weights, i + 1, j + 1); }
  }

  predicate AllPositive(weights: seq<nat>) { forall i :: 0 <= i < |weights| ==> weights[i] > 0 }

  lemma {:induction false} TotalRises(weights: seq<nat>, i: nat, j: nat)
    requires i < j <= |weights| && AllPositive(weights)
    ensures Total(weights, i) < Total(weights, j)
    decreases j
  {
    if i + 1 < j { TotalRises(weights, i, j - 1); }
  }

  lemma SumsRise(weights: seq<nat>)
    requires weights != [] && AllPositive(weights)
    ensures Rising(Sums(weights))
  {
    var sums := Sums(weights);
    TotalRises(weights, 0, 1);
    forall i, j | 0 <= i < j < |sums| ensures sums[i] < sums[j] { TotalRises(weights, i + 1, j + 1); }
  }

  lemma SumsWeighed(pen: int -> real, weights: seq<nat>, bins: nat)
    requires weights != [] && (pen(0) == 0.0 || AllPositive(weights))
    ensures Weighed(Problem(pen, Sums(weights), bins))
  {
    SumsAscend(weights);
    if pen(0) != 0.0 { SumsRise(weights); }
  }

  // ---------------------------------------------------------------- the defining rows

  function ErrorsAt(p: Problem, l: nat): (errs: seq<real>)
    requires Posed(p) && l < p.bins
    ensures |errs| == p.Width()
  {
    if l == 0 then seq(p.Width(), j requires 0 <= j < p.Width() => p.pen(p.sums[j]))
    else Errors(p, ErrorsAt(p, l - 1), l - 1)
  }

  function ChoicesUpTo(p: Problem, l: nat): (best: seq<seq<nat>>)
    requires Posed(p) && l < p.bins
    ensures |best| == l && Grid(best, p.Width())
  {
    if l == 0 then [] else ChoicesUpTo(p, l - 1) + [Choices(p, ErrorsAt(p, l - 1), l - 1)]
  }

  /** The first cheapest of the choices 0..n, as a scan with < finds it. */
  function FirstMin(p: Problem, prev: seq<real>, l: nat, j: nat, n: nat): (k: nat)
    requires RowReady(p, prev, l) && n <= j < p.Width()
    ensures k <= n
  {
    if n == 0 then 0 else
      var k := FirstMin(p, prev, l, j, n - 1);
      if Cost(p, prev, l, j, n) < Cost(p, prev, l, j, k) then n else k
  }

  lemma {:induction false} FirstMinIsFirst(p: Problem, prev: seq<real>, l: nat, j: nat, n: nat)
    requires RowReady(p, prev, l) && n <= j < p.Width()
    ensures forall i :: 0 <= i <= n ==> Cost(p, prev, l, j, FirstMin(p, prev, l, j, n)) <= Cost(p, prev, l, j, i)
    ensures forall i :: 0 <= i < FirstMin(p, prev, l, j, n) ==>
      Cost(p, prev, l, j, FirstMin(p, prev, l, j, n)) < Cost(p, prev, l, j, i)
  {
    if n > 0 { FirstMinIsFirst(p, prev, l, j, n - 1); }
  }

  /** What E_Base2 returns, for l = bins - 2 and the last column j. */
  function ReferenceFrom(p: Problem, l: nat, j: nat): (ts: seq<nat>)
    requires Posed(p) && l + 2 == p.bins && j + 1 == p.Width()
  {
    FollowBack(p, ChoicesUpTo(p, l), ErrorsAt(p, l), l, j)
  }

  ghost predicate IsReference(p: Problem, ts: seq<nat>)
    requires Posed(p)
  {
    exists l: nat, j: nat :: l + 2 == p.bins && j + 1 == p.Width() && ts == ReferenceFrom(p, l, j)
  }

  /** The first cheapest last cut, and where it leads. */
  function FollowBack(p: Problem, best: seq<seq<nat>>, errs: seq<real>, l: nat, j: nat): (ts: seq<nat>)
    requires RowReady(p, errs, l) && |best| == l && Grid(best, p.Width()) && j < p.Width()
    ensures |ts| == l + 1
  {
    var k := FirstMin(p, errs, l, j, j);
    Trace(best, p.Width(), l, k) + [l + k]
  }

  ghost predicate Optimal(p: Problem, ts: seq<nat>)
    requires Posed(p)
  {
    var end := |p.sums| - 1;
    IsSplit(ts, end) && forall us :: |us| == |ts| && IsSplit(us, end) ==> SplitCost(p, ts, end) <= SplitCost(p, us, end)
  }

  lemma FirstIsChoice(p: Problem, errs: seq<real>, l: nat, j: nat)
    requires RowReady(p, errs, l) && j < p.Width()
    ensures Cost(p, errs, l, j, FirstMin(p, errs, l, j, j)) == Errors(p, errs, l)[j]
  {
    var k, c := FirstMin(p, errs, l, j, j), Choice(p, errs, l, j);
    FirstMinIsFirst(p, errs, l, j, j);
    LastMinIsLast(p, errs, l, j, j);
    assert Cost(p, errs, l, j, k) <= Cost(p, errs, l, j, c) && Cost(p, errs, l, j, c) <= Cost(p, errs, l, j, k);
  }

  lemma CheapestIsOptimal(p: Problem, ts: seq<nat>, e: real)
    requires Posed(p) && Costs(p, ts, |p.sums| - 1, e) && Unbeaten(p, e, |ts|, |p.sums| - 1)
    ensures Optimal(p, ts)
  {
  }

  lemma CutCosts(p: Problem, best: seq<seq<nat>>, errs: seq<real>, l: nat, j: nat, k: nat)
    requires RowReady(p, errs, l) && l == |best| && k <= j < p.Width()
    requires Grid(best, p.Width()) && Achieves(p, best, l, errs)
    ensures Costs(p, Trace(best, p.Width(), l, k) + [l + k], l + j + 1, Cost(p, errs, l, j, k))
  {
    var init := Trace(best, p.Width(), l, k);
    assert Costs(p, init, l + k, errs[k]);
    AchievesColumn(p, init, init + [l + k], errs, l, j, k);
  }

  /** The cheapest last cut over an optimal row beats every split. */
  lemma CutOptimal(p: Problem, errs: seq<real>, l: nat, j: nat, ts: seq<nat>)
    requires RowReady(p, errs, l) && OptimalRow(p, errs, l) && j < p.Width() && l + j + 1 == |p.sums| - 1
    requires |ts| == l + 1 && Costs(p, ts, l + j + 1, Errors(p, errs, l)[j])
    ensures Optimal(p, ts)
  {
    OptimalColumn(p, errs, l, j);
    assert l + 1 + j == |p.sums| - 1;
    CheapestIsOptimal(p, ts, Errors(p, errs, l)[j]);
  }

  /** The best last cut, followed back, is a split, and an optimal one if the error row is. */
  lemma LastCut(p: Problem, best: seq<seq<nat>>, errs: seq<real>, l: nat, j: nat, k: nat, ts: seq<nat>, end: nat)
    requires RowReady(p, errs, l) && |best| == l == p.bins - 2 && Grid(best, p.Width()) && Achieves(p, best, l, errs)
    requires j == p.Width() - 1 && end == |p.sums| - 1 && k == FirstMin(p, errs, l, j, j)
    requires ts == Trace(best, p.Width(), l, k) + [l + k]
    ensures IsSplit(ts, end) && (OptimalRow(p, errs, l) ==> Optimal(p, ts))
  {
    assert l + j + 1 == end;
    CutCosts(p, best, errs, l, j, k);
    if OptimalRow(p, errs, l) {
      FirstIsChoice(p, errs, l, j);
      CutOptimal(p, errs, l, j, ts);
    }
  }

  // ---------------------------------------------------------------- the method

  method RunningSums(weights: seq<nat>) returns (sums: seq<int>)
    requires weights != []
    ensures sums == Sums(weights) && sums[0] == weights[0]
    ensures forall i :: 0 < i < |weights| ==> sums[i] - sums[i - 1] == weights[i]
  {
    SumsStep(weights);
    sums := weights;
    for i := 1 to |weights|
      invariant |sums| == |weights|
      invariant forall k :: 0 <= k < i && k < |sums| ==> sums[k] == Total(weights, k + 1)
      invariant forall k :: i <= k < |sums| ==> sums[k] == weights[k]
    {
      sums := sums[i := sums[i] + sums[i - 1]];
    }
  }

  /** One turn of the main loop. */
  method NextRow(p: Problem, mode: Mode, l: nat, prev: array<real>, cur: array<real>, row: array<nat>)
    requires RowReady(p, prev[..], l) && cur.Length == row.Length == p.Width() && cur != prev
    requires Ascending(p.sums) && Usable(mode, p) && (mode.Rlm2? ==> RlmReady(p, prev[..], l))
    modifies cur, row
    ensures prev[..] == old(prev[..])
    ensures forall j :: 0 <= j < p.Width() ==> Told(p, prev[..], l, row[..], cur[..], j)
    ensures Sound(mode, p.pen) && (Scans(mode) ==> Exact(p, prev[..])) ==> cur[..] == Errors(p, prev[..], l)
    ensures !Scans(mode) ==> row[..] == Choices(p, prev[..], l)
  {
    match mode {
      case Base2 => Base2Row(p, l, prev, cur, row);
      case DaC => DaCRow(p, l, prev, cur, row);
      case Safe => SafeRow(p, l, prev, cur, row);
      case Rlm2 => Rlm2Row(p, l, prev, cur, row);
    }
  }

  /** What the rows filled so far, and the last error row, are. */
  ghost predicate Ready(p: Problem, mode: Mode, best: seq<seq<nat>>, errs: seq<real>, l: nat)
    requires Posed(p)
  {
    && l == |best| < p.bins && Grid(best, p.Width()) && Achieves(p, best, l, errs)
    && (Sound(mode, p.pen) ==> OptimalRow(p, errs, l) && (Scans(mode) ==> Exact(p, errs)))
    && (mode.Rlm2? ==> Grows(p, errs, l))
  }

  /** The modes that find the last cheapest choice fill exactly the defining rows. */
  ghost predicate AsDefined(p: Problem, mode: Mode, best: seq<seq<nat>>, errs: seq<real>, l: nat)
    requires Posed(p) && l < p.bins
  {
    (Sound(mode, p.pen) ==> errs == ErrorsAt(p, l)) && (!Scans(mode) ==> best == ChoicesUpTo(p, l))
  }

  lemma AsDefinedNext(p: Problem, mode: Mode, best: seq<seq<nat>>, prev: seq<real>, row: seq<nat>, errs: seq<real>,
                      l: nat)
    requires RowReady(p, prev, l) && AsDefined(p, mode, best, prev, l) && Usable(mode, p)
    requires Sound(mode, p.pen) ==> errs == Errors(p, prev, l)
    requires !Scans(mode) ==> row == Choices(p, prev, l)
    ensures AsDefined(p, mode, best + [row], errs, l + 1)
  {
    assert Sound(mode, p.pen) ==> ErrorsAt(p, l + 1) == Errors(p, ErrorsAt(p, l), l);
    assert ChoicesUpTo(p, l + 1) == ChoicesUpTo(p, l) + [Choices(p, ErrorsAt(p, l), l)];
  }

  lemma IntegralAt(pen: int -> real, w: int)
    requires Integral(pen)
    ensures IsInteger(pen(w))
  {
  }

  lemma StartExact(p: Problem, errs: seq<real>)
    requires Posed(p) && Integral(p.pen) && |errs| == p.Width() && forall j :: 0 <= j < |errs| ==>
      errs[j] == p.pen(p.sums[j])
    ensures Exact(p, errs)
  {
    forall j | 0 <= j < |errs| ensures IsInteger(errs[j]) {
      IntegralAt(p.pen, p.sums[j]);
    }
  }

  lemma ReadyStart(p: Problem, mode: Mode, errs: seq<real>)
    requires Posed(p) && |errs| == p.Width() && forall j :: 0 <= j < |errs| ==> errs[j] == p.pen(p.sums[j])
    requires Usable(mode, p)
    ensures Ready(p, mode, [], errs, 0) && AsDefined(p, mode, [], errs, 0)
  {
    AchievesStart(p, errs);
    OptimalStart(p, errs);
    assert errs == ErrorsAt(p, 0);
    if Integral(p.pen) { StartExact(p, errs); }
    if mode.Rlm2? { GrowsStart(p, errs); }
  }

  lemma ReadyNext(p: Problem, mode: Mode, best: seq<seq<nat>>, prev: seq<real>, row: seq<nat>, errs: seq<real>, l: nat)
    requires RowReady(p, prev, l) && Ready(p, mode, best, prev, l) && |row| == |errs| == p.Width()
    requires Usable(mode, p)
    requires forall j :: 0 <= j < p.Width() ==> Told(p, prev, l, row, errs, j)
    requires Sound(mode, p.pen) && (Scans(mode) ==> Exact(p, prev)) ==> errs == Errors(p, prev, l)
    ensures Ready(p, mode, best + [row], errs, l + 1)
  {
    forall j | 0 <= j < p.Width() ensures row[j] <= j && errs[j] == Cost(p, prev, l, j, row[j]) {
      assert Told(p, prev, l, row, errs, j);
    }
    AchievesNext(p, best, row, prev, errs, l);
    if Sound(mode, p.pen) {
      OptimalNext(p, prev, l);
      if Scans(mode) { ErrorsExact(p, prev, l); }
      if mode.Rlm2? { GrowsNext(p, prev, l); }
    }
  }

  /** All rows but the last: bestSolutions, and the error row they end in. */
  method Rows(p: Problem, mode: Mode, ghost last: nat) returns (best: seq<seq<nat>>, errs: seq<real>)
    requires Posed(p) && last == p.bins - 2 && Ascending(p.sums) && Usable(mode, p)
    ensures Ready(p, mode, best, errs, last) && AsDefined(p, mode, best, errs, last)
  {
    var dsize := p.Width();
    var cur, prev := new real[dsize], new real[dsize];
    for i := 0 to dsize
      invariant forall k :: 0 <= k < i ==> cur[k] == p.pen(p.sums[k])
    {
      cur[i] := p.pen(p.sums[i]);
    }
    ReadyStart(p, mode, cur[..]);
    best := [];
    for l := 0 to p.bins - 2
      invariant cur != prev && fresh(cur) && fresh(prev) && cur.Length == prev.Length == dsize
      invariant Ready(p, mode, best, cur[..], l) && AsDefined(p, mode, best, cur[..], l)
    {
      cur, prev := prev, cur;
      ghost var pv := prev[..];
      var row := new nat[dsize];
      NextRow(p, mode, l, prev, cur, row);
      ReadyNext(p, mode, best, pv, row[..], cur[..], l);
      AsDefinedNext(p, mode, best, pv, row[..], cur[..], l);
      best := best + [row[..]];
    }
    errs := cur[..];
  }

  /** Reads the thresholds back and adds each one's index. */
  method ReadBack(p: Problem, best: seq<seq<nat>>, last: nat, bestIndex0: nat) returns (thresholds: seq<nat>)
    requires Posed(p) && |best| == last == p.bins - 2 && Grid(best, p.Width()) && bestIndex0 < p.Width()
    ensures thresholds == Trace(best, p.Width(), last, bestIndex0) + [last + bestIndex0]
  {
    var bestIndex: nat := bestIndex0;
    ghost var result := Trace(best, p.Width(), last, bestIndex0) + [last + bestIndex0];
    thresholds := seq(p.bins - 1, _ => 0);
    thresholds := thresholds[p.bins - 2 := bestIndex];
    var l := p.bins - 2;
    while l > 0
      invariant 0 <= l <= p.bins - 2 && |thresholds| == p.bins - 1 && bestIndex < p.Width()
      invariant result[..l] == Trace(best, p.Width(), l, bestIndex)
      invariant forall k :: l <= k < |thresholds| ==> thresholds[k] + k == result[k]
    {
      ghost var before := bestIndex;
      bestIndex := best[l - 1][bestIndex];
      thresholds := thresholds[l - 1 := bestIndex];
      assert Trace(best, p.Width(), l, before) == Trace(best, p.Width(), l - 1, bestIndex) + [l - 1 + bestIndex];
      assert result[..l][..l - 1] == result[..l - 1] && result[..l][l - 1] == result[l - 1];
      l := l - 1;
    }
    for m := 0 to |thresholds|
      invariant |thresholds| == p.bins - 1
      invariant forall k :: 0 <= k < m ==> thresholds[k] == result[k]
      invariant forall k :: m <= k < |thresholds| ==> thresholds[k] + k == result[k]
    {
      thresholds := thresholds[m := thresholds[m] + m];
    }
  }

  /** The scan of the last column keeps the first cheapest choice. */
  method LastMatch(p: Problem, errs: seq<real>, l: nat, j: nat) returns (bestIndex: nat)
    requires RowReady(p, errs, l) && j < p.Width()
    ensures bestIndex <= j && bestIndex == FirstMin(p, errs, l, j, j)
    ensures forall i :: 0 <= i <= j ==> Cost(p, errs, l, j, bestIndex) <= Cost(p, errs, l, j, i)
    ensures forall i :: 0 <= i < bestIndex ==> Cost(p, errs, l, j, bestIndex) < Cost(p, errs, l, j, i)
  {
    FirstMinIsFirst(p, errs, l, j, j);
    bestIndex := 0;
    var bestError := errs[0] + p.pen(p.sums[l + j + 1] - p.sums[l]);
    for i := 1 to j + 1
      invariant bestIndex == FirstMin(p, errs, l, j, i - 1) && bestError == Cost(p, errs, l, j, bestIndex)
    {
      var newError := errs[i] + p.pen(p.sums[l + j + 1] - p.sums[l + i]);
      if newError < bestError {
        bestError := newError;
        bestIndex := i;
      }
    }
  }

  /** With no more elements than groups every element is its own group. */
  method OneEach(wsize: nat, bins: nat) returns (thresholds: seq<nat>)
    requires 0 < wsize <= bins
    ensures |thresholds| == bins - 1 && forall i :: 0 <= i < bins - 1 ==>
      thresholds[i] == if i < wsize - 1 then i else wsize - 1
  {
    thresholds := seq(bins - 1, _ => 0);
    for i := 0 to wsize - 1
      invariant |thresholds| == bins - 1 && forall k :: 0 <= k < i ==> thresholds[k] == k
    {
      thresholds := thresholds[i := i];
    }
    for i := wsize - 1 to bins - 1
      invariant |thresholds| == bins - 1
      invariant forall k :: 0 <= k < i ==> thresholds[k] == if k < wsize - 1 then k else wsize - 1
    {
      thresholds := thresholds[i := wsize - 1];
    }
  }

  lemma ReadyGives(p: Problem, mode: Mode, best: seq<seq<nat>>, errs: seq<real>, l: nat)
    requires Posed(p) && Ready(p, mode, best, errs, l) && l + 2 <= p.bins
    ensures RowReady(p, errs, l) && |best| == l && Grid(best, p.Width()) && Achieves(p, best, l, errs)
    ensures Sound(mode, p.pen) ==> OptimalRow(p, errs, l)
  {
  }

  lemma FollowBackIs(p: Problem, best: seq<seq<nat>>, errs: seq<real>, l: nat, j: nat, k: nat, ts: seq<nat>)
    requires RowReady(p, errs, l) && |best| == l && Grid(best, p.Width()) && j < p.Width()
    requires k == FirstMin(p, errs, l, j, j) && ts == Trace(best, p.Width(), l, k) + [l + k]
    ensures ts == FollowBack(p, best, errs, l, j)
  {
  }

  /** The defining rows lead to the reference answer. */
  lemma FollowsReference(p: Problem, best: seq<seq<nat>>, errs: seq<real>, l: nat, j: nat)
    requires Posed(p) && l + 2 == p.bins && j + 1 == p.Width() && best == ChoicesUpTo(p, l) && errs == ErrorsAt(p, l)
    ensures FollowBack(p, best, errs, l, j) == ReferenceFrom(p, l, j)
  {
  }

  lemma AnswerIsOptimal(p: Problem, mode: Mode, best: seq<seq<nat>>, errs: seq<real>, l: nat, j: nat, k: nat,
                        ts: seq<nat>, end: nat)
    requires Posed(p) && Ready(p, mode, best, errs, l) && l == p.bins - 2 && j == p.Width() - 1 && end == |p.sums| - 1
    requires RowReady(p, errs, l) && k == FirstMin(p, errs, l, j, j) && ts == Trace(best, p.Width(), l, k) + [l + k]
    ensures IsSplit(ts, end) && (Sound(mode, p.pen) ==> Optimal(p, ts))
  {
    ReadyGives(p, mode, best, errs, l);
    LastCut(p, best, errs, l, j, k, ts, end);
  }

  /** The thresholds read back are the answer. */
  lemma Finished(p: Problem, mode: Mode, best: seq<seq<nat>>, errs: seq<real>, l: nat, j: nat, k: nat, ts: seq<nat>)
    requires Posed(p) && Ready(p, mode, best, errs, l) && AsDefined(p, mode, best, errs, l) && l == p.bins - 2
    requires j == p.Width() - 1
    requires RowReady(p, errs, l) && k == FirstMin(p, errs, l, j, j) && ts == Trace(best, p.Width(), l, k) + [l + k]
    requires mode.DaC? ==> Convex(p.pen)
    ensures |ts| == p.bins - 1 && IsSplit(ts, |p.sums| - 1)
    ensures Sound(mode, p.pen) ==> Optimal(p, ts)
    ensures !Scans(mode) ==> IsReference(p, ts)
  {
    AnswerIsOptimal(p, mode, best, errs, l, j, k, ts, |p.sums| - 1);
    if !Scans(mode) {
      FollowBackIs(p, best, errs, l, j, k, ts);
      FollowsReference(p, best, errs, l, j);
    }
  }

  method Solve(p: Problem, mode: Mode) returns (thresholds: seq<nat>)
    requires Posed(p) && Ascending(p.sums) && Usable(mode, p)
    ensures |thresholds| == p.bins - 1 && IsSplit(thresholds, |p.sums| - 1)
    ensures Sound(mode, p.pen) ==> Optimal(p, thresholds)
    ensures !Scans(mode) ==> IsReference(p, thresholds)
  {
    var l, j := p.bins - 2, p.Width() - 1;
    var best, errs := Rows(p, mode, l);
    ReadyGives(p, mode, best, errs, l);
    var bestIndex := LastMatch(p, errs, l, j);
    thresholds := ReadBack(p, best, l, bestIndex);
    Finished(p, mode, best, errs, l, j, bestIndex, thresholds);
  }

  /** Thresholds after which a group ends. Nothing is done for fewer than two groups or no weights. */
  method BestSplit(pen: int -> real, weights: seq<nat>, bordersCount: nat, mode: Mode) returns (thresholds: seq<nat>)
    requires mode.DaC? ==> Convex(pen)
    requires mode.Rlm2? ==> Steep(pen) && Integral(pen) && (pen(0) == 0.0 || AllPositive(weights))
    ensures bordersCount == 0 || weights == [] ==> thresholds == []
    ensures bordersCount > 0 && 0 < |weights| <= bordersCount + 1 ==>
      |thresholds| == bordersCount &&
      forall i :: 0 <= i < bordersCount ==> thresholds[i] == if i < |weights| - 1 then i else |weights| - 1
    ensures 0 < bordersCount && bordersCount + 1 < |weights| ==>
      var p := Problem(pen, Sums(weights), bordersCount + 1);
      && |thresholds| == bordersCount && IsSplit(thresholds, |weights| - 1)
      && (Sound(mode, pen) ==> Best(pen, weights, thresholds))
      && (!Scans(mode) ==> IsReference(p, thresholds))
  {
    var bins := bordersCount + 1;
    if bins <= 1 || weights == [] {
      return [];
    }
    if |weights| <= bins {
      thresholds := OneEach(|weights|, bins);
    } else {
      var sums := RunningSums(weights);
      SumsAscend(weights);
      if mode.Rlm2? { SumsWeighed(pen, weights, bins); }
      thresholds := Solve(Problem(pen, sums, bins), mode);
      if Sound(mode, pen) { OptimalIsBest(Problem(pen, sums, bins), weights, thresholds); }
    }
  }

  /** For the penalty of weight squared every mode finds an optimal split. */
  method BestSquares(weights: seq<nat>, bordersCount: nat, mode: Mode) returns (thresholds: seq<nat>)
    ensures 0 < bordersCount && bordersCount + 1 < |weights| ==>
      && |thresholds| == bordersCount && IsSplit(thresholds, |weights| - 1)
      && Best(W2, weights, thresholds)
    ensures forall w: int :: W2(w) == (w * w) as real
  {
    W2Convex();
    W2Steep();
    W2Integral();
    thresholds := BestSplit(W2, weights, bordersCount, mode);
  }
}
