/** Optimal splitting into groups. */
module Splitting {
  // A row of weights is split into consecutive groups: what the dynamic programme should compute, why
  // its columns are monotone, and why its answer is optimal.

  /** Running sums of the weights, the number of groups, and the penalty of a group's weight. */
  datatype Problem = Problem(pen: int -> real, sums: seq<int>, bins: nat) {
    /** The length of every row of the programme. */
    function Width(): nat
      requires bins <= |sums|
    {
      |sums| - bins + 1
    }
  }

  ghost predicate Gap(pen: int -> real, a: int, b: int, d: int) { pen(a + d) - pen(a) <= pen(b + d) - pen(b) }

  /** Adding weight costs more, the heavier the group already is. */
  ghost predicate Convex(pen: int -> real) {
    forall a: int, b: int, d: int :: 0 <= a <= b && 0 <= d ==> Gap(pen, a, b, d)
  }

  predicate Ascending(s: seq<int>) { forall i, j :: 0 <= i <= j < |s| ==> s[i] <= s[j] }

  /** More elements than groups, and at least two groups. */
  predicate Posed(p: Problem) { 2 <= p.bins < |p.sums| }

  /** Weights are not negative and the penalty is convex in the weight. */
  ghost predicate Shaped(p: Problem) { Ascending(p.sums) && Convex(p.pen) }

  /** The penalty of weight squared. */
  const W2: int -> real := w => (w * w) as real

  lemma W2Convex()
    ensures Convex(W2)
  {
    forall a: int, b: int, d: int | 0 <= a <= b && 0 <= d ensures Gap(W2, a, b, d) {
      assert (a + d) * (a + d) - a * a == 2 * (a * d) + d * d;
      assert (b + d) * (b + d) - b * b == 2 * (b * d) + d * d;
      assert (b - a) * d >= 0;
    }
  }

  /** Column j, closing the last group but one after element l + i. */
  function Cost(p: Problem, prev: seq<real>, l: nat, j: nat, i: nat): real
    requires p.bins <= |p.sums| && l + 2 <= p.bins && j < p.Width() && i < p.Width() && |prev| == p.Width()
  {
    prev[i] + p.pen(p.sums[l + j + 1] - p.sums[l + i])
  }

  predicate RowReady(p: Problem, prev: seq<real>, l: nat) {
    Posed(p) && l + 2 <= p.bins && |prev| == p.Width()
  }

  // ---------------------------------------------------------------- one row

  /** The last cheapest of the choices 0..n, as a scan with <= finds it. */
  function LastMin(p: Problem, prev: seq<real>, l: nat, j: nat, n: nat): (k: nat)
    requires p.bins <= |p.sums| && l + 2 <= p.bins && n <= j < p.Width() && |prev| == p.Width()
    ensures k <= n
  {
    if n == 0 then 0 else
      var k := LastMin(p, prev, l, j, n - 1);
      if Cost(p, prev, l, j, n) <= Cost(p, prev, l, j, k) then n else k
  }

  lemma {:induction false} LastMinIsLast(p: Problem, prev: seq<real>, l: nat, j: nat, n: nat)
    requires p.bins <= |p.sums| && l + 2 <= p.bins && n <= j < p.Width() && |prev| == p.Width()
    ensures forall i :: 0 <= i <= n ==> Cost(p, prev, l, j, LastMin(p, prev, l, j, n)) <= Cost(p, prev, l, j, i)
    ensures forall i :: LastMin(p, prev, l, j, n) < i <= n ==>
      Cost(p, prev, l, j, LastMin(p, prev, l, j, n)) < Cost(p, prev, l, j, i)
  {
    if n > 0 { LastMinIsLast(p, prev, l, j, n - 1); }
  }

  /** The choice for column j, and the row of choices and of errors. */
  function Choice(p: Problem, prev: seq<real>, l: nat, j: nat): (k: nat)
    requires p.bins <= |p.sums| && l + 2 <= p.bins && j < p.Width() && |prev| == p.Width()
    ensures k <= j
  {
    LastMin(p, prev, l, j, j)
  }

  function Choices(p: Problem, prev: seq<real>, l: nat): (row: seq<nat>)
    requires p.bins <= |p.sums| && l + 2 <= p.bins && |prev| == p.Width()
    ensures |row| == p.Width() && forall j :: 0 <= j < |row| ==> row[j] == Choice(p, prev, l, j)
  {
    seq(p.Width(), j requires 0 <= j < p.Width() => Choice(p, prev, l, j))
  }

  function Errors(p: Problem, prev: seq<real>, l: nat): (row: seq<real>)
    requires p.bins <= |p.sums| && l + 2 <= p.bins && |prev| == p.Width()
    ensures |row| == p.Width() && forall j :: 0 <= j < |row| ==> row[j] == Cost(p, prev, l, j, Choice(p, prev, l, j))
  {
    seq(p.Width(), j requires 0 <= j < p.Width() => Cost(p, prev, l, j, Choice(p, prev, l, j)))
  }

  /** `k` is as cheap as any choice in column j. */
  ghost predicate Cheapest(p: Problem, prev: seq<real>, l: nat, j: nat, k: nat)
    requires p.bins <= |p.sums| && l + 2 <= p.bins && j < p.Width() && |prev| == p.Width()
  {
    k <= j && forall i :: 0 <= i <= j ==> Cost(p, prev, l, j, k) <= Cost(p, prev, l, j, i)
  }

  lemma CheapestError(p: Problem, prev: seq<real>, l: nat, j: nat, k: nat)
    requires RowReady(p, prev, l) && j < p.Width() && Cheapest(p, prev, l, j, k)
    ensures Cost(p, prev, l, j, k) == Errors(p, prev, l)[j]
  {
    LastMinIsLast(p, prev, l, j, j);
  }

  // ---------------------------------------------------------------- the quadrangle inequality

  /** Going to a later column, an earlier choice gains at least as much cost as a later one. */
  lemma Monge(p: Problem, prev: seq<real>, l: nat, j: nat, j': nat, i: nat, i': nat)
    requires RowReady(p, prev, l) && Shaped(p) && i <= i' <= j <= j' < p.Width()
    ensures Cost(p, prev, l, j', i') - Cost(p, prev, l, j, i') <= Cost(p, prev, l, j', i) - Cost(p, prev, l, j, i)
  {
    var a, b := p.sums[l + j + 1] - p.sums[l + i'], p.sums[l + j + 1] - p.sums[l + i];
    var d := p.sums[l + j' + 1] - p.sums[l + j + 1];
    assert Gap(p.pen, a, b, d);
  }

  /** Hence the last cheapest choice never moves left. */
  lemma ChoiceMonotone(p: Problem, prev: seq<real>, l: nat, j: nat, j': nat)
    requires RowReady(p, prev, l) && Shaped(p) && j <= j' < p.Width()
    ensures Choice(p, prev, l, j) <= Choice(p, prev, l, j')
  {
    var k, k' := Choice(p, prev, l, j), Choice(p, prev, l, j');
    LastMinIsLast(p, prev, l, j, j);
    LastMinIsLast(p, prev, l, j', j');
    if k' < k {
      Monge(p, prev, l, j, j', k', k);
      assert false;
    }
  }

  // ---------------------------------------------------------------- what a row means for the whole problem

  /** Positions after which the groups end, all but the last group. */
  predicate IsSplit(ts: seq<nat>, end: nat) {
    (forall i, j :: 0 <= i < j < |ts| ==> ts[i] < ts[j]) && (forall i :: 0 <= i < |ts| ==> ts[i] < end)
  }

  /** Total penalty of splitting elements 0..end after the positions `ts`. */
  function SplitCost(p: Problem, ts: seq<nat>, end: nat): real
    requires end < |p.sums| && IsSplit(ts, end)
  {
    if ts == [] then p.pen(p.sums[end])
    else
      var last := ts[|ts| - 1];
      SplitCost(p, ts[..|ts| - 1], last) + p.pen(p.sums[end] - p.sums[last])
  }

  /** No split of elements 0..end at `l` positions costs less than `e`. */
  ghost predicate Unbeaten(p: Problem, e: real, l: nat, end: nat)
    requires end < |p.sums|
  {
    forall ts :: |ts| == l && IsSplit(ts, end) ==> e <= SplitCost(p, ts, end)
  }

  /** errs[j] is at most the cost of any split of elements 0..l+j into l + 1 groups. */
  ghost predicate OptimalRow(p: Problem, errs: seq<real>, l: nat)
    requires p.bins <= |p.sums| && l < p.bins
  {
    |errs| == p.Width() && forall j :: 0 <= j < |errs| ==> Unbeaten(p, errs[j], l, l + j)
  }

  lemma SplitRoom(ts: seq<nat>, end: nat)
    requires IsSplit(ts, end)
    ensures |ts| <= end && (ts != [] ==> |ts| - 1 <= ts[|ts| - 1])
  {
    if ts != [] { SplitRoom(ts[..|ts| - 1], ts[|ts| - 1]); }
  }

  lemma OptimalStart(p: Problem, errs: seq<real>)
    requires Posed(p) && |errs| == p.Width() && forall j :: 0 <= j < |errs| ==> errs[j] == p.pen(p.sums[j])
    ensures OptimalRow(p, errs, 0)
  {
  }

  lemma OptimalColumn(p: Problem, prev: seq<real>, l: nat, j: nat)
    requires RowReady(p, prev, l) && OptimalRow(p, prev, l) && j < p.Width()
    ensures Unbeaten(p, Errors(p, prev, l)[j], l + 1, l + 1 + j)
  {
    var e, l1 := Errors(p, prev, l)[j], l + 1;
    forall ts | |ts| == l1 && IsSplit(ts, l1 + j) ensures e <= SplitCost(p, ts, l1 + j) {
      var last, init := ts[l], ts[..l];
      SplitRoom(ts, l1 + j);
      var i := last - l;
      assert IsSplit(init, l + i) && Unbeaten(p, prev[i], l, l + i);
      LastMinIsLast(p, prev, l, j, j);
      assert Cost(p, prev, l, j, Choice(p, prev, l, j)) <= Cost(p, prev, l, j, i);
    }
  }

  /** One more group: the cheapest last cut over an optimal row is optimal. */
  lemma OptimalNext(p: Problem, prev: seq<real>, l: nat)
    requires RowReady(p, prev, l) && OptimalRow(p, prev, l)
    ensures OptimalRow(p, Errors(p, prev, l), l + 1)
  {
    var errs := Errors(p, prev, l);
    forall j | 0 <= j < |errs| ensures Unbeaten(p, errs[j], l + 1, l + 1 + j) {
      OptimalColumn(p, prev, l, j);
    }
  }

  // ---------------------------------------------------------------- reading the thresholds back

  /** Rows of choices: each points at or before its own column. */
  predicate Grid(best: seq<seq<nat>>, width: nat) {
    forall m :: 0 <= m < |best| ==> |best[m]| == width && forall j :: 0 <= j < width ==> best[m][j] <= j
  }

  /** The positions that the rows of choices lead to, from column j of level l down. */
  function Trace(best: seq<seq<nat>>, width: nat, l: nat, j: nat): (ts: seq<nat>)
    requires Grid(best, width) && l <= |best| && j < width
    ensures |ts| == l
  {
    if l == 0 then [] else
      var i := best[l - 1][j];
      Trace(best, width, l - 1, i) + [l - 1 + i]
  }

  ghost predicate Costs(p: Problem, ts: seq<nat>, end: nat, e: real)
    requires end < |p.sums|
  {
    IsSplit(ts, end) && SplitCost(p, ts, end) == e
  }

  /** Level l's error row is what its choices cost over the row before. */
  ghost predicate Achieves(p: Problem, best: seq<seq<nat>>, l: nat, errs: seq<real>)
    requires Posed(p) && l <= |best| <= p.bins && Grid(best, p.Width()) && l < p.bins
  {
    && |errs| == p.Width()
    && forall j :: 0 <= j < p.Width() ==> Costs(p, Trace(best, p.Width(), l, j), l + j, errs[j])
  }

  lemma {:induction false} TraceStable(best: seq<seq<nat>>, row: seq<nat>, width: nat, l: nat, j: nat)
    requires Grid(best, width) && Grid(best + [row], width) && l <= |best| && j < width
    ensures Trace(best + [row], width, l, j) == Trace(best, width, l, j)
    decreases l
  {
    if l > 0 {
      assert (best + [row])[l - 1] == best[l - 1];
      TraceStable(best, row, width, l - 1, best[l - 1][j]);
    }
  }

  lemma AchievesStart(p: Problem, errs: seq<real>)
    requires Posed(p) && |errs| == p.Width() && forall j :: 0 <= j < |errs| ==> errs[j] == p.pen(p.sums[j])
    ensures Achieves(p, [], 0, errs)
  {
  }

  lemma SplitGrows(p: Problem, ts: seq<nat>, last: nat, end: nat, us: seq<nat>, e: real)
    requires IsSplit(ts, last) && last < end < |p.sums| && us == ts + [last]
    requires e == SplitCost(p, ts, last) + p.pen(p.sums[end] - p.sums[last])
    ensures Costs(p, us, end, e)
  {
    assert us[..|us| - 1] == ts && us[|us| - 1] == last;
  }

  lemma TraceSnoc(best: seq<seq<nat>>, row: seq<nat>, width: nat, j: nat)
    requires Grid(best, width) && Grid(best + [row], width) && j < width
    ensures |row| == width && row[j] <= j
    ensures Trace(best + [row], width, |best| + 1, j) == Trace(best, width, |best|, row[j]) + [|best| + row[j]]
  {
    assert (best + [row])[|best|] == row;
    TraceStable(best, row, width, |best|, row[j]);
  }

  lemma AchievesColumn(p: Problem, init: seq<nat>, ts: seq<nat>, prev: seq<real>, l: nat, j: nat, i: nat)
    requires RowReady(p, prev, l) && i <= j < p.Width()
    requires Costs(p, init, l + i, prev[i]) && ts == init + [l + i]
    ensures Costs(p, ts, l + j + 1, Cost(p, prev, l, j, i))
  {
    var last, end, e := l + i, l + j + 1, Cost(p, prev, l, j, i);
    assert e == SplitCost(p, init, last) + p.pen(p.sums[end] - p.sums[last]);
    SplitGrows(p, init, last, end, ts, e);
  }

  lemma AchievesNext(p: Problem, best: seq<seq<nat>>, row: seq<nat>, prev: seq<real>, errs: seq<real>, l: nat)
    requires RowReady(p, prev, l) && l == |best| && Grid(best, p.Width()) && Achieves(p, best, l, prev)
    requires Grid(best + [row], p.Width())
    requires |errs| == |row| == p.Width() && forall j :: 0 <= j < |errs| ==>
      row[j] <= j && errs[j] == Cost(p, prev, l, j, row[j])
    ensures Achieves(p, best + [row], l + 1, errs)
  {
    forall j | 0 <= j < p.Width() ensures Costs(p, Trace(best + [row], p.Width(), l + 1, j), l + 1 + j, errs[j]) {
      TraceSnoc(best, row, p.Width(), j);
      assert Costs(p, Trace(best, p.Width(), l, row[j]), l + row[j], prev[row[j]]);
      AchievesColumn(p, Trace(best, p.Width(), l, row[j]), Trace(best + [row], p.Width(), l + 1, j), prev, l, j,
        row[j]);
    }
  }
}
