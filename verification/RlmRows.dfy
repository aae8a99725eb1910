/** Mode E_RLM2 of the splitting. */
module RlmRows {
  import opened Splitting
  import opened SplitRows
  import opened SafeRows
  import RlmColumns

  // Forward and inverted scans bracket a cheapest choice, and are repeated on the columns whose
  // brackets have not closed. The later inverted scans also look at choices beyond the column, where
  // the last group would have no or negative weight.

  // ---------------------------------------------------------------- when choices beyond the column do no harm

  ghost predicate Super(pen: int -> real, a: int, b: int) { pen(a + b) >= pen(a) + pen(b) }

  /** Convex at all weights, never negative, and a group costs no less than its parts together. */
  ghost predicate Steep(pen: int -> real) {
    && (forall a: int, b: int, d: int :: a <= b && 0 <= d ==> Gap(pen, a, b, d))
    && (forall w: int :: pen(w) >= 0.0)
    && (forall a: int, b: int :: 0 < a && 0 < b ==> Super(pen, a, b))
  }

  lemma W2Steep()
    ensures Steep(W2)
  {
    forall a: int, b: int, d: int | a <= b && 0 <= d ensures Gap(W2, a, b, d) {
      assert (a + d) * (a + d) - a * a == 2 * (a * d) + d * d;
      assert (b + d) * (b + d) - b * b == 2 * (b * d) + d * d;
      assert (b - a) * d >= 0;
    }
    forall a: int, b: int | 0 < a && 0 < b ensures Super(W2, a, b) {
      assert (a + b) * (a + b) == a * a + b * b + 2 * (a * b);
    }
  }

  /** Every weight is positive. */
  predicate Rising(sums: seq<int>) {
    sums != [] && sums[0] > 0 && forall i, j :: 0 <= i < j < |sums| ==> sums[i] < sums[j]
  }

  /** No weight is negative, and one that is zero costs nothing. */
  ghost predicate Weighed(p: Problem) {
    p.sums != [] && p.sums[0] >= 0 && Ascending(p.sums) && (p.pen(0) == 0.0 || Rising(p.sums))
  }

  lemma SteepShaped(p: Problem)
    requires Steep(p.pen) && Weighed(p)
    ensures Shaped(p)
  {
  }

  /** One more element costs no less than a group of its own. */
  ghost predicate Grows(p: Problem, prev: seq<real>, l: nat)
    requires Posed(p) && l < p.bins && |prev| == p.Width()
  {
    forall j :: 0 < j < p.Width() ==> GrowsAt(p, prev, l, j)
  }

  ghost predicate GrowsAt(p: Problem, prev: seq<real>, l: nat, j: nat)
    requires Posed(p) && l < p.bins && |prev| == p.Width() && 0 < j < p.Width()
  {
    prev[j] >= prev[j - 1] + p.pen(p.sums[l + j] - p.sums[l + j - 1])
  }

  lemma GrowsStart(p: Problem, errs: seq<real>)
    requires Posed(p) && Steep(p.pen) && Weighed(p) && |errs| == p.Width() && forall j :: 0 <= j < |errs| ==>
      errs[j] == p.pen(p.sums[j])
    ensures Grows(p, errs, 0)
  {
    forall j | 0 < j < p.Width() ensures GrowsAt(p, errs, 0, j) {
      SuperParts(p, p.sums[j - 1], p.sums[j] - p.sums[j - 1]);
    }
  }

  lemma SuperParts(p: Problem, x: int, y: int)
    requires Steep(p.pen) && 0 <= x && 0 <= y && (p.pen(0) == 0.0 || (0 < x && 0 < y))
    ensures p.pen(x + y) >= p.pen(x) + p.pen(y)
  {
    if 0 < x && 0 < y { assert Super(p.pen, x, y); }
  }

  /** An earlier choice for the column before also serves this one, at no less than the added cost. */
  lemma GrowsEarlier(p: Problem, prev: seq<real>, l: nat, j: nat, i: nat)
    requires RowReady(p, prev, l) && Steep(p.pen) && Weighed(p) && i < j < p.Width()
    ensures Cost(p, prev, l, j, i) >= Cost(p, prev, l, j - 1, i) + p.pen(p.sums[l + j + 1] - p.sums[l + j])
  {
    var w, d := p.sums[l + j + 1] - p.sums[l + j], p.sums[l + j] - p.sums[l + i];
    SuperParts(p, d, w);
    assert d + w == p.sums[l + j + 1] - p.sums[l + i];
  }

  lemma GrowsColumn(p: Problem, prev: seq<real>, l: nat, j: nat, i: nat)
    requires RowReady(p, prev, l) && Steep(p.pen) && Weighed(p) && Grows(p, prev, l) && 0 < j < p.Width() && i <= j
    ensures Cost(p, prev, l, j, i) >= Errors(p, prev, l)[j - 1] + p.pen(p.sums[l + j + 1] - p.sums[l + j])
  {
    LastMinIsLast(p, prev, l, j - 1, j - 1);
    if i < j {
      GrowsEarlier(p, prev, l, j, i);
    } else {
      assert GrowsAt(p, prev, l, j);
      assert Cost(p, prev, l, j - 1, j - 1) == prev[j - 1] + p.pen(p.sums[l + j] - p.sums[l + j - 1]);
    }
  }

  lemma GrowsNext(p: Problem, prev: seq<real>, l: nat)
    requires RowReady(p, prev, l) && Steep(p.pen) && Weighed(p) && Grows(p, prev, l)
    ensures Grows(p, Errors(p, prev, l), l + 1)
  {
    var errs, l1 := Errors(p, prev, l), l + 1;
    forall j | 0 < j < p.Width() ensures GrowsAt(p, errs, l1, j) {
      GrowsColumn(p, prev, l, j, Choice(p, prev, l, j));
    }
  }

  lemma {:induction false} GrowsFar(p: Problem, prev: seq<real>, l: nat, i: nat, y: nat)
    requires RowReady(p, prev, l) && Steep(p.pen) && Grows(p, prev, l) && i <= y < p.Width()
    ensures prev[i] <= prev[y]
    decreases y
  {
    if i < y {
      GrowsFar(p, prev, l, i, y - 1);
      assert GrowsAt(p, prev, l, y);
    }
  }

  /** A choice beyond the column costs no less than the column itself. */
  lemma Beyond(p: Problem, prev: seq<real>, l: nat, j: nat, y: nat)
    requires RowReady(p, prev, l) && Steep(p.pen) && Grows(p, prev, l) && j < y < p.Width()
    ensures Cost(p, prev, l, j, y) >= Cost(p, prev, l, j, j)
  {
    GrowsFar(p, prev, l, j + 1, y);
    assert GrowsAt(p, prev, l, j + 1);
  }

  // ---------------------------------------------------------------- the columns of a row

  /** What the mode needs of a row. */
  ghost predicate RlmReady(p: Problem, prev: seq<real>, l: nat) {
    RowReady(p, prev, l) && Steep(p.pen) && Weighed(p) && Exact(p, prev) && Grows(p, prev, l)
  }

  /** All costs of column j, beyond the column as well. */
  function Column(p: Problem, prev: seq<real>, l: nat, j: nat): (c: int -> real)
    requires RowReady(p, prev, l) && j < p.Width()
  {
    x =>
      if 0 <= x < |prev| && l + x < |p.sums| && l + j + 1 < |p.sums|
      then prev[x] + p.pen(p.sums[l + j + 1] - p.sums[l + x])
      else 0.0
  }

  function Table(p: Problem, prev: seq<real>, l: nat): (cols: RlmColumns.Columns)
    requires RowReady(p, prev, l)
    ensures |cols| == p.Width() && forall j :: 0 <= j < |cols| ==> cols[j] == Column(p, prev, l, j)
  {
    seq(p.Width(), j requires 0 <= j < p.Width() => Column(p, prev, l, j))
  }

  lemma ColumnCost(p: Problem, prev: seq<real>, l: nat, j: nat, x: nat)
    requires RowReady(p, prev, l) && j < p.Width() && x < p.Width()
    ensures Column(p, prev, l, j)(x) == Cost(p, prev, l, j, x)
  {
  }

  /** The quadrangle inequality, at all choices. */
  lemma WideMonge(p: Problem, prev: seq<real>, l: nat, j: nat, j': nat, i: nat, i': nat)
    requires RowReady(p, prev, l) && Steep(p.pen) && Weighed(p) && i <= i' < p.Width() && j <= j' < p.Width()
    ensures Cost(p, prev, l, j', i') - Cost(p, prev, l, j, i') <= Cost(p, prev, l, j', i) - Cost(p, prev, l, j, i)
  {
    var a, b := p.sums[l + j + 1] - p.sums[l + i'], p.sums[l + j + 1] - p.sums[l + i];
    var d := p.sums[l + j' + 1] - p.sums[l + j + 1];
    assert Gap(p.pen, a, b, d);
  }

  lemma ColumnSteady(p: Problem, prev: seq<real>, l: nat, j: nat, x: nat, y: nat)
    requires RowReady(p, prev, l) && Steep(p.pen) && Weighed(p) && j + 1 < p.Width() && x <= y < p.Width()
    ensures RlmColumns.Steady(Column(p, prev, l, j), Column(p, prev, l, j + 1), x, y)
  {
    WideMonge(p, prev, l, j, j + 1, x, y);
    ColumnCost(p, prev, l, j, x);
    ColumnCost(p, prev, l, j, y);
    ColumnCost(p, prev, l, j + 1, x);
    ColumnCost(p, prev, l, j + 1, y);
  }

  lemma ColumnBeyond(p: Problem, prev: seq<real>, l: nat, j: nat, y: nat)
    requires RlmReady(p, prev, l) && j < y < p.Width()
    ensures Column(p, prev, l, j)(y) >= Column(p, prev, l, j)(j)
  {
    Beyond(p, prev, l, j, y);
    ColumnCost(p, prev, l, j, y);
    ColumnCost(p, prev, l, j, j);
  }

  lemma ColumnInteger(p: Problem, prev: seq<real>, l: nat, j: nat, x: nat)
    requires RlmReady(p, prev, l) && j < p.Width() && x < p.Width()
    ensures IsInteger(Column(p, prev, l, j)(x))
  {
    CostInteger(p, prev, l, j, x);
    ColumnCost(p, prev, l, j, x);
  }

  lemma TableGood(p: Problem, prev: seq<real>, l: nat)
    requires RlmReady(p, prev, l)
    ensures RlmColumns.Good(Table(p, prev, l))
  {
    var cols, n := Table(p, prev, l), p.Width();
    forall j | 0 <= j < n ensures RlmColumns.Facts(cols, j) {
      forall x | 0 <= x < n ensures IsInteger(cols[j](x)) { ColumnInteger(p, prev, l, j, x); }
      forall y | j < y < n ensures cols[j](y) >= cols[j](j) { ColumnBeyond(p, prev, l, j, y); }
      if j + 1 < n {
        var c, c' := cols[j], cols[j + 1];
        forall x, y | 0 <= x <= y < n ensures RlmColumns.Steady(c, c', x, y) { ColumnSteady(p, prev, l, j, x, y); }
      }
    }
  }

  // ---------------------------------------------------------------- the row

  lemma FirstBottom(p: Problem, prev: seq<real>, l: nat, j: nat, a: nat)
    requires RowReady(p, prev, l) && a <= j < p.Width() && Down(p, prev, l, j, a) && Stops(p, prev, l, j, a)
    ensures RlmColumns.Bottom(Table(p, prev, l)[j], j, a)
  {
    var c := Column(p, prev, l, j);
    ColumnCost(p, prev, l, j, a);
    forall x | 0 <= x <= a ensures c(x) >= c(a) {
      DownHill(p, prev, l, j, a, x);
      ColumnCost(p, prev, l, j, x);
    }
    if a < j { ColumnCost(p, prev, l, j, a + 1); }
  }

  lemma FoundCheapest(p: Problem, prev: seq<real>, l: nat, k: nat, a: nat)
    requires RowReady(p, prev, l) && k < p.Width() && RlmColumns.Found(Table(p, prev, l), k, a)
    ensures Cheapest(p, prev, l, k, a) && Table(p, prev, l)[k](a) == Cost(p, prev, l, k, a)
  {
    var cols := Table(p, prev, l);
    ColumnCost(p, prev, l, k, a);
    forall i | 0 <= i <= k ensures Cost(p, prev, l, k, a) <= Cost(p, prev, l, k, i) {
      assert cols[k](a) <= cols[k](i);
      ColumnCost(p, prev, l, k, i);
    }
  }

  /** The two scans before any rebuilding. */
  method FirstScans(p: Problem, l: nat, prev: array<real>)
    returns (bs1: seq<nat>, e1: seq<real>, bs2: seq<nat>, e2: seq<real>)
    requires RlmReady(p, prev[..], l)
    ensures var cols := Table(p, prev[..], l);
      && |bs1| == |e1| == |bs2| == |e2| == |cols| && RlmColumns.Good(cols) && RlmColumns.Open(cols, bs1, bs2, 0)
      && RlmColumns.AllTold(cols, bs1, e1, 0) && RlmColumns.AllTold(cols, bs2, e2, 0)
  {
    ghost var pv := prev[..];
    SteepShaped(p);
    TableGood(p, pv, l);
    bs1, e1 := Forward(p, l, prev);
    var cols := Table(p, prev[..], l);
    forall j | 0 <= j < p.Width() ensures RlmColumns.Bottom(cols[j], j, bs1[j]) && RlmColumns.Told(cols, bs1, e1, j) {
      assert Told(p, pv, l, bs1, e1, j);
      FirstBottom(p, pv, l, j, bs1[j]);
      ColumnCost(p, pv, l, j, bs1[j]);
    }
    bs2, e2 := RlmColumns.FirstInverted(cols, bs1);
  }

  /** Mode E_RLM2: the same errors as the plain mode, with a cheapest choice in every column. */
  method Rlm2Row(p: Problem, l: nat, prev: array<real>, cur: array<real>, best: array<nat>)
    requires RlmReady(p, prev[..], l) && cur.Length == best.Length == p.Width() && cur != prev
    modifies cur, best
    ensures prev[..] == old(prev[..])
    ensures forall j :: 0 <= j < p.Width() ==> Told(p, prev[..], l, best[..], cur[..], j)
    ensures cur[..] == Errors(p, prev[..], l) && forall j :: 0 <= j < p.Width() ==>
      Cheapest(p, prev[..], l, j, best[..][j])
  {
    var pv := prev[..];
    var bs1, e1, bs2, e2 := FirstScans(p, l, prev);
    var cols := Table(p, pv, l);
    for k := 0 to p.Width()
      invariant prev[..] == pv && |bs1| == |e1| == |bs2| == |e2| == p.Width()
      invariant RlmColumns.Open(cols, bs1, bs2, k) && RlmColumns.AllTold(cols, bs1, e1, 0)
      invariant RlmColumns.AllTold(cols, bs2, e2, 0)
      invariant forall j :: 0 <= j < k ==> Told(p, pv, l, best[..], cur[..], j)
      invariant forall j :: 0 <= j < k ==> Cheapest(p, pv, l, j, best[..][j])
    {
      bs1, e1, bs2, e2 := RlmColumns.Close(cols, k, bs1, e1, bs2, e2);
      FoundCheapest(p, pv, l, k, bs1[k]);
      Tell(p, l, prev, best, cur, k, bs1[k], e1[k]);
    }
    AllCheapest(p, pv, l, best[..], cur[..]);
  }
}
