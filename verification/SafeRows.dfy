/** Mode E_Safe: a forward and an inverted scan bracket a cheapest choice in every column. */
module SafeRows {
  import opened Splitting
  import opened SplitRows

  /** The tolerance of the source's comparisons. */
  const EPS: real := 0.000000000001

  predicate IsInteger(x: real) { x == x.Floor as real }

  /** Integer penalties: then the tolerance changes no comparison. */
  ghost predicate Integral(pen: int -> real) { forall w: int :: IsInteger(pen(w)) }

  ghost predicate Exact(p: Problem, prev: seq<real>) {
    Integral(p.pen) && forall i :: 0 <= i < |prev| ==> IsInteger(prev[i])
  }

  lemma W2Integral()
    ensures Integral(W2)
  {
  }

  lemma IntegerSum(x: real, y: real)
    requires IsInteger(x) && IsInteger(y)
    ensures IsInteger(x + y)
  {
    assert x + y == (x.Floor + y.Floor) as real;
  }

  lemma IntegerGap(x: real, y: real)
    requires IsInteger(x) && IsInteger(y)
    ensures x > y + EPS <==> x > y
  {
    assert x > y ==> x.Floor > y.Floor;
  }

  lemma CostInteger(p: Problem, prev: seq<real>, l: nat, j: nat, i: nat)
    requires RowReady(p, prev, l) && Exact(p, prev) && j < p.Width() && i < p.Width()
    ensures IsInteger(Cost(p, prev, l, j, i))
  {
    IntegerSum(prev[i], p.pen(p.sums[l + j + 1] - p.sums[l + i]));
  }

  lemma ErrorsExact(p: Problem, prev: seq<real>, l: nat)
    requires RowReady(p, prev, l) && Exact(p, prev)
    ensures Exact(p, Errors(p, prev, l))
  {
    forall j | 0 <= j < p.Width() ensures IsInteger(Errors(p, prev, l)[j]) {
      CostInteger(p, prev, l, j, Choice(p, prev, l, j));
    }
  }

  // ---------------------------------------------------------------- slopes

  /** The step from choice a to the next costs no more, or no less. */
  predicate Falls(p: Problem, prev: seq<real>, l: nat, j: nat, a: nat)
    requires RowReady(p, prev, l) && a < j < p.Width()
  {
    Cost(p, prev, l, j, a + 1) <= Cost(p, prev, l, j, a)
  }

  predicate Rises(p: Problem, prev: seq<real>, l: nat, j: nat, a: nat)
    requires RowReady(p, prev, l) && a < j < p.Width()
  {
    Cost(p, prev, l, j, a) <= Cost(p, prev, l, j, a + 1)
  }

  /** Up to choice k no step to the right costs more. */
  ghost predicate Down(p: Problem, prev: seq<real>, l: nat, j: nat, k: nat)
    requires RowReady(p, prev, l) && j < p.Width()
  {
    k <= j && forall a :: 0 <= a < k ==> Falls(p, prev, l, j, a)
  }

  /** From choice k on no step to the right costs less. */
  ghost predicate Up(p: Problem, prev: seq<real>, l: nat, j: nat, k: nat)
    requires RowReady(p, prev, l) && j < p.Width()
  {
    k <= j && forall a :: k <= a < j ==> Rises(p, prev, l, j, a)
  }

  lemma DownMoves(p: Problem, prev: seq<real>, l: nat, j: nat, j': nat, k: nat)
    requires RowReady(p, prev, l) && Shaped(p) && k <= j <= j' < p.Width() && Down(p, prev, l, j, k)
    ensures Down(p, prev, l, j', k)
  {
    forall a | 0 <= a < k ensures Falls(p, prev, l, j', a) {
      assert Falls(p, prev, l, j, a);
      Monge(p, prev, l, j, j', a, a + 1);
    }
  }

  lemma UpMoves(p: Problem, prev: seq<real>, l: nat, j: nat, j': nat, k: nat)
    requires RowReady(p, prev, l) && Shaped(p) && k <= j' && j <= j' < p.Width() && Up(p, prev, l, j', k)
    ensures Up(p, prev, l, j, if k < j then k else j)
  {
    forall a | k <= a < j ensures Rises(p, prev, l, j, a) {
      assert Rises(p, prev, l, j', a);
      Monge(p, prev, l, j, j', a, a + 1);
    }
  }

  lemma {:induction false} DownHill(p: Problem, prev: seq<real>, l: nat, j: nat, k: nat, i: nat)
    requires RowReady(p, prev, l) && i <= k <= j < p.Width() && Down(p, prev, l, j, k)
    ensures Cost(p, prev, l, j, k) <= Cost(p, prev, l, j, i)
    decreases k - i
  {
    if i < k {
      assert Falls(p, prev, l, j, i);
      DownHill(p, prev, l, j, k, i + 1);
    }
  }

  lemma {:induction false} UpHill(p: Problem, prev: seq<real>, l: nat, j: nat, k: nat, i: nat)
    requires RowReady(p, prev, l) && k <= i <= j < p.Width() && Up(p, prev, l, j, k)
    ensures Cost(p, prev, l, j, k) <= Cost(p, prev, l, j, i)
    decreases i
  {
    if k < i {
      assert Rises(p, prev, l, j, i - 1);
      UpHill(p, prev, l, j, k, i - 1);
    }
  }

  /** The best between the two slopes is the best of all, also when the slopes overlap. */
  lemma Bracketed(p: Problem, prev: seq<real>, l: nat, j: nat, lo: nat, hi: nat, k: nat)
    requires RowReady(p, prev, l) && lo <= j < p.Width() && hi <= j && k <= j
    requires Down(p, prev, l, j, lo) && Up(p, prev, l, j, hi)
    requires Cost(p, prev, l, j, k) <= Cost(p, prev, l, j, lo)
    requires forall i :: lo <= i <= hi ==> Cost(p, prev, l, j, k) <= Cost(p, prev, l, j, i)
    ensures Cheapest(p, prev, l, j, k)
  {
    forall i | 0 <= i <= j ensures Cost(p, prev, l, j, k) <= Cost(p, prev, l, j, i) {
      if i < lo {
        DownHill(p, prev, l, j, lo, i);
      } else if i > hi {
        UpHill(p, prev, l, j, hi, i);
        if hi < lo { UpFrom(p, prev, l, j, hi, lo, i); }
      }
    }
  }

  lemma {:induction false} UpFrom(p: Problem, prev: seq<real>, l: nat, j: nat, hi: nat, k: nat, i: nat)
    requires RowReady(p, prev, l) && hi <= k <= i <= j < p.Width() && Up(p, prev, l, j, hi)
    ensures Cost(p, prev, l, j, k) <= Cost(p, prev, l, j, i)
  {
    assert Up(p, prev, l, j, k);
    UpHill(p, prev, l, j, k, i);
  }

  // ---------------------------------------------------------------- the scans

  /** Column k has a choice, and its cost. */
  predicate Told(p: Problem, prev: seq<real>, l: nat, bs: seq<nat>, es: seq<real>, k: nat)
    requires RowReady(p, prev, l) && |bs| == |es| == p.Width() && k < p.Width()
  {
    bs[k] <= k && es[k] == Cost(p, prev, l, k, bs[k])
  }

  method Tell(p: Problem, l: nat, prev: array<real>, bs: array<nat>, es: array<real>, j: nat, k: nat, e: real)
    requires RowReady(p, prev[..], l) && bs.Length == es.Length == p.Width() && es != prev && k <= j < p.Width()
    requires e == Cost(p, prev[..], l, j, k)
    modifies bs, es
    ensures prev[..] == old(prev[..]) && bs[..] == old(bs[..])[j := k]
    ensures Told(p, prev[..], l, bs[..], es[..], j)
    ensures forall i :: 0 <= i < p.Width() && Told(p, prev[..], l, old(bs[..]), old(es[..]), i) ==>
      Told(p, prev[..], l, bs[..], es[..], i)
  {
    bs[j] := k;
    es[j] := e;
  }

  /** The next choice, if there is one, costs more. */
  predicate Stops(p: Problem, prev: seq<real>, l: nat, j: nat, k: nat)
    requires RowReady(p, prev, l) && j < p.Width()
  {
    k < j ==> Cost(p, prev, l, j, k + 1) > Cost(p, prev, l, j, k)
  }

  /** One column of the forward scan: move right while that costs no more. */
  method StepRight(p: Problem, l: nat, prev: array<real>, j: nat, start: nat) returns (left: nat, bestError: real)
    requires RowReady(p, prev[..], l) && start <= j < p.Width()
    ensures start <= left <= j && bestError == Cost(p, prev[..], l, j, left)
    ensures Exact(p, prev[..]) && Down(p, prev[..], l, j, start) ==> Down(p, prev[..], l, j, left)
    ensures Exact(p, prev[..]) ==> Stops(p, prev[..], l, j, left)
  {
    left := start;
    bestError := prev[left] + p.pen(p.sums[l + j + 1] - p.sums[l + left]);
    left := left + 1;
    while left <= j
      invariant start < left <= j + 1
      invariant bestError == Cost(p, prev[..], l, j, left - 1)
      invariant Exact(p, prev[..]) && Down(p, prev[..], l, j, start) ==> Down(p, prev[..], l, j, left - 1)
    {
      var newError := prev[left] + p.pen(p.sums[l + j + 1] - p.sums[l + left]);
      if Exact(p, prev[..]) {
        CostInteger(p, prev[..], l, j, left);
        CostInteger(p, prev[..], l, j, left - 1);
        IntegerGap(newError, bestError);
      }
      if newError > bestError + EPS {
        break;
      }
      bestError := newError;
      left := left + 1;
    }
    left := left - 1;
  }

  /** The forward scan: each column starts where the one before stopped. */
  method Forward(p: Problem, l: nat, prev: array<real>) returns (bs1: seq<nat>, e1: seq<real>)
    requires RowReady(p, prev[..], l)
    ensures |bs1| == |e1| == p.Width() && forall j :: 0 <= j < p.Width() ==> Told(p, prev[..], l, bs1, e1, j)
    ensures Shaped(p) && Exact(p, prev[..]) ==>
      forall j :: 0 <= j < p.Width() ==> Down(p, prev[..], l, j, bs1[j]) && Stops(p, prev[..], l, j, bs1[j])
  {
    ghost var pv := prev[..];
    ghost var sharp := Shaped(p) && Exact(p, pv);
    bs1, e1 := [], [];
    var left := 0;
    for j := 0 to p.Width()
      invariant |bs1| == |e1| == j && left <= j
      invariant forall k :: 0 <= k < j ==> bs1[k] <= k && e1[k] == Cost(p, pv, l, k, bs1[k])
      invariant sharp ==> forall k :: 0 <= k < j ==> Down(p, pv, l, k, bs1[k]) && Stops(p, pv, l, k, bs1[k])
      invariant sharp && j < p.Width() ==> Down(p, pv, l, j, left)
    {
      var bestError;
      left, bestError := StepRight(p, l, prev, j, left);
      bs1, e1 := bs1 + [left], e1 + [bestError];
      if sharp && j + 1 < p.Width() { DownMoves(p, pv, l, j, j + 1, left); }
    }
  }

  /** One column of the inverted scan, with positions counted from the right, as in the source. */
  method StepLeft(p: Problem, l: nat, prev: array<real>, j: nat, start: nat) returns (left: nat, bestError: real)
    requires RowReady(p, prev[..], l) && j <= start < p.Width()
    ensures start <= left < p.Width() && bestError == Cost(p, prev[..], l, p.Width() - 1 - j, p.Width() - 1 - left)
    ensures Exact(p, prev[..]) && Up(p, prev[..], l, p.Width() - 1 - j, p.Width() - 1 - start)
      ==> Up(p, prev[..], l, p.Width() - 1 - j, p.Width() - 1 - left)
  {
    var dsize := p.Width();
    ghost var col := dsize - 1 - j;
    left := start;
    assert l + dsize - j == l + col + 1;
    bestError := prev[dsize - left - 1] + p.pen(p.sums[l + dsize - j] - p.sums[l + dsize - left - 1]);
    left := left + 1;
    while left < dsize
      invariant start < left <= dsize
      invariant bestError == Cost(p, prev[..], l, col, dsize - left)
      invariant Exact(p, prev[..]) && Up(p, prev[..], l, col, dsize - 1 - start) ==>
        Up(p, prev[..], l, col, dsize - left)
    {
      var newError := prev[dsize - left - 1] + p.pen(p.sums[l + dsize - j] - p.sums[l + dsize - left - 1]);
      assert newError == Cost(p, prev[..], l, col, dsize - left - 1);
      if Exact(p, prev[..]) {
        CostInteger(p, prev[..], l, col, dsize - left - 1);
        CostInteger(p, prev[..], l, col, dsize - left);
        IntegerGap(newError, bestError);
      }
      if newError > bestError + EPS {
        break;
      }
      bestError := newError;
      left := left + 1;
    }
    left := left - 1;
  }

  /** What the inverted scan has settled in the columns from `from` on. */
  ghost predicate Descended(p: Problem, prev: seq<real>, l: nat, bs: seq<nat>, es: seq<real>, from: nat, sharp: bool)
    requires RowReady(p, prev, l) && |bs| == |es| == p.Width()
  {
    forall k :: from <= k < p.Width() ==> Told(p, prev, l, bs, es, k) && (sharp ==> Up(p, prev, l, k, bs[k]))
  }

  lemma DescendedNext(p: Problem, prev: seq<real>, l: nat, bs: seq<nat>, es: seq<real>, from: nat, sharp: bool,
                      k: nat, e: real)
    requires RowReady(p, prev, l) && |bs| == |es| == p.Width() && from < p.Width()
    requires Descended(p, prev, l, bs, es, from + 1, sharp)
    requires k <= from && e == Cost(p, prev, l, from, k) && (sharp ==> Up(p, prev, l, from, k))
    ensures Descended(p, prev, l, bs[from := k], es[from := e], from, sharp)
  {
    forall i | from < i < p.Width()
      ensures Told(p, prev, l, bs[from := k], es[from := e], i) && (sharp ==> Up(p, prev, l, i, bs[i]))
    {
      assert Told(p, prev, l, bs, es, i);
    }
  }

  /** One column of the inverted scan, and where the scan goes on. */
  method InvertedColumn(p: Problem, l: nat, prev: array<real>, j: nat, dsize: nat, left0: nat, bs2: seq<nat>,
                        e2: seq<real>, ghost sharp: bool)
    returns (left: nat, bestError: real)
    requires RowReady(p, prev[..], l) && dsize == p.Width() == |bs2| == |e2| && j < dsize && left0 < dsize
    requires sharp ==>
      Shaped(p) && Exact(p, prev[..]) && Up(p, prev[..], l, dsize - 1 - j, dsize - 1 - if left0 < j then j else left0)
    requires Descended(p, prev[..], l, bs2, e2, dsize - j, sharp)
    ensures j <= left < dsize
    ensures Descended(p, prev[..], l, bs2[dsize - 1 - j := dsize - 1 - left], e2[dsize - 1 - j := bestError],
      dsize - 1 - j, sharp)
    ensures sharp && j + 1 < dsize ==>
      Up(p, prev[..], l, dsize - 2 - j, dsize - 1 - if left < j + 1 then j + 1 else left)
  {
    ghost var col := dsize - 1 - j;
    left, bestError := StepLeft(p, l, prev, j, if left0 < j then j else left0);
    ghost var k := dsize - 1 - left;
    DescendedNext(p, prev[..], l, bs2, e2, col, sharp, k, bestError);
    if sharp && j + 1 < dsize { ScanGoesOn(p, prev[..], l, j, left); }
  }

  /** The next column starts at its end or where this one stopped. */
  lemma ScanGoesOn(p: Problem, prev: seq<real>, l: nat, j: nat, left: nat)
    requires RowReady(p, prev, l) && Shaped(p) && j + 1 < p.Width() && j <= left < p.Width()
    requires Up(p, prev, l, p.Width() - 1 - j, p.Width() - 1 - left)
    ensures Up(p, prev, l, p.Width() - 2 - j, p.Width() - 1 - if left < j + 1 then j + 1 else left)
  {
    var col := p.Width() - 1 - j;
    UpMoves(p, prev, l, col - 1, col, p.Width() - 1 - left);
  }

  /** The inverted scan: from the last column back, each starts where the one after stopped. */
  method Inverted(p: Problem, l: nat, prev: array<real>) returns (bs2: seq<nat>, e2: seq<real>)
    requires RowReady(p, prev[..], l)
    ensures |bs2| == |e2| == p.Width() && forall j :: 0 <= j < p.Width() ==> Told(p, prev[..], l, bs2, e2, j)
    ensures Shaped(p) && Exact(p, prev[..]) ==> forall j :: 0 <= j < p.Width() ==> Up(p, prev[..], l, j, bs2[j])
  {
    ghost var sharp := Shaped(p) && Exact(p, prev[..]);
    var dsize := p.Width();
    bs2, e2 := seq(dsize, _ => 0), seq(dsize, _ => 0.0);
    var left := 0;
    for j := 0 to dsize
      invariant |bs2| == |e2| == dsize && left < dsize && Descended(p, prev[..], l, bs2, e2, dsize - j, sharp)
      invariant sharp && j < dsize ==> Up(p, prev[..], l, dsize - 1 - j, dsize - 1 - if left < j then j else left)
    {
      var bestError;
      left, bestError := InvertedColumn(p, l, prev, j, dsize, left, bs2, e2, sharp);
      bs2, e2 := bs2[dsize - 1 - j := dsize - 1 - left], e2[dsize - 1 - j := bestError];
    }
  }

  lemma AllCheapest(p: Problem, prev: seq<real>, l: nat, bs: seq<nat>, es: seq<real>)
    requires RowReady(p, prev, l) && |bs| == |es| == p.Width()
    requires forall k :: 0 <= k < p.Width() ==> Told(p, prev, l, bs, es, k)
    requires forall k :: 0 <= k < p.Width() ==> Cheapest(p, prev, l, k, bs[k])
    ensures es == Errors(p, prev, l)
  {
    forall j | 0 <= j < p.Width() ensures es[j] == Errors(p, prev, l)[j] {
      assert Told(p, prev, l, bs, es, j) && Cheapest(p, prev, l, j, bs[j]);
      CheapestError(p, prev, l, j, bs[j]);
    }
  }

  /** Mode E_Safe: every choice between the two scans' choices is tried. */
  method SafeRow(p: Problem, l: nat, prev: array<real>, cur: array<real>, best: array<nat>)
    requires RowReady(p, prev[..], l) && cur.Length == best.Length == p.Width() && cur != prev
    modifies cur, best
    ensures prev[..] == old(prev[..])
    ensures forall j :: 0 <= j < p.Width() ==> Told(p, prev[..], l, best[..], cur[..], j)
    ensures Shaped(p) && Exact(p, prev[..]) ==>
      cur[..] == Errors(p, prev[..], l) && forall j :: 0 <= j < p.Width() ==> Cheapest(p, prev[..], l, j, best[..][j])
  {
    ghost var pv := prev[..];
    ghost var sharp := Shaped(p) && Exact(p, pv);
    var bs1, e1 := Forward(p, l, prev);
    var bs2, e2 := Inverted(p, l, prev);
    for j := 0 to p.Width()
      invariant prev[..] == pv
      invariant forall k :: 0 <= k < j ==> Told(p, pv, l, best[..], cur[..], k)
      invariant sharp ==> forall k :: 0 <= k < j ==> Cheapest(p, pv, l, k, best[..][k])
    {
      assert Told(p, pv, l, bs1, e1, j) && Told(p, pv, l, bs2, e2, j);
      var bestIndex, bestError := Scan(p, l, prev, j, bs1[j], bs2[j] + 1);
      if sharp { Bracketed(p, pv, l, j, bs1[j], bs2[j], bestIndex); }
      Tell(p, l, prev, best, cur, j, bestIndex, bestError);
    }
    if sharp { AllCheapest(p, pv, l, best[..], cur[..]); }
  }
}
