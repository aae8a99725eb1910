/** The row-filling modes. */
module SplitRows {
  import opened Splitting

  // The plain quadratic mode and divide and conquer, each proved against the rows that Splitting defines.

  /** The inner loop shared by the modes: choice `lo`, then each later one that is no dearer. */
  method Scan(p: Problem, l: nat, prev: array<real>, j: nat, lo: nat, hi: nat) returns (bestIndex: nat, bestError: real)
    requires RowReady(p, prev[..], l) && j < p.Width() && lo < p.Width() && hi <= j + 1
    ensures lo <= bestIndex && (bestIndex < hi || bestIndex == lo) && bestError == Cost(p, prev[..], l, j, bestIndex)
    ensures forall i :: lo <= i < hi ==> bestError <= Cost(p, prev[..], l, j, i)
    ensures forall i :: bestIndex < i < hi ==> bestError < Cost(p, prev[..], l, j, i)
  {
    bestIndex := lo;
    bestError := prev[lo] + p.pen(p.sums[l + j + 1] - p.sums[l + lo]);
    var i := lo + 1;
    while i < hi
      invariant lo < i && lo <= bestIndex < i && (i <= hi || i == lo + 1) && (bestIndex < hi || bestIndex == lo)
      invariant bestError == Cost(p, prev[..], l, j, bestIndex)
      invariant forall k :: lo <= k < i && k < hi ==> bestError <= Cost(p, prev[..], l, j, k)
      invariant forall k :: bestIndex < k < i && k < hi ==> bestError < Cost(p, prev[..], l, j, k)
    {
      var newError := prev[i] + p.pen(p.sums[l + j + 1] - p.sums[l + i]);
      if newError <= bestError {
        bestError := newError;
        bestIndex := i;
      }
      i := i + 1;
    }
  }

  /** Column j holds what the defining rows hold. */
  ghost predicate Filled(p: Problem, prev: seq<real>, l: nat, best: seq<nat>, cur: seq<real>, j: nat)
    requires RowReady(p, prev, l) && |best| == |cur| == p.Width() && j < p.Width()
  {
    best[j] == Choice(p, prev, l, j) && cur[j] == Cost(p, prev, l, j, best[j])
  }

  /** What was filled still is. */
  ghost predicate StillFilled(p: Problem, prev: seq<real>, l: nat, best: seq<nat>, cur: seq<real>, best': seq<nat>,
                              cur': seq<real>)
    requires RowReady(p, prev, l) && |best| == |cur| == |best'| == |cur'| == p.Width()
  {
    forall j :: 0 <= j < p.Width() && Filled(p, prev, l, best, cur, j) ==> Filled(p, prev, l, best', cur', j)
  }

  lemma AllFilled(p: Problem, prev: seq<real>, l: nat, best: seq<nat>, cur: seq<real>)
    requires RowReady(p, prev, l) && |best| == |cur| == p.Width()
    requires forall j :: 0 <= j < p.Width() ==> Filled(p, prev, l, best, cur, j)
    ensures best == Choices(p, prev, l) && cur == Errors(p, prev, l)
  {
    var row, errs := Choices(p, prev, l), Errors(p, prev, l);
    forall j | 0 <= j < p.Width() ensures best[j] == row[j] && cur[j] == errs[j] {
      assert Filled(p, prev, l, best, cur, j);
    }
  }

  /** Scanning only part of the choices finds the last cheapest of all, if it lies there. */
  lemma PartialScan(p: Problem, prev: seq<real>, l: nat, j: nat, lo: nat, hi: nat, k: nat)
    requires RowReady(p, prev, l) && j < p.Width() && lo <= k < hi <= j + 1
    requires lo <= Choice(p, prev, l, j) < hi
    requires forall i :: lo <= i < hi ==> Cost(p, prev, l, j, k) <= Cost(p, prev, l, j, i)
    requires forall i :: k < i < hi ==> Cost(p, prev, l, j, k) < Cost(p, prev, l, j, i)
    ensures k == Choice(p, prev, l, j)
  {
    var c := Choice(p, prev, l, j);
    LastMinIsLast(p, prev, l, j, j);
    assert Cost(p, prev, l, j, k) <= Cost(p, prev, l, j, c);
    assert Cost(p, prev, l, j, c) <= Cost(p, prev, l, j, k);
  }

  /** Mode E_Base2: try every choice in every column. */
  method Base2Row(p: Problem, l: nat, prev: array<real>, cur: array<real>, best: array<nat>)
    requires RowReady(p, prev[..], l) && cur.Length == best.Length == p.Width() && cur != prev
    modifies cur, best
    ensures best[..] == Choices(p, old(prev[..]), l)
    ensures cur[..] == Errors(p, old(prev[..]), l)
  {
    ghost var pv := prev[..];
    for j := 0 to p.Width()
      invariant prev[..] == pv
      invariant forall k :: 0 <= k < j ==> Filled(p, pv, l, best[..], cur[..], k)
    {
      var bestIndex, bestError := Scan(p, l, prev, j, 0, j + 1);
      PartialScan(p, pv, l, j, 0, j + 1, bestIndex);
      ghost var b, c := best[..], cur[..];
      best[j] := bestIndex;
      cur[j] := bestError;
      assert forall k :: 0 <= k < j ==> best[..][k] == b[k] && cur[..][k] == c[k] && Filled(p, pv, l, b, c, k);
    }
    AllFilled(p, pv, l, best[..], cur[..]);
  }

  // ---------------------------------------------------------------- mode E_DaC

  /** Columns jBegin..jEnd, whose choices lie in iBegin..iEnd. */
  datatype Box = Box(jBegin: nat, jEnd: nat, iBegin: nat, iEnd: nat)

  ghost predicate BoxOk(p: Problem, prev: seq<real>, l: nat, b: Box)
    requires RowReady(p, prev, l)
  {
    && b.jEnd <= p.Width() && b.iBegin < b.iEnd <= p.Width()
    && forall j :: b.jBegin <= j < b.jEnd ==> b.iBegin <= Choice(p, prev, l, j) < b.iEnd
  }

  function Size(b: Box): nat { if b.jBegin < b.jEnd then 2 * (b.jEnd - b.jBegin) + 1 else 1 }

  function Work(boxes: seq<Box>): nat { if boxes == [] then 0 else Size(boxes[0]) + Work(boxes[1..]) }

  lemma {:induction false} WorkJoin(boxes: seq<Box>, more: seq<Box>)
    ensures Work(boxes + more) == Work(boxes) + Work(more)
  {
    if boxes == [] {
      assert [] + more == more;
    } else {
      assert (boxes + more)[1..] == boxes[1..] + more;
      WorkJoin(boxes[1..], more);
    }
  }

  lemma WorkOfTwo(a: Box, b: Box)
    ensures Work([a, b]) == Size(a) + Size(b)
  {
    assert [a, b][1..] == [b];
    assert Work([b]) == Size(b) + Work([b][1..]);
  }

  predicate InBox(b: Box, j: nat) { b.jBegin <= j < b.jEnd }

  predicate Waiting(boxes: seq<Box>, j: nat) { exists k :: 0 <= k < |boxes| && InBox(boxes[k], j) }

  /** The choice found in the middle column confines the columns on either side. */
  lemma BoxSplits(p: Problem, prev: seq<real>, l: nat, b: Box, j: nat)
    requires RowReady(p, prev, l) && Shaped(p) && BoxOk(p, prev, l, b) && InBox(b, j)
    ensures BoxOk(p, prev, l, Box(b.jBegin, j, b.iBegin, Choice(p, prev, l, j) + 1))
    ensures BoxOk(p, prev, l, Box(j + 1, b.jEnd, Choice(p, prev, l, j), b.iEnd))
  {
    forall k | b.jBegin <= k < j ensures Choice(p, prev, l, k) <= Choice(p, prev, l, j) {
      ChoiceMonotone(p, prev, l, k, j);
    }
    forall k | j < k < b.jEnd ensures Choice(p, prev, l, j) <= Choice(p, prev, l, k) {
      ChoiceMonotone(p, prev, l, j, k);
    }
  }

  ghost predicate Covered(p: Problem, prev: seq<real>, l: nat, best: seq<nat>, cur: seq<real>, boxes: seq<Box>)
    requires RowReady(p, prev, l) && |best| == |cur| == p.Width()
  {
    forall j :: 0 <= j < p.Width() ==> Filled(p, prev, l, best, cur, j) || Waiting(boxes, j)
  }

  /** Taking a box off the queue and settling its columns, or queueing them again. */
  lemma CoveredStep(p: Problem, prev: seq<real>, l: nat, best: seq<nat>, cur: seq<real>, boxes: seq<Box>,
                    best': seq<nat>, cur': seq<real>, more: seq<Box>)
    requires RowReady(p, prev, l) && |best| == |cur| == |best'| == |cur'| == p.Width() && boxes != []
    requires Covered(p, prev, l, best, cur, boxes)
    requires StillFilled(p, prev, l, best, cur, best', cur')
    requires forall j :: 0 <= j < p.Width() && InBox(boxes[0], j) ==>
      Filled(p, prev, l, best', cur', j) || Waiting(more, j)
    ensures Covered(p, prev, l, best', cur', boxes[1..] + more)
  {
    var rest := boxes[1..] + more;
    forall j | 0 <= j < p.Width() ensures Filled(p, prev, l, best', cur', j) || Waiting(rest, j) {
      if !Filled(p, prev, l, best', cur', j) {
        if InBox(boxes[0], j) {
          var k :| 0 <= k < |more| && InBox(more[k], j);
          assert InBox(rest[|boxes| - 1 + k], j);
        } else {
          var k :| 0 <= k < |boxes| && InBox(boxes[k], j);
          assert InBox(rest[k - 1], j);
        }
      }
    }
  }

  /** One turn of the loop: settle a box that has one choice, or its middle column, and return
      the two boxes that this leaves. */
  method Settle(p: Problem, l: nat, prev: array<real>, cur: array<real>, best: array<nat>, b: Box)
    returns (more: seq<Box>)
    requires RowReady(p, prev[..], l) && Shaped(p) && cur.Length == best.Length == p.Width() && cur != prev
    requires BoxOk(p, prev[..], l, b)
    modifies cur, best
    ensures prev[..] == old(prev[..])
    ensures StillFilled(p, prev[..], l, old(best[..]), old(cur[..]), best[..], cur[..])
    ensures forall k :: 0 <= k < p.Width() && InBox(b, k) ==>
      Filled(p, prev[..], l, best[..], cur[..], k) || Waiting(more, k)
    ensures forall k :: 0 <= k < |more| ==> BoxOk(p, prev[..], l, more[k])
    ensures Work(more) < Size(b)
  {
    more := [];
    if b.jBegin < b.jEnd {
      if b.iEnd - b.iBegin == 1 {
        SettleAll(p, l, prev, cur, best, b);
      } else {
        var j := (b.jBegin + b.jEnd) / 2;
        var bestIndex := SettleMiddle(p, l, prev, cur, best, b, j);
        var low, high := Box(b.jBegin, j, b.iBegin, bestIndex + 1), Box(j + 1, b.jEnd, bestIndex, b.iEnd);
        more := [low, high];
        WorkOfTwo(low, high);
        assert forall k :: InBox(b, k) && k != j ==> InBox(more[0], k) || InBox(more[1], k);
      }
    }
  }

  /** A box that has one choice. */
  method SettleAll(p: Problem, l: nat, prev: array<real>, cur: array<real>, best: array<nat>, b: Box)
    requires RowReady(p, prev[..], l) && cur.Length == best.Length == p.Width() && cur != prev
    requires BoxOk(p, prev[..], l, b) && b.jBegin < b.jEnd && b.iEnd == b.iBegin + 1
    modifies cur, best
    ensures prev[..] == old(prev[..])
    ensures StillFilled(p, prev[..], l, old(best[..]), old(cur[..]), best[..], cur[..])
    ensures forall k :: b.jBegin <= k < b.jEnd ==> Filled(p, prev[..], l, best[..], cur[..], k)
  {
    ghost var pv, b0, c0 := prev[..], best[..], cur[..];
    for j := b.jBegin to b.jEnd
      invariant prev[..] == pv && StillFilled(p, pv, l, b0, c0, best[..], cur[..])
      invariant forall k :: b.jBegin <= k < j ==> Filled(p, pv, l, best[..], cur[..], k)
    {
      assert b.iBegin <= Choice(p, pv, l, j) < b.iEnd;
      FillColumn(p, l, prev, cur, best, j, b.iBegin, prev[b.iBegin] + p.pen(p.sums[l + j + 1] - p.sums[l + b.iBegin]));
    }
  }

  /** The middle column of a box: its choice confines the columns on either side. */
  method SettleMiddle(p: Problem, l: nat, prev: array<real>, cur: array<real>, best: array<nat>, b: Box, j: nat)
    returns (bestIndex: nat)
    requires RowReady(p, prev[..], l) && Shaped(p) && cur.Length == best.Length == p.Width() && cur != prev
    requires BoxOk(p, prev[..], l, b) && InBox(b, j)
    modifies cur, best
    ensures prev[..] == old(prev[..])
    ensures StillFilled(p, prev[..], l, old(best[..]), old(cur[..]), best[..], cur[..])
    ensures Filled(p, prev[..], l, best[..], cur[..], j)
    ensures BoxOk(p, prev[..], l, Box(b.jBegin, j, b.iBegin, bestIndex + 1))
    ensures BoxOk(p, prev[..], l, Box(j + 1, b.jEnd, bestIndex, b.iEnd))
  {
    var iEnd2 := if b.iEnd < j + 1 then b.iEnd else j + 1;
    assert b.iBegin <= Choice(p, prev[..], l, j) < b.iEnd;
    var bestError;
    bestIndex, bestError := Scan(p, l, prev, j, b.iBegin, iEnd2);
    PartialScan(p, prev[..], l, j, b.iBegin, iEnd2, bestIndex);
    BoxSplits(p, prev[..], l, b, j);
    FillColumn(p, l, prev, cur, best, j, bestIndex, bestError);
  }

  /** Mode E_DaC: a queue of boxes, settled one at a time. */
  method DaCRow(p: Problem, l: nat, prev: array<real>, cur: array<real>, best: array<nat>)
    requires RowReady(p, prev[..], l) && Shaped(p) && cur.Length == best.Length == p.Width() && cur != prev
    modifies cur, best
    ensures best[..] == Choices(p, old(prev[..]), l)
    ensures cur[..] == Errors(p, old(prev[..]), l)
  {
    ghost var pv := prev[..];
    var qr := [Box(0, p.Width(), 0, p.Width())];
    assert forall j :: 0 <= j < p.Width() ==> InBox(qr[0], j);
    while qr != []
      invariant prev[..] == pv
      invariant forall k :: 0 <= k < |qr| ==> BoxOk(p, pv, l, qr[k])
      invariant Covered(p, pv, l, best[..], cur[..], qr)
      decreases Work(qr)
    {
      ghost var b0, c0, q0 := best[..], cur[..], qr;
      var b := qr[0];
      qr := qr[1..];
      var more := Settle(p, l, prev, cur, best, b);
      WorkJoin(qr, more);
      qr := qr + more;
      CoveredStep(p, pv, l, b0, c0, q0, best[..], cur[..], more);
    }
    AllFilled(p, pv, l, best[..], cur[..]);
  }

  method FillColumn(p: Problem, l: nat, prev: array<real>, cur: array<real>, best: array<nat>, j: nat, k: nat, e: real)
    requires RowReady(p, prev[..], l) && cur.Length == best.Length == p.Width() && cur != prev && j < p.Width()
    requires k == Choice(p, prev[..], l, j) && e == Cost(p, prev[..], l, j, k)
    modifies cur, best
    ensures prev[..] == old(prev[..]) && best[..] == old(best[..])[j := k] && cur[..] == old(cur[..])[j := e]
    ensures Filled(p, prev[..], l, best[..], cur[..], j)
    ensures StillFilled(p, prev[..], l, old(best[..]), old(cur[..]), best[..], cur[..])
  {
    best[j] := k;
    cur[j] := e;
  }
}
