/** The scans of mode E_RLM2 over a table of columns: brackets that are narrowed from both sides, and
    rebuilt until they close. */
module RlmColumns {
  import opened SafeRows

  /** For each column, the cost of every choice, also of those beyond the column. */
  type Columns = seq<int -> real>

  /** Going one column on, a later choice loses no ground to an earlier one. */
  ghost predicate Steady(c: int -> real, c': int -> real, x: int, y: int) { c'(y) - c'(x) <= c(y) - c(x) }

  ghost predicate AllSteady(c: int -> real, c': int -> real, n: nat) {
    forall x, y :: 0 <= x <= y < n ==> Steady(c, c', x, y)
  }

  /** What the scans need of a column: costs are integers, choices beyond the column are no better than
      the column's own, and the quadrangle inequality holds with the next column. */
  ghost predicate Facts(cols: Columns, j: nat)
    requires j < |cols|
  {
    && IntegerColumn(cols[j], |cols|)
    && (forall y :: j < y < |cols| ==> cols[j](y) >= cols[j](j))
    && (j + 1 < |cols| ==> AllSteady(cols[j], cols[j + 1], |cols|))
  }

  ghost predicate Good(cols: Columns) { forall j :: 0 <= j < |cols| ==> Facts(cols, j) }

  ghost predicate IntegerColumn(c: int -> real, n: nat) { forall x :: 0 <= x < n ==> IsInteger(c(x)) }

  lemma Compared(c: int -> real, n: nat, x: int, y: int)
    requires IntegerColumn(c, n) && 0 <= x < n && 0 <= y < n
    ensures c(x) > c(y) + EPS <==> c(x) > c(y)
  {
    IntegerGap(c(x), c(y));
  }

  // ---------------------------------------------------------------- one column, also seen from the right

  function Mirror(c: int -> real, n: nat): (m: int -> real) {
    x => c(n - 1 - x)
  }

  /** The scan may begin at `start`: what it skips is no better than the limit or than `start`. */
  ghost predicate Started(c: int -> real, n: nat, start: nat, limit: nat) {
    forall x :: 0 <= x < start && x < n ==> c(x) >= c(limit) || (start < n && c(x) >= c(start))
  }

  /** Nothing from the place before `limit` on is better than the limit. */
  ghost predicate Limit(c: int -> real, n: nat, limit: nat) {
    forall x :: 0 <= x < n && limit - 1 <= x ==> c(x) >= c(limit)
  }

  /** Choice i is better than the limit, with room between them, or is the limit; and everything up
      to the place after i, and from the place before the limit on, is no better than i. */
  ghost predicate Settled(c: int -> real, n: nat, i: nat, limit: nat) {
    && i <= limit < n && (i == limit || (i + 1 < limit && c(i) < c(limit)))
    && forall x :: 0 <= x < n && (x <= i + 1 || limit - 1 <= x) ==> c(x) >= c(i)
  }

  /** The same with the inverted side at b settled against the forward side at a. */
  ghost predicate RightDone(c: int -> real, n: nat, a: nat, b: nat) {
    && a <= b < n && (a == b || (a + 1 < b && c(b) < c(a)))
    && forall x :: 0 <= x < n && (x <= a + 1 || b - 1 <= x) ==> c(x) >= c(b)
  }

  /** The scan inside a column: find the first choice better than the limit, then move on while that
      costs no more. */
  method StepColumn(c: int -> real, n: nat, start: nat, limit: nat) returns (i: nat, best: real)
    requires limit < n && IntegerColumn(c, n) && Limit(c, n, limit) && Started(c, n, start, limit)
    ensures Settled(c, n, i, limit) && best == c(i)
    ensures if start <= limit then start <= i else i == limit
  {
    i, best := start, c(limit);
    if i + 1 >= limit {
      i := limit;
      return;
    }
    while i + 1 < limit
      invariant start <= i < limit && best == c(limit)
      invariant forall x :: start <= x < i ==> c(x) >= c(limit)
      decreases limit - i
    {
      Compared(c, n, limit, i);
      if c(i) + EPS < best {
        best := c(i);
        break;
      }
      i := i + 1;
    }
    if i + 1 >= limit {
      i := limit;
    } else {
      i := i + 1;
      while i + 1 < limit
        invariant start < i < limit && best == c(i - 1) && c(i - 1) < c(limit)
        invariant forall x :: start <= x < i ==> c(x) >= c(i - 1)
        decreases limit - i
      {
        Compared(c, n, i, i - 1);
        if c(i) > best + EPS {
          break;
        }
        best := c(i);
        i := i + 1;
      }
      i := i - 1;
    }
  }

  /** One column of an inverted scan: the same scan, seen from the right. */
  method StepInverted(c: int -> real, n: nat, start: nat, a: nat) returns (i: nat, best: real)
    requires a < n && IntegerColumn(c, n)
    requires Limit(Mirror(c, n), n, n - 1 - a) && Started(Mirror(c, n), n, start, n - 1 - a)
    ensures i < n && RightDone(c, n, a, n - 1 - i) && best == c(n - 1 - i)
    ensures if start <= n - 1 - a then start <= i else i == n - 1 - a
  {
    i, best := StepColumn(Mirror(c, n), n, start, n - 1 - a);
    Reflected(c, n, i, a);
  }

  lemma Reflected(c: int -> real, n: nat, i: nat, a: nat)
    requires a < n && Settled(Mirror(c, n), n, i, n - 1 - a)
    ensures RightDone(c, n, a, n - 1 - i)
  {
    var m := Mirror(c, n);
    forall x | 0 <= x < n && (x <= a + 1 || n - 1 - i - 1 <= x) ensures c(x) >= c(n - 1 - i) {
      assert m(n - 1 - x) >= m(i);
    }
  }

  /** A side that is settled is a limit, and gives a start, for the other side. */
  lemma Turn(c: int -> real, n: nat, a: nat, b: nat, start: nat)
    requires Settled(c, n, a, b) && start + b == n + 1
    ensures Limit(Mirror(c, n), n, n - 1 - a) && Started(Mirror(c, n), n, start, n - 1 - a)
  {
    var m := Mirror(c, n);
    forall x | 0 <= x < n && n - 1 - a - 1 <= x ensures m(x) >= m(n - 1 - a) {
      assert c(n - 1 - x) >= c(a);
    }
    forall x | 0 <= x < start && x < n ensures m(x) >= m(n - 1 - a) {
      assert c(n - 1 - x) >= c(a);
    }
  }

  lemma TurnBack(c: int -> real, n: nat, a: nat, b: nat)
    requires RightDone(c, n, a, b)
    ensures Limit(c, n, b) && Started(c, n, a + 2, b)
  {
  }

  /** What the forward scan skipped before i stays no better in the next column. */
  lemma StartRight(c: int -> real, c': int -> real, n: nat, i: nat, limit: nat, limit': nat)
    requires Settled(c, n, i, limit) && AllSteady(c, c', n)
    ensures Started(c', n, i, limit')
  {
    forall x | 0 <= x < i && x < n ensures c'(x) >= c'(i) {
      assert Steady(c, c', x, i);
    }
  }

  /** What the inverted scan skipped after b stays no better in the column before. */
  lemma StartLeft(c: int -> real, c': int -> real, n: nat, a: nat, b: nat, start: nat, limit: nat)
    requires RightDone(c', n, a, b) && AllSteady(c, c', n)
    requires start + b + 1 == n
    ensures Started(Mirror(c, n), n, start, limit)
  {
    var m := Mirror(c, n);
    forall x | 0 <= x < start && x < n ensures m(x) >= m(start) {
      assert Steady(c, c', b, n - 1 - x) && c'(n - 1 - x) >= c'(b);
    }
  }

  lemma Narrower(c: int -> real, n: nat, a: nat, b: nat, b': nat)
    requires Settled(c, n, a, b) && RightDone(c, n, a, b')
    ensures b' <= b
  {
    assert b' > b ==> c(b') >= c(a);
  }

  // ---------------------------------------------------------------- the table

  /** Column k has a choice, which may lie beyond the column, and its cost. */
  ghost predicate Told(cols: Columns, bs: seq<nat>, es: seq<real>, k: nat)
    requires |bs| == |es| == |cols| && k < |cols|
  {
    bs[k] < |cols| && es[k] == cols[k](bs[k])
  }

  ghost predicate AllTold(cols: Columns, bs: seq<nat>, es: seq<real>, from: nat)
    requires |bs| == |es| == |cols|
  {
    forall j :: from <= j < |cols| ==> Told(cols, bs, es, j)
  }

  ghost predicate OpenAt(cols: Columns, bs1: seq<nat>, bs2: seq<nat>, j: nat)
    requires |bs1| == |bs2| == |cols| && j < |cols|
  {
    bs2[j] <= j && RightDone(cols[j], |cols|, bs1[j], bs2[j])
  }

  /** The columns from `from` on are bracketed, with the inverted side settled last. */
  ghost predicate Open(cols: Columns, bs1: seq<nat>, bs2: seq<nat>, from: nat)
    requires |bs1| == |bs2| == |cols|
  {
    forall j :: from <= j < |cols| ==> OpenAt(cols, bs1, bs2, j)
  }

  ghost predicate ForwardedAt(cols: Columns, bs1: seq<nat>, bs2: seq<nat>, j: nat)
    requires |bs1| == |bs2| == |cols| && j < |cols|
  {
    bs2[j] <= j && Settled(cols[j], |cols|, bs1[j], bs2[j])
  }

  /** These columns are bracketed, with the forward side settled last. */
  ghost predicate Forwarded(cols: Columns, bs1: seq<nat>, bs2: seq<nat>, from: nat, to: nat)
    requires |bs1| == |bs2| == |cols|
  {
    forall j :: from <= j < to && j < |cols| ==> ForwardedAt(cols, bs1, bs2, j)
  }

  // ---------------------------------------------------------------- the first inverted scan

  /** Where the first forward scan stopped in column j: nothing before is better, nor the next choice. */
  ghost predicate Bottom(c: int -> real, j: nat, a: nat) {
    a <= j && (forall x :: 0 <= x <= a ==> c(x) >= c(a)) && (a < j ==> c(a + 1) >= c(a))
  }

  lemma FirstLimit(cols: Columns, j: nat, a: nat, n: nat)
    requires n == |cols| && j < n && Facts(cols, j) && Bottom(cols[j], j, a)
    ensures Limit(Mirror(cols[j], n), n, n - 1 - a)
  {
    var c, m := cols[j], Mirror(cols[j], n);
    forall x | 0 <= x < n && n - 1 - a - 1 <= x ensures m(x) >= m(n - 1 - a) {
      assert c(n - 1 - x) >= c(a);
    }
  }

  /** The clip: choices beyond the column may be skipped. */
  lemma Clipped(cols: Columns, j: nat, n: nat, start: nat, limit: nat)
    requires n == |cols| && j < n && Facts(cols, j) && start + j + 1 == n
    ensures Started(Mirror(cols[j], n), n, start, limit)
  {
    var c, m := cols[j], Mirror(cols[j], n);
    forall x | 0 <= x < start ensures m(x) >= m(start) {
      assert c(n - 1 - x) >= c(j);
    }
  }

  /** One column of the first inverted scan. */
  method FirstColumn(cols: Columns, j: nat, n: nat, col: nat, i0: nat, bs1: seq<nat>, bs2: seq<nat>)
    returns (i: nat, best: real)
    requires n == |cols| == |bs1| == |bs2| && col + j + 1 == n && Facts(cols, col) && Bottom(cols[col], col, bs1[col])
    requires if j == 0 then i0 == 0 else OpenAt(cols, bs1, bs2, col + 1) && i0 + bs2[col + 1] + 1 == n
    ensures i < n && RightDone(cols[col], n, bs1[col], n - 1 - i) && best == cols[col](n - 1 - i) && n - 1 - i <= col
  {
    var maxi := n - bs1[col] - 1;
    FirstLimit(cols, col, bs1[col], n);
    if i0 < j {
      i := j;
      Clipped(cols, col, n, j, maxi);
    } else {
      i := i0;
      if j > 0 { StartLeft(cols[col], cols[col + 1], n, bs1[col + 1], bs2[col + 1], i0, maxi); }
    }
    i, best := StepInverted(cols[col], n, i, bs1[col]);
  }

  lemma OpenNext(cols: Columns, bs1: seq<nat>, bs2: seq<nat>, e2: seq<real>, j: nat, b: nat, best: real, told: nat,
                 told': nat)
    requires |bs1| == |bs2| == |e2| == |cols| && j < |cols|
    requires Open(cols, bs1, bs2, j + 1) && AllTold(cols, bs2, e2, told)
    requires (told' == told || (told == j + 1 && told' == j))
    requires b <= j && RightDone(cols[j], |cols|, bs1[j], b) && best == cols[j](b)
    ensures Open(cols, bs1, bs2[j := b], j) && AllTold(cols, bs2[j := b], e2[j := best], told')
  {
    var bs, es := bs2[j := b], e2[j := best];
    forall x | j <= x < |cols| ensures OpenAt(cols, bs1, bs, x) {
      assert x > j ==> OpenAt(cols, bs1, bs2, x);
    }
    forall x | told' <= x < |cols| ensures Told(cols, bs, es, x) {
      assert x != j ==> Told(cols, bs2, e2, x);
    }
  }

  method FirstInverted(cols: Columns, bs1: seq<nat>) returns (bs2: seq<nat>, e2: seq<real>)
    requires Good(cols) && |bs1| == |cols| && forall j :: 0 <= j < |cols| ==> Bottom(cols[j], j, bs1[j])
    ensures |bs2| == |e2| == |cols| && Open(cols, bs1, bs2, 0) && AllTold(cols, bs2, e2, 0)
  {
    var dsize := |cols|;
    bs2, e2 := seq(dsize, _ => 0), seq(dsize, _ => 0.0);
    var i := 0;
    for j := 0 to dsize
      invariant |bs2| == |e2| == dsize && Open(cols, bs1, bs2, dsize - j) && AllTold(cols, bs2, e2, dsize - j)
      invariant if j == 0 then i == 0 else i + bs2[dsize - j] + 1 == dsize
    {
      var col := dsize - j - 1;
      assert Facts(cols, col) && (j > 0 ==> OpenAt(cols, bs1, bs2, col + 1));
      var best;
      i, best := FirstColumn(cols, j, dsize, col, i, bs1, bs2);
      var b := dsize - i - 1;
      OpenNext(cols, bs1, bs2, e2, col, b, best, col + 1, col);
      bs2, e2 := bs2[col := b], e2[col := best];
    }
  }

  // ---------------------------------------------------------------- rebuilding

  /** One column of a later forward scan. */
  method ForwardColumn(cols: Columns, k: nat, j: nat, n: nat, i0: nat, bs1: seq<nat>, bs2: seq<nat>)
    returns (i: nat, best: real)
    requires n == |cols| == |bs1| == |bs2| && k <= j < n && Facts(cols, j) && (j > k ==> Facts(cols, j - 1))
    requires OpenAt(cols, bs1, bs2, j)
    requires if j == k then i0 == bs1[k] + 2 <= bs2[k] else i0 == bs1[j - 1] && ForwardedAt(cols, bs1, bs2, j - 1)
    ensures Settled(cols[j], n, i, bs2[j]) && best == cols[j](i) && (j == k ==> i0 <= i)
  {
    TurnBack(cols[j], n, bs1[j], bs2[j]);
    if j > k { StartRight(cols[j - 1], cols[j], n, i0, bs2[j - 1], bs2[j]); }
    i, best := StepColumn(cols[j], n, i0, bs2[j]);
  }

  lemma ForwardNext(cols: Columns, bs1: seq<nat>, e1: seq<real>, bs2: seq<nat>, k: nat, j: nat, i: nat, best: real)
    requires |bs1| == |e1| == |bs2| == |cols| && k <= j < |cols|
    requires Forwarded(cols, bs1, bs2, k, j) && Open(cols, bs1, bs2, j) && AllTold(cols, bs1, e1, 0) && bs2[j] <= j
    requires Settled(cols[j], |cols|, i, bs2[j]) && best == cols[j](i)
    ensures Forwarded(cols, bs1[j := i], bs2, k, j + 1) && Open(cols, bs1[j := i], bs2, j + 1)
    ensures AllTold(cols, bs1[j := i], e1[j := best], 0)
  {
    var bs, es := bs1[j := i], e1[j := best];
    forall x | k <= x < j + 1 && x < |cols| ensures ForwardedAt(cols, bs, bs2, x) {
      assert x < j ==> ForwardedAt(cols, bs1, bs2, x);
    }
    forall x | j + 1 <= x < |cols| ensures OpenAt(cols, bs, bs2, x) {
      assert OpenAt(cols, bs1, bs2, x);
    }
    forall x | 0 <= x < |cols| ensures Told(cols, bs, es, x) {
      assert Told(cols, bs1, e1, x);
    }
  }

  /** A forward scan from column k, until it falls behind what is known. */
  method ForwardAgain(cols: Columns, k: nat, bs1_0: seq<nat>, e1_0: seq<real>, bs2: seq<nat>)
    returns (bs1: seq<nat>, e1: seq<real>, maxj: nat)
    requires Good(cols) && |bs1_0| == |e1_0| == |bs2| == |cols| && k < |cols|
    requires Open(cols, bs1_0, bs2, k) && AllTold(cols, bs1_0, e1_0, 0) && bs1_0[k] + 1 < bs2[k]
    ensures |bs1| == |e1| == |cols| && k < maxj <= |cols| && AllTold(cols, bs1, e1, 0)
    ensures Forwarded(cols, bs1, bs2, k, maxj) && Open(cols, bs1, bs2, maxj) && bs1[k] >= bs1_0[k] + 2
  {
    var dsize := |cols|;
    bs1, e1, maxj := bs1_0, e1_0, k;
    var i := bs1[k] + 2;
    while maxj < dsize
      invariant |bs1| == |e1| == dsize && k <= maxj <= dsize && AllTold(cols, bs1, e1, 0)
      invariant Forwarded(cols, bs1, bs2, k, maxj) && Open(cols, bs1, bs2, maxj)
      invariant if maxj == k
                then bs1[k] == bs1_0[k] && i == bs1[k] + 2
                else bs1[k] >= bs1_0[k] + 2 && i == bs1[maxj - 1]
    {
      if i <= bs1[maxj] {
        break;
      }
      assert OpenAt(cols, bs1, bs2, maxj) && (maxj > k ==> ForwardedAt(cols, bs1, bs2, maxj - 1));
      var best;
      i, best := ForwardColumn(cols, k, maxj, dsize, i, bs1, bs2);
      ForwardNext(cols, bs1, e1, bs2, k, maxj, i, best);
      bs1, e1 := bs1[maxj := i], e1[maxj := best];
      maxj := maxj + 1;
    }
  }

  /** One column of a later inverted scan, not clipped to the column. */
  method InvertedColumn(cols: Columns, last: nat, n: nat, col: nat, i0: nat, bs1: seq<nat>, bs2_0: seq<nat>,
                        bs2: seq<nat>)
    returns (i: nat, best: real)
    requires n == |cols| == |bs1| == |bs2_0| == |bs2| && col <= last < n && Facts(cols, col)
    requires ForwardedAt(cols, bs1, bs2_0, col)
    requires if col == last
             then i0 + bs2_0[col] == n + 1
             else OpenAt(cols, bs1, bs2, col + 1) && i0 + bs2[col + 1] + 1 == n
    ensures i < n && RightDone(cols[col], n, bs1[col], n - 1 - i) && best == cols[col](n - 1 - i)
    ensures n - 1 - i <= bs2_0[col]
  {
    var start := n + 1 - bs2_0[col];
    Turn(cols[col], n, bs1[col], bs2_0[col], start);
    if col < last { StartLeft(cols[col], cols[col + 1], n, bs1[col + 1], bs2[col + 1], i0, n - 1 - bs1[col]); }
    i, best := StepInverted(cols[col], n, i0, bs1[col]);
    Narrower(cols[col], n, bs1[col], bs2_0[col], n - 1 - i);
  }

  /** An inverted scan back over the same columns. */
  method InvertedAgain(cols: Columns, k: nat, maxj: nat, bs1: seq<nat>, bs2_0: seq<nat>, e2_0: seq<real>)
    returns (bs2: seq<nat>, e2: seq<real>)
    requires Good(cols) && |bs1| == |bs2_0| == |e2_0| == |cols| && k < maxj <= |cols|
    requires Forwarded(cols, bs1, bs2_0, k, maxj) && Open(cols, bs1, bs2_0, maxj) && AllTold(cols, bs2_0, e2_0, 0)
    ensures |bs2| == |e2| == |cols| && Open(cols, bs1, bs2, k) && AllTold(cols, bs2, e2, 0) && bs2[k] <= bs2_0[k]
  {
    var dsize := |cols|;
    bs2, e2 := bs2_0, e2_0;
    assert ForwardedAt(cols, bs1, bs2_0, maxj - 1);
    var j1, j2 := dsize - maxj, dsize - k;
    var i := dsize - bs2[dsize - j1 - 1] - 1 + 2;
    for j := j1 to j2
      invariant |bs2| == |e2| == dsize && AllTold(cols, bs2, e2, 0) && Open(cols, bs1, bs2, dsize - j)
      invariant if j == j1
                then i + bs2_0[maxj - 1] == dsize + 1
                else bs2[dsize - j] <= bs2_0[dsize - j] && i + bs2[dsize - j] + 1 == dsize
    {
      ghost var before := bs2;
      var col := dsize - j - 1;
      assert Facts(cols, col) && ForwardedAt(cols, bs1, bs2_0, col) && (j > j1 ==> OpenAt(cols, bs1, before, col + 1));
      var best;
      i, best := InvertedColumn(cols, maxj - 1, dsize, col, i, bs1, bs2_0, bs2);
      var b := dsize - i - 1;
      OpenNext(cols, bs1, before, e2, col, b, best, 0, 0);
      bs2, e2 := bs2[col := b], e2[col := best];
    }
  }

  /** The closed bracket of column k holds a cheapest choice of all, so one within the column. */
  ghost predicate Found(cols: Columns, k: nat, a: nat)
    requires k < |cols|
  {
    a <= k && forall x :: 0 <= x < |cols| ==> cols[k](a) <= cols[k](x)
  }

  lemma Closed(cols: Columns, k: nat, a: nat, b: nat)
    requires k < |cols| && b <= k && RightDone(cols[k], |cols|, a, b) && a + 1 >= b
    ensures Found(cols, k, a)
  {
  }

  /** Rebuilding until the bracket of column k closes. */
  method Close(cols: Columns, k: nat, bs1_0: seq<nat>, e1_0: seq<real>, bs2_0: seq<nat>, e2_0: seq<real>)
    returns (bs1: seq<nat>, e1: seq<real>, bs2: seq<nat>, e2: seq<real>)
    requires Good(cols) && |bs1_0| == |e1_0| == |bs2_0| == |e2_0| == |cols| && k < |cols|
    requires Open(cols, bs1_0, bs2_0, k) && AllTold(cols, bs1_0, e1_0, 0) && AllTold(cols, bs2_0, e2_0, 0)
    ensures |bs1| == |e1| == |bs2| == |e2| == |cols|
    ensures Open(cols, bs1, bs2, k) && AllTold(cols, bs1, e1, 0) && AllTold(cols, bs2, e2, 0)
    ensures Found(cols, k, bs1[k]) && e1[k] == cols[k](bs1[k])
  {
    bs1, e1, bs2, e2 := bs1_0, e1_0, bs2_0, e2_0;
    while bs1[k] + 1 < bs2[k]
      invariant |bs1| == |e1| == |bs2| == |e2| == |cols|
      invariant Open(cols, bs1, bs2, k) && AllTold(cols, bs1, e1, 0) && AllTold(cols, bs2, e2, 0)
      decreases bs2[k] as int - bs1[k] as int
    {
      var maxj;
      bs1, e1, maxj := ForwardAgain(cols, k, bs1, e1, bs2);
      bs2, e2 := InvertedAgain(cols, k, maxj, bs1, bs2, e2);
    }
    assert OpenAt(cols, bs1, bs2, k) && Told(cols, bs1, e1, k);
    Closed(cols, k, bs1[k], bs2[k]);
  }
}
