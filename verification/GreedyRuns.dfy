/** Greedy runs: what the plain scorer computes, and what the caching scorer must keep up to date. */
module GreedyRuns {
  import opened BinFeatures

  /** Conditional mutual information of the label and the `second` bins, given the `condition`
      bins, each list in the order of adding. Left abstract but for its range. */
  type Objective = (seq<int>, seq<int>) -> real

  const MAX_UNSET: real := -1.0
  const MIN_UNSET: real := 100000.0

  ghost predicate Ranged(f: Objective) {
    forall second: seq<int>, condition: seq<int> :: MAX_UNSET < f(second, condition) < MIN_UNSET
  }

  datatype Step = Step(bin: int, cmi: real)

  datatype BinScore = BinScore(score: real, maxSteps: seq<Step>, minSteps: seq<Step>)

  function BinsOf(steps: seq<Step>): (l: seq<int>)
    ensures |l| == |steps| && forall i :: 0 <= i < |l| ==> l[i] == steps[i].bin
  {
    seq(|steps|, i requires 0 <= i < |steps| => steps[i].bin)
  }

  /** Helper `b` after the helpers in `prefix`. */
  function MaxValue(f: Objective, e: int, prefix: seq<Step>, b: int): real { f([e], BinsOf(prefix) + [b]) }

  /** Opponent `b` after those in `prefix`, against `e` and its first helpers. */
  function MinValue(f: Objective, e: int, helpers: seq<Step>, prefix: seq<Step>, b: int): real {
    f([e] + BinsOf(helpers), BinsOf(prefix) + [b])
  }

  /** The step takes a bin of `home`, has its value, and no unused bin of `known` beats it. */
  ghost predicate MaxOk(f: Objective, e: int, home: set<int>, known: set<int>, prefix: seq<Step>, step: Step) {
    && step.bin in home && step.bin !in BinsOf(prefix) && step.cmi == MaxValue(f, e, prefix, step.bin)
    && forall b :: b in known && b !in BinsOf(prefix) ==> MaxValue(f, e, prefix, b) <= step.cmi
  }

  ghost predicate MinOk(f: Objective, e: int, home: set<int>, known: set<int>, helpers: seq<Step>, prefix: seq<Step>,
                        step: Step) {
    && step.bin in home && step.bin !in BinsOf(prefix) && step.cmi == MinValue(f, e, helpers, prefix, step.bin)
    && forall b :: b in known && b !in BinsOf(prefix) ==> MinValue(f, e, helpers, prefix, b) >= step.cmi
  }

  ghost predicate MaxAt(f: Objective, e: int, home: set<int>, known: set<int>, steps: seq<Step>, s: nat)
    requires s < |steps|
  {
    MaxOk(f, e, home, known, steps[..s], steps[s])
  }

  /** A greedy choice of helpers. */
  ghost predicate MaxRun(f: Objective, e: int, home: set<int>, known: set<int>, steps: seq<Step>) {
    forall s :: 0 <= s < |steps| ==> MaxAt(f, e, home, known, steps, s)
  }

  /** The helpers that opponent number s faces. */
  function Helpers(maxSteps: seq<Step>, s: nat): seq<Step> { if s <= |maxSteps| then maxSteps[..s] else maxSteps }

  ghost predicate MinAt(f: Objective, e: int, home: set<int>, known: set<int>, maxSteps: seq<Step>, steps: seq<Step>,
                        s: nat)
    requires s < |steps|
  {
    MinOk(f, e, home, known, Helpers(maxSteps, s), steps[..s], steps[s])
  }

  /** A greedy choice of opponents. */
  ghost predicate MinRun(f: Objective, e: int, home: set<int>, known: set<int>, maxSteps: seq<Step>, steps: seq<Step>) {
    forall s :: 0 <= s < |steps| ==> MinAt(f, e, home, known, maxSteps, steps, s)
  }

  /** A complete run of the bin `e`: k - 1 helpers, taken from the bins on and `e` itself, then k opponents
      taken from the bins on, none of them beaten by an unused bin of those `seen`. */
  ghost predicate RunOver(f: Objective, e: int, on: set<int>, seen: set<int>, k: nat, maxSteps: seq<Step>,
                          minSteps: seq<Step>) {
    |maxSteps| + 1 == k == |minSteps| && MaxRun(f, e, on + {e}, seen, maxSteps)
      && MinRun(f, e, on, seen, maxSteps, minSteps)
  }

  /** A greedy run over the bins `on`: all of them are seen. */
  ghost predicate GreedyRun(f: Objective, e: int, on: set<int>, k: nat, maxSteps: seq<Step>, minSteps: seq<Step>) {
    RunOver(f, e, on, on, k, maxSteps, minSteps)
  }

  /** What the values of a run are, and what they are best of: helper s after the helpers before it, and
      opponent s after those before it, against `e` and the helpers before s. */
  lemma RunSpelled(f: Objective, e: int, on: set<int>, seen: set<int>, k: nat, maxs: seq<Step>, mins: seq<Step>, s: nat)
    requires RunOver(f, e, on, seen, k, maxs, mins) && s < k
    ensures s < k - 1 ==>
      && maxs[s].cmi == f([e], BinsOf(maxs[..s]) + [maxs[s].bin])
      && forall b :: b in seen && b !in BinsOf(maxs[..s]) ==> f([e], BinsOf(maxs[..s]) + [b]) <= maxs[s].cmi
    ensures s < k - 1 ==> maxs[s].bin in on + {e} && maxs[s].bin !in BinsOf(maxs[..s])
    ensures mins[s].cmi == f([e] + BinsOf(maxs[..s]), BinsOf(mins[..s]) + [mins[s].bin])
    ensures forall b :: b in seen && b !in BinsOf(mins[..s]) ==>
      f([e] + BinsOf(maxs[..s]), BinsOf(mins[..s]) + [b]) >= mins[s].cmi
    ensures mins[s].bin in on && mins[s].bin !in BinsOf(mins[..s])
  {
    if s < k - 1 { assert MaxAt(f, e, on + {e}, seen, maxs, s); }
    assert MinAt(f, e, on, seen, maxs, mins, s) && Helpers(maxs, s) == maxs[..s];
    assert forall b :: f([e] + BinsOf(maxs[..s]), BinsOf(mins[..s]) + [b])
             == MinValue(f, e, Helpers(maxs, s), mins[..s], b);
  }

  // ---------------------------------------------------------------- sizes

  lemma {:induction false} ElementsBound(l: seq<int>)
    ensures |set b | b in l| <= |l|
  {
    var s := set b | b in l;
    if l == [] {
      assert s == {};
    } else {
      ElementsBound(l[1..]);
      assert s == (set b | b in l[1..]) + {l[0]};
    }
  }

  lemma SubsetSize(a: set<int>, b: set<int>)
    requires a <= b
    ensures |a| <= |b|
  {
    assert b == a + (b - a);
  }

  /** A set larger than a list has an element outside it. */
  lemma Remains(s: set<int>, l: seq<int>)
    requires |s| > |l|
    ensures exists b :: b in s && b !in l
  {
    ElementsBound(l);
    var used := set x | x in l;
    if forall b :: b in s ==> b in l {
      SubsetSize(s, used);
      assert false;
    }
  }

  // ---------------------------------------------------------------- runs are unique when there are no ties

  /** The bins in use are among those that are on. */
  ghost predicate Within(on: set<int>, steps: seq<Step>) { forall b :: b in BinsOf(steps) ==> b in on }

  /** No two unused helpers have the same value, and `e` is never its own best helper. */
  ghost predicate MaxDecided(f: Objective, e: int, on: set<int>, prefix: seq<Step>) {
    && (forall b, c :: b in on && c in on && b !in BinsOf(prefix) && c !in BinsOf(prefix) && b != c ==>
          MaxValue(f, e, prefix, b) != MaxValue(f, e, prefix, c))
    && (|prefix| < |on| ==>
      exists b :: b in on && b !in BinsOf(prefix) && MaxValue(f, e, prefix, b) > MaxValue(f, e, prefix, e))
  }

  /** No two unused opponents have the same value. */
  ghost predicate MinDecided(f: Objective, e: int, on: set<int>, helpers: seq<Step>, prefix: seq<Step>) {
    forall b, c :: b in on && c in on && b !in BinsOf(prefix) && c !in BinsOf(prefix) && b != c ==>
      MinValue(f, e, helpers, prefix, b) != MinValue(f, e, helpers, prefix, c)
  }

  ghost predicate Decided(f: Objective, e: int, on: set<int>) {
    && (forall prefix :: Within(on, prefix) ==> MaxDecided(f, e, on, prefix))
    && (forall helpers, prefix :: Within(on, helpers) && Within(on, prefix) ==> MinDecided(f, e, on, helpers, prefix))
  }

  lemma MaxStepUnique(f: Objective, e: int, on: set<int>, prefix: seq<Step>, x: Step, y: Step)
    requires MaxDecided(f, e, on, prefix) && |prefix| < |on|
    requires MaxOk(f, e, on + {e}, on, prefix, x) && MaxOk(f, e, on + {e}, on, prefix, y)
    ensures x == y && x.bin in on
  {
    var b :| b in on && b !in BinsOf(prefix) && MaxValue(f, e, prefix, b) > MaxValue(f, e, prefix, e);
    assert x.bin in on && y.bin in on;
    assert MaxValue(f, e, prefix, x.bin) == MaxValue(f, e, prefix, y.bin);
  }

  lemma MinStepUnique(f: Objective, e: int, on: set<int>, helpers: seq<Step>, prefix: seq<Step>, x: Step, y: Step)
    requires MinDecided(f, e, on, helpers, prefix)
    requires MinOk(f, e, on, on, helpers, prefix, x) && MinOk(f, e, on, on, helpers, prefix, y)
    ensures x == y
  {
    assert MinValue(f, e, helpers, prefix, x.bin) == MinValue(f, e, helpers, prefix, y.bin);
  }

  lemma ExtendEqual(on: set<int>, r1: seq<Step>, r2: seq<Step>, m: nat)
    requires m < |r1| == |r2| && r1[..m] == r2[..m] && r1[m] == r2[m]
    requires Within(on, r1[..m]) && r1[m].bin in on
    ensures r1[..m + 1] == r2[..m + 1] && Within(on, r1[..m + 1])
  {
    assert r1[..m + 1] == r1[..m] + [r1[m]] && r2[..m + 1] == r2[..m] + [r2[m]];
    assert BinsOf(r1[..m + 1]) == BinsOf(r1[..m]) + [r1[m].bin];
  }

  lemma MaxRunStep(f: Objective, e: int, on: set<int>, r1: seq<Step>, r2: seq<Step>, m: nat)
    requires Decided(f, e, on) && m < |r1| == |r2| <= |on| && r1[..m] == r2[..m] && Within(on, r1[..m])
    requires MaxRun(f, e, on + {e}, on, r1) && MaxRun(f, e, on + {e}, on, r2)
    ensures r1[m] == r2[m] && r1[m].bin in on
  {
    assert MaxDecided(f, e, on, r1[..m]);
    assert MaxAt(f, e, on + {e}, on, r1, m) && MaxAt(f, e, on + {e}, on, r2, m);
    MaxStepUnique(f, e, on, r1[..m], r1[m], r2[m]);
  }

  /** Without ties there is one greedy choice of helpers, whether or not `e` was a candidate. */
  lemma {:induction false} MaxRunUnique(f: Objective, e: int, on: set<int>, r1: seq<Step>, r2: seq<Step>, n: nat)
    requires Decided(f, e, on) && n <= |r1| == |r2| <= |on|
    requires MaxRun(f, e, on + {e}, on, r1) && MaxRun(f, e, on + {e}, on, r2)
    ensures r1[..n] == r2[..n] && Within(on, r1[..n])
  {
    if n > 0 {
      MaxRunUnique(f, e, on, r1, r2, n - 1);
      MaxRunStep(f, e, on, r1, r2, n - 1);
      ExtendEqual(on, r1, r2, n - 1);
    }
  }

  lemma WithinHelpers(on: set<int>, maxSteps: seq<Step>, m: nat)
    requires Within(on, maxSteps)
    ensures Within(on, Helpers(maxSteps, m))
  {
    forall b | b in BinsOf(Helpers(maxSteps, m)) ensures b in on {
      assert b in BinsOf(maxSteps);
    }
  }

  lemma MinRunStep(f: Objective, e: int, on: set<int>, maxSteps: seq<Step>, r1: seq<Step>, r2: seq<Step>, m: nat)
    requires Decided(f, e, on) && Within(on, maxSteps)
    requires m < |r1| == |r2| && r1[..m] == r2[..m] && Within(on, r1[..m])
    requires MinRun(f, e, on, on, maxSteps, r1) && MinRun(f, e, on, on, maxSteps, r2)
    ensures r1[m] == r2[m] && r1[m].bin in on
  {
    var h := Helpers(maxSteps, m);
    WithinHelpers(on, maxSteps, m);
    assert MinAt(f, e, on, on, maxSteps, r1, m) && MinAt(f, e, on, on, maxSteps, r2, m);
    assert MinDecided(f, e, on, h, r1[..m]);
    MinStepUnique(f, e, on, h, r1[..m], r1[m], r2[m]);
  }

  /** Without ties there is one greedy choice of opponents. */
  lemma {:induction false} MinRunUnique(f: Objective, e: int, on: set<int>, maxSteps: seq<Step>, r1: seq<Step>,
                                        r2: seq<Step>, n: nat)
    requires Decided(f, e, on) && Within(on, maxSteps) && n <= |r1| == |r2|
    requires MinRun(f, e, on, on, maxSteps, r1) && MinRun(f, e, on, on, maxSteps, r2)
    ensures r1[..n] == r2[..n] && Within(on, r1[..n])
  {
    if n > 0 {
      MinRunUnique(f, e, on, maxSteps, r1, r2, n - 1);
      MinRunStep(f, e, on, maxSteps, r1, r2, n - 1);
      ExtendEqual(on, r1, r2, n - 1);
    }
  }

  /** Two greedy runs for the same bin over the same bins are the same run. */
  lemma RunUnique(f: Objective, e: int, on: set<int>, k: nat, maxs1: seq<Step>, mins1: seq<Step>, maxs2: seq<Step>,
                  mins2: seq<Step>)
    requires Decided(f, e, on) && k <= |on|
    requires GreedyRun(f, e, on, k, maxs1, mins1) && GreedyRun(f, e, on, k, maxs2, mins2)
    ensures maxs1 == maxs2 && mins1 == mins2
  {
    MaxRunUnique(f, e, on, maxs1, maxs2, |maxs1|);
    assert maxs1[..|maxs1|] == maxs1 && maxs2[..|maxs1|] == maxs2;
    MinRunUnique(f, e, on, maxs1, mins1, mins2, |mins1|);
    assert mins1[..|mins1|] == mins1 && mins2[..|mins1|] == mins2;
  }
}
