/** The plain scorer: a greedy maximizing phase and a greedy minimizing phase, from scratch. */
module PlainScorer {
  import opened BinFeatures
  import opened GreedyRuns

  datatype Result<T> = Success(value: T) | Failure

  // ---------------------------------------------------------------- steps of the proofs

  function Used(steps: seq<Step>): set<int> { set b | b in BinsOf(steps) }

  lemma UsedSnoc(steps: seq<Step>, step: Step)
    ensures BinsOf(steps + [step]) == BinsOf(steps) + [step.bin]
    ensures Used(steps + [step]) == Used(steps) + {step.bin}
  {
  }

  lemma UsedLeaves(home: set<int>, steps: seq<Step>)
    requires |home| > |steps|
    ensures exists b :: b in home - Used(steps)
  {
    Remains(home, BinsOf(steps));
    var b :| b in home && b !in BinsOf(steps);
    assert b in home - Used(steps);
  }

  lemma HelpersSnoc(maxSteps: seq<Step>, s: nat)
    ensures BinsOf(Helpers(maxSteps, s + 1)) == BinsOf(Helpers(maxSteps, s))
                                             + if s < |maxSteps| then [maxSteps[s].bin] else []
  {
  }

  lemma MaxRunSnoc(f: Objective, e: int, home: set<int>, known: set<int>, steps: seq<Step>, step: Step)
    requires MaxRun(f, e, home, known, steps) && MaxOk(f, e, home, known, steps, step)
    ensures MaxRun(f, e, home, known, steps + [step])
  {
    var z := steps + [step];
    forall s | 0 <= s < |z| ensures MaxAt(f, e, home, known, z, s) {
      if s < |steps| {
        assert MaxAt(f, e, home, known, steps, s) && z[..s] == steps[..s];
      } else {
        assert z[..s] == steps;
      }
    }
  }

  lemma MinRunSnoc(f: Objective, e: int, home: set<int>, known: set<int>, maxSteps: seq<Step>, steps: seq<Step>,
                   step: Step)
    requires MinRun(f, e, home, known, maxSteps, steps)
    requires MinOk(f, e, home, known, Helpers(maxSteps, |steps|), steps, step)
    ensures MinRun(f, e, home, known, maxSteps, steps + [step])
  {
    var z := steps + [step];
    forall s | 0 <= s < |z| ensures MinAt(f, e, home, known, maxSteps, z, s) {
      if s < |steps| {
        assert MinAt(f, e, home, known, maxSteps, steps, s) && z[..s] == steps[..s];
      } else {
        assert z[..s] == steps;
      }
    }
  }

  lemma {:induction false} IndexesSize(enabled: seq<bool>, n: nat)
    requires n <= |enabled|
    ensures |Indexes(enabled, true, n)| == |set b | b in Indexes(enabled, true, n)|
  {
    var l := Indexes(enabled, true, n);
    if n == 0 {
      assert (set b | b in l) == {};
    } else {
      IndexesSize(enabled, n - 1);
      var k := Indexes(enabled, true, n - 1);
      if enabled[n - 1] { assert (set b | b in l) == (set b | b in k) + {n - 1}; }
    }
  }

  lemma OnSize(bg: Background)
    ensures |Indexes(bg.enabled, true, |bg.enabled|)| == |bg.On()|
  {
    IndexesSize(bg.enabled, |bg.enabled|);
    assert bg.On() == set b | b in Indexes(bg.enabled, true, |bg.enabled|);
  }

  lemma MaxPicked(f: Objective, e: int, home: set<int>, rest: set<int>, steps: seq<Step>, b: int)
    requires MaxRun(f, e, home, home, steps) && rest == home - Used(steps) && b in rest
    requires forall x :: x in rest ==> MaxValue(f, e, steps, x) <= MaxValue(f, e, steps, b)
    ensures MaxRun(f, e, home, home, steps + [Step(b, MaxValue(f, e, steps, b))])
  {
    assert forall x :: x in home && x !in BinsOf(steps) ==> x in rest;
    MaxRunSnoc(f, e, home, home, steps, Step(b, MaxValue(f, e, steps, b)));
  }

  lemma MinPicked(f: Objective, e: int, home: set<int>, rest: set<int>, maxSteps: seq<Step>, steps: seq<Step>, b: int)
    requires MinRun(f, e, home, home, maxSteps, steps) && rest == home - Used(steps) && b in rest
    requires var h := Helpers(maxSteps, |steps|);
      forall x :: x in rest ==> MinValue(f, e, h, steps, x) >= MinValue(f, e, h, steps, b)
    ensures MinRun(f, e, home, home, maxSteps, steps + [Step(b, MinValue(f, e, Helpers(maxSteps, |steps|), steps, b))])
  {
    assert forall x :: x in home && x !in BinsOf(steps) ==> x in rest;
    MinRunSnoc(f, e, home, home, maxSteps, steps, Step(b, MinValue(f, e, Helpers(maxSteps, |steps|), steps, b)));
  }

  /** Of equally good bins on, each step took the first. */
  ghost predicate FirstMaxAt(f: Objective, e: int, home: set<int>, steps: seq<Step>, s: nat)
    requires s < |steps|
  {
    forall b :: b in home && b !in BinsOf(steps[..s]) && b < steps[s].bin ==>
      MaxValue(f, e, steps[..s], b) < steps[s].cmi
  }

  ghost predicate FirstMinAt(f: Objective, e: int, home: set<int>, maxSteps: seq<Step>, steps: seq<Step>, s: nat)
    requires s < |steps|
  {
    forall b :: b in home && b !in BinsOf(steps[..s]) && b < steps[s].bin ==>
      MinValue(f, e, Helpers(maxSteps, s), steps[..s], b) > steps[s].cmi
  }

  ghost predicate FirstMax(f: Objective, e: int, home: set<int>, steps: seq<Step>) {
    forall s :: 0 <= s < |steps| ==> FirstMaxAt(f, e, home, steps, s)
  }

  ghost predicate FirstMin(f: Objective, e: int, home: set<int>, maxSteps: seq<Step>, steps: seq<Step>) {
    forall s :: 0 <= s < |steps| ==> FirstMinAt(f, e, home, maxSteps, steps, s)
  }

  lemma FirstMaxSnoc(f: Objective, e: int, home: set<int>, rest: set<int>, steps: seq<Step>, step: Step)
    requires FirstMax(f, e, home, steps) && rest == home - Used(steps) && step.cmi == MaxValue(f, e, steps, step.bin)
    requires forall b :: b in rest && b < step.bin ==> MaxValue(f, e, steps, b) < MaxValue(f, e, steps, step.bin)
    ensures FirstMax(f, e, home, steps + [step])
  {
    var z := steps + [step];
    forall s | 0 <= s < |z| ensures FirstMaxAt(f, e, home, z, s) {
      if s < |steps| {
        assert FirstMaxAt(f, e, home, steps, s) && z[..s] == steps[..s];
      } else {
        assert z[..s] == steps && forall b :: b in home && b !in BinsOf(steps) ==> b in rest;
      }
    }
  }

  lemma FirstMinSnoc(f: Objective, e: int, home: set<int>, rest: set<int>, maxSteps: seq<Step>, steps: seq<Step>,
                     step: Step)
    requires FirstMin(f, e, home, maxSteps, steps) && rest == home - Used(steps)
    requires step.cmi == MinValue(f, e, Helpers(maxSteps, |steps|), steps, step.bin)
    requires var h := Helpers(maxSteps, |steps|);
      forall b :: b in rest && b < step.bin ==> MinValue(f, e, h, steps, b) > MinValue(f, e, h, steps, step.bin)
    ensures FirstMin(f, e, home, maxSteps, steps + [step])
  {
    var z := steps + [step];
    forall s | 0 <= s < |z| ensures FirstMinAt(f, e, home, maxSteps, z, s) {
      if s < |steps| {
        assert FirstMinAt(f, e, home, maxSteps, steps, s) && z[..s] == steps[..s];
      } else {
        assert z[..s] == steps && forall b :: b in home && b !in BinsOf(steps) ==> b in rest;
      }
    }
  }

  /** The first bin of extreme value among the bins that are on. */
  method BestOn(bg: Background, value: int -> real, greatest: bool) returns (b: int)
    requires exists x :: x in bg.On()
    ensures b in bg.On() && forall x :: x in bg.On() ==> !Better(greatest, value(x), value(b))
    ensures forall x :: x in bg.On() && x < b ==> Better(greatest, value(b), value(x))
  {
    var l := Indexes(bg.enabled, true, |bg.enabled|);
    ghost var some :| some in bg.On();
    assert some in l;
    var best := ExtremeElementBy(l, value, greatest);
    b := l[best];
    assert b in l;
    forall x | x in bg.On()
      ensures !Better(greatest, value(x), value(b)) && (x < b ==> Better(greatest, value(b), value(x)))
    {
      assert x in l;
      var i :| 0 <= i < |l| && l[i] == x;
      assert l[i] < l[best] ==> i < best;
    }
  }

  method CountOn(bg: Background) returns (n: nat)
    ensures n == |bg.On()|
  {
    OnSize(bg);
    n := |Indexes(bg.enabled, true, |bg.enabled|)|;
  }

  /** DoMaximizePhase: `steps` helpers, each the best of the bins still on in a local copy. */
  method DoMaximizePhase(f: Objective, bg: Background, e: int, steps: nat) returns (r: Result<seq<Step>>)
    requires bg.Valid()
    ensures r.Success? <==> |bg.On()| >= steps
    ensures r.Success? ==> |r.value| == steps && MaxRun(f, e, bg.On(), bg.On(), r.value)
    ensures r.Success? ==> FirstMax(f, e, bg.On(), r.value)
  {
    var count := CountOn(bg);
    if count < steps {
      return Failure;
    }
    var localBg := bg;
    var result := [];
    for s := 0 to steps
      invariant localBg.Valid() && |localBg.enabled| == |bg.enabled|
      invariant |result| == s && MaxRun(f, e, bg.On(), bg.On(), result) && FirstMax(f, e, bg.On(), result)
      invariant localBg.On() == bg.On() - Used(result)
    {
      UsedLeaves(bg.On(), result);
      var step := BestStep(f, e, localBg, result);
      MaxPicked(f, e, bg.On(), localBg.On(), result, step.bin);
      FirstMaxSnoc(f, e, bg.On(), localBg.On(), result, step);
      UsedSnoc(result, step);
      localBg := localBg.SetBin(step.bin, false);
      result := result + [step];
    }
    return Success(result);
  }

  method BestStep(f: Objective, e: int, bg: Background, result: seq<Step>) returns (step: Step)
    requires bg.Valid() && exists x :: x in bg.On()
    ensures step.bin in bg.On() && step.cmi == MaxValue(f, e, result, step.bin)
    ensures forall x :: x in bg.On() ==> MaxValue(f, e, result, x) <= step.cmi
    ensures forall x :: x in bg.On() && x < step.bin ==> MaxValue(f, e, result, x) < step.cmi
  {
    var binValue := b => f([e], BinsOf(result) + [b]);
    var best := BestOn(bg, binValue, true);
    step := Step(best, binValue(best));
    assert forall x :: MaxValue(f, e, result, x) == binValue(x);
  }

  method WorstStep(f: Objective, e: int, bg: Background, second: seq<int>, ghost maxSteps: seq<Step>, result: seq<Step>)
    returns (step: Step)
    requires bg.Valid() && exists x :: x in bg.On()
    requires second == [e] + BinsOf(Helpers(maxSteps, |result|))
    ensures step.bin in bg.On() && step.cmi == MinValue(f, e, Helpers(maxSteps, |result|), result, step.bin)
    ensures forall x :: x in bg.On() ==> MinValue(f, e, Helpers(maxSteps, |result|), result, x) >= step.cmi
    ensures forall x :: x in bg.On() && x < step.bin ==>
      MinValue(f, e, Helpers(maxSteps, |result|), result, x) > step.cmi
  {
    var binValue := b => f(second, BinsOf(result) + [b]);
    var best := BestOn(bg, binValue, false);
    step := Step(best, binValue(best));
    assert forall x :: MinValue(f, e, Helpers(maxSteps, |result|), result, x) == binValue(x);
  }

  /** DoMinimizePhase: each opponent is the worst of the bins still on; the helpers join in turn. */
  method DoMinimizePhase(f: Objective, bg: Background, e: int, maxSteps: seq<Step>, steps: nat)
    returns (r: Result<seq<Step>>)
    requires bg.Valid()
    ensures r.Success? <==> |bg.On()| >= steps
    ensures r.Success? ==> |r.value| == steps && MinRun(f, e, bg.On(), bg.On(), maxSteps, r.value)
    ensures r.Success? ==> FirstMin(f, e, bg.On(), maxSteps, r.value)
  {
    var count := CountOn(bg);
    if count < steps {
      return Failure;
    }
    var localBg := bg;
    var result := [];
    var second := [e];
    for s := 0 to steps
      invariant localBg.Valid() && |localBg.enabled| == |bg.enabled|
      invariant |result| == s && MinRun(f, e, bg.On(), bg.On(), maxSteps, result)
      invariant FirstMin(f, e, bg.On(), maxSteps, result)
      invariant localBg.On() == bg.On() - Used(result)
      invariant second == [e] + BinsOf(Helpers(maxSteps, s))
    {
      UsedLeaves(bg.On(), result);
      var step := WorstStep(f, e, localBg, second, maxSteps, result);
      MinPicked(f, e, bg.On(), localBg.On(), maxSteps, result, step.bin);
      FirstMinSnoc(f, e, bg.On(), localBg.On(), maxSteps, result, step);
      UsedSnoc(result, step);
      localBg := localBg.SetBin(step.bin, false);
      result := result + [step];
      HelpersSnoc(maxSteps, s);
      if s < |maxSteps| {
        second := second + [maxSteps[s].bin];
      }
    }
    return Success(result);
  }

  /** The bins on outside the feature of `e`. */
  ghost function OthersOn(fs: FeatureSet, bg: Background, e: int): set<int>
    requires fs.Valid()
  {
    set b | b in bg.On() && !SameFeature(fs, b, e)
  }

  lemma OthersLeft(fs: FeatureSet, bg: Background, e: int, g: nat)
    requires fs.Valid() && g < |fs.starts| && e in fs.Range(g)
    ensures bg.On() + {e} - fs.Range(g) == OthersOn(fs, bg, e) && OthersOn(fs, bg, e) <= bg.On()
  {
    forall b ensures b in bg.On() + {e} - fs.Range(g) <==> b in OthersOn(fs, bg, e) {
      SameFeatureIs(fs, g, b, e);
    }
  }

  /** GetBinScore: helpers from the background and the bin itself, opponents from the background
      without the bin's feature; the score is the last opponent's value. */
  method GetBinScore(f: Objective, fs: FeatureSet, bg: Background, e: int, k: nat) returns (r: Result<BinScore>)
    requires fs.Valid() && bg.Valid() && |bg.enabled| == fs.count && k >= 1
    ensures r.Success? <==> 0 <= e < fs.count && |OthersOn(fs, bg, e)| >= k
    ensures r.Success? ==>
      |r.value.maxSteps| == k - 1 && |r.value.minSteps| == k && r.value.score == r.value.minSteps[k - 1].cmi
    ensures r.Success? ==> MaxRun(f, e, bg.On() + {e}, bg.On() + {e}, r.value.maxSteps)
    ensures r.Success? ==> MinRun(f, e, OthersOn(fs, bg, e), OthersOn(fs, bg, e), r.value.maxSteps, r.value.minSteps)
    ensures r.Success? ==> FirstMax(f, e, bg.On() + {e}, r.value.maxSteps)
    ensures r.Success? ==> FirstMin(f, e, OthersOn(fs, bg, e), r.value.maxSteps, r.value.minSteps)
  {
    if !(0 <= e < fs.count) {
      return Failure;
    }
    var g := FeatureOf(fs, e);
    assert Between(fs.starts[g], e, fs.End(g)) && e in fs.Range(g);
    OthersLeft(fs, bg, e, g);
    var b1 := bg.SetBin(e, true);
    SubsetSize(OthersOn(fs, bg, e), b1.On());
    var maxSteps := DoMaximizePhase(f, b1, e, k - 1);
    if maxSteps.Failure? {
      return Failure;
    }
    var b2 := b1.SetRange(fs.starts[g], fs.End(g), false);
    var minSteps := DoMinimizePhase(f, b2, e, maxSteps.value, k);
    if minSteps.Failure? {
      return Failure;
    }
    return Success(BinScore(minSteps.value[k - 1].cmi, maxSteps.value, minSteps.value));
  }

  /** Over whole features the plain scorer makes a complete greedy run. */
  lemma PlainRun(f: Objective, e: int, on: set<int>, k: nat, maxs: seq<Step>, mins: seq<Step>)
    requires |maxs| + 1 == k == |mins|
    requires MaxRun(f, e, on + {e}, on + {e}, maxs) && MinRun(f, e, on, on, maxs, mins)
    ensures GreedyRun(f, e, on, k, maxs, mins)
  {
    forall s | 0 <= s < |maxs| ensures MaxAt(f, e, on + {e}, on, maxs, s) {
      assert MaxAt(f, e, on + {e}, on + {e}, maxs, s);
    }
  }
}
