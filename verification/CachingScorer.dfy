/** TCachingBinScorer: a greedy run kept per bin and repaired as the background grows, looking
    only at the bins enabled last until the first step that has to change. */
module CachingScorer {
  import opened BinFeatures
  import opened GreedyRuns
  import opened PlainScorer

  // ---------------------------------------------------------------- steps that are still to be repaired

  /** A cached step is unset, with nothing known, or in order as far as the `known` bins go. */
  ghost predicate CachedMax(f: Objective, e: int, home: set<int>, known: set<int>, prefix: seq<Step>, step: Step) {
    (step.cmi <= MAX_UNSET && known == {}) || MaxOk(f, e, home + {e}, known, prefix, step)
  }

  ghost predicate CachedMin(f: Objective, e: int, home: set<int>, known: set<int>, helpers: seq<Step>,
                            prefix: seq<Step>, step: Step) {
    (step.cmi >= MIN_UNSET && known == {}) || MinOk(f, e, home, known, helpers, prefix, step)
  }

  ghost predicate CachedMaxAt(f: Objective, e: int, home: set<int>, known: set<int>, maxs: seq<Step>, s: nat)
    requires s < |maxs|
  {
    CachedMax(f, e, home, known, maxs[..s], maxs[s])
  }

  ghost predicate CachedMinAt(f: Objective, e: int, home: set<int>, known: set<int>, maxs: seq<Step>,
                              mins: seq<Step>, s: nat)
    requires s < |mins|
  {
    CachedMin(f, e, home, known, Helpers(maxs, s), mins[..s], mins[s])
  }

  ghost predicate MaxAhead(f: Objective, e: int, home: set<int>, known: set<int>, maxs: seq<Step>, s: nat) {
    forall i :: s <= i < |maxs| ==> CachedMaxAt(f, e, home, known, maxs, i)
  }

  ghost predicate MinAhead(f: Objective, e: int, home: set<int>, known: set<int>, maxs: seq<Step>, mins: seq<Step>,
                           s: nat) {
    forall i :: s <= i < |mins| ==> CachedMinAt(f, e, home, known, maxs, mins, i)
  }

  function FillFrom(steps: seq<Step>, s: nat, x: Step): (z: seq<Step>)
    ensures |z| == |steps|
    ensures forall i :: 0 <= i < |z| ==> z[i] == if i < s then steps[i] else x
  {
    seq(|steps|, i requires 0 <= i < |steps| => if i < s then steps[i] else x)
  }

  function Resized(steps: seq<Step>, n: nat, x: Step): (z: seq<Step>)
    ensures |z| == n && forall i :: 0 <= i < n ==> z[i] == if i < |steps| then steps[i] else x
  {
    seq(n, i requires 0 <= i < n => if i < |steps| then steps[i] else x)
  }

  const UNSET_MAX: Step := Step(-1, MAX_UNSET)
  const UNSET_MIN: Step := Step(-1, MIN_UNSET)

  // ---------------------------------------------------------------- one maximizing step

  /** One evaluation of bin `e`: the bins on, those of them enabled last, those that were on `before`,
      from which the cached steps are taken, and those of them `known` not to beat any of these steps.
      Until some step changes, only the bins enabled last are looked at; after that everything is looked
      at and nothing is known. A bin on that was neither known nor enabled last may be overlooked. */
  datatype Scope = Scope(e: int, on: set<int>, last: set<int>, before: set<int>, known: set<int>, changed: bool) {
    predicate Valid() { known <= before && before + last <= on && e !in on }

    /** None of the bins enabled last was on before, and there are some. */
    predicate Fresh() { before !! last && exists b :: b in last }

    /** What is taken into account in all. */
    function Seen(): set<int> { known + last }

    function Cand(): set<int> { if changed then on + {e} else last }

    function Home(): set<int> { if changed then on else before }

    function Known(): set<int> { if changed then {} else known }
  }

  lemma MaxWeaken(f: Objective, e: int, home: set<int>, known: set<int>, prefix: seq<Step>, step: Step,
                  home': set<int>, known': set<int>)
    requires MaxOk(f, e, home, known, prefix, step) && home <= home' && known' <= known
    ensures MaxOk(f, e, home', known', prefix, step)
  {
  }

  lemma MinWeaken(f: Objective, e: int, home: set<int>, known: set<int>, helpers: seq<Step>, prefix: seq<Step>,
                  step: Step, home': set<int>, known': set<int>)
    requires CachedMin(f, e, home, known, helpers, prefix, step) && home <= home' && known' <= known
    ensures CachedMin(f, e, home', known', helpers, prefix, step)
  {
  }

  /** The candidates of a step, and the bins already used. */
  lemma CandidatesLeft(f: Objective, c: Scope, maxs: seq<Step>, s: nat)
    requires c.Valid() && (c.changed || c.Fresh()) && s <= |maxs| < |c.on|
    requires forall i :: 0 <= i < s ==> MaxAt(f, c.e, c.Home() + {c.e}, c.Seen(), maxs, i)
    ensures exists b :: b in c.Cand() && b !in BinsOf(maxs[..s])
  {
    if c.changed {
      SubsetSize(c.on, c.Cand());
      Remains(c.Cand(), BinsOf(maxs[..s]));
    } else {
      forall i | 0 <= i < s ensures maxs[i].bin !in c.last {
        assert MaxAt(f, c.e, c.Home() + {c.e}, c.Seen(), maxs, i);
      }
      var b :| b in c.last;
      assert b !in BinsOf(maxs[..s]);
    }
  }

  /** The cached step stands: neither the candidates nor the known bins beat it. */
  lemma MaxKeeps(f: Objective, c: Scope, prefix: seq<Step>, step: Step, b: int)
    requires Ranged(f) && c.Valid()
    requires CachedMax(f, c.e, c.Home(), c.Known(), prefix, step)
    requires forall x :: x in c.Cand() && x !in BinsOf(prefix) ==>
      MaxValue(f, c.e, prefix, x) <= MaxValue(f, c.e, prefix, b)
    requires MaxValue(f, c.e, prefix, b) <= step.cmi
    ensures MaxOk(f, c.e, c.Home() + {c.e}, c.Seen(), prefix, step)
  {
    assert MAX_UNSET < MaxValue(f, c.e, prefix, b);
  }

  /** The best candidate takes its place: the known bins did not even beat the cached step. */
  lemma MaxTakes(f: Objective, c: Scope, prefix: seq<Step>, step: Step, b: int)
    requires Ranged(f) && c.Valid()
    requires CachedMax(f, c.e, c.Home(), c.Known(), prefix, step) && b in c.Cand() && b !in BinsOf(prefix)
    requires forall x :: x in c.Cand() && x !in BinsOf(prefix) ==>
      MaxValue(f, c.e, prefix, x) <= MaxValue(f, c.e, prefix, b)
    requires MaxValue(f, c.e, prefix, b) > step.cmi
    ensures MaxOk(f, c.e, c.on + {c.e}, c.Seen(), prefix, Step(b, MaxValue(f, c.e, prefix, b)))
  {
  }

  /** After a change at step s, everything later is unset, and what is earlier stands. */
  lemma MaxChange(f: Objective, c: Scope, maxs: seq<Step>, s: nat, step: Step)
    requires c.Valid() && s < |maxs|
    requires forall i :: 0 <= i < s ==> MaxAt(f, c.e, c.Home() + {c.e}, c.Seen(), maxs, i)
    requires MaxOk(f, c.e, c.on + {c.e}, c.Seen(), maxs[..s], step)
    ensures var z := FillFrom(maxs[s := step], s + 1, UNSET_MAX);
      && (forall i :: 0 <= i < s + 1 ==> MaxAt(f, c.e, c.on + {c.e}, c.Seen(), z, i))
      && MaxAhead(f, c.e, c.on, {}, z, s + 1)
  {
    var z := FillFrom(maxs[s := step], s + 1, UNSET_MAX);
    forall i | 0 <= i < s + 1 ensures MaxAt(f, c.e, c.on + {c.e}, c.Seen(), z, i) {
      assert z[..i] == maxs[..i];
      if i < s {
        assert MaxAt(f, c.e, c.Home() + {c.e}, c.Seen(), maxs, i);
        MaxWeaken(f, c.e, c.Home() + {c.e}, c.Seen(), maxs[..i], maxs[i], c.on + {c.e}, c.Seen());
      }
    }
  }

  /** The opponents up to step s do not depend on helper s, so they stand as well. */
  lemma MinAfterMaxChange(f: Objective, c: Scope, maxs: seq<Step>, mins: seq<Step>, s: nat, maxs': seq<Step>)
    requires c.Valid() && s < |maxs| == |maxs'| && maxs'[..s] == maxs[..s]
    requires MinAhead(f, c.e, c.Home(), c.Known(), maxs, mins, 0)
    ensures MinAhead(f, c.e, c.on, {}, maxs', FillFrom(mins, s + 1, UNSET_MIN), 0)
  {
    var z := FillFrom(mins, s + 1, UNSET_MIN);
    forall i | 0 <= i < |z| ensures CachedMinAt(f, c.e, c.on, {}, maxs', z, i) {
      if i < s + 1 {
        assert CachedMinAt(f, c.e, c.Home(), c.Known(), maxs, mins, i);
        assert z[..i] == mins[..i] && Helpers(maxs', i) == maxs'[..s][..i] == maxs[..s][..i] == Helpers(maxs, i);
        MinWeaken(f, c.e, c.Home(), c.Known(), Helpers(maxs, i), mins[..i], mins[i], c.on, {});
      }
    }
  }

  // ---------------------------------------------------------------- the maximizing loop

  /** The best bin that is on in `bins` and not among the helpers so far, if there is one. */
  method BestHelper(f: Objective, e: int, bins: Background, prefix: seq<Step>) returns (ok: bool, b: int)
    ensures ok <==> exists x :: x in bins.On() && x !in BinsOf(prefix)
    ensures ok ==> b in bins.On() && b !in BinsOf(prefix)
    ensures ok ==>
      forall x :: x in bins.On() && x !in BinsOf(prefix) ==> MaxValue(f, e, prefix, x) <= MaxValue(f, e, prefix, b)
  {
    var enabled := Without(Indexes(bins.enabled, true, |bins.enabled|), BinsOf(prefix));
    forall x ensures x in bins.On() && x !in BinsOf(prefix) <==> x in enabled { }
    if enabled == [] {
      return false, 0;
    }
    assert enabled[0] in enabled;
    ok := true;
    var value := x => f([e], BinsOf(prefix) + [x]);
    var best := ExtremeElementBy(enabled, value, true);
    b := enabled[best];
    assert b in enabled;
    forall x | x in bins.On() && x !in BinsOf(prefix) ensures value(x) <= value(b) {
      assert x in enabled;
    }
  }

  /** All that the maximizing loop keeps at step s. */
  ghost predicate MaxState(f: Objective, c: Scope, maxs: seq<Step>, mins: seq<Step>, s: nat) {
    && c.Valid() && s <= |maxs| < |c.on|
    && (forall i :: 0 <= i < s ==> MaxAt(f, c.e, c.Home() + {c.e}, c.Seen(), maxs, i))
    && MaxAhead(f, c.e, c.Home(), c.Known(), maxs, s)
    && MinAhead(f, c.e, c.Home(), c.Known(), maxs, mins, 0)
  }

  lemma MaxStateKeeps(f: Objective, c: Scope, maxs: seq<Step>, mins: seq<Step>, s: nat, b: int)
    requires Ranged(f) && MaxState(f, c, maxs, mins, s) && s < |maxs|
    requires forall x :: x in c.Cand() && x !in BinsOf(maxs[..s]) ==>
      MaxValue(f, c.e, maxs[..s], x) <= MaxValue(f, c.e, maxs[..s], b)
    requires MaxValue(f, c.e, maxs[..s], b) <= maxs[s].cmi
    ensures MaxState(f, c, maxs, mins, s + 1)
  {
    assert CachedMaxAt(f, c.e, c.Home(), c.Known(), maxs, s);
    MaxKeeps(f, c, maxs[..s], maxs[s], b);
    assert MaxAt(f, c.e, c.Home() + {c.e}, c.Seen(), maxs, s);
  }

  lemma MaxStateChanges(f: Objective, c: Scope, maxs: seq<Step>, mins: seq<Step>, s: nat, b: int)
    requires Ranged(f) && MaxState(f, c, maxs, mins, s) && s < |maxs| && b in c.Cand() && b !in BinsOf(maxs[..s])
    requires forall x :: x in c.Cand() && x !in BinsOf(maxs[..s]) ==>
      MaxValue(f, c.e, maxs[..s], x) <= MaxValue(f, c.e, maxs[..s], b)
    requires MaxValue(f, c.e, maxs[..s], b) > maxs[s].cmi
    ensures var step := Step(b, MaxValue(f, c.e, maxs[..s], b));
      MaxState(f, c.(changed := true), FillFrom(maxs[s := step], s + 1, UNSET_MAX), FillFrom(mins, s + 1, UNSET_MIN),
        s + 1)
  {
    var step := Step(b, MaxValue(f, c.e, maxs[..s], b));
    var z := FillFrom(maxs[s := step], s + 1, UNSET_MAX);
    assert CachedMaxAt(f, c.e, c.Home(), c.Known(), maxs, s);
    MaxTakes(f, c, maxs[..s], maxs[s], b);
    MaxChange(f, c, maxs, s, step);
    assert z[..s] == maxs[..s];
    MinAfterMaxChange(f, c, maxs, mins, s, z);
  }

  /** Some bin enabled last is not in use after s steps. */
  ghost predicate Unused(last: set<int>, steps: seq<Step>, s: nat)
    requires s <= |steps|
  {
    exists b :: b in last && b !in BinsOf(steps[..s])
  }

  /** In each of the first n steps some bin enabled last is not yet in use. */
  ghost predicate Left(last: set<int>, steps: seq<Step>, n: nat)
    requires n <= |steps|
  {
    n == 0 || Unused(last, steps, n - 1)
  }

  lemma LeftNext(last: set<int>, steps: seq<Step>, s: nat, n: nat)
    requires s < n <= |steps| && !Unused(last, steps, s)
    ensures !Left(last, steps, n)
  {
    forall b | b in last ensures b in BinsOf(steps[..n - 1]) {
      assert b in BinsOf(steps[..s]);
      var i :| 0 <= i < s && BinsOf(steps[..s])[i] == b;
      assert BinsOf(steps[..n - 1])[i] == b;
    }
  }

  /** A greedy helper is not beaten by a bin that it was chosen over. */
  lemma HelperUnbeaten(f: Objective, e: int, home: set<int>, seen: set<int>, maxs: seq<Step>, s: nat, b: int)
    requires MaxRun(f, e, home, seen, maxs) && s < |maxs| && b in seen && b !in BinsOf(maxs[..s])
    ensures MaxValue(f, e, maxs[..s], b) <= maxs[s].cmi
  {
    assert MaxAt(f, e, home, seen, maxs, s);
  }

  /** The maximizing loop. `last` holds the bins enabled last, `background` all bins on and `e`. It
      fails a check when no candidate is left, which needs a bin enabled last that was on before. It changes
      nothing when the helpers are in order for the bins enabled last as well. */
  method MaxPhase(f: Objective, e: int, background: Background, last: Background, maxs0: seq<Step>, mins0: seq<Step>,
                  ghost c0: Scope)
    returns (ok: bool, maxs: seq<Step>, mins: seq<Step>, binsToProcess: Background, ghost c: Scope)
    requires Ranged(f) && MaxState(f, c0, maxs0, mins0, 0) && !c0.changed && c0.e == e && last.Valid()
    requires background.Valid()
    requires last.On() == c0.last && background.On() == c0.on + {c0.e} && |last.enabled| == |background.enabled|
    ensures c0.Fresh() || Left(c0.last, maxs0, |maxs0|) ==> ok
    ensures c == c0.(changed := c.changed) && |maxs| == |maxs0| && |mins| == |mins0|
    ensures !c.changed ==> maxs == maxs0 && mins == mins0
    ensures ok ==> MaxState(f, c, maxs, mins, |maxs|)
    ensures binsToProcess.Valid() && |binsToProcess.enabled| == |background.enabled| && binsToProcess.On() == c.Cand()
    ensures MaxRun(f, e, c0.on + {e}, c0.last, maxs0) ==>
      c == c0 && maxs == maxs0 && mins == mins0 && (ok <==> Left(c0.last, maxs0, |maxs0|))
  {
    ok, maxs, mins, binsToProcess, c := true, maxs0, mins0, last, c0;
    for s := 0 to |maxs0|
      invariant ok
      invariant MaxRun(f, e, c0.on + {e}, c0.last, maxs0) ==>
          c == c0 && maxs == maxs0 && mins == mins0 && Left(c0.last, maxs0, s)
      invariant c == c0.(changed := c.changed) && |maxs| == |maxs0| && |mins| == |mins0|
      invariant !c.changed ==> maxs == maxs0 && mins == mins0
      invariant MaxState(f, c, maxs, mins, s)
      invariant binsToProcess.Valid() && |binsToProcess.enabled| == |background.enabled|
      invariant binsToProcess.On() == c.Cand()
    {
      if c.changed || c.Fresh() { CandidatesLeft(f, c, maxs, s); }
      ghost var maxs1, mins1 := maxs, mins;
      ghost var b, changed;
      ok, maxs, mins, binsToProcess, b, changed := MaxStep(f, e, background, binsToProcess, maxs, mins, s);
      if !ok {
        LeftNext(c0.last, maxs0, s, |maxs0|);
        return;
      }
      if MaxRun(f, e, c0.on + {e}, c0.last, maxs0) { HelperUnbeaten(f, e, c0.on + {e}, c0.last, maxs0, s, b); }
      if changed {
        MaxStateChanges(f, c, maxs1, mins1, s, b);
        c := c.(changed := true);
      } else {
        MaxStateKeeps(f, c, maxs1, mins1, s, b);
      }
    }
  }

  /** The body of the maximizing loop: the best bin left, if it beats step s, replaces it, and what comes
      after it is forgotten. It fails a check when no bin is left. */
  method MaxStep(f: Objective, e: int, background: Background, binsToProcess: Background, maxs: seq<Step>,
                 mins: seq<Step>, s: nat)
    returns (ok: bool, maxs': seq<Step>, mins': seq<Step>, binsToProcess': Background, b: int, changed: bool)
    requires s < |maxs|
    ensures ok <==> exists x :: x in binsToProcess.On() && x !in BinsOf(maxs[..s])
    ensures ok ==> b in binsToProcess.On() && b !in BinsOf(maxs[..s])
    ensures ok ==> forall x :: x in binsToProcess.On() && x !in BinsOf(maxs[..s]) ==>
      MaxValue(f, e, maxs[..s], x) <= MaxValue(f, e, maxs[..s], b)
    ensures changed <==> ok && MaxValue(f, e, maxs[..s], b) > maxs[s].cmi
    ensures changed ==> maxs' == FillFrom(maxs[s := Step(b, MaxValue(f, e, maxs[..s], b))], s + 1, UNSET_MAX)
    ensures changed ==> mins' == FillFrom(mins, s + 1, UNSET_MIN) && binsToProcess' == background
    ensures !changed ==> maxs' == maxs && mins' == mins && binsToProcess' == binsToProcess
  {
    maxs', mins', binsToProcess', changed := maxs, mins, binsToProcess, false;
    ok, b := BestHelper(f, e, binsToProcess, maxs[..s]);
    if !ok {
      return;
    }
    var binCmi := f([e], BinsOf(maxs[..s]) + [b]);
    if binCmi > maxs[s].cmi {
      maxs' := maxs[s := Step(b, binCmi)];
      binsToProcess' := background;
      maxs' := FillFrom(maxs', s + 1, UNSET_MAX);
      mins' := FillFrom(mins, s + 1, UNSET_MIN);
      changed := true;
    }
  }

  /** Bins 0 and 1 are on, 0 was enabled last, and the first helper of bin 2 has not been looked for yet, since
      the bin was not evaluated in the last round or with fewer steps. Then 0 becomes the helper, though 1 is
      better. */
  method SkippedRound(f: Objective) returns (maxs: seq<Step>)
    requires Ranged(f) && MaxValue(f, 2, [], 1) > MaxValue(f, 2, [], 0)
    ensures maxs == [Step(0, MaxValue(f, 2, [], 0))] && !MaxRun(f, 2, {0, 1, 2}, {0, 1}, maxs)
  {
    var background := Background([true, true, true], 0, 1);
    var last := background.LastEnabled();
    forall x ensures x in last.On() <==> x == 0 { assert x in Interval(0, 1) <==> Between(0, x, 1); }
    var start := [UNSET_MAX];
    assert start[..0] == [] && 0 in last.On() && 0 !in BinsOf([]);
    var ok, mins, bins, b, changed;
    ok, maxs, mins, bins, b, changed := MaxStep(f, 2, background, last, start, [UNSET_MIN, UNSET_MIN], 0);
    assert b == 0 && maxs == [Step(0, MaxValue(f, 2, [], 0))];
    assert maxs[..0] == [] && !MaxAt(f, 2, {0, 1, 2}, {0, 1}, maxs, 0);
  }

  // ---------------------------------------------------------------- the minimizing loop

  /** What the minimizing loop looks at in step s. */
  function MinCand(c: Scope, mins: seq<Step>, s: nat): set<int>
    requires s <= |mins|
  {
    (if c.changed then c.on else c.last) - Used(mins[..s])
  }

  ghost predicate MinState(f: Objective, c: Scope, maxs: seq<Step>, mins: seq<Step>, s: nat) {
    && c.Valid() && s <= |mins| <= |c.on|
    && (forall i :: 0 <= i < s ==> MinAt(f, c.e, c.Home(), c.Seen(), maxs, mins, i))
    && MinAhead(f, c.e, c.Home(), c.Known(), maxs, mins, s)
  }

  /** Some candidate is left, and every candidate is still unused. */
  lemma MinCandidates(f: Objective, c: Scope, maxs: seq<Step>, mins: seq<Step>, s: nat)
    requires MinState(f, c, maxs, mins, s) && s < |mins|
    ensures c.changed || c.Fresh() ==> exists b :: b in MinCand(c, mins, s)
    ensures MinCand(c, mins, s) <= c.on - Used(mins[..s])
    ensures c.Seen() - Used(mins[..s]) <= MinCand(c, mins, s) + c.Known()
  {
    if c.changed {
      UsedLeaves(c.on, mins[..s]);
      var b :| b in c.on - Used(mins[..s]);
      assert b in MinCand(c, mins, s);
    } else if c.Fresh() {
      forall i | 0 <= i < s ensures mins[i].bin !in c.last {
        assert MinAt(f, c.e, c.Home(), c.Seen(), maxs, mins, i);
      }
      var b :| b in c.last;
      assert b in MinCand(c, mins, s);
    }
  }

  /** The cached step stands: neither the candidates nor the known bins are below it. */
  lemma MinStands(f: Objective, c: Scope, maxs: seq<Step>, mins: seq<Step>, s: nat, b: int)
    requires Ranged(f) && MinState(f, c, maxs, mins, s) && s < |mins|
    requires var h := Helpers(maxs, s);
      forall x :: x in MinCand(c, mins, s) ==> MinValue(f, c.e, h, mins[..s], x) >= MinValue(f, c.e, h, mins[..s], b)
    requires MinValue(f, c.e, Helpers(maxs, s), mins[..s], b) >= mins[s].cmi
    ensures MinAt(f, c.e, c.Home(), c.Seen(), maxs, mins, s)
  {
    MinCandidates(f, c, maxs, mins, s);
    assert MinValue(f, c.e, Helpers(maxs, s), mins[..s], b) < MIN_UNSET;
    assert CachedMinAt(f, c.e, c.Home(), c.Known(), maxs, mins, s);
    assert forall x :: x in c.Seen() && x !in BinsOf(mins[..s]) ==> x in c.Seen() - Used(mins[..s]);
  }

  lemma MinStateKeeps(f: Objective, c: Scope, maxs: seq<Step>, mins: seq<Step>, s: nat, b: int)
    requires Ranged(f) && MinState(f, c, maxs, mins, s) && s < |mins|
    requires MinAt(f, c.e, c.Home(), c.Seen(), maxs, mins, s)
    ensures MinState(f, c, maxs, mins, s + 1)
    ensures mins[s].bin in c.on && MinCand(c, mins, s + 1) == MinCand(c, mins, s) - {mins[s].bin}
  {
    assert mins[..s + 1] == mins[..s] + [mins[s]];
    UsedSnoc(mins[..s], mins[s]);
  }

  lemma MinTakes(f: Objective, c: Scope, maxs: seq<Step>, mins: seq<Step>, s: nat, b: int)
    requires Ranged(f) && MinState(f, c, maxs, mins, s) && s < |mins| && b in MinCand(c, mins, s)
    requires var h := Helpers(maxs, s);
      forall x :: x in MinCand(c, mins, s) ==> MinValue(f, c.e, h, mins[..s], x) >= MinValue(f, c.e, h, mins[..s], b)
    requires MinValue(f, c.e, Helpers(maxs, s), mins[..s], b) < mins[s].cmi
    ensures MinOk(f, c.e, c.on, c.Seen(), Helpers(maxs, s), mins[..s],
      Step(b, MinValue(f, c.e, Helpers(maxs, s), mins[..s], b)))
  {
    MinCandidates(f, c, maxs, mins, s);
    assert CachedMinAt(f, c.e, c.Home(), c.Known(), maxs, mins, s);
    assert b in c.on - Used(mins[..s]);
    assert forall x :: x in c.Seen() && x !in BinsOf(mins[..s]) ==> x in c.Seen() - Used(mins[..s]);
  }

  lemma MinStateChanges(f: Objective, c: Scope, maxs: seq<Step>, mins: seq<Step>, s: nat, b: int)
    requires Ranged(f) && MinState(f, c, maxs, mins, s) && s < |mins| && b in MinCand(c, mins, s)
    requires var h := Helpers(maxs, s);
      forall x :: x in MinCand(c, mins, s) ==> MinValue(f, c.e, h, mins[..s], x) >= MinValue(f, c.e, h, mins[..s], b)
    requires MinValue(f, c.e, Helpers(maxs, s), mins[..s], b) < mins[s].cmi
    ensures var z := FillFrom(mins[s := Step(b, MinValue(f, c.e, Helpers(maxs, s), mins[..s], b))], s + 1, UNSET_MIN);
      && MinState(f, c.(changed := true), maxs, z, s + 1) && b in c.on
      && MinCand(c.(changed := true), z, s + 1) == c.on - Used(mins[..s]) - {b}
  {
    var step := Step(b, MinValue(f, c.e, Helpers(maxs, s), mins[..s], b));
    var z := FillFrom(mins[s := step], s + 1, UNSET_MIN);
    MinTakes(f, c, maxs, mins, s, b);
    forall i | 0 <= i < s + 1 ensures MinAt(f, c.e, c.on, c.Seen(), maxs, z, i) {
      assert z[..i] == mins[..i];
      if i < s { assert MinAt(f, c.e, c.Home(), c.Seen(), maxs, mins, i); }
    }
    assert z[..s + 1] == mins[..s] + [step];
    UsedSnoc(mins[..s], step);
  }

  /** A greedy opponent is not undercut by a bin that it was chosen over. */
  lemma OpponentUnbeaten(f: Objective, e: int, home: set<int>, seen: set<int>, maxs: seq<Step>, mins: seq<Step>,
                         s: nat, b: int)
    requires MinRun(f, e, home, seen, maxs, mins) && s < |mins| && b in seen - Used(mins[..s])
    ensures MinValue(f, e, Helpers(maxs, s), mins[..s], b) >= mins[s].cmi
  {
    assert MinAt(f, e, home, seen, maxs, mins, s);
  }

  /** One turn of the minimizing loop. */
  method MinStep(f: Objective, e: int, background: Background, binsToProcess: Background, second: seq<int>,
                 maxs: seq<Step>, mins: seq<Step>, s: nat, ghost c: Scope)
    returns (mins': seq<Step>, background': Background, binsToProcess': Background, ghost c': Scope)
    requires Ranged(f) && MinState(f, c, maxs, mins, s) && s < |mins| && c.e == e
    requires Switched(c, mins, s, background, binsToProcess) && exists b :: b in binsToProcess.On()
    requires second == [e] + BinsOf(Helpers(maxs, s))
    ensures MinRun(f, e, c.on, c.last, maxs, mins) && !c.changed ==> mins' == mins && c' == c
    ensures (c.changed ==> c'.changed) && (!c'.changed ==> mins' == mins)
    ensures |mins'| == |mins| && mins'[..s] == mins[..s] && c' == c.(changed := c'.changed)
    ensures MinState(f, c', maxs, mins', s + 1)
    ensures Switched(c', mins', s + 1, background', binsToProcess')
  {
    MinCandidates(f, c, maxs, mins, s);
    var step := WorstStep(f, e, binsToProcess, second, maxs, mins[..s]);
    binsToProcess' := binsToProcess;
    if MinRun(f, e, c.on, c.last, maxs, mins) && !c.changed {
      OpponentUnbeaten(f, e, c.on, c.last, maxs, mins, s, step.bin);
    }
    if step.cmi < mins[s].cmi {
      MinStateChanges(f, c, maxs, mins, s, step.bin);
      mins' := FillFrom(mins[s := step], s + 1, UNSET_MIN);
      binsToProcess' := background;
      c' := c.(changed := true);
    } else {
      MinStands(f, c, maxs, mins, s, step.bin);
      MinStateKeeps(f, c, maxs, mins, s, step.bin);
      mins', c' := mins, c;
    }
    UsedGrows(mins', s);
    assert mins'[..s] == mins[..s];
    binsToProcess' := binsToProcess'.SetBin(mins'[s].bin, false);
    background' := background.SetBin(mins'[s].bin, false);
  }

  lemma UsedGrows(mins: seq<Step>, s: nat)
    requires s < |mins|
    ensures Used(mins[..s + 1]) == Used(mins[..s]) + {mins[s].bin}
    ensures BinsOf(mins[..s + 1]) == BinsOf(mins[..s]) + [mins[s].bin]
  {
    assert mins[..s + 1] == mins[..s] + [mins[s]];
    UsedSnoc(mins[..s], mins[s]);
  }

  /** What has been added to the calculator before step s. */
  predicate Tallied(e: int, maxs: seq<Step>, mins: seq<Step>, s: nat, second: seq<int>, condition: seq<int>)
    requires s <= |mins|
  {
    second == [e] + BinsOf(Helpers(maxs, s)) && condition == BinsOf(mins[..s])
  }

  lemma TalliedNext(e: int, maxs: seq<Step>, mins: seq<Step>, mins': seq<Step>, s: nat, second: seq<int>,
                    condition: seq<int>)
    requires s < |mins| == |mins'| && mins'[..s] == mins[..s] && Tallied(e, maxs, mins, s, second, condition)
    ensures Tallied(e, maxs, mins', s + 1,
                    if s < |maxs| then second + [maxs[s].bin] else second, condition + [mins'[s].bin])
  {
    UsedGrows(mins', s);
    HelpersSnoc(maxs, s);
  }

  /** Which bins are on in the two backgrounds before step s. */
  predicate Switched(c: Scope, mins: seq<Step>, s: nat, background: Background, binsToProcess: Background)
    requires s <= |mins|
  {
    && background.Valid() && binsToProcess.Valid() && |binsToProcess.enabled| == |background.enabled|
    && background.On() == c.on - Used(mins[..s]) && binsToProcess.On() == MinCand(c, mins, s)
    && forall b :: b in c.on ==> 0 <= b < |background.enabled|
  }

  /** The minimizing loop, from what the maximizing loop left, with `e` switched off. */
  method MinPhase(f: Objective, e: int, background0: Background, binsToProcess0: Background, maxs: seq<Step>,
                  mins0: seq<Step>, ghost c0: Scope)
    returns (ok: bool, mins: seq<Step>, value: real, ghost c: Scope)
    requires Ranged(f) && MinState(f, c0, maxs, mins0, 0) && c0.e == e && |mins0| == |maxs| + 1
    requires Switched(c0, mins0, 0, background0, binsToProcess0)
    ensures c0.changed || c0.Fresh() || Left(c0.last, mins0, |mins0|) ==> ok
    ensures |mins| == |mins0| && c == c0.(changed := c.changed)
    ensures ok ==> MinState(f, c, maxs, mins, |mins|) && value == mins[|mins| - 1].cmi
    ensures MinRun(f, e, c0.on, c0.last, maxs, mins0) && !c0.changed ==>
      mins == mins0 && (ok <==> Left(c0.last, mins0, |mins0|))
  {
    var background, binsToProcess := background0, binsToProcess0;
    ok, mins, value, c := true, mins0, 0.0, c0;
    ghost var settled := MinRun(f, e, c0.on, c0.last, maxs, mins0) && !c0.changed;
    var second, condition := [e], [];
    assert mins[..0] == [];
    for s := 0 to |mins0|
      invariant ok && (c0.changed ==> c.changed) && (!c.changed ==> mins == mins0)
      invariant settled ==> c == c0 && mins == mins0 && Left(c0.last, mins0, s)
      invariant |mins| == |mins0| && c == c0.(changed := c.changed) && MinState(f, c, maxs, mins, s)
      invariant Switched(c, mins, s, background, binsToProcess)
      invariant Tallied(e, maxs, mins, s, second, condition)
    {
      ok, mins, background, binsToProcess, second, condition, c :=
        MinTurn(f, e, background, binsToProcess, second, condition, maxs, mins, s, c);
      if !ok {
        LeftNext(c0.last, mins0, s, |mins0|);
        return;
      }
    }
    value := f(second, condition);
    LastValue(f, c, maxs, mins);
  }

  lemma SomeCandidate(c: Scope, mins: seq<Step>, s: nat, bins: Background, count: nat)
    requires s <= |mins| && bins.On() == MinCand(c, mins, s) && count == |bins.On()|
    ensures count > 0 <==> exists b :: b in bins.On()
    ensures !c.changed ==> (count > 0 <==> Unused(c.last, mins, s))
  {
    if b :| b in c.last && b !in BinsOf(mins[..s]) {
      assert !c.changed ==> b in bins.On();
    }
    if b :| b in bins.On() {
      assert !c.changed ==> b in c.last && b !in BinsOf(mins[..s]);
    }
  }

  /** The body of the minimizing loop. It fails a check when no candidate is left. */
  method MinTurn(f: Objective, e: int, background: Background, binsToProcess: Background, second: seq<int>,
                 condition: seq<int>,
                 maxs: seq<Step>, mins: seq<Step>, s: nat, ghost c: Scope)
    returns (ok: bool, mins': seq<Step>, background': Background, binsToProcess': Background,
             second': seq<int>, condition': seq<int>, ghost c': Scope)
    requires Ranged(f) && MinState(f, c, maxs, mins, s) && s < |mins| && c.e == e
    requires Switched(c, mins, s, background, binsToProcess) && Tallied(e, maxs, mins, s, second, condition)
    ensures c.changed || c.Fresh() || Unused(c.last, mins, s) ==> ok
    ensures !c'.changed ==> mins' == mins
    ensures MinRun(f, e, c.on, c.last, maxs, mins) && !c.changed ==>
      mins' == mins && c' == c && (ok <==> Unused(c.last, mins, s))
    ensures c.changed ==> c'.changed
    ensures |mins'| == |mins| && c' == c.(changed := c'.changed)
    ensures ok ==> MinState(f, c', maxs, mins', s + 1) && Switched(c', mins', s + 1, background', binsToProcess')
    ensures ok ==> Tallied(e, maxs, mins', s + 1, second', condition')
  {
    MinCandidates(f, c, maxs, mins, s);
    var count := CountOn(binsToProcess);
    SomeCandidate(c, mins, s, binsToProcess, count);
    ok, mins', background', binsToProcess', second', condition', c' :=
      count > 0, mins, background, binsToProcess, second, condition, c;
    if !ok {
      return;
    }
    mins', background', binsToProcess', c' := MinStep(f, e, background, binsToProcess, second, maxs, mins, s, c);
    TalliedNext(e, maxs, mins, mins', s, second, condition);
    condition' := condition + [mins'[s].bin];
    second' := if s < |maxs| then second + [maxs[s].bin] else second;
  }

  /** The value of the whole run is the value of its last opponent. */
  lemma LastValue(f: Objective, c: Scope, maxs: seq<Step>, mins: seq<Step>)
    requires MinState(f, c, maxs, mins, |mins|) && |mins| == |maxs| + 1
    ensures f([c.e] + BinsOf(Helpers(maxs, |mins|)), BinsOf(mins[..|mins|])) == mins[|maxs|].cmi
  {
    var k := |maxs|;
    assert MinAt(f, c.e, c.Home(), c.Seen(), maxs, mins, k);
    assert maxs[..k] == maxs && mins[..|mins|] == mins[..k + 1];
    UsedGrows(mins, k);
  }

  // ---------------------------------------------------------------- the scorer

  /** A cached entry for `e` has steps taken from `before` that are in order for the bins `known`. Nothing is
      known when it was never evaluated, or with fewer steps than the k that are wanted now. */
  ghost predicate EntryOk(f: Objective, e: int, before: set<int>, known: set<int>, k: nat, entry: BinScore) {
    || (entry.maxSteps == [] && entry.minSteps == [] && known == {})
    || (RunOver(f, e, before, known, |entry.minSteps|, entry.maxSteps, entry.minSteps)
        && (k <= |entry.minSteps| || known == {}))
  }

  /** A run over the bins `on`, greedy as far as those `seen` go, with its score. */
  ghost predicate Evaluated(f: Objective, labelEntropy: real, e: int, on: set<int>, seen: set<int>, k: nat,
                            entry: BinScore)
    requires labelEntropy > 0.0
  {
    k >= 1 && RunOver(f, e, on, seen, k, entry.maxSteps, entry.minSteps)
      && entry.score == entry.minSteps[k - 1].cmi / labelEntropy
  }

  /** Resizing an entry that is in order leaves every step unset or in order. */
  lemma EntryResized(f: Objective, c: Scope, k: nat, entry: BinScore)
    requires c.Valid() && !c.changed && k >= 1 && EntryOk(f, c.e, c.before, c.known, k, entry)
    ensures MaxAhead(f, c.e, c.before, c.known, Resized(entry.maxSteps, k - 1, UNSET_MAX), 0)
    ensures MinAhead(f, c.e, c.before, c.known, Resized(entry.maxSteps, k - 1, UNSET_MAX),
                     Resized(entry.minSteps, k, Step(-1, 1000000.0)), 0)
  {
    var maxs, mins := Resized(entry.maxSteps, k - 1, UNSET_MAX), Resized(entry.minSteps, k, Step(-1, 1000000.0));
    forall i | 0 <= i < |maxs| ensures CachedMaxAt(f, c.e, c.before, c.known, maxs, i) {
      if i < |entry.maxSteps| {
        assert MaxAt(f, c.e, c.before + {c.e}, c.known, entry.maxSteps, i);
        assert maxs[..i] == entry.maxSteps[..i];
      }
    }
    forall i | 0 <= i < |mins| ensures CachedMinAt(f, c.e, c.before, c.known, maxs, mins, i) {
      if i < |entry.minSteps| {
        assert MinAt(f, c.e, c.before, c.known, entry.maxSteps, entry.minSteps, i);
        assert mins[..i] == entry.minSteps[..i];
        assert Helpers(maxs, i) == Helpers(entry.maxSteps, i);
      }
    }
  }

  lemma MaxStart(f: Objective, c: Scope, k: nat, entry: BinScore, maxs: seq<Step>, mins: seq<Step>)
    requires c.Valid() && !c.changed && 1 <= k <= |c.on| && EntryOk(f, c.e, c.before, c.known, k, entry)
    requires maxs == Resized(entry.maxSteps, k - 1, UNSET_MAX)
    requires mins == Resized(entry.minSteps, k, Step(-1, 1000000.0))
    ensures MaxState(f, c, maxs, mins, 0)
  {
    EntryResized(f, c, k, entry);
  }

  lemma Repaired(f: Objective, c: Scope, c': Scope, maxs: seq<Step>, mins: seq<Step>)
    requires c' == c.(changed := c'.changed) && c.Valid()
    requires forall i :: 0 <= i < |maxs| ==> MaxAt(f, c.e, c.Home() + {c.e}, c.Seen(), maxs, i)
    requires MinState(f, c', maxs, mins, |mins|)
    requires |maxs| + 1 == |mins|
    ensures RunOver(f, c.e, c.on, c.Seen(), |mins|, maxs, mins)
  {
    forall s | 0 <= s < |maxs| ensures MaxAt(f, c.e, c.on + {c.e}, c.Seen(), maxs, s) {
      assert MaxAt(f, c.e, c.Home() + {c.e}, c.Seen(), maxs, s);
    }
    forall s | 0 <= s < |mins| ensures MinAt(f, c.e, c.on, c.Seen(), maxs, mins, s) {
      assert MinAt(f, c'.e, c'.Home(), c'.Seen(), maxs, mins, s) && c'.Seen() == c.Seen();
    }
  }

  /** Whether an entry that is in order for all bins on is evaluated once more without a failed check. */
  ghost predicate Again(last: set<int>, entry: BinScore, k: nat)
    requires |entry.maxSteps| + 1 == k == |entry.minSteps|
  {
    Left(last, entry.maxSteps, k - 1) && Left(last, entry.minSteps, k)
  }

  /** With as many bins enabled last as there are steps it always is. */
  lemma EnoughLast(last: set<int>, entry: BinScore, k: nat)
    requires |entry.maxSteps| + 1 == k == |entry.minSteps| && |last| >= k
    ensures Again(last, entry, k)
  {
    if k >= 2 { Remains(last, BinsOf(entry.maxSteps[..k - 2])); }
    Remains(last, BinsOf(entry.minSteps[..k - 1]));
  }

  /** It is not when the only bin enabled last is the first helper, and there are two helpers or more. */
  lemma LastIsHelper(last: set<int>, entry: BinScore, k: nat)
    requires |entry.maxSteps| + 1 == k == |entry.minSteps| && k >= 3 && last == {entry.maxSteps[0].bin}
    ensures !Again(last, entry, k)
  {
    assert BinsOf(entry.maxSteps[..k - 2])[0] == entry.maxSteps[0].bin;
  }

  /** Bins 0, 1 and 2 are on, 0 was enabled last, and bin 3 has been evaluated with three steps: to
      evaluate it again against the same bins fails a check. */
  lemma TwiceFails()
    ensures var f := (second: seq<int>, condition: seq<int>) => 0.0;
      var entry := BinScore(0.0, [Step(0, 0.0), Step(1, 0.0)], [Step(0, 0.0), Step(1, 0.0), Step(2, 0.0)]);
      Ranged(f) && GreedyRun(f, 3, {0, 1, 2}, 3, entry.maxSteps, entry.minSteps) && !Again({0}, entry, 3)
  {
    var f := (second: seq<int>, condition: seq<int>) => 0.0;
    var maxs, mins := [Step(0, 0.0), Step(1, 0.0)], [Step(0, 0.0), Step(1, 0.0), Step(2, 0.0)];
    LastIsHelper({0}, BinScore(0.0, maxs, mins), 3);
    forall s | 0 <= s < 2 ensures MaxAt(f, 3, {0, 1, 2} + {3}, {0, 1, 2}, maxs, s) { }
    forall s | 0 <= s < 3 ensures MinAt(f, 3, {0, 1, 2}, {0, 1, 2}, maxs, mins, s) { }
  }

  /** Both loops; `background` has `e` on. An entry of the size wanted that is in order for the bins enabled
      last does not change. */
  method Repair(f: Objective, e: int, background0: Background, last: Background, k: nat, entry: BinScore,
                ghost c0: Scope)
    returns (ok: bool, maxs: seq<Step>, mins: seq<Step>, value: real)
    requires Ranged(f) && k >= 1 && c0.Valid() && !c0.changed && c0.e == e
    requires EntryOk(f, e, c0.before, c0.known, k, entry)
    requires |c0.on| >= k
    requires last.Valid() && background0.Valid() && |last.enabled| == |background0.enabled|
    requires last.On() == c0.last && background0.On() == c0.on + {e}
    ensures c0.Fresh() ==> ok
    ensures |entry.maxSteps| + 1 == k == |entry.minSteps| && Again(c0.last, entry, k) ==> ok
    ensures ok ==> RunOver(f, e, c0.on, c0.Seen(), k, maxs, mins) && value == mins[k - 1].cmi
    ensures c0.last <= c0.known && k == |entry.minSteps| ==>
      && |entry.maxSteps| + 1 == k && (ok <==> Again(c0.last, entry, k))
      && (ok ==> maxs == entry.maxSteps && mins == entry.minSteps)
  {
    maxs := Resized(entry.maxSteps, k - 1, UNSET_MAX);
    mins := Resized(entry.minSteps, k, Step(-1, 1000000.0));
    MaxStart(f, c0, k, entry, maxs, mins);
    SizedSame(k, entry, maxs, mins);
    if c0.last <= c0.known && k == |entry.minSteps| { OrderedStart(f, c0, k, entry); }
    ok, maxs, mins, value := BothLoops(f, e, background0, last, maxs, mins, c0);
  }

  lemma SizedSame(k: nat, entry: BinScore, maxs: seq<Step>, mins: seq<Step>)
    requires k >= 1
    requires maxs == Resized(entry.maxSteps, k - 1, UNSET_MAX)
    requires mins == Resized(entry.minSteps, k, Step(-1, 1000000.0))
    ensures |entry.maxSteps| + 1 == k == |entry.minSteps| ==> maxs == entry.maxSteps && mins == entry.minSteps
  {
  }

  method BothLoops(f: Objective, e: int, background0: Background, last: Background, maxs0: seq<Step>,
                   mins0: seq<Step>, ghost c0: Scope)
    returns (ok: bool, maxs: seq<Step>, mins: seq<Step>, value: real)
    requires Ranged(f) && MaxState(f, c0, maxs0, mins0, 0) && !c0.changed && c0.e == e && |mins0| == |maxs0| + 1
    requires last.Valid() && background0.Valid() && |last.enabled| == |background0.enabled|
    requires last.On() == c0.last && background0.On() == c0.on + {e}
    ensures c0.Fresh() || (Left(c0.last, maxs0, |maxs0|) && Left(c0.last, mins0, |mins0|)) ==> ok
    ensures ok ==> RunOver(f, e, c0.on, c0.Seen(), |mins0|, maxs, mins) && value == mins[|mins0| - 1].cmi
    ensures RunOver(f, e, c0.on, c0.last, |mins0|, maxs0, mins0) ==>
      && (ok <==> Left(c0.last, maxs0, |maxs0|) && Left(c0.last, mins0, |mins0|))
      && (ok ==> maxs == maxs0 && mins == mins0)
  {
    ghost var c1, c2;
    var binsToProcess;
    value := 0.0;
    ok, maxs, mins, binsToProcess, c1 := MaxPhase(f, e, background0, last, maxs0, mins0, c0);
    if !ok {
      return;
    }
    MinStart(f, c1, maxs, mins, background0, binsToProcess);
    ghost var maxs1, mins1 := maxs, mins;
    assert RunOver(f, e, c0.on, c0.last, |mins0|, maxs0, mins0) ==> c1 == c0 && maxs1 == maxs0 && mins1 == mins0;
    ok, mins, value, c2 := MinPhase(f, e, background0.SetBin(e, false), binsToProcess.SetBin(e, false), maxs, mins, c1);
    if ok { Repaired(f, c1, c2, maxs, mins); }
  }

  /** An entry of the size wanted whose known bins are those enabled last, and perhaps more. */
  lemma OrderedStart(f: Objective, c: Scope, k: nat, entry: BinScore)
    requires c.Valid() && EntryOk(f, c.e, c.before, c.known, k, entry) && c.last <= c.known
    requires 1 <= k == |entry.minSteps|
    ensures RunOver(f, c.e, c.on, c.last, k, entry.maxSteps, entry.minSteps)
  {
    var maxs, mins := entry.maxSteps, entry.minSteps;
    forall i | 0 <= i < |maxs| ensures MaxAt(f, c.e, c.on + {c.e}, c.last, maxs, i) {
      assert MaxAt(f, c.e, c.before + {c.e}, c.known, maxs, i);
    }
    forall i | 0 <= i < |mins| ensures MinAt(f, c.e, c.on, c.last, maxs, mins, i) {
      assert MinAt(f, c.e, c.before, c.known, maxs, mins, i);
    }
  }

  /** The body of Evaluate, on the entry of bin `e`. */
  method EvaluateEntry(f: Objective, labelEntropy: real, background0: Background, e: int, k: nat, entry: BinScore,
                       ghost before: set<int>, ghost known: set<int>)
    returns (ok: bool, r: Result<BinScore>)
    requires Ranged(f) && labelEntropy > 0.0 && k >= 1
    requires background0.Valid() && 0 <= e < |background0.enabled|
    requires EntryOk(f, e, before, known, k, entry) && ScopeOf(background0, e, before, known).Valid()
    ensures ScopeOf(background0, e, before, known).Fresh() ==> ok
    ensures |entry.maxSteps| + 1 == k == |entry.minSteps| && Again(background0.Last(), entry, k) ==> ok
    ensures r.Success? <==> ok && |background0.On()| >= k
    ensures r.Success? ==>
      Evaluated(f, labelEntropy, e, background0.On(), known + background0.Last(), k, r.value)
    ensures !ok ==> |background0.On()| >= k
    ensures Repeated(background0, known, k, entry) ==>
      && |entry.maxSteps| + 1 == k && (ok <==> Again(background0.Last(), entry, k))
      && (ok ==> r.Success? && SameSteps(r.value, entry))
  {
    var last := background0.LastEnabled();
    var background := background0.SetBin(e, true);
    var count := CountOn(background);
    if count < k + 1 {
      return true, Failure;
    }
    var maxs, mins, value;
    ok, maxs, mins, value :=
      Repair(f, e, background, last, k, entry, ScopeOf(background0, e, before, known));
    r := if ok then Success(BinScore(value / labelEntropy, maxs, mins)) else Failure;
  }

  ghost function ScopeOf(bg: Background, e: int, before: set<int>, known: set<int>): Scope {
    Scope(e, bg.On(), bg.Last(), before, known, false)
  }

  /** The entry is in order for the bins enabled last already and has the size wanted, and enough bins are on. */
  ghost predicate Repeated(bg: Background, known: set<int>, k: nat, entry: BinScore) {
    bg.Last() <= known && |entry.minSteps| == k <= |bg.On()|
  }

  predicate SameSteps(a: BinScore, b: BinScore) { a.maxSteps == b.maxSteps && a.minSteps == b.minSteps }

  lemma MinStart(f: Objective, c: Scope, maxs: seq<Step>, mins: seq<Step>, background: Background,
                 binsToProcess: Background)
    requires MaxState(f, c, maxs, mins, |maxs|) && |mins| == |maxs| + 1
    requires background.Valid() && binsToProcess.Valid() && |background.enabled| == |binsToProcess.enabled|
    requires background.On() == c.on + {c.e} && binsToProcess.On() == c.Cand()
    ensures 0 <= c.e < |background.enabled|
    ensures MinState(f, c, maxs, mins, 0)
    ensures Switched(c, mins, 0, background.SetBin(c.e, false), binsToProcess.SetBin(c.e, false))
  {
    assert c.e in background.On();
    assert Used(mins[..0]) == {};
    assert MinCand(c, mins, 0) == c.Cand() - {c.e};
    assert forall b :: b in c.on ==> b in background.On();
  }

  /** Without ties an evaluated entry holds what the plain scorer finds from scratch, helper by
      helper and opponent by opponent, and its score is the plain one over the label's entropy. */
  lemma CachedIsPlain(f: Objective, labelEntropy: real, e: int, on: set<int>, k: nat, entry: BinScore, plain: BinScore)
    requires labelEntropy > 0.0 && Decided(f, e, on) && k <= |on| && Evaluated(f, labelEntropy, e, on, on, k, entry)
    requires |plain.maxSteps| + 1 == k == |plain.minSteps| && plain.score == plain.minSteps[k - 1].cmi
    requires MaxRun(f, e, on + {e}, on + {e}, plain.maxSteps) && MinRun(f, e, on, on, plain.maxSteps, plain.minSteps)
    ensures entry.maxSteps == plain.maxSteps && entry.minSteps == plain.minSteps
    ensures entry.score * labelEntropy == plain.score
  {
    PlainRun(f, e, on, k, plain.maxSteps, plain.minSteps);
    RunUnique(f, e, on, k, entry.maxSteps, entry.minSteps, plain.maxSteps, plain.minSteps);
  }

  class TCachingBinScorer {
    const f: Objective
    const labelEntropy: real
    var Cache: seq<BinScore>

    constructor (f: Objective, labelEntropy: real, binCount: nat)
      ensures this.f == f && this.labelEntropy == labelEntropy && |Cache| == binCount
      ensures forall e :: 0 <= e < binCount ==> Cache[e] == BinScore(0.0, [], [])
    {
      this.f, this.labelEntropy := f, labelEntropy;
      Cache := seq(binCount, _ => BinScore(0.0, [], []));
    }

    /** Evaluates bin `e` against the background. The steps of its entry are taken from the bins `before`
        and in order for those `known`; the run found is in order for these and the bins enabled last, so it
        is a greedy run when they are all that is on. The call returns or throws, but for a failed check
        that needs a bin enabled last that was on before. */
    method Evaluate(background0: Background, e: int, k: nat, ghost before: set<int>, ghost known: set<int>)
      returns (ok: bool, r: Result<BinScore>)
      requires Ranged(f) && labelEntropy > 0.0 && k >= 1
      requires background0.Valid() && |background0.enabled| == |Cache|
      requires 0 <= e < |Cache| ==>
        EntryOk(f, e, before, known, k, Cache[e]) && ScopeOf(background0, e, before, known).Valid()
      modifies this`Cache
      ensures !ok ==> 0 <= e < |old(Cache)| && |background0.On()| >= k
      ensures ScopeOf(background0, e, before, known).Fresh() ==> ok
      ensures 0 <= e < |old(Cache)| ==>
        var entry := old(Cache)[e];
        |entry.maxSteps| + 1 == k == |entry.minSteps| && Again(background0.Last(), entry, k) ==> ok
      ensures r.Success? <==> ok && 0 <= e < |old(Cache)| && |background0.On()| >= k
      ensures ok && r.Failure? ==> Cache == old(Cache)
      ensures 0 <= e < |old(Cache)| && Repeated(background0, known, k, old(Cache)[e]) ==>
        var entry := old(Cache)[e];
        && |entry.maxSteps| + 1 == k && (ok <==> Again(background0.Last(), entry, k))
        && (ok ==> r.Success? && SameSteps(r.value, entry))
      ensures r.Success? ==>
        && Cache == old(Cache)[e := r.value]
        && Evaluated(f, labelEntropy, e, background0.On(), known + background0.Last(), k, r.value)
    {
      if !(0 <= e < |Cache|) {
        return true, Failure;
      }
      ok, r := EvaluateEntry(f, labelEntropy, background0, e, k, Cache[e], before, known);
      if r.Success? {
        Cache := Cache[e := r.value];
      }
    }
  }
}
