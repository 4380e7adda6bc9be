/** When the tuner changes its mind, in plain numbers: what one observation can do, as a
    condition on the scores that were measured. */
module TunerRules {
  import opened Arith
  import opened ThreadPolicy
  import opened TunerScore
  import opened Tuner
  import opened TunerSearch

  /** A valid time in a window that is past its warmup. */
  predicate Taken(t: State, e: Elapsed) {
    e.Finite? && e.us > 0.0 && t.warmup == 0
  }

  /** The score of the open window with this time. */
  function Measured(t: State, e: Elapsed): Score
    requires Taken(t, e)
  {
    ScoreOf(t.samples + [e.us])
  }

  /** More than 5% faster on average, with neither tail more than 5% longer. */
  predicate Beats(a: Score, b: Score) {
    100.0 * a.mean < 95.0 * b.mean && 100.0 * a.p95 <= 105.0 * b.p95 && 100.0 * a.p99 <= 105.0 * b.p99
  }

  /** The incumbent changes exactly if a candidate beats both the incumbent's window before
      its trial and the one after it; the candidate then takes its place. */
  lemma AdoptsExactly(t: State, e: Elapsed)
    requires Inv(t)
    ensures Observe(t, e).best != t.best <==>
              && t.phase == Confirm && Taken(t, e) && |t.samples| == 63
              && Beats(t.trial, t.base) && Beats(t.trial, Measured(t, e))
    ensures Observe(t, e).best != t.best ==>
              Observe(t, e).best == t.candidate && Observe(t, e).changes == t.changes + 1
  {
    if Taken(t, e) && t.phase == Confirm && |t.samples| == 63 {
      BeatsIsImproves(t.trial, t.base);
      BeatsIsImproves(t.trial, Measured(t, e));
    }
  }

  lemma BeatsIsImproves(a: Score, b: Score)
    ensures Improves(a, b) <==> Beats(a, b)
  {
    Fifths(a.p95, b.p95);
    Fifths(a.p99, b.p99);
  }

  lemma Fifths(a: real, b: real)
    ensures a / 1.05 > b <==> 100.0 * a > 105.0 * b
  {
    assert (a / 1.05) * 1.05 == a;
  }

  /** What the comparison is between: the window that begins a trial becomes the baseline, the
      trial's own window its score, and neither changes until the verdict. */
  lemma ScoresAreMeasured(t: State, e: Elapsed)
    requires Inv(t)
    ensures var v := Observe(t, e);
            && (v.phase == Trial && t.phase != Trial ==>
                  t.phase == Base && Taken(t, e) && v.base == Measured(t, e) && v.current == v.candidate)
            && (v.phase == Confirm && t.phase != Confirm ==>
                  t.phase == Trial && Taken(t, e) && v.trial == Measured(t, e) && v.current == v.best)
            && (v.phase == Settled && t.phase != Settled ==>
                  t.phase == Base && Taken(t, e) && v.steady == Measured(t, e))
            && (t.phase == Trial || t.phase == Confirm ==> v.base == t.base && v.candidate == t.candidate)
            && (t.phase == Confirm ==> v.trial == t.trial)
            && (t.phase == Settled ==> v.steady == t.steady)
  {
  }

  /** When a window ends: with its 64th time, or in a trial already with the fourth if the
      four add up to more than one and a half times what the baseline would have taken. */
  lemma WindowEndsExactly(t: State, e: Elapsed)
    requires Inv(t)
    ensures Completes(t, e) <==>
              && Taken(t, e)
              && (|t.samples| == 63
                  || (t.phase == Trial && |t.samples| == 3 && Sum(t.samples + [e.us]) > 6.0 * t.base.mean))
    ensures Completes(t, e) ==> Observe(t, e).samples == []
    ensures Taken(t, e) && !Completes(t, e) ==>
              Observe(t, e).samples == t.samples + [e.us] && Observe(t, e).phase == t.phase
  {
    if Taken(t, e) && |t.samples| == 3 {
      Quarter(Sum(t.samples + [e.us]), t.base.mean);
    }
  }

  lemma Quarter(sum: real, base: real)
    ensures sum / 4.0 / 1.5 > base <==> sum > 6.0 * base
  {
    assert sum / 4.0 / 1.5 * 6.0 == sum;
  }

  /** Times that are not numbers or not positive are ignored; after a change of the worker
      count exactly two valid times are. */
  lemma WarmupExactly(t: State, e: Elapsed)
    requires Inv(t)
    ensures var v := Observe(t, e);
            && (!e.Finite? || e.us <= 0.0 ==> v == t)
            && (e.Finite? && e.us > 0.0 && t.warmup > 0 ==> v == t.(warmup := t.warmup - 1))
            && (v.current != t.current ==> v.warmup == 2)
            && (Taken(t, e) && v.current == t.current ==> v.warmup == 0)
  {
  }

  /** Unlike the incumbent's steady window: over a third slower, over a third faster, or a
      tail more than 5% longer. */
  predicate Drifted(a: Score, steady: Score) {
    || 100.0 * a.mean > 135.0 * steady.mean || 100.0 * a.mean < 65.0 * steady.mean
    || 100.0 * a.p95 > 105.0 * steady.p95 || 100.0 * a.p99 > 105.0 * steady.p99
  }

  /** Valid times left until a settled tuner searches again at the latest. */
  function TimesLeft(t: State): int {
    if t.remaining > 0 then t.remaining - 1 else t.remaining
  }

  /** A settled tuner searches again exactly if, at the end of a window at least 256 times
      after it settled, its time is over or this is the third such window in a row to have
      drifted. */
  lemma LeavesSettledExactly(t: State, e: Elapsed)
    requires Inv(t) && t.phase == Settled
    ensures Observe(t, e).phase != Settled <==>
              && Taken(t, e) && |t.samples| == 63 && TimesLeft(t) <= 16384 - 256
              && (TimesLeft(t) == 0 || (t.drift == 2 && Drifted(Measured(t, e), t.steady)))
    ensures Observe(t, e).phase == Settled ==>
              Observe(t, e).drift ==
              if Taken(t, e) && |t.samples| == 63 && TimesLeft(t) <= 16384 - 256
              then if Drifted(Measured(t, e), t.steady) then t.drift + 1 else 0
              else t.drift
  {
    if Taken(t, e) && |t.samples| == 63 {
      DriftedIsShifted(t, Measured(t, e));
    }
  }

  lemma DriftedIsShifted(t: State, a: Score)
    ensures Shifted(t, a) <==> Drifted(a, t.steady)
  {
    assert (a.mean / 1.35) * 1.35 == a.mean;
    Fifths(a.p95, t.steady.p95);
    Fifths(a.p99, t.steady.p99);
  }

  /** The verdict on a trial, over the whole comparison: if the incumbent changes at the end
      of it, the candidate had beaten the baseline. */
  lemma {:induction false} AdoptionNeedsBaseline(t: State, run: seq<Elapsed>)
    requires Inv(t) && t.phase == Confirm && !Beats(t.trial, t.base)
    ensures AfterComparison(t, run).best == t.best
    decreases |run|
  {
    if run != [] {
      ObserveKeepsInv(t, run[0]);
      AdoptsExactly(t, run[0]);
      ScoresAreMeasured(t, run[0]);
      if Observe(t, run[0]).phase == Confirm {
        AdoptionNeedsBaseline(Observe(t, run[0]), run[1..]);
      }
    }
  }
}
