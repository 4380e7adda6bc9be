/** The adaptive worker tuner (worker_tuner.h): a measured search for the worker count with
    the best frame time, as a state machine over single observations, and the class that
    implements it on a sample buffer it sorts in place. */
module Tuner {
  import opened Arith
  import opened ThreadPolicy
  import opened TunerScore

  const SAMPLES := 64
  const WARMUP := 2
  const RECHECK_FRAMES := 16384
  const COOLDOWN_FRAMES := 256
  const LADDER := [1, 2, 4, 8, 12, 16, 24, 32, 48, 64]

  datatype Phase = Base | Trial | Confirm | Settled

  datatype Elapsed = NotFinite | Finite(us: real)

  /** The tuner between two observations; `samples` are those of the open window, in the
      order they arrived. */
  datatype State = State(
    limit: int, best: int, current: int, candidate: int, cursor: int,
    warmup: int, remaining: int, drift: int, changes: int, samples: seq<real>,
    base: Score, trial: Score, steady: Score, phase: Phase)

  const ZERO := Score(0.0, 0.0, 0.0)

  /** up_worker_tuner_init. */
  function Fresh(initial: int, limit: int): State {
    var top := Clamp(limit, 1, THREADS_MAX);
    var n := if initial < 1 then 1 else if initial > top then top else initial;
    State(top, n, n, 0, 0, WARMUP, 0, 0, 0, [], ZERO, ZERO, ZERO, Base)
  }

  /** up_tuner_next_count, from rung i of the ladder on. */
  function NextFrom(i: nat, previous: int, limit: int): int
    decreases |LADDER| - i
  {
    if i >= |LADDER| then 0
    else if LADDER[i] > previous then (if LADDER[i] < limit then LADDER[i] else limit)
    else NextFrom(i + 1, previous, limit)
  }

  function NextCount(previous: int, limit: int): int {
    if previous >= limit then 0 else NextFrom(0, previous, limit)
  }

  predicate TailRegressed(score: Score, baseline: Score) {
    score.p95 / 1.05 > baseline.p95 || score.p99 / 1.05 > baseline.p99
  }

  predicate Improves(score: Score, baseline: Score) {
    score.mean < baseline.mean * 0.95 && !TailRegressed(score, baseline)
  }

  function Settle(t: State, score: Score): State {
    t.(phase := Settled, current := t.best, steady := score, remaining := RECHECK_FRAMES, drift := 0)
  }

  /** The next count to try: the ladder's next, passing over the incumbent. */
  function NextCursor(t: State): int {
    var c := NextCount(t.cursor, t.limit);
    if c == t.best then NextCount(c, t.limit) else c
  }

  function BeginTrial(t: State, score: Score): State {
    var c := NextCursor(t);
    if c == 0 then Settle(t.(cursor := 0), score)
    else t.(cursor := c, base := score, candidate := c, current := c, phase := Trial)
  }

  function Decide(t: State, score: Score): State {
    var u := if Improves(t.trial, t.base) && Improves(t.trial, score)
             then t.(best := t.candidate, changes := t.changes + 1) else t;
    u.(current := u.best, phase := Base)
  }

  predicate Shifted(t: State, score: Score) {
    || score.mean / 1.35 > t.steady.mean || score.mean < t.steady.mean * 0.65
    || TailRegressed(score, t.steady)
  }

  function Monitor(t: State, score: Score): State {
    if t.remaining > RECHECK_FRAMES - COOLDOWN_FRAMES then t
    else
      var u := t.(drift := if Shifted(t, score) then t.drift + 1 else 0);
      if u.remaining > 0 && u.drift < 3 then u else u.(cursor := 0, phase := Base, drift := 0)
  }

  /** up_tuner_window. */
  function Window(t: State, score: Score): State {
    match t.phase
    case Base => BeginTrial(t, score)
    case Trial => t.(trial := score, current := t.best, phase := Confirm)
    case Confirm => Decide(t, score)
    case Settled => Monitor(t, score)
  }

  predicate TooSlow(t: State) {
    t.phase == Trial && |t.samples| == 4 && ScoreOf(t.samples).mean / 1.5 > t.base.mean
  }

  /** The observation is taken into the window. */
  predicate Counts(t: State, e: Elapsed) {
    e.Finite? && e.us > 0.0 && t.warmup <= 0
  }

  function Sampled(t: State, us: real): State {
    t.(remaining := if t.remaining > 0 then t.remaining - 1 else t.remaining, samples := t.samples + [us])
  }

  /** ... and completes it. */
  predicate Completes(t: State, e: Elapsed) {
    Counts(t, e) && (|t.samples| + 1 >= SAMPLES || TooSlow(Sampled(t, e.us)))
  }

  /** up_worker_tuner_observe. */
  function Observe(t: State, e: Elapsed): State {
    if !e.Finite? || e.us <= 0.0 then t
    else if t.warmup > 0 then t.(warmup := t.warmup - 1)
    else
      var u := Sampled(t, e.us);
      if |u.samples| < SAMPLES && !TooSlow(u) then u
      else
        var v := Window(u, ScoreOf(u.samples));
        v.(samples := [], warmup := if u.current != v.current then WARMUP else v.warmup)
  }

  // ------------------------------------------------------------- the implementation

  /** The tuner on its sample buffer. `arrived` are the samples of the open window before
      the early peek sorted them. */
  class Tuner {
    var limit: int
    var best: int
    var current: int
    var candidate: int
    var cursor: int
    var used: nat
    var warmup: int
    var remaining: int
    var drift: int
    var changes: int
    const samples: array<real>
    var base: Score
    var trial: Score
    var steady: Score
    var phase: Phase
    ghost var arrived: seq<real>

    ghost function View(): State
      reads this
    {
      State(limit, best, current, candidate, cursor, warmup, remaining, drift, changes, arrived,
            base, trial, steady, phase)
    }

    /** The buffer holds the window's samples, in whatever order. */
    ghost predicate Valid()
      reads this, samples
    {
      && samples.Length == SAMPLES && used < SAMPLES && |arrived| == used
      && multiset(samples[..used]) == multiset(arrived)
    }

    constructor (initial: int, limit: int)
      ensures Valid() && View() == Fresh(initial, limit) && fresh(samples)
    {
      var top := limit;
      if top < 1 { top := 1; }
      if top > THREADS_MAX { top := THREADS_MAX; }
      var n := initial;
      if n < 1 { n := 1; }
      if n > top { n := top; }
      this.limit, best, current, candidate, cursor := top, n, n, 0, 0;
      used, warmup, remaining, drift, changes := 0, WARMUP, 0, 0, 0;
      samples := new real[SAMPLES](i => 0.0);
      base, trial, steady, phase := ZERO, ZERO, ZERO, Base;
      arrived := [];
    }

    method SettleNow(score: Score)
      modifies this
      ensures View() == Settle(old(View()), score) && used == old(used)
    {
      phase := Settled;
      current := best;
      steady := score;
      remaining := RECHECK_FRAMES;
      drift := 0;
    }

    method StartTrial(score: Score)
      modifies this
      ensures View() == BeginTrial(old(View()), score) && used == old(used)
    {
      cursor := NextCount(cursor, limit);
      if cursor == best {
        cursor := NextCount(cursor, limit);
      }
      if cursor == 0 {
        SettleNow(score);
        return;
      }
      base := score;
      candidate, current := cursor, cursor;
      phase := Trial;
    }

    method ConfirmTrial(score: Score)
      modifies this
      ensures View() == Decide(old(View()), score) && used == old(used)
    {
      if Improves(trial, base) && Improves(trial, score) {
        best := candidate;
        changes := changes + 1;
      }
      current := best;
      phase := Base;
    }

    method MonitorSteady(score: Score)
      modifies this
      ensures View() == Monitor(old(View()), score) && used == old(used)
    {
      if remaining > RECHECK_FRAMES - COOLDOWN_FRAMES {
        return;
      }
      var shifted := score.mean / 1.35 > steady.mean || score.mean < steady.mean * 0.65
                     || TailRegressed(score, steady);
      drift := if shifted then drift + 1 else 0;
      if remaining > 0 && drift < 3 {
        return;
      }
      cursor := 0;
      phase := Base;
      drift := 0;
    }

    method EndWindow(score: Score)
      modifies this
      ensures View() == Window(old(View()), score) && used == old(used)
    {
      match phase
      case Base => StartTrial(score);
      case Trial =>
        trial := score;
        current := best;
        phase := Confirm;
      case Confirm => ConfirmTrial(score);
      case Settled => MonitorSteady(score);
    }

    /** The early peek after four samples of a trial; it sorts them. */
    method TrialTooSlow() returns (slow: bool)
      requires samples.Length == SAMPLES && 0 < used <= SAMPLES && |arrived| == used
      requires multiset(samples[..used]) == multiset(arrived)
      modifies samples
      ensures slow == TooSlow(View()) && multiset(samples[..used]) == multiset(arrived)
    {
      if phase != Trial || used != 4 {
        return false;
      }
      ghost var was := samples[..used];
      ScoreIgnoresOrder(was, arrived);
      var score := ComputeScore(samples, 4);
      ArrangedIsSorted(was);
      return score.mean / 1.5 > base.mean;
    }

    method AddSample(us: real)
      requires Valid()
      modifies this, samples
      ensures View() == Sampled(old(View()), us) && used == old(used) + 1 == |arrived|
      ensures multiset(samples[..used]) == multiset(arrived)
    {
      if remaining > 0 {
        remaining := remaining - 1;
      }
      ghost var was := samples[..used];
      samples[used] := us;
      used := used + 1;
      arrived := arrived + [us];
      assert samples[..used] == was + [us];
    }

    /** The implementation does what Observe says; in particular the early peek, which
        sorts part of the window before its last samples arrive, changes no score. */
    method ObserveFrame(e: Elapsed)
      requires Valid()
      modifies this, samples
      ensures Valid() && View() == Observe(old(View()), e)
    {
      if !e.Finite? || e.us <= 0.0 {
        return;
      }
      if warmup > 0 {
        warmup := warmup - 1;
        return;
      }
      AddSample(e.us);
      if used < SAMPLES {
        var slow := TrialTooSlow();
        if !slow {
          return;
        }
      }
      CloseWindow();
    }

    method CloseWindow()
      requires samples.Length == SAMPLES && 0 < used <= SAMPLES && |arrived| == used
      requires multiset(samples[..used]) == multiset(arrived)
      modifies this, samples
      ensures Valid()
      ensures var u := old(View());
              var v := Window(u, ScoreOf(u.samples));
              View() == v.(samples := [], warmup := if u.current != v.current then WARMUP else v.warmup)
    {
      var previous := current;
      ScoreIgnoresOrder(samples[..used], arrived);
      var score := ComputeScore(samples, used);
      EndWindow(score);
      used := 0;
      arrived := [];
      if previous != current {
        warmup := WARMUP;
      }
    }
  }
}
