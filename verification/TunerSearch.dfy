/** What the tuner's search does over whole runs of observations: it ends, it tries
    everything, and once settled it stays settled for a while. */
module TunerSearch {
  import opened ThreadPolicy
  import opened TunerScore
  import opened Tuner

  /** The state after a run of observations. */
  function After(t: State, run: seq<Elapsed>): State
    decreases |run|
  {
    if run == [] then t else After(Observe(t, run[0]), run[1..])
  }

  predicate ValidTime(e: Elapsed) {
    e.Finite? && e.us > 0.0
  }

  ghost predicate AllValid(run: seq<Elapsed>) {
    forall i | 0 <= i < |run| :: ValidTime(run[i])
  }

  // ------------------------------------------------------------- the ladder

  /** The next count is the smallest above `previous` on the ladder cut off at the limit;
      there is none exactly if `previous` has reached the limit. */
  lemma NextCountClimbs(previous: int, limit: int)
    requires 0 <= previous <= limit <= THREADS_MAX
    ensures var c := NextCount(previous, limit);
            && (c == 0 <==> previous == limit)
            && (c != 0 ==> previous < c <= limit && (c in LADDER || c == limit))
            && (c != 0 ==> forall m | m in LADDER && previous < m < c :: false)
  {
    NextFromClimbs(0, previous, limit);
  }

  lemma {:induction false} NextFromClimbs(i: nat, previous: int, limit: int)
    requires i <= |LADDER| && 0 <= previous <= limit <= THREADS_MAX
    requires forall k | 0 <= k < i :: LADDER[k] <= previous
    ensures var c := NextFrom(i, previous, limit);
            previous < limit ==>
              && previous < c <= limit && (c in LADDER || c == limit)
              && forall m | m in LADDER && previous < m < c :: false
    decreases |LADDER| - i
  {
    if i == |LADDER| {
      assert LADDER[|LADDER| - 1] == THREADS_MAX;
    } else if LADDER[i] <= previous {
      NextFromClimbs(i + 1, previous, limit);
    }
  }

  /** How many counts the ladder still has above `cursor`. */
  function RungsLeft(cursor: int, limit: int): nat
    requires 0 <= cursor <= limit <= THREADS_MAX
    decreases limit - cursor
  {
    NextCountClimbs(cursor, limit);
    if cursor == limit then 0 else 1 + RungsLeft(NextCount(cursor, limit), limit)
  }

  // ------------------------------------------------------------- the invariant

  ghost predicate Inv(t: State) {
    && 1 <= t.limit <= THREADS_MAX && 1 <= t.best <= t.limit && 1 <= t.current <= t.limit
    && 0 <= t.cursor <= t.limit && 0 <= t.warmup <= WARMUP && 0 <= t.remaining <= RECHECK_FRAMES
    && 0 <= t.drift <= 2 && |t.samples| < SAMPLES
    && (t.phase == Trial ==> t.current == t.candidate != t.best)
    && (t.phase != Trial ==> t.current == t.best)
    && (t.phase == Trial || t.phase == Confirm ==>
          t.candidate == t.cursor >= 1 && t.candidate != t.best && t.base.mean > 0.0)
    && (forall i | 0 <= i < |t.samples| :: t.samples[i] > 0.0)
  }

  lemma FreshInv(initial: int, limit: int)
    ensures Inv(Fresh(initial, limit)) && Fresh(initial, limit).phase == Base && Fresh(initial, limit).cursor == 0
    ensures 1 <= initial <= limit <= 64 ==>
              var t := Fresh(initial, limit);
              t.best == t.current == initial && t.limit == limit && t.warmup == 2 && t.samples == []
  {
  }

  lemma NextCursorClimbs(t: State)
    requires 1 <= t.limit <= THREADS_MAX && 0 <= t.cursor <= t.limit && 1 <= t.best
    ensures var c := NextCursor(t);
            && 0 <= c <= t.limit
            && (c != 0 ==> c > t.cursor && c != t.best && RungsLeft(c, t.limit) < RungsLeft(t.cursor, t.limit))
  {
    var c := NextCount(t.cursor, t.limit);
    NextCountClimbs(t.cursor, t.limit);
    if c == t.best {
      NextCountClimbs(c, t.limit);
    }
  }

  lemma WindowKeepsInv(t: State, score: Score)
    requires Inv(t.(samples := [])) && score.mean > 0.0
    ensures Inv(Window(t, score).(samples := []))
  {
    if t.phase == Base {
      NextCursorClimbs(t);
    }
  }

  lemma ObserveKeepsInv(t: State, e: Elapsed)
    requires Inv(t)
    ensures Inv(Observe(t, e))
  {
    if Completes(t, e) {
      var u := Sampled(t, e.us);
      PositiveMean(u.samples);
      WindowKeepsInv(u, ScoreOf(u.samples));
      assert Inv(Window(u, ScoreOf(u.samples)).(samples := []));
    }
  }

  /** Always: both counts are within the limit, and they differ only during a trial. */
  lemma {:induction false} AlwaysInv(t: State, run: seq<Elapsed>)
    requires Inv(t)
    ensures Inv(After(t, run))
    decreases |run|
  {
    if run != [] {
      ObserveKeepsInv(t, run[0]);
      AlwaysInv(Observe(t, run[0]), run[1..]);
    }
  }

  // ------------------------------------------------------------- the search ends

  const WINDOW := SAMPLES + WARMUP

  /** An upper bound on the valid observations until the search settles. */
  function Effort(t: State): int
    requires 0 <= t.cursor <= t.limit <= THREADS_MAX
  {
    t.warmup + SAMPLES - |t.samples| + 3 * WINDOW * RungsLeft(t.cursor, t.limit)
    + match t.phase
      case Trial => 2 * WINDOW
      case Confirm => WINDOW
      case _ => 0
  }

  /** An upper bound on the windows until then. */
  function WindowsLeft(t: State): int
    requires 0 <= t.cursor <= t.limit <= THREADS_MAX
  {
    1 + 3 * RungsLeft(t.cursor, t.limit)
    + match t.phase
      case Trial => 2
      case Confirm => 1
      case _ => 0
  }

  lemma WindowSpends(t: State, score: Score)
    requires Inv(t.(samples := [])) && score.mean > 0.0 && t.phase != Settled
    ensures var v := Window(t, score);
            && 0 <= v.cursor <= v.limit <= THREADS_MAX
            && (v.phase == Settled || WindowsLeft(v) < WindowsLeft(t))
            && (v.phase == Settled
                || Effort(v.(samples := [], warmup := WARMUP)) <= Effort(t.(samples := [], warmup := 0)) - SAMPLES)
  {
    if t.phase == Base {
      NextCursorClimbs(t);
    }
  }

  /** Every valid observation of a search uses up some of both bounds. */
  lemma ObserveSpends(t: State, e: Elapsed)
    requires Inv(t) && t.phase != Settled && ValidTime(e)
    ensures Inv(Observe(t, e))
    ensures var v := Observe(t, e);
            v.phase == Settled ||
            (Effort(v) < Effort(t) && WindowsLeft(v) <= WindowsLeft(t) - if Completes(t, e) then 1 else 0)
  {
    ObserveKeepsInv(t, e);
    if Completes(t, e) {
      var u := Sampled(t, e.us);
      PositiveMean(u.samples);
      WindowSpends(u, ScoreOf(u.samples));
    }
  }

  /** The run passes through a settled state. */
  ghost predicate Settles(t: State, run: seq<Elapsed>)
    decreases |run|
  {
    t.phase == Settled || (run != [] && Settles(Observe(t, run[0]), run[1..]))
  }

  /** The windows completed on the way. */
  function Windows(t: State, run: seq<Elapsed>): nat
    decreases |run|
  {
    if run == [] || t.phase == Settled then 0
    else (if Completes(t, run[0]) then 1 else 0) + Windows(Observe(t, run[0]), run[1..])
  }

  lemma {:induction false} SearchIsBounded(t: State, run: seq<Elapsed>)
    requires Inv(t) && AllValid(run)
    ensures Windows(t, run) <= if t.phase == Settled then 0 else WindowsLeft(t)
    ensures |run| >= Effort(t) ==> Settles(t, run)
    decreases |run|
  {
    if run != [] && t.phase != Settled {
      assert ValidTime(run[0]);
      ObserveSpends(t, run[0]);
      SearchIsBounded(Observe(t, run[0]), run[1..]);
    }
  }

  lemma AtMostTenRungs(limit: int)
    requires 1 <= limit <= THREADS_MAX
    ensures RungsLeft(0, limit) <= 10
  {
    RungsBound(0, 0, limit);
  }

  /** From a cursor that has climbed k rungs at most |LADDER| - k are left. */
  lemma {:induction false} RungsBound(k: nat, cursor: int, limit: int)
    requires k <= |LADDER| && 0 <= cursor <= limit <= THREADS_MAX
    requires forall m | k <= m < |LADDER| :: LADDER[m] > cursor || cursor == limit
    requires k > 0 ==> cursor >= LADDER[k - 1] || cursor == limit
    ensures RungsLeft(cursor, limit) <= |LADDER| - k
    decreases |LADDER| - k
  {
    if cursor < limit {
      NextCountClimbs(cursor, limit);
      assert k < |LADDER|;
      NextRung(k, cursor, limit);
      RungsBound(k + 1, NextCount(cursor, limit), limit);
    }
  }

  lemma NextRung(k: nat, cursor: int, limit: int)
    requires k < |LADDER| && 0 <= cursor < limit <= THREADS_MAX && LADDER[k] > cursor
    requires k > 0 ==> cursor >= LADDER[k - 1]
    ensures NextCount(cursor, limit) == if LADDER[k] < limit then LADDER[k] else limit
  {
    NextFromRung(0, k, cursor, limit);
  }

  lemma {:induction false} NextFromRung(i: nat, k: nat, cursor: int, limit: int)
    requires i <= k < |LADDER| && LADDER[k] > cursor && (k > 0 ==> cursor >= LADDER[k - 1])
    ensures NextFrom(i, cursor, limit) == if LADDER[k] < limit then LADDER[k] else limit
    decreases k - i
  {
    if i < k {
      assert LADDER[i] <= LADDER[k - 1];
      NextFromRung(i + 1, k, cursor, limit);
    }
  }

  lemma EffortBound(t: State)
    requires Inv(t) && t.phase == Base && RungsLeft(t.cursor, t.limit) <= 10
    ensures WindowsLeft(t) <= 31 && Effort(t) <= 2046
  {
  }

  /** From the start of a search at most 31 windows and 2046 valid observations pass until
      the tuner settles, whatever it measures. */
  lemma SearchSettles(t: State, run: seq<Elapsed>)
    requires Inv(t) && t.phase == Base && t.cursor == 0 && AllValid(run)
    ensures Windows(t, run) <= 31
    ensures |run| >= 2046 ==> Settles(t, run)
  {
    AtMostTenRungs(t.limit);
    EffortBound(t);
    SearchIsBounded(t, run);
  }

  // ------------------------------------------------------------- nothing is left out

  /** The counts one observation deals with: the one it starts a trial of, and the
      incumbent it passes over. */
  function Visited(t: State, e: Elapsed): set<int> {
    if t.phase == Base && Completes(t, e) then {NextCount(t.cursor, t.limit), NextCursor(t)} else {}
  }

  function AllVisited(t: State, run: seq<Elapsed>): set<int>
    decreases |run|
  {
    if run == [] || t.phase == Settled then {} else Visited(t, run[0]) + AllVisited(Observe(t, run[0]), run[1..])
  }

  /** A count dealt with is tried, or is the incumbent at its turn, or means the end. */
  lemma VisitedMeans(t: State, e: Elapsed, c: int)
    requires Inv(t) && c in Visited(t, e)
    ensures || c == 0
            || (c == t.best && c == NextCount(t.cursor, t.limit))
            || (Observe(t, e).phase == Trial && Observe(t, e).current == c)
  {
  }

  /** A ladder count up to the limit, or the limit itself. */
  predicate OnLadder(c: int, limit: int) {
    1 <= c <= limit && (c in {1, 2, 4, 8, 12, 16, 24, 32, 48, 64} || c == limit)
  }

  lemma WindowVisits(t: State, score: Score, c: int)
    requires Inv(t.(samples := [])) && t.phase == Base && OnLadder(c, t.limit) && t.cursor < c
    ensures var v := Window(t, score);
            v.limit == t.limit && (c <= v.cursor || v.phase == Settled ==>
                c in {NextCount(t.cursor, t.limit), NextCursor(t)})
  {
    var n := NextCount(t.cursor, t.limit);
    NextCountClimbs(t.cursor, t.limit);
    if n == t.best {
      NextCountClimbs(n, t.limit);
    }
  }

  lemma CursorKept(t: State, e: Elapsed)
    requires Inv(t) && t.phase != Settled && !(t.phase == Base && Completes(t, e))
    ensures Observe(t, e).cursor == t.cursor && Observe(t, e).phase != Settled && Observe(t, e).limit == t.limit
  {
  }

  /** When a search that started from the bottom settles, every count of the ladder up to
      the limit has been tried or was the incumbent at its turn. */
  lemma {:induction false} EverythingVisited(t: State, run: seq<Elapsed>, c: int)
    requires Inv(t) && t.phase != Settled && OnLadder(c, t.limit) && t.cursor < c && Settles(t, run)
    ensures c in AllVisited(t, run)
    decreases |run|
  {
    ObserveKeepsInv(t, run[0]);
    var v := Observe(t, run[0]);
    if t.phase == Base && Completes(t, run[0]) {
      var u := Sampled(t, run[0].us);
      WindowVisits(u, ScoreOf(u.samples), c);
      if c !in Visited(t, run[0]) {
        EverythingVisited(v, run[1..], c);
      }
    } else {
      CursorKept(t, run[0]);
      EverythingVisited(v, run[1..], c);
    }
  }

  // ------------------------------------------------------------- settled

  /** n valid observations after settling. */
  ghost predicate SettledFor(t: State, n: nat) {
    && t.phase == Settled && t.warmup == 0 && t.current == t.best
    && t.remaining + n == RECHECK_FRAMES && |t.samples| == n % SAMPLES && n < RECHECK_FRAMES
    && t.drift <= (if n < 4 * SAMPLES then 0 else n / SAMPLES - 3) && t.drift <= 2
  }

  /** Settling starts the count. */
  lemma JustSettled(t: State, e: Elapsed)
    requires Inv(t) && t.phase != Settled && Observe(t, e).phase == Settled
    ensures SettledFor(Observe(t, e), 0)
  {
  }

  /** One more observation: the tuner stays settled, unless at least 384 have passed; at
      16384 it leaves. */
  lemma SettledStep(t: State, n: nat, e: Elapsed)
    requires Inv(t) && SettledFor(t, n) && ValidTime(e)
    ensures var v := Observe(t, e);
            && v.current == t.current && v.best == t.best
            && (SettledFor(v, n + 1) || (v.phase == Base && v.cursor == 0 && 384 <= n + 1 <= RECHECK_FRAMES))
  {
    var u := Sampled(t, e.us);
    if |u.samples| == SAMPLES {
      var q := n / SAMPLES;
      assert n + 1 == SAMPLES * (q + 1);
    } else {
      assert (n + 1) / SAMPLES == n / SAMPLES;
    }
  }

  /** How many of the observations pass before a new search begins. */
  function Dwell(t: State, run: seq<Elapsed>): (n: nat)
    ensures n <= |run|
    decreases |run|
  {
    if run == [] || t.phase != Settled then 0 else 1 + Dwell(Observe(t, run[0]), run[1..])
  }

  lemma {:induction false} DwellBounds(t: State, n: nat, run: seq<Elapsed>)
    requires Inv(t) && SettledFor(t, n) && AllValid(run)
    ensures n + Dwell(t, run) <= RECHECK_FRAMES
    ensures Dwell(t, run) < |run| ==> 384 <= n + Dwell(t, run)
    ensures After(t, run[..Dwell(t, run)]).current == t.current
    decreases |run|
  {
    if run != [] {
      assert ValidTime(run[0]);
      SettledStep(t, n, run[0]);
      ObserveKeepsInv(t, run[0]);
      var v := Observe(t, run[0]);
      if v.phase == Settled {
        DwellBounds(v, n + 1, run[1..]);
      }
      assert run[..Dwell(t, run)][1..] == run[1..][..Dwell(v, run[1..])];
    }
  }

  /** A tuner that settles keeps its worker count for at least 384 and at most 16384 valid
      observations before it searches again. */
  lemma SettledDwell(t: State, e: Elapsed, run: seq<Elapsed>)
    requires Inv(t) && t.phase != Settled && Observe(t, e).phase == Settled && AllValid(run)
    ensures var s := Observe(t, e);
            && Dwell(s, run) <= 16384 && (Dwell(s, run) < |run| ==> 384 <= Dwell(s, run))
            && After(s, run[..Dwell(s, run)]).current == s.best
  {
    JustSettled(t, e);
    ObserveKeepsInv(t, e);
    DwellBounds(Observe(t, e), 0, run);
  }

  // ------------------------------------------------------------- trials cut short

  /** The trial was clearly slower than the baseline it is compared with. */
  ghost predicate Doomed(t: State) {
    t.phase == Confirm && t.base.mean > 0.0 && t.trial.mean / 1.5 > t.base.mean
  }

  lemma CutTrialIsDoomed(t: State, e: Elapsed)
    requires Inv(t) && t.phase == Trial && ValidTime(e) && t.warmup == 0 && TooSlow(Sampled(t, e.us))
    ensures Doomed(Observe(t, e)) && Observe(t, e).best == t.best
  {
  }

  lemma DoomedStep(t: State, e: Elapsed)
    requires Inv(t) && Doomed(t)
    ensures var v := Observe(t, e); v.best == t.best && (Doomed(v) || v.phase == Base)
  {
  }

  /** The state when the comparison of a trial is over, or when the run is. */
  function AfterComparison(t: State, run: seq<Elapsed>): State
    decreases |run|
  {
    if run == [] || t.phase != Confirm then t else AfterComparison(Observe(t, run[0]), run[1..])
  }

  lemma {:induction false} DoomedIsRejected(t: State, run: seq<Elapsed>)
    requires Inv(t) && Doomed(t)
    ensures AfterComparison(t, run).best == t.best
    decreases |run|
  {
    if run != [] {
      DoomedStep(t, run[0]);
      ObserveKeepsInv(t, run[0]);
      if Observe(t, run[0]).phase == Confirm {
        DoomedIsRejected(Observe(t, run[0]), run[1..]);
      }
    }
  }

  /** A trial cut short after four samples as too slow is never adopted: whatever is
      measured afterwards, its comparison leaves the incumbent in place. */
  lemma CutTrialNeverAdopted(t: State, e: Elapsed, run: seq<Elapsed>)
    requires Inv(t) && t.phase == Trial && ValidTime(e) && t.warmup == 0 && TooSlow(Sampled(t, e.us))
    ensures Observe(t, e).phase == Confirm && AfterComparison(Observe(t, e), run).best == t.best
  {
    CutTrialIsDoomed(t, e);
    ObserveKeepsInv(t, e);
    DoomedIsRejected(Observe(t, e), run);
  }
}
