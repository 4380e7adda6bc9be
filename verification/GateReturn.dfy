/** Dispatches and retirements return: what holds when they have, when they can hang, and
    what rules that out. */
module GateReturn {
  import opened Gate
  import opened GateSafety
  import opened GateRuns
  import opened GateProgress
  import opened GateBound

  // ------------------------------------------------------------- what rules a hang out

  ghost predicate NotStuck(s: State) {
    s.gate != Stuck && s.doneLock != Stuck
  }

  /** The exit request has been broadcast: nobody sleeps, and nobody will again. */
  ghost predicate Awake(s: State) {
    s.exitRequested && forall i | 0 <= i < |s.workers| :: s.workers[i].pc != Asleep
  }

  /** The worker is gone or has been cancelled. */
  predicate Told(w: Worker) {
    w.cancelled || w.pc == Exited
  }

  ghost predicate AllTold(s: State, n: nat) {
    forall i | 0 <= i < n && i < |s.workers| :: Told(s.workers[i])
  }

  /** No mutex is lost, and every worker hears of a retirement one way or the other. */
  ghost predicate Heard(s: State) {
    && NotStuck(s)
    && (s.main == SUnlock(true) ==> Awake(s))
    && (s.main.SCancel? ==> AllTold(s, s.main.k))
    && (s.main.SJoin? || s.main.PSpin? ==> Awake(s) || AllTold(s, |s.workers|))
  }

  /** No mutex gets stuck, and cancellations are accepted; anything else may fail. */
  ghost predicate Allowed(s: State, e: Event) {
    ChoiceOf(e) != FailStuck && (e.OwnerMoves? && s.main.SCancel? ==> ChoiceOf(e) == Good)
  }

  ghost predicate AllAllowed(s: State, run: seq<Event>)
    requires Happens(s, run)
    decreases |run|
  {
    run == [] || (Allowed(s, run[0]) && AllAllowed(Do(s, run[0]), run[1..]))
  }

  lemma WorkerKeepsUnstuck(s: State, i: nat, c: Choice)
    requires i < |s.workers| && WorkerEnabled(s, i, c) && NotStuck(s) && c != FailStuck
    ensures var e := WorkerEffect(s, i, c); e.gate != Stuck && e.doneLock != Stuck
  {
  }

  lemma WorkerStaysTold(s: State, i: nat, c: Choice)
    requires i < |s.workers| && WorkerEnabled(s, i, c)
    ensures var w := WorkerEffect(s, i, c).w;
            && (Told(s.workers[i]) ==> Told(w))
            && (s.exitRequested && s.workers[i].pc != Asleep ==> w.pc != Asleep)
  {
  }

  lemma WorkerKeepsHeard(s: State, i: nat, c: Choice)
    requires i < |s.workers| && WorkerEnabled(s, i, c) && Heard(s) && c != FailStuck
    ensures Heard(WorkerStep(s, i, c))
  {
    WorkerKeepsUnstuck(s, i, c);
    WorkerStaysTold(s, i, c);
  }

  lemma DispatchKeepsUnstuck(s: State, c: Choice, request: bool)
    requires MainEnabled(s, c, request) && InDispatch(s.main) && NotStuck(s) && c != FailStuck
    ensures NotStuck(DispatchStep(s, c, request))
  {
  }

  lemma DispatchStartsNoRetreat(s: State, c: Choice, request: bool)
    requires MainEnabled(s, c, request) && InDispatch(s.main)
    ensures !Retiring(DispatchStep(s, c, request).main)
  {
  }

  lemma DispatchKeepsHeard(s: State, c: Choice, request: bool)
    requires MainEnabled(s, c, request) && InDispatch(s.main) && Heard(s) && c != FailStuck
    ensures Heard(DispatchStep(s, c, request))
  {
    DispatchKeepsUnstuck(s, c, request);
    DispatchStartsNoRetreat(s, c, request);
  }

  lemma BarrierKeepsUnstuck(s: State, c: Choice)
    requires MainEnabled(s, c, false) && InBarrier(s.main) && NotStuck(s) && c != FailStuck
    ensures NotStuck(BarrierStep(s, c))
  {
  }

  lemma BarrierStartsNoRetreat(s: State, c: Choice)
    requires MainEnabled(s, c, false) && InBarrier(s.main)
    ensures !Retiring(BarrierStep(s, c).main)
  {
  }

  lemma BarrierKeepsHeard(s: State, c: Choice)
    requires MainEnabled(s, c, false) && InBarrier(s.main) && Heard(s) && c != FailStuck
    ensures Heard(BarrierStep(s, c))
  {
    BarrierKeepsUnstuck(s, c);
    BarrierStartsNoRetreat(s, c);
  }

  lemma RequestKeepsHeard(s: State, c: Choice)
    requires MainEnabled(s, c, false) && InRequest(s.main) && Heard(s) && PhaseOk(s) && c != FailStuck
    ensures Heard(RequestStep(s, c))
  {
  }

  lemma CancelKeepsHeard(s: State)
    requires MainEnabled(s, Good, false) && s.main.SCancel? && Heard(s) && JoinedOk(s)
    ensures Heard(ReapStep(s, Good))
  {
  }

  lemma JoinKeepsHeard(s: State, c: Choice)
    requires |s.joined| == |s.workers| && MainEnabled(s, c, false) && (s.main.SJoin? || s.main.PSpin?) && Heard(s)
    ensures Heard(ReapStep(s, c))
  {
  }

  lemma OwnerKeepsHeard(s: State, c: Choice, request: bool)
    requires Inv(s) && Heard(s) && MainEnabled(s, c, request) && Allowed(s, OwnerMoves(c, request))
    ensures Heard(MainStep(s, c, request))
  {
    var u := Noted(s, c);
    if InDispatch(s.main) {
      DispatchKeepsHeard(u, c, request);
    } else if InBarrier(s.main) {
      BarrierKeepsHeard(u, c);
    } else if InRequest(s.main) {
      RequestKeepsHeard(u, c);
    } else if s.main.SCancel? {
      CancelKeepsHeard(u);
    } else {
      JoinKeepsHeard(u, c);
    }
  }

  lemma {:induction false} RunKeepsHeard(s: State, run: seq<Event>)
    requires Inv(s) && Heard(s) && Happens(s, run) && AllAllowed(s, run)
    ensures Inv(After(s, run)) && Heard(After(s, run))
    decreases |run|
  {
    if run != [] {
      StepKeepsInv(s, run[0]);
      match run[0] {
        case WorkerMoves(i, c) => WorkerKeepsHeard(s, i, c);
        case OwnerMoves(c, request) => OwnerKeepsHeard(s, c, request);
      }
      RunKeepsHeard(Do(s, run[0]), run[1..]);
    }
  }

  lemma ReapedInTime(s: State, k: nat)
    requires Heard(s) && (s.main.SJoin? || s.main.PSpin?) && k < |s.workers|
    ensures !Forgotten(s.workers[k]) && !Walled(s, s.workers[k])
  {
  }

  /** With every mutex in order only the timed wait can stand still, and only after a
      failure. */
  lemma HeardMoves(s: State)
    requires Inv(s) && Heard(s) && Standstill(s)
    ensures s.main == WAsleep
  {
    if (s.main.SJoin? || s.main.PSpin?) && s.main.k < |s.workers| {
      ReapedInTime(s, s.main.k);
    }
  }

  // ------------------------------------------------------------- after a failed request

  /** A call of the exit request has failed on the run. */
  ghost predicate RequestFailed(s: State, run: seq<Event>)
    requires Happens(s, run)
    decreases |run|
  {
    run != [] &&
    ((InRequest(s.main) && run[0].OwnerMoves? && Bad(ChoiceOf(run[0]))) || RequestFailed(Do(s, run[0]), run[1..]))
  }

  /** No cancellation on the run is refused. */
  ghost predicate Accepted(s: State, run: seq<Event>)
    requires Happens(s, run)
    decreases |run|
  {
    run == []
    || ((run[0].OwnerMoves? && s.main.SCancel? ==> ChoiceOf(run[0]) == Good) && Accepted(Do(s, run[0]), run[1..]))
  }

  /** On the way through the cancellations. */
  ghost predicate Cancelling(s: State) {
    || s.main == SUnlock(false) || s.main == SMark
    || (s.syncFailed && s.main.SCancel? && AllTold(s, s.main.k))
    || (s.syncFailed && (s.main.SJoin? || s.main.PSpin? || s.main == Idle(Poisoned)) && AllTold(s, |s.workers|))
  }

  lemma WorkerKeepsCancelling(s: State, i: nat, c: Choice)
    requires i < |s.workers| && WorkerEnabled(s, i, c) && Cancelling(s)
    ensures Cancelling(WorkerStep(s, i, c))
  {
    WorkerStaysTold(s, i, c);
    WorkerKeepsFlag(s, i, c);
  }

  lemma WorkerKeepsFlag(s: State, i: nat, c: Choice)
    requires i < |s.workers| && WorkerEnabled(s, i, c)
    ensures s.syncFailed ==> WorkerEffect(s, i, c).syncFailed
  {
  }

  lemma RequestStartsCancelling(s: State, c: Choice)
    requires MainEnabled(s, c, false) && InRequest(s.main)
    ensures Bad(c) || Cancelling(s) ==> Cancelling(RequestStep(s, c))
  {
  }

  lemma ReapKeepsCancelling(s: State, c: Choice)
    requires |s.joined| == |s.workers| && MainEnabled(s, c, false) && InReap(s.main) && Cancelling(s) && JoinedOk(s)
    requires s.main.SCancel? ==> c == Good
    ensures Cancelling(ReapStep(s, c))
  {
  }

  lemma CancellingIsLate(s: State)
    requires Cancelling(s) && !s.main.Idle?
    ensures InRequest(s.main) || InReap(s.main)
    ensures !InDispatch(s.main) && !InBarrier(s.main)
  {
  }

  lemma OwnerKeepsCancelling(s: State, c: Choice, request: bool)
    requires JoinedOk(s) && !s.main.Idle? && MainEnabled(s, c, request) && (s.main.SCancel? ==> c == Good)
    ensures Cancelling(s) || (InRequest(s.main) && Bad(c)) ==> Cancelling(MainStep(s, c, request))
  {
    var u := Noted(s, c);
    if InRequest(s.main) {
      RequestStartsCancelling(u, c);
    } else if Cancelling(s) {
      CancellingIsLate(s);
      ReapKeepsCancelling(u, c);
    }
  }

  lemma StepKeepsCancelling(s: State, e: Event)
    requires Inv(s) && !s.main.Idle? && Can(s, e) && (e.OwnerMoves? && s.main.SCancel? ==> ChoiceOf(e) == Good)
    requires Cancelling(s) || (InRequest(s.main) && e.OwnerMoves? && Bad(ChoiceOf(e)))
    ensures Cancelling(Do(s, e))
  {
    match e
    case WorkerMoves(i, c) => WorkerKeepsCancelling(s, i, c);
    case OwnerMoves(c, request) => OwnerKeepsCancelling(s, c, request);
  }

  lemma {:induction false} RunCancels(s: State, run: seq<Event>)
    requires Inv(s) && BusyRun(s, run) && Happens(s, run) && Accepted(s, run)
    requires Cancelling(s) || RequestFailed(s, run)
    ensures Cancelling(After(s, run))
    decreases |run|
  {
    if run != [] {
      StepKeepsInv(s, run[0]);
      if Cancelling(s) || (InRequest(s.main) && run[0].OwnerMoves? && Bad(ChoiceOf(run[0]))) {
        StepKeepsCancelling(s, run[0]);
      }
      RunCancels(Do(s, run[0]), run[1..]);
    }
  }

  /** If any call of the exit request fails, every worker is cancelled, unless it is gone or
      its cancellation is refused, before the first one is waited for. */
  lemma FailedRequestCancels(n: nat, before: seq<Event>, s: State, run: seq<Event>)
    requires Reaches(n, before, s) && BusyRun(s, run) && Happens(s, run)
    requires Accepted(s, run) && RequestFailed(s, run)
    ensures var t := After(s, run);
            t.main.SJoin? || t.main.PSpin? || t.main == Idle(Poisoned) ==>
              t.syncFailed && forall i | 0 <= i < |t.workers| :: t.workers[i].cancelled || t.workers[i].pc == Exited
  {
    ReachedInv(n, before, s);
    RunCancels(s, run);
  }

  // ------------------------------------------------------------- what holds at the end

  /** The workers that left in order have run everything. */
  ghost predicate RetiredInOrder(t: State) {
    && AllExited(t)
    && forall i | 0 <= i < |t.workers| && !t.workers[i].bad && !t.workers[i].cancelled ::
       RanAll(t.workers[i], t.generation)
  }

  lemma PoisonedInOrder(t: State)
    requires Inv(t) && t.main == Idle(Poisoned)
    ensures RetiredInOrder(t)
  {
    forall i | 0 <= i < |t.workers|
      ensures t.workers[i].pc == Exited
      ensures !t.workers[i].bad && !t.workers[i].cancelled ==> RanAll(t.workers[i], t.generation)
    {
      assert WorkerOk(t, i);
      assert SpunOk(t) && PhaseOk(t);
    }
  }

  /** Every worker has run every generation exactly once and is gone. */
  ghost predicate RetiredWhole(t: State) {
    AllExited(t) && forall i | 0 <= i < |t.workers| :: RanAll(t.workers[i], t.generation)
  }

  lemma PoisonedIsWhole(t: State)
    requires Inv(t) && Healthy(t) && t.main == Idle(Poisoned)
    ensures RetiredWhole(t)
  {
    forall i | 0 <= i < |t.workers| ensures RanAll(t.workers[i], t.generation) && t.workers[i].pc == Exited {
      assert WorkerOk(t, i);
      assert HealthyWorker(t.workers[i]);
      assert SpunOk(t) && PhaseOk(t);
    }
  }

  /** The deadline has passed and the last look at the count finds a worker unfinished. */
  predicate Late(s: State) {
    s.main == WFinalCheck && s.pending > 0
  }

  ghost predicate WasLate(s: State, run: seq<Event>)
    requires Happens(s, run)
    decreases |run|
  {
    run != [] && (Late(s) || WasLate(Do(s, run[0]), run[1..]))
  }

  /** On the way of a dispatch that meets no failure and is not late. */
  ghost predicate OnCourse(pc: MainPc) {
    || pc.DLock? || pc.DArm? || pc.DBroadcast? || pc.DUnlock? || pc.WSync? || pc.WLock? || pc.WCheckSync?
    || pc.WCheckPending? || pc.WGoWait? || pc.WAsleep? || pc.WWoken? || pc.WFinalCheck? || pc == WUnlock(true)
    || pc.WPending? || pc.WSyncFinal? || pc == Idle(Dispatched)
  }

  /** No timeout so far. */
  ghost predicate InTime(pc: MainPc) {
    OnCourse(pc) && pc != WWoken(TimedOut) && pc != WFinalCheck
  }

  lemma StepStaysOnCourse(s: State, e: Event)
    requires HealthyMain(s) && !s.main.Idle? && Can(s, e) && !Bad(ChoiceOf(e)) && s.pending >= 0
    ensures OnCourse(s.main) && !Late(s) ==> OnCourse(Do(s, e).main)
    ensures InTime(s.main) && ChoiceOf(e) != Expire ==> InTime(Do(s, e).main)
  {
  }

  lemma {:induction false} HealthyRunEnds(s: State, run: seq<Event>)
    requires Inv(s) && (s.failed || Healthy(s)) && BusyRun(s, run) && Happens(s, run)
    ensures After(s, run).failed || Healthy(After(s, run))
    ensures !After(s, run).failed && OnCourse(s.main) && !WasLate(s, run) ==> OnCourse(After(s, run).main)
    ensures !After(s, run).failed && InTime(s.main) && Count(run, Expire) == 0 ==> InTime(After(s, run).main)
    decreases |run|
  {
    if run != [] {
      var t := Do(s, run[0]);
      StepKeepsInv(s, run[0]);
      StepStaysHealthy(s, run[0]);
      FailureIsRecorded(s, run[0]);
      if t.failed {
        FailureStays(t, run[1..]);
      }
      if !s.failed && !Bad(ChoiceOf(run[0])) {
        StepStaysOnCourse(s, run[0]);
      }
      HealthyRunEnds(t, run[1..]);
    }
  }

  lemma {:induction false} FailureStays(s: State, run: seq<Event>)
    requires Happens(s, run) && s.failed
    ensures After(s, run).failed
    decreases |run|
  {
    if run != [] {
      FailureIsRecorded(s, run[0]);
      FailureStays(Do(s, run[0]), run[1..]);
    }
  }

  // ------------------------------------------------------------- the theorems

  /** What holds after any part of a call, whichever. */
  lemma CallLeaves(n: nat, before: seq<Event>, s: State, run: seq<Event>)
    requires Reaches(n, before, s) && BusyRun(s, run) && Happens(s, run)
    ensures var t := After(s, run);
            && (!CanProgress(t) <==> Standstill(t))
            && (t.main == Idle(Poisoned) ==> RetiredInOrder(t))
            && (Heard(s) && AllAllowed(s, run) && !CanProgress(t) ==> t.main == WAsleep)
            && (!t.failed ==> CanProgress(t) && (t.main == Idle(Poisoned) ==> RetiredWhole(t)))
            && (!t.failed && OnCourse(s.main) && !WasLate(s, run) ==> OnCourse(t.main))
            && (!t.failed && InTime(s.main) && Count(run, Expire) == 0 ==> InTime(t.main))
  {
    var t := After(s, run);
    ReachedInv(n, before, s);
    ReachesFurther(n, before, s, run);
    NoDeadlock(n, before + run, t);
    ReachedInv(n, before + run, t);
    if t.main == Idle(Poisoned) {
      PoisonedInOrder(t);
    }
    if Heard(s) && AllAllowed(s, run) && Standstill(t) {
      RunKeepsHeard(s, run);
      HeardMoves(t);
    }
    if !t.failed {
      ReachedHealthy(n, before + run, t);
      HealthyCall(n, before, s, run);
      if t.main == Idle(Poisoned) {
        PoisonedIsWhole(t);
      }
    }
  }

  lemma HealthyCall(n: nat, before: seq<Event>, s: State, run: seq<Event>)
    requires Reaches(n, before, s) && BusyRun(s, run) && Happens(s, run) && !After(s, run).failed
    ensures OnCourse(s.main) && !WasLate(s, run) ==> OnCourse(After(s, run).main)
    ensures InTime(s.main) && Count(run, Expire) == 0 ==> InTime(After(s, run).main)
  {
    ReachedInv(n, before, s);
    if s.failed {
      FailureStays(s, run);
    } else {
      ReachedHealthy(n, before, s);
    }
    HealthyRunEnds(s, run);
  }

  /** A dispatch of n workers, whatever pthread calls have failed before or fail on the way
      and however many waits time out, takes at most 24 + 51n steps of all threads together,
      5 more for every spurious wakeup. It returns having run the generation, or having
      retired the pool. Until then some thread can go on, or the owner is in its wait, which
      times out, unless a mutex has been left locked for good or a cancellation refused.
      Without a failure some thread can always go on, and the pool is retired only after a
      timeout at which a worker had not finished, with every generation run. */
  lemma DispatchReturns(n: nat, before: seq<Event>, s: State, run: seq<Event>)
    requires Reaches(n, before, s) && s.main == DLock && BusyRun(s, run)
    ensures Happens(s, run) && |run| <= 24 + 51 * |s.workers| + 5 * Count(run, SpuriousWake)
    ensures var t := After(s, run);
            && (t.main.Idle? ==> t.main == Idle(Dispatched) || (t.main == Idle(Poisoned) && RetiredInOrder(t)))
            && (!CanProgress(t) <==> Standstill(t))
            && (NotStuck(s) && AllAllowed(s, run) && !CanProgress(t) ==> t.main == WAsleep)
    ensures var t := After(s, run);
            !t.failed ==>
              && CanProgress(t)
              && (t.main == Idle(Poisoned) ==> Count(run, Expire) > 0 && WasLate(s, run) && RetiredWhole(t))
  {
    ReachedInv(n, before, s);
    DispatchIsShort(s, run);
    BusyRunIsShort(s, run);
    BusyRunEnds(s, run);
    CallLeaves(n, before, s, run);
  }

  /** Retiring a pool of n workers, at any moment, whatever pthread calls have failed before
      or fail on the way, takes at most 9 + 33n steps of all threads together, 3 more for
      every spurious wakeup. When it has returned every worker is gone, and those that left
      neither by a gate failure nor by a cancellation have run every generation exactly
      once: without a failure that is every worker. Until then some thread can go on, unless
      a mutex has been left locked for good or a cancellation refused; and then exactly
      outside a standstill. */
  lemma RetirementReturns(n: nat, before: seq<Event>, s: State, run: seq<Event>)
    requires Reaches(n, before, s) && s.main == PStart && BusyRun(s, run)
    ensures Happens(s, run) && |run| <= 9 + 33 * |s.workers| + 3 * Count(run, SpuriousWake)
    ensures var t := After(s, run);
            && (t.main.Idle? ==> t.main == Idle(Poisoned) && RetiredInOrder(t))
            && (!CanProgress(t) <==> Standstill(t))
            && (NotStuck(s) && AllAllowed(s, run) ==> CanProgress(t))
    ensures var t := After(s, run);
            !t.failed ==> CanProgress(t) && (t.main == Idle(Poisoned) ==> RetiredWhole(t))
  {
    ReachedInv(n, before, s);
    RetirementIsShort(s, run);
    BusyRunIsShort(s, run);
    BusyRunEnds(s, run);
    CallLeaves(n, before, s, run);
  }
}
