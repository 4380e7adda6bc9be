/** No pthread failure goes unnoticed: it ends up in the sticky failure flag or in a poisoned
    pool, a worker that dies of one wakes the owner, and a dispatch that meets the flag
    neither waits nor succeeds. */
module GateRecord {
  import opened Gate
  import opened GateSafety
  import opened GateRuns
  import opened GateProgress
  import opened GateBound

  /** The owner has looked at the flag, found it down, and is going to sleep or asleep. */
  predicate Sleepy(pc: MainPc) {
    pc.WCheckPending? || pc.WGoWait? || pc.WAsleep?
  }

  /** A failure has happened to the worker, and its next steps raise the flag. */
  predicate Recording(w: Worker) {
    w.pc == Woken(true) || w.pc.Report? || w.pc.DoneMark? || w.pc == DoneUnlock(false) || w.pc.MarkFailed?
  }

  /** A failure has happened to the owner, and its next steps poison the pool. */
  predicate OwnerRecording(pc: MainPc) {
    pc == PStart || pc == DUnlock(false) || pc == DMark || pc == WUnlock(false) || pc == WWoken(WaitError)
  }

  /** A worker that has died of a failure has raised the flag; unless it could not signal
      that, the owner is not asleep, or is about to be woken. */
  ghost predicate WorkerRecord(w: Worker, syncFailed: bool, main: MainPc) {
    && (w.bad && !w.pc.Report? ==> syncFailed)
    && (w.pc == DoneUnlock(false) ==> syncFailed)
    && (w.cancelled ==> syncFailed)
    && (w.bad && !w.pc.Report? && !w.unheard && Sleepy(main) ==> w.pc.ReportLock? || w.pc.ReportSignal?)
  }

  ghost predicate SomebodyRecords(s: State) {
    exists i: nat :: i < |s.workers| && Recording(s.workers[i])
  }

  ghost predicate OnRecord(s: State) {
    s.failed ==> s.syncFailed || s.broken || OwnerRecording(s.main) || SomebodyRecords(s)
  }

  ghost predicate Record(s: State) {
    && (forall i: nat | i < |s.workers| :: WorkerRecord(s.workers[i], s.syncFailed, s.main))
    && (s.main.SCancel? ==> s.syncFailed) && OnRecord(s)
  }

  // ------------------------------------------------------------- every step keeps it

  lemma WaitKeepsRecord(s: State, i: nat, c: Choice)
    requires i < |s.workers| && WorkerEnabled(s, i, c) && InWait(s.workers[i].pc)
    requires WorkerRecord(s.workers[i], s.syncFailed, s.main) && ExitOk(s.workers[i], s.generation, s.exitRequested)
    ensures var e := WaitEffect(s, i, c);
            && WorkerRecord(e.w, e.syncFailed, s.main) && e.syncFailed == s.syncFailed && !e.signal
            && (Bad(c) || Recording(s.workers[i]) ==> e.syncFailed || Recording(e.w))
  {
  }

  lemma RunKeepsRecord(s: State, i: nat, c: Choice)
    requires i < |s.workers| && WorkerEnabled(s, i, c) && !InWait(s.workers[i].pc) && !Failing(s.workers[i].pc)
    requires WorkerRecord(s.workers[i], s.syncFailed, s.main) && ExitOk(s.workers[i], s.generation, s.exitRequested)
    ensures var e := RunEffect(s, i, c);
            && WorkerRecord(e.w, e.syncFailed, s.main) && (s.syncFailed ==> e.syncFailed)
            && (Bad(c) || Recording(s.workers[i]) ==> e.syncFailed || Recording(e.w))
  {
  }

  lemma FailKeepsRecord(s: State, i: nat, c: Choice)
    requires i < |s.workers| && WorkerEnabled(s, i, c) && Failing(s.workers[i].pc)
    requires WorkerRecord(s.workers[i], s.syncFailed, s.main) && ExitOk(s.workers[i], s.generation, s.exitRequested)
    requires DoneLockOk(s.workers[i], i, s.doneLock) && DoneOwnerOk(s)
    ensures var e := FailEffect(s, i, c);
            && WorkerRecord(e.w, e.syncFailed, if e.signal && s.main == WAsleep then WWoken(Signalled) else s.main)
            && (s.syncFailed ==> e.syncFailed)
            && (Bad(c) || Recording(s.workers[i]) ==> e.syncFailed || Recording(e.w))
  {
  }

  lemma EffectKeepsRecord(s: State, i: nat, c: Choice)
    requires Inv(s) && Record(s) && i < |s.workers| && WorkerEnabled(s, i, c)
    ensures var e := WorkerEffect(s, i, c);
            && WorkerRecord(e.w, e.syncFailed, WorkerStep(s, i, c).main) && (s.syncFailed ==> e.syncFailed)
            && (Bad(c) || Recording(s.workers[i]) ==> e.syncFailed || Recording(e.w))
  {
    assert WorkerOk(s, i);
    if InWait(s.workers[i].pc) {
      WaitKeepsRecord(s, i, c);
    } else if Failing(s.workers[i].pc) {
      FailKeepsRecord(s, i, c);
    } else {
      RunKeepsRecord(s, i, c);
    }
  }

  lemma WorkerStepKeepsRecord(s: State, i: nat, c: Choice)
    requires Inv(s) && Record(s) && i < |s.workers| && WorkerEnabled(s, i, c)
    ensures Record(WorkerStep(s, i, c))
  {
    EffectKeepsRecord(s, i, c);
    var t := WorkerStep(s, i, c);
    if t.failed && !t.syncFailed && !s.broken && !OwnerRecording(s.main) {
      var j: nat :| j < |s.workers| && (if Bad(c) then j == i else Recording(s.workers[j]));
      assert Recording(t.workers[j]);
    }
  }

  lemma DispatchKeepsRecord(s: State, c: Choice, request: bool)
    requires MainEnabled(s, c, request) && InDispatch(s.main) && Record(s)
    ensures Record(DispatchStep(Noted(s, c), c, request))
  {
    var u := Noted(s, c);
    var t := DispatchStep(u, c, request);
    DispatchRecords(s, c, request);
    KeepRecording(s, t);
  }

  /** Workers that are recording are not asleep, so waking or cancelling changes none. */
  lemma KeepRecording(s: State, t: State)
    requires |t.workers| == |s.workers|
    requires forall i: nat | i < |s.workers| && Recording(s.workers[i]) :: t.workers[i].pc == s.workers[i].pc
    ensures SomebodyRecords(s) ==> SomebodyRecords(t)
  {
    if SomebodyRecords(s) {
      var i: nat :| i < |s.workers| && Recording(s.workers[i]);
      assert Recording(t.workers[i]);
    }
  }

  lemma DispatchRecords(s: State, c: Choice, request: bool)
    requires MainEnabled(s, c, request) && InDispatch(s.main)
    ensures var t := DispatchStep(Noted(s, c), c, request);
            && !Sleepy(t.main) && !t.main.SCancel? && t.broken == s.broken && (s.syncFailed ==> t.syncFailed)
            && (t.workers == s.workers || t.workers == WakeAll(s.workers))
            && (Bad(c) || OwnerRecording(s.main) ==> t.syncFailed || OwnerRecording(t.main))
  {
  }

  lemma BarrierKeepsRecord(s: State, c: Choice)
    requires MainEnabled(s, c, false) && InBarrier(s.main) && Record(s)
    ensures Record(BarrierStep(Noted(s, c), c))
  {
    BarrierRecords(s, c);
    KeepRecording(s, BarrierStep(Noted(s, c), c));
  }

  lemma BarrierRecords(s: State, c: Choice)
    requires MainEnabled(s, c, false) && InBarrier(s.main)
    ensures var t := BarrierStep(Noted(s, c), c);
            && t.workers == s.workers && t.syncFailed == s.syncFailed && t.broken == s.broken && !t.main.SCancel?
            && (Sleepy(t.main) ==> Sleepy(s.main) || !s.syncFailed)
            && (Bad(c) || OwnerRecording(s.main) ==> OwnerRecording(t.main))
  {
  }

  lemma RequestKeepsRecord(s: State, c: Choice)
    requires MainEnabled(s, c, false) && InRequest(s.main) && Record(s) && PhaseOk(s)
    ensures Record(RequestStep(Noted(s, c), c))
  {
  }

  lemma ReapKeepsRecord(s: State, c: Choice)
    requires |s.joined| == |s.workers| && MainEnabled(s, c, false) && InReap(s.main) && Record(s) && PhaseOk(s)
    ensures Record(ReapStep(Noted(s, c), c))
  {
  }

  lemma StepKeepsRecord(s: State, e: Event)
    requires Inv(s) && Record(s) && Can(s, e)
    ensures Record(Do(s, e))
  {
    match e
    case WorkerMoves(i, c) => WorkerStepKeepsRecord(s, i, c);
    case OwnerMoves(c, request) =>
      if InDispatch(s.main) {
        DispatchKeepsRecord(s, c, request);
      } else if InBarrier(s.main) {
        BarrierKeepsRecord(s, c);
      } else if InRequest(s.main) {
        RequestKeepsRecord(s, c);
      } else {
        ReapKeepsRecord(s, c);
      }
  }

  lemma {:induction false} RunsKeepRecord(s: State, run: seq<Event>)
    requires Inv(s) && Record(s) && Happens(s, run)
    ensures Record(After(s, run))
    decreases |run|
  {
    if run != [] {
      StepKeepsInv(s, run[0]);
      StepKeepsRecord(s, run[0]);
      RunsKeepRecord(Do(s, run[0]), run[1..]);
    }
  }

  lemma ReachedRecord(n: nat, run: seq<Event>, s: State)
    requires Reaches(n, run, s)
    ensures Inv(s) && Record(s)
  {
    StartedKeepsInv(n);
    ReachedInv(n, run, s);
    RunsKeepRecord(Started(n), run);
  }

  // ------------------------------------------------------------- what that means

  /** Whatever pthread call has failed, of any thread, on any run: the flag is up, the pool is
      broken, or the thread it happened to is still on its way to bring that about. */
  lemma FailureIsOnRecord(n: nat, run: seq<Event>, s: State)
    requires Reaches(n, run, s) && s.failed
    ensures s.syncFailed || s.broken || OwnerRecording(s.main) || SomebodyRecords(s)
  {
    ReachedRecord(n, run, s);
  }

  /** A failing call of a worker always puts it on the way to the flag, except inside the
      report of an earlier failure and in the cleanup of a cancellation. */
  lemma FailureIsReported(s: State, i: nat, c: Choice)
    requires i < |s.workers| && WorkerEnabled(s, i, c) && Bad(c)
    ensures || Recording(WorkerEffect(s, i, c).w)
            || s.workers[i].pc.ReportLock? || s.workers[i].pc.ReportSignal? || s.workers[i].pc.ReportUnlock?
            || s.workers[i].pc.CancelUnlock?
  {
  }

  /** A worker that has died of a gate failure has raised the flag by the time it reports
      that, and unless a call of the report fails as well the owner does not sleep through
      it: it is awake, or the worker is still about to signal. */
  lemma DyingWorkerIsHeard(n: nat, run: seq<Event>, s: State, i: nat)
    requires Reaches(n, run, s) && i < |s.workers| && s.workers[i].bad && !s.workers[i].pc.Report?
    ensures s.syncFailed
    ensures !s.workers[i].unheard && Sleepy(s.main) ==> s.workers[i].pc.ReportLock? || s.workers[i].pc.ReportSignal?
  {
    ReachedRecord(n, run, s);
    assert WorkerRecord(s.workers[i], s.syncFailed, s.main);
  }

  /** Inside a dispatch, not yet at the point where it would wait. */
  predicate Entering(pc: MainPc) {
    pc.DLock? || pc.DArm? || pc.DBroadcast? || pc.DUnlock? || pc.DMark? || pc.WSync?
  }

  lemma BarrierSeesFlag(s: State, c: Choice)
    requires MainEnabled(s, c, false) && InBarrier(s.main) && s.syncFailed
    ensures BarrierStep(s, c).syncFailed
    ensures var pc := BarrierStep(s, c).main;
            && pc != Idle(Dispatched) && (!Sleepy(s.main) ==> !Sleepy(pc))
            && (Entering(s.main) ==> OnRetreat(pc))
  {
  }

  lemma DispatchSeesFlag(s: State, c: Choice, request: bool)
    requires MainEnabled(s, c, request) && InDispatch(s.main) && !s.main.Idle?
    ensures var t := DispatchStep(s, c, request);
            && (Entering(t.main) || OnRetreat(t.main)) && (s.syncFailed ==> t.syncFailed)
            && t.main != Idle(Dispatched) && !Sleepy(t.main)
  {
  }

  lemma RequestKeepsFlag(s: State, c: Choice)
    requires MainEnabled(s, c, false) && InRequest(s.main) && s.syncFailed
    ensures RequestStep(s, c).syncFailed
  {
  }

  lemma ReapKeepsFlag(s: State, c: Choice)
    requires |s.joined| == |s.workers| && MainEnabled(s, c, false) && InReap(s.main) && s.syncFailed
    ensures ReapStep(s, c).syncFailed
  {
  }

  lemma RetreatKeepsFlag(s: State, c: Choice, request: bool)
    requires |s.joined| == |s.workers| && MainEnabled(s, c, request) && OnRetreat(s.main) && !s.main.Idle?
    requires s.syncFailed
    ensures MainStep(s, c, request).syncFailed
  {
    if InRequest(s.main) {
      RequestKeepsFlag(Noted(s, c), c);
    } else {
      ReapKeepsFlag(Noted(s, c), c);
    }
  }

  lemma RetreatDoesNotWait(pc: MainPc)
    requires OnRetreat(pc)
    ensures pc != Idle(Dispatched) && !Sleepy(pc) && !Entering(pc) && !InBarrier(pc)
    ensures InDispatch(pc) ==> pc.Idle?
  {
  }

  lemma OwnerSeesFlag(s: State, c: Choice, request: bool)
    requires |s.joined| == |s.workers| && MainEnabled(s, c, request) && !s.main.Idle? && s.syncFailed
    ensures var t := MainStep(s, c, request);
            && t.syncFailed && t.main != Idle(Dispatched) && (!Sleepy(s.main) ==> !Sleepy(t.main))
            && (Entering(s.main) || OnRetreat(s.main) ==> Entering(t.main) || OnRetreat(t.main))
  {
    var u := Noted(s, c);
    if OnRetreat(s.main) {
      RetreatKeepsFlag(s, c, request);
      MainStepRetreats(s, c, request);
      RetreatDoesNotWait(MainStep(s, c, request).main);
    } else if InDispatch(s.main) {
      DispatchSeesFlag(u, c, request);
    } else {
      BarrierSeesFlag(u, c);
    }
  }

  lemma StepSeesFlag(s: State, e: Event)
    requires Inv(s) && Can(s, e) && !s.main.Idle? && s.syncFailed
    ensures var t := Do(s, e);
            && t.syncFailed && t.main != Idle(Dispatched) && (!Sleepy(s.main) ==> !Sleepy(t.main))
            && (Entering(s.main) || OnRetreat(s.main) ==> Entering(t.main) || OnRetreat(t.main))
  {
    match e
    case WorkerMoves(i, c) =>
    case OwnerMoves(c, request) => OwnerSeesFlag(s, c, request);
  }

  lemma {:induction false} FlagIsSeen(s: State, run: seq<Event>)
    requires Inv(s) && s.main != Idle(Dispatched) && s.syncFailed && BusyRun(s, run) && Happens(s, run)
    ensures var t := After(s, run);
            && t.syncFailed && t.main != Idle(Dispatched) && (!Sleepy(s.main) ==> !Sleepy(t.main))
            && (Entering(s.main) || OnRetreat(s.main) ==> Entering(t.main) || OnRetreat(t.main))
    decreases |run|
  {
    if run != [] {
      StepKeepsInv(s, run[0]);
      StepSeesFlag(s, run[0]);
      FlagIsSeen(Do(s, run[0]), run[1..]);
    }
  }

  /** Once the flag is up, at whatever point of a dispatch, that dispatch does not succeed;
      unless the owner is already going to sleep, it never will again; and if the wait has
      not begun, it never does. */
  lemma FlagEndsDispatch(n: nat, before: seq<Event>, s: State, run: seq<Event>)
    requires Reaches(n, before, s) && !s.main.Idle? && s.syncFailed && BusyRun(s, run) && Happens(s, run)
    ensures var t := After(s, run);
            && t.main != Idle(Dispatched) && (!Sleepy(s.main) ==> !Sleepy(t.main))
            && (Entering(s.main) ==> Entering(t.main) || OnRetreat(t.main))
  {
    ReachedInv(n, before, s);
    FlagIsSeen(s, run);
  }

  /** So a dispatch that begins after a failure neither waits nor succeeds, unless the worker
      the failure happened to has not recorded it yet. */
  lemma NoDispatchAfterFailure(n: nat, before: seq<Event>, s: State, run: seq<Event>)
    requires Reaches(n, before, s) && s.main == DLock && s.failed && !SomebodyRecords(s)
    requires BusyRun(s, run) && Happens(s, run)
    ensures Entering(After(s, run).main) || OnRetreat(After(s, run).main)
  {
    FailureIsOnRecord(n, before, s);
    ReachedInv(n, before, s);
    FlagEndsDispatch(n, before, s, run);
  }
}
