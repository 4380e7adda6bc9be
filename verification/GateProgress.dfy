/** Whether the gate's threads block each other: never as long as no pthread call has
    failed, and after failures in exactly one kind of state. */
module GateProgress {
  import opened Gate
  import opened GateSafety
  import opened GateRuns

  // ------------------------------------------------------------- health

  ghost predicate HealthyWorker(w: Worker) {
    && !w.bad && !w.cancelled && !w.pc.MarkFailed? && !w.pc.DoneMark?
    && (w.pc.DoneUnlock? ==> w.pc.ok) && (w.pc.Woken? ==> !w.pc.error)
  }

  ghost predicate HealthyMain(s: State) {
    && !s.failed && !s.syncFailed && s.gate != Stuck && s.doneLock != Stuck
    && !s.main.DMark? && !s.main.SMark? && !s.main.SCancel?
    && (s.main.DUnlock? || s.main.SUnlock? ==> s.main.ok)
    && (s.main.WWoken? ==> s.main.wake != WaitError)
    && (s.main.SJoin? || s.main.PSpin? ==> s.exitRequested)
    && ((s.main.WUnlock? && s.main.ok) || s.main.WPending? ==> s.pending == 0)
  }

  /** No pthread call has failed so far, and nothing is left of one. */
  ghost predicate Healthy(s: State) {
    HealthyMain(s) && forall i | 0 <= i < |s.workers| :: HealthyWorker(s.workers[i])
  }

  function ChoiceOf(e: Event): Choice {
    e.c
  }

  lemma WorkerStaysHealthy(s: State, i: nat, c: Choice)
    requires i < |s.workers| && WorkerEnabled(s, i, c) && !Bad(c)
    requires !s.syncFailed && s.gate != Stuck && s.doneLock != Stuck
    requires HealthyWorker(s.workers[i]) && ExitOk(s.workers[i], s.generation, s.exitRequested)
    ensures var e := WorkerEffect(s, i, c);
            HealthyWorker(e.w) && !e.syncFailed && e.gate != Stuck && e.doneLock != Stuck
  {
  }

  lemma WorkerStepHealthy(s: State, i: nat, c: Choice)
    requires Inv(s) && Healthy(s) && i < |s.workers| && WorkerEnabled(s, i, c) && !Bad(c)
    ensures Healthy(WorkerStep(s, i, c))
  {
    assert WorkerOk(s, i);
    WorkerStaysHealthy(s, i, c);
    WorkerStepCount(s, i, c);
  }

  lemma DispatchHealthy(s: State, c: Choice, request: bool)
    requires MainEnabled(s, c, request) && InDispatch(s.main) && !Bad(c) && HealthyMain(s)
    ensures HealthyMain(DispatchStep(s, c, request))
  {
  }

  lemma BarrierHealthy(s: State, c: Choice)
    requires MainEnabled(s, c, false) && InBarrier(s.main) && !Bad(c) && HealthyMain(s)
    ensures HealthyMain(BarrierStep(s, c))
  {
  }

  lemma RequestHealthy(s: State, c: Choice)
    requires MainEnabled(s, c, false) && InRequest(s.main) && !Bad(c) && HealthyMain(s) && PhaseOk(s)
    ensures HealthyMain(RequestStep(s, c))
  {
  }

  lemma ReapHealthy(s: State, c: Choice)
    requires |s.joined| == |s.workers| && MainEnabled(s, c, false) && InReap(s.main) && !Bad(c) && HealthyMain(s)
    ensures HealthyMain(ReapStep(s, c))
    ensures ReapStep(s, c).workers == s.workers
  {
  }

  lemma OwnerHealthyWorkers(s: State, c: Choice, request: bool)
    requires |s.joined| == |s.workers| && MainEnabled(s, c, request) && !Bad(c) && HealthyMain(s)
    ensures var t := MainStep(s, c, request);
            t.workers == s.workers || t.workers == WakeAll(s.workers)
  {
  }

  lemma MainStepHealthy(s: State, c: Choice, request: bool)
    requires Inv(s) && Healthy(s) && MainEnabled(s, c, request) && !Bad(c)
    ensures Healthy(MainStep(s, c, request))
  {
    var u := Noted(s, c);
    assert u == s;
    OwnerHealthyWorkers(s, c, request);
    if InDispatch(s.main) {
      DispatchHealthy(u, c, request);
    } else if InBarrier(s.main) {
      BarrierHealthy(u, c);
    } else if InRequest(s.main) {
      RequestHealthy(u, c);
    } else {
      ReapHealthy(u, c);
    }
  }

  lemma FailureIsRecorded(s: State, e: Event)
    requires Can(s, e)
    ensures Do(s, e).failed == (s.failed || Bad(ChoiceOf(e)))
  {
  }

  lemma StepStaysHealthy(s: State, e: Event)
    requires Inv(s) && Can(s, e) && (s.failed || Healthy(s))
    ensures Do(s, e).failed || Healthy(Do(s, e))
  {
    FailureIsRecorded(s, e);
    if !s.failed && !Bad(ChoiceOf(e)) {
      match e
      case WorkerMoves(i, c) => WorkerStepHealthy(s, i, c);
      case OwnerMoves(c, request) => MainStepHealthy(s, c, request);
    }
  }

  lemma {:induction false} RunStaysHealthy(s: State, run: seq<Event>)
    requires Inv(s) && Happens(s, run) && (s.failed || Healthy(s))
    ensures After(s, run).failed || Healthy(After(s, run))
    decreases |run|
  {
    if run != [] {
      StepKeepsInv(s, run[0]);
      StepStaysHealthy(s, run[0]);
      RunStaysHealthy(Do(s, run[0]), run[1..]);
    }
  }

  lemma ReachedHealthy(n: nat, run: seq<Event>, s: State)
    requires Reaches(n, run, s) && !s.failed
    ensures Inv(s) && Healthy(s)
  {
    StartedKeepsInv(n);
    ReachedInv(n, run, s);
    RunStaysHealthy(Started(n), run);
  }

  // ------------------------------------------------------------- who can go on

  ghost predicate SomeWorkerCan(s: State) {
    exists i: nat :: i < |s.workers| && WorkerEnabled(s, i, Good)
  }

  /** Some thread can go on without a spurious wakeup, a timeout or a failure. */
  ghost predicate CanProgress(s: State) {
    MainEnabled(s, Good, false) || SomeWorkerCan(s)
  }

  /** Whoever holds the completion lock can go on. */
  lemma DoneLockMoves(s: State)
    requires Inv(s) && Healthy(s) && s.doneLock != Free
    ensures CanProgress(s)
  {
    if s.doneLock.ByWorker? {
      assert WorkerOk(s, s.doneLock.i);
      assert WorkerEnabled(s, s.doneLock.i, Good);
    }
  }

  /** Whoever holds the gate lock can go on. */
  lemma GateMoves(s: State)
    requires Inv(s) && Healthy(s) && s.gate != Free
    ensures CanProgress(s)
  {
    if s.gate.ByWorker? {
      assert WorkerOk(s, s.gate.i);
      assert WorkerEnabled(s, s.gate.i, Good);
    }
  }

  /** A worker that is neither gone nor rightly asleep can go on, or waits for a lock
      whose holder can. */
  lemma WorkerMovesOn(s: State, i: nat)
    requires Inv(s) && Healthy(s) && i < |s.workers|
    requires s.workers[i].pc != Exited && (s.workers[i].pc == Asleep ==> ShouldGo(s, s.workers[i]))
    ensures CanProgress(s)
  {
    assert WorkerOk(s, i);
    if s.gate != Free {
      GateMoves(s);
    } else if s.doneLock != Free {
      DoneLockMoves(s);
    } else {
      assert WorkerEnabled(s, i, Good);
    }
  }

  lemma BarrierMoves(s: State)
    requires Inv(s) && Healthy(s) && s.main == WAsleep
    ensures CanProgress(s)
  {
    if s.pending == 0 {
      var i :| 0 <= i < |s.workers| && AboutToSignal(s.workers[i]);
      WorkerMovesOn(s, i);
    } else {
      CountZero(s.workers, s.generation);
      var i: nat :| i < |s.workers| && s.workers[i].done < s.generation;
      assert WorkerOk(s, i);
      WorkerMovesOn(s, i);
    }
  }

  lemma HealthyMoves(s: State)
    requires Inv(s) && Healthy(s) && !s.main.Idle?
    ensures CanProgress(s)
  {
    if s.gate != Free {
      GateMoves(s);
    } else if s.doneLock != Free {
      DoneLockMoves(s);
    } else if s.main == WAsleep {
      BarrierMoves(s);
    } else if (s.main.SJoin? || s.main.PSpin?) && s.main.k < |s.workers| && s.workers[s.main.k].pc != Exited {
      WorkerMovesOn(s, s.main.k);
    } else {
      assert MainEnabled(s, Good, false);
    }
  }


  // ------------------------------------------------------------- standstills

  /** Asleep, and nobody will wake it. */
  predicate Forgotten(w: Worker) {
    w.pc == Asleep && !w.cancelled
  }

  /** The gate is locked for good: by a failed unlock, or by a worker that holds it while
      its failure report waits for the completion lock, which a failed unlock has lost. */
  predicate GateShut(s: State) {
    || s.gate == Stuck
    || (s.doneLock == Stuck && s.gate.ByWorker? && s.gate.i < |s.workers| && s.workers[s.gate.i].pc == ReportLock(true))
  }

  /** Waiting for a mutex that is locked for good. */
  predicate Walled(s: State, w: Worker) {
    || (GateShut(s) && (w.pc.GateLock? || w.pc.Woken? || w.pc.CancelLock?))
    || (s.doneLock == Stuck && (w.pc.DoneLock? || w.pc.ReportLock?))
  }

  /** The owner waits for a signal, for a mutex that is locked for good, or for a worker
      that is still there. */
  predicate OwnerHalts(s: State) {
    match s.main
    case WAsleep => true
    case DLock => GateShut(s)
    case SLock => GateShut(s)
    case WLock => s.doneLock == Stuck
    case WWoken(_) => s.doneLock == Stuck
    case SJoin(k) => k < |s.workers| && k < |s.joined| && !s.joined[k] && s.workers[k].pc != Exited
    case PSpin(k) => k < |s.workers| && s.workers[k].pc != Exited
    case _ => false
  }

  ghost predicate Standstill(s: State) {
    && OwnerHalts(s)
    && forall i: nat | i < |s.workers| ::
       s.workers[i].pc == Exited || Forgotten(s.workers[i]) || Walled(s, s.workers[i])
  }

  lemma DoneHolderMoves(s: State)
    requires Inv(s) && s.doneLock.ByWorker?
    ensures CanProgress(s)
  {
    assert WorkerOk(s, s.doneLock.i);
    assert WorkerEnabled(s, s.doneLock.i, Good);
  }

  /** The completion lock is free or lost: a holder could go on. */
  lemma StoppedDoneLock(s: State)
    requires Inv(s) && !CanProgress(s)
    ensures s.doneLock == Free || s.doneLock == Stuck
  {
    if s.doneLock.ByWorker? {
      DoneHolderMoves(s);
    }
  }

  lemma StoppedGate(s: State)
    requires Inv(s) && !CanProgress(s) && s.gate != Free
    ensures GateShut(s)
  {
    StoppedDoneLock(s);
    if s.gate.ByWorker? {
      assert WorkerOk(s, s.gate.i);
      assert !WorkerEnabled(s, s.gate.i, Good);
    }
  }

  lemma StoppedWorker(s: State, i: nat)
    requires Inv(s) && !CanProgress(s) && i < |s.workers|
    ensures s.workers[i].pc == Exited || Forgotten(s.workers[i]) || Walled(s, s.workers[i])
  {
    StoppedDoneLock(s);
    assert !WorkerEnabled(s, i, Good);
    if s.gate != Free {
      StoppedGate(s);
    }
  }

  lemma StandstillStops(s: State)
    requires Inv(s) && Standstill(s)
    ensures !CanProgress(s)
  {
    forall i: nat | i < |s.workers| ensures !WorkerEnabled(s, i, Good) {
      assert s.workers[i].pc == Exited || Forgotten(s.workers[i]) || Walled(s, s.workers[i]);
    }
  }

  lemma StandstillExactly(s: State)
    requires Inv(s)
    ensures !CanProgress(s) <==> Standstill(s)
  {
    if !CanProgress(s) {
      StoppedDoneLock(s);
      if s.gate != Free {
        StoppedGate(s);
      }
      forall i: nat | i < |s.workers|
        ensures s.workers[i].pc == Exited || Forgotten(s.workers[i]) || Walled(s, s.workers[i])
      {
        StoppedWorker(s, i);
      }
    } else if Standstill(s) {
      StandstillStops(s);
    }
  }

  /** Whatever has failed: no thread can take an ordinary step exactly if the owner waits
      and every worker that is not gone sleeps uncancelled or waits for a mutex that is
      locked for good. Without a pthread failure that never happens during a call. */
  lemma NoDeadlock(n: nat, run: seq<Event>, s: State)
    requires Reaches(n, run, s)
    ensures !CanProgress(s) <==> Standstill(s)
    ensures !s.failed ==> CanProgress(s)
  {
    ReachedInv(n, run, s);
    StandstillExactly(s);
    if !s.failed && !s.main.Idle? {
      ReachedHealthy(n, run, s);
      HealthyMoves(s);
    }
  }
}
