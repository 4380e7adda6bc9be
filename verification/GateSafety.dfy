/** What every step of the gate keeps, and what that means for whole runs. */
module GateSafety {
  import opened Gate

  /** Workers that have not counted down generation gen. */
  function CountOwing(ws: seq<Worker>, gen: nat): nat {
    if ws == [] then 0
    else CountOwing(ws[..|ws| - 1], gen) + (if ws[|ws| - 1].done < gen then 1 else 0)
  }

  /** The callbacks a worker has entered: every generation it took, once each, in order. */
  ghost predicate History(w: Worker) {
    && |w.log| == (if w.pc == Running || w.pc == Decrement then w.seen else w.done)
    && forall m | 0 <= m < |w.log| :: w.log[m] == m + 1
  }

  ghost predicate GateLockOk(w: Worker, i: nat, gate: Owner) {
    HoldsGate(w.pc) <==> gate == ByWorker(i)
  }

  ghost predicate DoneLockOk(w: Worker, i: nat, doneLock: Owner) {
    HoldsDone(w.pc) <==> doneLock == ByWorker(i)
  }

  ghost predicate LocksOk(w: Worker, i: nat, gate: Owner, doneLock: Owner) {
    GateLockOk(w, i, gate) && DoneLockOk(w, i, doneLock)
  }

  /** A worker is never more than one generation behind, and owes a countdown exactly
      between taking a generation and finishing it. */
  ghost predicate LagOk(w: Worker, gen: nat) {
    && w.done <= w.seen <= w.done + 1
    && w.seen <= gen <= w.seen + 1
    && (Owing(w.pc) ==> w.done + 1 == w.seen == gen)
    && (!Owing(w.pc) && !w.bad ==> w.done == w.seen)
  }

  /** How a worker may leave its loop. */
  ghost predicate ExitOk(w: Worker, gen: nat, exitRequested: bool) {
    && (Failing(w.pc) ==> w.bad)
    && (w.bad ==> Failing(w.pc) || w.pc == Exited)
    && (w.pc == CancelLock || w.pc == CancelUnlock ==> w.cancelled)
    && (w.pc == Leave(false) ==> exitRequested && w.seen == gen)
    && (w.pc == Exited && !w.bad && !w.cancelled ==> exitRequested && w.done == gen)
  }

  /** No lost wakeup, worker side. */
  ghost predicate SleepOk(s: State, i: nat)
    requires i < |s.workers|
  {
    s.workers[i].pc == Asleep && ShouldGo(s, s.workers[i]) && !s.failed ==> s.main == DBroadcast || s.main == SBroadcast
  }

  ghost predicate WorkerOk(s: State, i: nat)
    requires i < |s.workers|
  {
    && LocksOk(s.workers[i], i, s.gate, s.doneLock) && SleepOk(s, i) && History(s.workers[i])
    && LagOk(s.workers[i], s.generation) && ExitOk(s.workers[i], s.generation, s.exitRequested)
  }

  ghost predicate GateOwnerOk(s: State) {
    (MainHoldsGate(s.main) <==> s.gate == ByMain) && (s.gate.ByWorker? ==> s.gate.i < |s.workers|)
  }

  ghost predicate DoneOwnerOk(s: State) {
    (MainHoldsDone(s.main) <==> s.doneLock == ByMain) && (s.doneLock.ByWorker? ==> s.doneLock.i < |s.workers|)
  }

  ghost predicate OwnersOk(s: State) {
    GateOwnerOk(s) && DoneOwnerOk(s)
  }

  ghost predicate PhaseOk(s: State) {
    && (s.exitRequested ==> s.broken)
    && (s.broken ==> Retiring(s.main) || s.main.Idle? || s.main == PStart)
    && (Retiring(s.main) ==> s.broken)
    && ((s.main.Idle? && !s.broken) || s.main == DLock || s.main == DArm || s.main == WSyncFinal ==> s.pending == 0)
    && (s.main == SBroadcast || s.main.SUnlock? ==> s.exitRequested)
    && (s.main == Idle(Poisoned) ==> s.broken)
    && (s.main == Idle(Dispatched) ==> s.generation > 0 && !s.broken)
    && (Waiting(s.main) ==> s.generation > 0)
  }

  /** A dispatch has armed its generation and not returned yet. */
  predicate Waiting(pc: MainPc) {
    || pc.DBroadcast? || pc.DUnlock? || pc.DMark? || pc.WSync? || pc.WLock? || pc.WCheckSync? || pc.WCheckPending?
    || pc.WGoWait? || pc.WAsleep? || pc.WWoken? || pc.WFinalCheck? || pc.WUnlock? || pc.WPending? || pc.WSyncFinal?
  }

  /** Workers known to be gone. */
  ghost predicate GoneOk(s: State) {
    JoinedOk(s) && SpunOk(s)
  }

  ghost predicate JoinedOk(s: State) {
    && |s.joined| == |s.workers|
    && forall i | 0 <= i < |s.workers| && s.joined[i] :: s.workers[i].pc == Exited
  }

  ghost predicate SpunOk(s: State) {
    && (s.main.PSpin? ==> forall i | 0 <= i < |s.workers| && i < s.main.k :: s.workers[i].pc == Exited)
    && (s.main.Idle? && s.broken ==> AllExited(s))
  }

  ghost predicate AllExited(s: State) {
    forall i | 0 <= i < |s.workers| :: s.workers[i].pc == Exited
  }

  predicate AboutToSignal(w: Worker) {
    w.pc == DoneLock || w.pc == DoneSignal
  }

  /** No lost wakeup, owner side. */
  ghost predicate BarrierOk(s: State) {
    (s.main == WGoWait || s.main == WAsleep) && s.pending == 0 && !s.failed ==>
      exists i :: 0 <= i < |s.workers| && AboutToSignal(s.workers[i])
  }

  ghost predicate Inv(s: State) {
    && (forall i: nat | i < |s.workers| :: WorkerOk(s, i))
    && OwnersOk(s) && PhaseOk(s) && GoneOk(s) && BarrierOk(s)
    && s.pending == CountOwing(s.workers, s.generation)
  }

  // ------------------------------------------------------------- counting

  lemma {:induction false} CountUpdate(ws: seq<Worker>, i: nat, w: Worker, gen: nat)
    requires i < |ws|
    ensures CountOwing(ws[i := w], gen)
            == CountOwing(ws, gen) - (if ws[i].done < gen then 1 else 0) + (if w.done < gen then 1 else 0)
  {
    var n := |ws| - 1;
    if i < n {
      CountUpdate(ws[..n], i, w, gen);
      assert ws[i := w][..n] == ws[..n][i := w];
    } else {
      assert ws[i := w][..n] == ws[..n];
    }
  }

  lemma {:induction false} CountSameDone(ws: seq<Worker>, vs: seq<Worker>, gen: nat)
    requires |ws| == |vs| && forall i | 0 <= i < |ws| :: ws[i].done == vs[i].done
    ensures CountOwing(ws, gen) == CountOwing(vs, gen)
  {
    if ws != [] {
      CountSameDone(ws[..|ws| - 1], vs[..|vs| - 1], gen);
    }
  }

  lemma {:induction false} CountZero(ws: seq<Worker>, gen: nat)
    ensures CountOwing(ws, gen) == 0 <==> forall i | 0 <= i < |ws| :: ws[i].done >= gen
  {
    if ws != [] {
      CountZero(ws[..|ws| - 1], gen);
      assert forall i | 0 <= i < |ws| - 1 :: ws[..|ws| - 1][i] == ws[i];
    }
  }

  lemma {:induction false} CountAll(ws: seq<Worker>, gen: nat)
    requires forall i | 0 <= i < |ws| :: ws[i].done < gen
    ensures CountOwing(ws, gen) == |ws|
  {
    if ws != [] {
      CountAll(ws[..|ws| - 1], gen);
    }
  }

  // ------------------------------------------------------------ worker steps

  lemma WaitKeepsGate(s: State, i: nat, c: Choice)
    requires i < |s.workers| && WorkerEnabled(s, i, c) && InWait(s.workers[i].pc) && GateLockOk(s.workers[i], i, s.gate)
    ensures var e := WaitEffect(s, i, c); GateLockOk(e.w, i, e.gate)
  {
  }

  lemma WaitKeepsDone(s: State, i: nat, c: Choice)
    requires i < |s.workers| && WorkerEnabled(s, i, c) && InWait(s.workers[i].pc)
             && DoneLockOk(s.workers[i], i, s.doneLock)
    ensures var e := WaitEffect(s, i, c); DoneLockOk(e.w, i, e.doneLock)
  {
  }

  lemma WaitKeepsLag(s: State, i: nat, c: Choice)
    requires i < |s.workers| && WorkerEnabled(s, i, c) && InWait(s.workers[i].pc)
    requires LagOk(s.workers[i], s.generation) && ExitOk(s.workers[i], s.generation, s.exitRequested)
    ensures var w := WaitEffect(s, i, c).w; LagOk(w, s.generation) && ExitOk(w, s.generation, s.exitRequested)
  {
  }

  /** Only entering a callback touches the log. */
  lemma LeaveKeepsLog(s: State, i: nat, c: Choice)
    requires i < |s.workers| && WorkerEnabled(s, i, c) && s.workers[i].pc.Leave?
    ensures var w, v := s.workers[i], WaitEffect(s, i, c).w;
            && v.done == w.done && v.seen == w.seen && !v.pc.Decrement?
            && v.log == (if v.pc.Running? then w.log + [w.seen] else w.log)
            && (v.pc.Running? ==> w.pc == Leave(true))
  {
  }

  lemma StayKeepsLog(s: State, i: nat, c: Choice)
    requires i < |s.workers| && WorkerEnabled(s, i, c) && InWait(s.workers[i].pc) && !s.workers[i].pc.Leave?
    ensures var w, v := s.workers[i], WaitEffect(s, i, c).w;
            v.done == w.done && v.log == w.log && !v.pc.Decrement? && !v.pc.Running?
  {
  }

  lemma WaitKeepsLog(s: State, i: nat, c: Choice)
    requires i < |s.workers| && WorkerEnabled(s, i, c) && InWait(s.workers[i].pc)
    ensures var w, v := s.workers[i], WaitEffect(s, i, c).w;
            && v.done == w.done && !v.pc.Decrement?
            && v.log == (if v.pc.Running? then w.log + [w.seen] else w.log)
            && (v.pc.Running? ==> w.pc == Leave(true) && v.seen == w.seen)
  {
    if s.workers[i].pc.Leave? {
      LeaveKeepsLog(s, i, c);
    } else {
      StayKeepsLog(s, i, c);
    }
  }

  lemma WaitKeepsHistory(s: State, i: nat, c: Choice)
    requires i < |s.workers| && WorkerEnabled(s, i, c) && InWait(s.workers[i].pc)
    requires LagOk(s.workers[i], s.generation) && History(s.workers[i])
    ensures History(WaitEffect(s, i, c).w)
  {
    WaitKeepsLog(s, i, c);
  }

  lemma FailKeepsGate(s: State, i: nat, c: Choice)
    requires i < |s.workers| && WorkerEnabled(s, i, c) && Failing(s.workers[i].pc)
             && GateLockOk(s.workers[i], i, s.gate)
    ensures var e := FailEffect(s, i, c); GateLockOk(e.w, i, e.gate)
  {
  }

  lemma FailKeepsDone(s: State, i: nat, c: Choice)
    requires i < |s.workers| && WorkerEnabled(s, i, c) && Failing(s.workers[i].pc)
             && DoneLockOk(s.workers[i], i, s.doneLock)
    ensures var e := FailEffect(s, i, c); DoneLockOk(e.w, i, e.doneLock)
  {
  }

  lemma FailKeepsLag(s: State, i: nat, c: Choice)
    requires i < |s.workers| && WorkerEnabled(s, i, c) && Failing(s.workers[i].pc)
    requires LagOk(s.workers[i], s.generation) && ExitOk(s.workers[i], s.generation, s.exitRequested)
    ensures var w := FailEffect(s, i, c).w; LagOk(w, s.generation) && ExitOk(w, s.generation, s.exitRequested)
  {
  }

  lemma FailKeepsHistory(s: State, i: nat, c: Choice)
    requires i < |s.workers| && WorkerEnabled(s, i, c) && Failing(s.workers[i].pc)
    requires LagOk(s.workers[i], s.generation) && History(s.workers[i])
    ensures History(FailEffect(s, i, c).w)
  {
  }

  lemma RunKeepsLocks(s: State, i: nat, c: Choice)
    requires i < |s.workers| && WorkerEnabled(s, i, c) && !InWait(s.workers[i].pc) && !Failing(s.workers[i].pc)
    requires LocksOk(s.workers[i], i, s.gate, s.doneLock)
    ensures var e := RunEffect(s, i, c); LocksOk(e.w, i, e.gate, e.doneLock)
  {
  }

  lemma RunKeepsLag(s: State, i: nat, c: Choice)
    requires i < |s.workers| && WorkerEnabled(s, i, c) && !InWait(s.workers[i].pc) && !Failing(s.workers[i].pc)
    requires LagOk(s.workers[i], s.generation) && ExitOk(s.workers[i], s.generation, s.exitRequested)
    ensures var w := RunEffect(s, i, c).w; LagOk(w, s.generation) && ExitOk(w, s.generation, s.exitRequested)
  {
  }

  lemma RunKeepsLog(s: State, i: nat, c: Choice)
    requires i < |s.workers| && WorkerEnabled(s, i, c) && !InWait(s.workers[i].pc) && !Failing(s.workers[i].pc)
    ensures var w, v := s.workers[i], RunEffect(s, i, c).w;
            && v.log == w.log && v.seen == w.seen && !v.pc.Running?
            && v.done == (if w.pc.Decrement? then w.seen else w.done) && (v.pc.Decrement? <==> w.pc.Running?)
  {
  }

  lemma RunKeepsHistory(s: State, i: nat, c: Choice)
    requires i < |s.workers| && WorkerEnabled(s, i, c) && !InWait(s.workers[i].pc) && !Failing(s.workers[i].pc)
    requires LagOk(s.workers[i], s.generation) && History(s.workers[i])
    ensures History(RunEffect(s, i, c).w)
  {
    RunKeepsLog(s, i, c);
  }

  lemma WorkerStepSleep(s: State, i: nat, c: Choice)
    requires i < |s.workers| && WorkerEnabled(s, i, c) && SleepOk(s, i)
    ensures SleepOk(WorkerStep(s, i, c), i)
  {
  }

  lemma WorkerStepOther(s: State, i: nat, c: Choice, k: nat)
    requires Inv(s) && i < |s.workers| && WorkerEnabled(s, i, c) && k < |s.workers| && k != i
    ensures WorkerOk(WorkerStep(s, i, c), k)
  {
    assert WorkerOk(s, i);
    assert WorkerOk(s, k);
    WorkerStepOwners(s, i, c);
  }

  /** A worker only takes a free lock and only gives up its own. */
  lemma WorkerStepOwners(s: State, i: nat, c: Choice)
    requires i < |s.workers| && WorkerEnabled(s, i, c) && LocksOk(s.workers[i], i, s.gate, s.doneLock)
    ensures var e := WorkerEffect(s, i, c);
            && HandedOver(s.gate, e.gate, i) && HandedOver(s.doneLock, e.doneLock, i)
  {
  }

  predicate HandedOver(before: Owner, after: Owner, i: nat) {
    || after == before
    || (before == Free && after == ByWorker(i))
    || (before == ByWorker(i) && (after == Free || after == Stuck))
  }

  lemma WorkerStepCount(s: State, i: nat, c: Choice)
    requires i < |s.workers| && WorkerEnabled(s, i, c) && LagOk(s.workers[i], s.generation)
    requires s.pending == CountOwing(s.workers, s.generation)
    ensures var s' := WorkerStep(s, i, c);
            s'.pending == CountOwing(s'.workers, s'.generation) && s'.pending <= s.pending
  {
    CountUpdate(s.workers, i, WorkerEffect(s, i, c).w, s.generation);
    WorkerStepDone(s, i, c);
  }

  /** Only Decrement counts a generation down, and it counts down the current one. */
  lemma WorkerStepDone(s: State, i: nat, c: Choice)
    requires i < |s.workers| && WorkerEnabled(s, i, c) && LagOk(s.workers[i], s.generation)
    ensures var e := WorkerEffect(s, i, c);
            if s.workers[i].pc == Decrement then s.workers[i].done < s.generation == e.w.done
              && e.pending == s.pending - 1
            else e.w.done == s.workers[i].done && e.pending == s.pending
  {
  }

  /** If the owner sleeps on a finished dispatch, the worker that finished it is still on
      its way to the signal. */
  lemma WorkerStepBarrier(s: State, i: nat, c: Choice)
    requires i < |s.workers| && WorkerEnabled(s, i, c) && LocksOk(s.workers[i], i, s.gate, s.doneLock)
    requires OwnersOk(s) && BarrierOk(s)
    ensures BarrierOk(WorkerStep(s, i, c))
  {
    var s' := WorkerStep(s, i, c);
    if (s'.main == WGoWait || s'.main == WAsleep) && s'.pending == 0 && !s'.failed {
      if s.pending == 0 {
        var k :| 0 <= k < |s.workers| && AboutToSignal(s.workers[k]);
        if k == i {
          assert AboutToSignal(s'.workers[i]);
        } else {
          assert AboutToSignal(s'.workers[k]);
        }
      } else {
        assert AboutToSignal(s'.workers[i]);
      }
    }
  }

  lemma WorkerStepGone(s: State, i: nat, c: Choice)
    requires i < |s.workers| && WorkerEnabled(s, i, c) && GoneOk(s)
    ensures GoneOk(WorkerStep(s, i, c))
  {
  }

  lemma WorkerStepPhase(s: State, i: nat, c: Choice)
    requires i < |s.workers| && WorkerEnabled(s, i, c) && PhaseOk(s) && LagOk(s.workers[i], s.generation)
    requires s.pending == CountOwing(s.workers, s.generation)
    ensures PhaseOk(WorkerStep(s, i, c))
  {
    WorkerStepDone(s, i, c);
    CountZero(s.workers, s.generation);
  }

  lemma WorkerStepKeepsOwn(s: State, i: nat, c: Choice)
    requires i < |s.workers| && WorkerEnabled(s, i, c) && WorkerOk(s, i)
    ensures WorkerOk(WorkerStep(s, i, c), i)
  {
    if InWait(s.workers[i].pc) {
      WaitKeepsGate(s, i, c);
      WaitKeepsDone(s, i, c);
      WaitKeepsLag(s, i, c);
      WaitKeepsHistory(s, i, c);
    } else if Failing(s.workers[i].pc) {
      FailKeepsGate(s, i, c);
      FailKeepsDone(s, i, c);
      FailKeepsLag(s, i, c);
      FailKeepsHistory(s, i, c);
    } else {
      RunKeepsLocks(s, i, c);
      RunKeepsLag(s, i, c);
      RunKeepsHistory(s, i, c);
    }
    WorkerStepSleep(s, i, c);
  }

  lemma WorkerStepOwnersOk(s: State, i: nat, c: Choice)
    requires i < |s.workers| && WorkerEnabled(s, i, c) && LocksOk(s.workers[i], i, s.gate, s.doneLock) && OwnersOk(s)
    ensures OwnersOk(WorkerStep(s, i, c))
  {
    WorkerStepOwners(s, i, c);
  }

  lemma WorkerStepKeepsInv(s: State, i: nat, c: Choice)
    requires Inv(s) && i < |s.workers| && WorkerEnabled(s, i, c)
    ensures Inv(WorkerStep(s, i, c))
  {
    assert WorkerOk(s, i);
    WorkerStepKeepsOwn(s, i, c);
    forall k: nat | k < |s.workers| && k != i ensures WorkerOk(WorkerStep(s, i, c), k) {
      WorkerStepOther(s, i, c, k);
    }
    WorkerStepOwnersOk(s, i, c);
    WorkerStepCount(s, i, c);
    WorkerStepBarrier(s, i, c);
    WorkerStepGone(s, i, c);
    WorkerStepPhase(s, i, c);
  }

  // ------------------------------------------------------------- owner steps

  /** Waking and cancelling leave a worker's history and locks alone. */
  ghost predicate SameButWoken(w: Worker, v: Worker) {
    v == w || (w.pc == Asleep && v == w.(pc := Woken(false))) || v == w.(cancelled := true)
  }

  ghost predicate WorkersSame(s: State, t: State)
    requires |t.workers| == |s.workers|
  {
    forall i | 0 <= i < |s.workers| :: SameButWoken(s.workers[i], t.workers[i])
  }

  predicate MainHandedOver(before: Owner, after: Owner) {
    || after == before
    || (before == Free && after == ByMain)
    || (before == ByMain && (after == Free || after == Stuck))
  }

  /** Only arming moves the generation, and an exit request is never withdrawn. */
  ghost predicate WordsOk(s: State, t: State) {
    && t.generation == s.generation + (if s.main == DArm then 1 else 0)
    && t.pending == (if s.main == DArm then |s.workers| else s.pending)
    && t.exitRequested == (s.exitRequested || s.main == SSet)
  }

  lemma DispatchFrame(s: State, c: Choice, request: bool)
    requires MainEnabled(s, c, request) && InDispatch(s.main)
    ensures var t := DispatchStep(s, c, request); WorkersSame(s, t) && WordsOk(s, t)
  {
  }

  lemma DispatchGate(s: State, c: Choice, request: bool)
    requires MainEnabled(s, c, request) && InDispatch(s.main) && GateOwnerOk(s)
    ensures GateOwnerOk(DispatchStep(s, c, request))
  {
  }

  lemma DispatchDone(s: State, c: Choice, request: bool)
    requires MainEnabled(s, c, request) && InDispatch(s.main) && DoneOwnerOk(s)
    ensures DoneOwnerOk(DispatchStep(s, c, request))
  {
  }

  lemma DispatchHands(s: State, c: Choice, request: bool)
    requires MainEnabled(s, c, request) && InDispatch(s.main) && OwnersOk(s)
    ensures var t := DispatchStep(s, c, request);
            MainHandedOver(s.gate, t.gate) && t.doneLock == s.doneLock
  {
  }

  lemma DispatchPhase(s: State, c: Choice, request: bool)
    requires MainEnabled(s, c, request) && InDispatch(s.main) && PhaseOk(s)
    ensures PhaseOk(DispatchStep(s, c, request))
  {
  }

  lemma BarrierGate(s: State, c: Choice)
    requires MainEnabled(s, c, false) && InBarrier(s.main) && GateOwnerOk(s)
    ensures var t := BarrierStep(s, c); GateOwnerOk(t) && t.gate == s.gate
  {
    if s.main.WUnlock? {
    } else if s.main.WWoken? {
    }
  }

  lemma BarrierDone(s: State, c: Choice)
    requires MainEnabled(s, c, false) && InBarrier(s.main) && DoneOwnerOk(s)
    ensures var t := BarrierStep(s, c); DoneOwnerOk(t) && MainHandedOver(s.doneLock, t.doneLock)
  {
    if s.main.WUnlock? {
    } else if s.main.WWoken? {
    }
  }

  lemma BarrierPhase(s: State, c: Choice)
    requires MainEnabled(s, c, false) && InBarrier(s.main) && PhaseOk(s)
    ensures PhaseOk(BarrierStep(s, c))
  {
  }

  lemma BarrierFrame(s: State, c: Choice)
    requires MainEnabled(s, c, false) && InBarrier(s.main)
    ensures var t := BarrierStep(s, c); WorkersSame(s, t) && WordsOk(s, t)
  {
  }

  /** The owner goes to sleep only on a count that is not zero. */
  lemma BarrierWait(s: State, c: Choice)
    requires MainEnabled(s, c, false) && InBarrier(s.main) && BarrierOk(s)
    ensures BarrierOk(BarrierStep(s, c))
  {
    if s.main == WGoWait && s.pending == 0 && !s.failed {
      var k :| 0 <= k < |s.workers| && AboutToSignal(s.workers[k]);
    }
  }

  lemma RequestFrame(s: State, c: Choice)
    requires MainEnabled(s, c, false) && InRequest(s.main)
    ensures var t := RequestStep(s, c); WorkersSame(s, t) && WordsOk(s, t)
  {
  }

  lemma RequestGate(s: State, c: Choice)
    requires MainEnabled(s, c, false) && InRequest(s.main) && GateOwnerOk(s)
    ensures GateOwnerOk(RequestStep(s, c))
  {
    if s.main.SUnlock? {
    } else if s.main.SLock? {
    }
  }

  lemma RequestDone(s: State, c: Choice)
    requires MainEnabled(s, c, false) && InRequest(s.main) && DoneOwnerOk(s)
    ensures DoneOwnerOk(RequestStep(s, c))
  {
    if s.main.SUnlock? {
    } else if s.main.SLock? {
    }
  }

  lemma RequestHands(s: State, c: Choice)
    requires MainEnabled(s, c, false) && InRequest(s.main) && OwnersOk(s)
    ensures var t := RequestStep(s, c); MainHandedOver(s.gate, t.gate) && t.doneLock == s.doneLock
  {
  }

  lemma RequestPhase(s: State, c: Choice)
    requires MainEnabled(s, c, false) && InRequest(s.main) && PhaseOk(s)
    ensures PhaseOk(RequestStep(s, c))
  {
  }

  lemma ReapFrame(s: State, c: Choice)
    requires |s.joined| == |s.workers| && MainEnabled(s, c, false) && InReap(s.main)
    ensures var t := ReapStep(s, c); WorkersSame(s, t) && WordsOk(s, t) && BarrierOk(t)
  {
  }

  lemma ReapOwners(s: State, c: Choice)
    requires |s.joined| == |s.workers| && MainEnabled(s, c, false) && InReap(s.main) && OwnersOk(s)
    ensures var t := ReapStep(s, c); OwnersOk(t) && t.gate == s.gate && t.doneLock == s.doneLock
  {
  }

  lemma ReapPhase(s: State, c: Choice)
    requires |s.joined| == |s.workers| && MainEnabled(s, c, false) && InReap(s.main) && PhaseOk(s)
    ensures PhaseOk(ReapStep(s, c))
  {
  }

  /** The owner counts a worker as gone only after it has seen it exit. */
  lemma ReapJoined(s: State, c: Choice)
    requires MainEnabled(s, c, false) && InReap(s.main) && JoinedOk(s)
    ensures JoinedOk(ReapStep(s, c))
  {
  }

  lemma ReapSpun(s: State, c: Choice)
    requires |s.joined| == |s.workers| && MainEnabled(s, c, false) && InReap(s.main) && SpunOk(s)
    ensures SpunOk(ReapStep(s, c))
  {
  }

  /** Only reaping and the end of a call change who is known to be gone. */
  lemma JoinedKept(s: State, t: State)
    requires JoinedOk(s) && |t.workers| == |s.workers| && t.joined == s.joined && WorkersSame(s, t)
    ensures JoinedOk(t)
  {
    forall i | 0 <= i < |t.workers| && t.joined[i] ensures t.workers[i].pc == Exited {
      assert SameButWoken(s.workers[i], t.workers[i]);
    }
  }

  lemma DispatchSpun(s: State, c: Choice, request: bool)
    requires MainEnabled(s, c, request) && InDispatch(s.main)
    ensures SpunOk(DispatchStep(s, c, request)) && BarrierOk(DispatchStep(s, c, request))
  {
  }

  lemma BarrierSpun(s: State, c: Choice)
    requires MainEnabled(s, c, false) && InBarrier(s.main) && PhaseOk(s)
    ensures SpunOk(BarrierStep(s, c))
  {
  }

  lemma RequestSpun(s: State, c: Choice)
    requires MainEnabled(s, c, false) && InRequest(s.main)
    ensures SpunOk(RequestStep(s, c)) && BarrierOk(RequestStep(s, c))
  {
  }

  lemma MainStepWorkers(s: State, c: Choice, request: bool)
    requires |s.joined| == |s.workers| && MainEnabled(s, c, request)
    ensures WorkersSame(s, MainStep(s, c, request))
  {
    var u := Noted(s, c);
    if InDispatch(s.main) {
      DispatchFrame(u, c, request);
    } else if InBarrier(s.main) {
      BarrierFrame(u, c);
    } else if InRequest(s.main) {
      RequestFrame(u, c);
    } else {
      ReapFrame(u, c);
    }
  }

  lemma MainStepWords(s: State, c: Choice, request: bool)
    requires |s.joined| == |s.workers| && MainEnabled(s, c, request)
    ensures WordsOk(s, MainStep(s, c, request))
  {
    var u := Noted(s, c);
    if InDispatch(s.main) {
      DispatchFrame(u, c, request);
    } else if InBarrier(s.main) {
      BarrierFrame(u, c);
    } else if InRequest(s.main) {
      RequestFrame(u, c);
    } else {
      ReapFrame(u, c);
    }
  }

  lemma MainStepOwners(s: State, c: Choice, request: bool)
    requires |s.joined| == |s.workers| && MainEnabled(s, c, request) && OwnersOk(s)
    ensures OwnersOk(MainStep(s, c, request))
  {
    var u := Noted(s, c);
    if InDispatch(s.main) {
      DispatchGate(u, c, request);
      DispatchDone(u, c, request);
    } else if InBarrier(s.main) {
      BarrierGate(u, c);
      BarrierDone(u, c);
    } else if InRequest(s.main) {
      RequestGate(u, c);
      RequestDone(u, c);
    } else {
      ReapOwners(u, c);
    }
  }

  lemma MainStepHands(s: State, c: Choice, request: bool)
    requires |s.joined| == |s.workers| && MainEnabled(s, c, request) && OwnersOk(s)
    ensures var t := MainStep(s, c, request);
            MainHandedOver(s.gate, t.gate) && MainHandedOver(s.doneLock, t.doneLock)
  {
    var u := Noted(s, c);
    if InDispatch(s.main) {
      DispatchHands(u, c, request);
    } else if InBarrier(s.main) {
      BarrierGate(u, c);
      BarrierDone(u, c);
    } else if InRequest(s.main) {
      RequestHands(u, c);
    } else {
      ReapOwners(u, c);
    }
  }

  lemma MainStepPhase(s: State, c: Choice, request: bool)
    requires |s.joined| == |s.workers| && MainEnabled(s, c, request) && PhaseOk(s)
    ensures PhaseOk(MainStep(s, c, request))
  {
    var u := Noted(s, c);
    if InDispatch(s.main) {
      DispatchPhase(u, c, request);
    } else if InBarrier(s.main) {
      BarrierPhase(u, c);
    } else if InRequest(s.main) {
      RequestPhase(u, c);
    } else {
      ReapPhase(u, c);
    }
  }

  lemma MainStepJoined(s: State, c: Choice, request: bool)
    requires MainEnabled(s, c, request) && JoinedOk(s)
    ensures JoinedOk(MainStep(s, c, request))
  {
    var u := Noted(s, c);
    if InReap(s.main) {
      ReapJoined(u, c);
    } else {
      MainStepWorkers(s, c, request);
      JoinedKept(u, MainStep(s, c, request));
    }
  }

  lemma MainStepSpun(s: State, c: Choice, request: bool)
    requires |s.joined| == |s.workers| && MainEnabled(s, c, request) && SpunOk(s) && PhaseOk(s)
    ensures SpunOk(MainStep(s, c, request))
  {
    var u := Noted(s, c);
    if InDispatch(s.main) {
      DispatchSpun(u, c, request);
    } else if InBarrier(s.main) {
      BarrierSpun(u, c);
    } else if InRequest(s.main) {
      RequestSpun(u, c);
    } else {
      ReapSpun(u, c);
    }
  }

  lemma MainStepBarrier(s: State, c: Choice, request: bool)
    requires |s.joined| == |s.workers| && MainEnabled(s, c, request) && OwnersOk(s) && BarrierOk(s)
    ensures BarrierOk(MainStep(s, c, request))
  {
    var u := Noted(s, c);
    if InDispatch(s.main) {
      DispatchSpun(u, c, request);
    } else if InBarrier(s.main) {
      BarrierWait(u, c);
    } else if InRequest(s.main) {
      RequestSpun(u, c);
    } else {
      ReapFrame(u, c);
    }
  }

  /** A broadcast leaves nobody asleep; without one, nobody's condition changes. */
  lemma DispatchSleep(s: State, c: Choice, request: bool, i: nat)
    requires MainEnabled(s, c, request) && InDispatch(s.main) && (Bad(c) ==> s.failed)
    requires i < |s.workers| && SleepOk(s, i)
    ensures SleepOk(DispatchStep(s, c, request), i)
  {
  }

  lemma BarrierSleep(s: State, c: Choice, i: nat)
    requires MainEnabled(s, c, false) && InBarrier(s.main)
    requires i < |s.workers| && SleepOk(s, i)
    ensures SleepOk(BarrierStep(s, c), i)
  {
  }

  lemma RequestSleep(s: State, c: Choice, i: nat)
    requires MainEnabled(s, c, false) && InRequest(s.main) && (Bad(c) ==> s.failed)
    requires i < |s.workers| && SleepOk(s, i)
    ensures SleepOk(RequestStep(s, c), i)
  {
  }

  lemma ReapSleep(s: State, c: Choice, i: nat)
    requires |s.joined| == |s.workers| && MainEnabled(s, c, false) && InReap(s.main)
    requires i < |s.workers| && SleepOk(s, i)
    ensures SleepOk(ReapStep(s, c), i)
  {
  }

  lemma MainStepSleep(s: State, c: Choice, request: bool, i: nat)
    requires |s.joined| == |s.workers| && MainEnabled(s, c, request)
    requires i < |s.workers| && SleepOk(s, i)
    ensures SleepOk(MainStep(s, c, request), i)
  {
    var u := Noted(s, c);
    if InDispatch(s.main) {
      DispatchSleep(u, c, request, i);
    } else if InBarrier(s.main) {
      BarrierSleep(u, c, i);
    } else if InRequest(s.main) {
      RequestSleep(u, c, i);
    } else {
      ReapSleep(u, c, i);
    }
  }

  lemma OwnerKeepsLocks(w: Worker, v: Worker, i: nat, gate: Owner, gate': Owner, doneLock: Owner, doneLock': Owner)
    requires LocksOk(w, i, gate, doneLock) && SameButWoken(w, v)
    requires MainHandedOver(gate, gate') && MainHandedOver(doneLock, doneLock')
    ensures LocksOk(v, i, gate', doneLock')
  {
  }

  /** Arming needs the worker to have finished the generation before. */
  lemma OwnerKeepsLag(s: State, t: State, w: Worker, v: Worker)
    requires LagOk(w, s.generation) && ExitOk(w, s.generation, s.exitRequested) && PhaseOk(s)
    requires SameButWoken(w, v) && WordsOk(s, t) && (s.main == DArm ==> w.done >= s.generation)
    ensures LagOk(v, t.generation) && ExitOk(v, t.generation, t.exitRequested)
  {
  }

  lemma MainStepWorker(s: State, c: Choice, request: bool, i: nat)
    requires |s.joined| == |s.workers| && MainEnabled(s, c, request) && OwnersOk(s) && PhaseOk(s)
    requires i < |s.workers| && WorkerOk(s, i) && (s.main == DArm ==> s.workers[i].done >= s.generation)
    ensures WorkerOk(MainStep(s, c, request), i)
  {
    var t := MainStep(s, c, request);
    MainStepWorkers(s, c, request);
    MainStepWords(s, c, request);
    MainStepHands(s, c, request);
    assert SameButWoken(s.workers[i], t.workers[i]);
    OwnerKeepsLocks(s.workers[i], t.workers[i], i, s.gate, t.gate, s.doneLock, t.doneLock);
    OwnerKeepsLag(s, t, s.workers[i], t.workers[i]);
    MainStepSleep(s, c, request, i);
  }

  lemma MainStepCount(s: State, c: Choice, request: bool)
    requires |s.joined| == |s.workers| && MainEnabled(s, c, request) && PhaseOk(s)
    requires forall i | 0 <= i < |s.workers| :: LagOk(s.workers[i], s.generation)
    requires s.pending == CountOwing(s.workers, s.generation)
    ensures var t := MainStep(s, c, request); t.pending == CountOwing(t.workers, t.generation)
    ensures s.main == DArm ==> forall i | 0 <= i < |s.workers| :: s.workers[i].done >= s.generation
  {
    var t := MainStep(s, c, request);
    MainStepWorkers(s, c, request);
    MainStepWords(s, c, request);
    forall i | 0 <= i < |s.workers| ensures s.workers[i].done == t.workers[i].done {
      assert SameButWoken(s.workers[i], t.workers[i]);
    }
    if s.main == DArm {
      CountZero(s.workers, s.generation);
      CountAll(t.workers, s.generation + 1);
    } else {
      CountSameDone(s.workers, t.workers, s.generation);
    }
  }

  lemma MainStepKeepsInv(s: State, c: Choice, request: bool)
    requires Inv(s) && MainEnabled(s, c, request)
    ensures Inv(MainStep(s, c, request))
  {
    forall i | 0 <= i < |s.workers| ensures LagOk(s.workers[i], s.generation) {
      assert WorkerOk(s, i);
    }
    MainStepCount(s, c, request);
    forall i: nat | i < |s.workers| ensures WorkerOk(MainStep(s, c, request), i) {
      MainStepWorker(s, c, request, i);
    }
    MainStepOwners(s, c, request);
    MainStepPhase(s, c, request);
    MainStepJoined(s, c, request);
    MainStepSpun(s, c, request);
    MainStepBarrier(s, c, request);
  }
}
