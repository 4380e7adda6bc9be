/** When a retirement hangs: exactly which states are dead ends, and runs that lead there. */
module GateHangs {
  import opened Gate
  import opened GateSafety
  import opened GateRuns
  import opened GateProgress
  import opened GateReturn

  /** The owner waits for worker k to be gone. */
  ghost predicate WaitsFor(s: State, k: nat) {
    && k < |s.workers| == |s.joined| && s.workers[k].pc != Exited
    && ((s.main == SJoin(k) && !s.joined[k]) || s.main == PSpin(k))
  }

  /** An owner waiting for a worker and its workers are at a standstill, short of a spurious
      wakeup or a failing call, exactly if every worker that is not gone sleeps uncancelled
      or waits for a mutex that is locked for good. If no mutex is, it takes a refused
      cancellation after a failed exit request. */
  lemma HangsExactly(s: State, k: nat)
    requires Inv(s) && WaitsFor(s, k)
    ensures !CanProgress(s) <==>
              forall i: nat | i < |s.workers| ::
              s.workers[i].pc == Exited || Forgotten(s.workers[i]) || Walled(s, s.workers[i])
    ensures NotStuck(s) ==>
              (!CanProgress(s) <==>
               forall i: nat | i < |s.workers| :: s.workers[i].pc == Exited || Forgotten(s.workers[i]))
  {
    StandstillExactly(s);
  }

  /** The only worker has gone to sleep and the owner has begun to stop the pool. */
  function Napping(main: MainPc): State {
    Started(1).(workers := [Worker(Asleep, 0, 0, [], false, false, false)], main := main)
  }

  lemma OneFallsAsleep() returns (run: seq<Event>)
    ensures Reaches(1, run, Napping(Idle(NoCall)))
  {
    var e := WorkerMoves(0, Good);
    run := [e, e];
    var s0 := Started(1);
    var s1 := Do(s0, e);
    assert Do(s1, e) == Napping(Idle(NoCall));
    Chain(s1, e, []);
    Chain(s0, e, [e]);
    assert run == [e] + [e];
  }

  /** The owner's lock of the gate fails, and so does the cancellation. */
  function Abandoned(main: MainPc, marked: bool): State {
    Napping(main).(broken := true, failed := true, syncFailed := marked)
  }

  lemma OwnerFailsToLock() returns (run: seq<Event>)
    ensures Happens(Napping(Idle(NoCall)), run) && After(Napping(Idle(NoCall)), run) == Abandoned(SMark, false)
  {
    var good, bad := OwnerMoves(Good, false), OwnerMoves(Fail, false);
    var s0, s1 := Napping(Idle(NoCall)), Napping(PStart);
    var s2 := s1.(main := SLock, broken := true);
    assert Do(s0, good) == s1 && Do(s1, good) == s2 && Do(s2, bad) == Abandoned(SMark, false);
    Chain(s2, bad, []);
    Chain(s1, good, [bad]);
    Chain(s0, good, [good, bad]);
    run := [good] + [good, bad];
  }

  lemma CancellationIsRefused(s: State)
    requires s == Abandoned(SCancel(0), true)
    ensures Can(s, OwnerMoves(Fail, false)) && Do(s, OwnerMoves(Fail, false)) == Abandoned(SCancel(1), true)
  {
  }

  lemma OwnerFailsToCancel() returns (run: seq<Event>)
    ensures Happens(Abandoned(SMark, false), run) && After(Abandoned(SMark, false), run) == Abandoned(SJoin(0), true)
  {
    var good, bad := OwnerMoves(Good, false), OwnerMoves(Fail, false);
    var s0, s1, s2 := Abandoned(SMark, false), Abandoned(SCancel(0), true), Abandoned(SCancel(1), true);
    assert Do(s0, good) == s1;
    CancellationIsRefused(s1);
    assert Do(s2, good) == Abandoned(SJoin(0), true);
    Chain(s2, good, []);
    Chain(s1, bad, [good]);
    Chain(s0, good, [bad, good]);
    run := [good] + [bad, good];
  }

  lemma AbandonedHangs()
    ensures var s := Abandoned(SJoin(0), true); NotStuck(s) && WaitsFor(s, 0) && !CanProgress(s)
  {
    var s := Abandoned(SJoin(0), true);
    assert |s.workers| == 1;
  }

  lemma AbandonedIsReached() returns (run: seq<Event>)
    ensures Reaches(1, run, Abandoned(SJoin(0), true))
  {
    var sleep := OneFallsAsleep();
    var request := OwnerFailsToLock();
    var cancel := OwnerFailsToCancel();
    Append(Napping(Idle(NoCall)), request, cancel);
    Append(Started(1), sleep, request + cancel);
    run := sleep + (request + cancel);
  }

  /** The hang is real: one worker goes to sleep, the owner's lock of the gate fails, and
      the cancellation is refused. */
  lemma RefusedCancellationCanHang() returns (run: seq<Event>, s: State)
    ensures Reaches(1, run, s) && NotStuck(s) && WaitsFor(s, 0) && !CanProgress(s)
  {
    run := AbandonedIsReached();
    s := Abandoned(SJoin(0), true);
    AbandonedHangs();
  }

  /** A dispatch whose unlock of the gate has failed for good. */
  function Locked(n: nat, main: MainPc): State {
    Started(n).(main := main, gate := Stuck, generation := 1, pending := n, syncFailed := true, failed := true)
  }

  lemma UnlockFails(n: nat) returns (run: seq<Event>)
    ensures Reaches(n, run, Locked(n, PStart))
  {
    var good, bad := OwnerMoves(Good, true), OwnerMoves(FailStuck, true);
    var s0 := Started(n);
    var s1 := s0.(main := DLock);
    var s2 := s1.(main := DArm, gate := ByMain);
    var s3 := s2.(main := DBroadcast, generation := 1, pending := n);
    var s4 := s3.(main := DUnlock(true));
    var s5 := Locked(n, DMark).(syncFailed := false);
    assert WakeAll(s3.workers) == s3.workers;
    assert Do(s0, good) == s1 && Do(s1, good) == s2 && Do(s2, good) == s3 && Do(s3, good) == s4;
    assert Do(s4, bad) == s5 && Do(s5, good) == Locked(n, PStart);
    Chain(s5, good, []);
    Chain(s4, bad, [good]);
    Chain(s3, good, [bad, good]);
    Chain(s2, good, [good] + [bad, good]);
    Chain(s1, good, [good] + ([good] + [bad, good]));
    Chain(s0, good, [good] + ([good] + ([good] + [bad, good])));
    run := [good] + ([good] + ([good] + ([good] + [bad, good])));
  }

  /** A mutex left locked hangs a dispatch of any number of workers: the unlock of the gate
      fails for good, and the owner waits for the same mutex to ask the workers to exit. */
  lemma StuckMutexCanHang(n: nat) returns (run: seq<Event>, s: State)
    ensures Reaches(n, run, s) && s.main == SLock && s.gate == Stuck && !CanProgress(s)
  {
    var before := UnlockFails(n);
    var t := Locked(n, PStart);
    s := Locked(n, SLock).(broken := true);
    var good := OwnerMoves(Good, false);
    assert Do(t, good) == s;
    Chain(t, good, []);
    ReachesFurther(n, before, t, [good]);
    run := before + [good];
  }
}
