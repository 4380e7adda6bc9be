/** Who signals a dispatch's completion: the worker that finishes last, and only that one. And
    what a mutex that could not be unlocked does: it stays locked. */
module GateSignal {
  import opened Gate
  import opened GateSafety
  import opened GateRuns
  import opened GateProgress
  import opened GateBound

  /** Between the countdown and the next wait, by way of the completion lock. */
  predicate Finishing(pc: WorkerPc) {
    pc.DoneLock? || pc.DoneSignal? || pc.DoneMark? || pc.DoneUnlock? || pc.MarkFailed?
  }

  /** A worker on its way to the signal was the last of its generation. */
  ghost predicate LastOfAll(s: State, i: nat)
    requires i < |s.workers|
  {
    Finishing(s.workers[i].pc) ==> s.workers[i].done < s.generation || s.pending == 0
  }

  ghost predicate SignalOk(s: State) {
    && (forall i: nat | i < |s.workers| :: LastOfAll(s, i))
    && (forall i: nat, k: nat | i < k < |s.workers| ::
          !(Finishing(s.workers[i].pc) && Finishing(s.workers[k].pc)))
  }

  lemma WaitNeverFinishes(s: State, i: nat, c: Choice)
    requires i < |s.workers| && WorkerEnabled(s, i, c) && InWait(s.workers[i].pc)
    ensures !Finishing(WaitEffect(s, i, c).w.pc)
  {
    if s.workers[i].pc.Leave? {
    } else if s.workers[i].pc.GateCheck? {
    }
  }

  lemma FailNeverFinishes(s: State, i: nat, c: Choice)
    requires i < |s.workers| && WorkerEnabled(s, i, c) && Failing(s.workers[i].pc)
    ensures !Finishing(FailEffect(s, i, c).w.pc)
  {
  }

  lemma RunFinishes(s: State, i: nat, c: Choice)
    requires i < |s.workers| && WorkerEnabled(s, i, c) && !InWait(s.workers[i].pc) && !Failing(s.workers[i].pc)
    ensures var w, v := s.workers[i], RunEffect(s, i, c).w;
            && (!w.pc.Decrement? ==> v.done == w.done)
            && (Finishing(v.pc) ==> Finishing(w.pc) || (w.pc.Decrement? && s.pending == 1))
            && (Finishing(w.pc) ==> !w.pc.Decrement?)
  {
  }

  /** Only a countdown to zero leads to the signal. */
  lemma FinishingStarts(s: State, i: nat, c: Choice)
    requires i < |s.workers| && WorkerEnabled(s, i, c)
    ensures var w, v := s.workers[i], WorkerEffect(s, i, c).w;
            Finishing(v.pc) ==>
              || (Finishing(w.pc) && v.done == w.done)
              || (w.pc.Decrement? && s.pending == 1)
  {
    if InWait(s.workers[i].pc) {
      WaitNeverFinishes(s, i, c);
    } else if Failing(s.workers[i].pc) {
      FailNeverFinishes(s, i, c);
    } else {
      RunFinishes(s, i, c);
    }
  }

  /** While a worker still owes its countdown, nobody who has counted down the current
      generation is on the way to the signal. */
  lemma OwingMeansNotLast(s: State, i: nat, k: nat)
    requires Inv(s) && SignalOk(s) && i < |s.workers| && k < |s.workers| && s.workers[i].pc.Decrement?
    requires Finishing(s.workers[k].pc)
    ensures s.workers[k].done < s.generation && s.pending > 1 && i != k
  {
    assert WorkerOk(s, i) && LastOfAll(s, k);
    CountZero(s.workers, s.generation);
    if s.workers[k].done < s.generation {
      TwoOwe(s.workers, s.generation, i, k);
    }
  }

  lemma {:induction false} TwoOwe(ws: seq<Worker>, gen: nat, i: nat, k: nat)
    requires i < |ws| && k < |ws| && i != k && ws[i].done < gen && ws[k].done < gen
    ensures CountOwing(ws, gen) >= 2
  {
    var n := |ws| - 1;
    CountZero(ws[..n], gen);
    if i == n {
      assert ws[..n][k].done < gen;
    } else if k == n {
      assert ws[..n][i].done < gen;
    } else {
      TwoOwe(ws[..n], gen, i, k);
    }
  }

  lemma WorkerStepKeepsSignal(s: State, i: nat, c: Choice)
    requires Inv(s) && SignalOk(s) && i < |s.workers| && WorkerEnabled(s, i, c)
    ensures SignalOk(WorkerStep(s, i, c))
  {
    var t, e := WorkerStep(s, i, c), WorkerEffect(s, i, c);
    assert WorkerOk(s, i) && LastOfAll(s, i);
    FinishingStarts(s, i, c);
    WorkerStepDone(s, i, c);
    forall k: nat | k < |s.workers| && k != i && Finishing(s.workers[k].pc)
      ensures s.workers[k].done < s.generation || t.pending == 0
      ensures !Finishing(e.w.pc)
    {
      assert LastOfAll(s, k);
      if s.workers[i].pc.Decrement? {
        OwingMeansNotLast(s, i, k);
      }
    }
    forall k: nat | k < |t.workers| ensures LastOfAll(t, k) {
    }
  }

  /** No worker's countdown, and nobody on the way to the signal, is touched. */
  ghost predicate SameFinishing(s: State, t: State) {
    && |t.workers| == |s.workers|
    && forall i: nat | i < |s.workers| ::
         t.workers[i].done == s.workers[i].done && (Finishing(t.workers[i].pc) <==> Finishing(s.workers[i].pc))
  }

  lemma SameWorkersSameFinishing(s: State, t: State)
    requires |t.workers| == |s.workers| && WorkersSame(s, t)
    ensures SameFinishing(s, t)
  {
  }

  lemma ReapKeepsFinishing(s: State, c: Choice)
    requires |s.joined| == |s.workers| && MainEnabled(s, c, false) && InReap(s.main)
    ensures var t := ReapStep(s, c); SameFinishing(s, t) && WordsOk(s, t)
  {
  }

  lemma OwnerKeepsFinishing(s: State, c: Choice, request: bool)
    requires |s.joined| == |s.workers| && MainEnabled(s, c, request)
    ensures var t := MainStep(s, c, request); SameFinishing(s, t) && WordsOk(s, t)
  {
    var u, t := Noted(s, c), MainStep(s, c, request);
    if InDispatch(s.main) {
      DispatchFrame(u, c, request);
      SameWorkersSameFinishing(u, t);
    } else if InBarrier(s.main) {
      BarrierFrame(u, c);
      SameWorkersSameFinishing(u, t);
    } else if InRequest(s.main) {
      RequestFrame(u, c);
      SameWorkersSameFinishing(u, t);
    } else {
      ReapKeepsFinishing(u, c);
    }
  }

  lemma OwnerKeepsSignal(s: State, c: Choice, request: bool)
    requires Inv(s) && SignalOk(s) && MainEnabled(s, c, request)
    ensures SignalOk(MainStep(s, c, request))
  {
    OwnerKeepsFinishing(s, c, request);
    var t := MainStep(s, c, request);
    forall i: nat | i < |t.workers| ensures LastOfAll(t, i) {
      assert LastOfAll(s, i) && WorkerOk(s, i);
    }
  }

  lemma {:induction false} RunsKeepSignal(s: State, run: seq<Event>)
    requires Inv(s) && SignalOk(s) && Happens(s, run)
    ensures SignalOk(After(s, run))
    decreases |run|
  {
    if run != [] {
      StepKeepsInv(s, run[0]);
      match run[0] {
        case WorkerMoves(i, c) => WorkerStepKeepsSignal(s, i, c);
        case OwnerMoves(c, request) => OwnerKeepsSignal(s, c, request);
      }
      RunsKeepSignal(Do(s, run[0]), run[1..]);
    }
  }

  /** On any run at most one worker at a time is on its way to the completion signal, and if
      it is there for the current generation then every worker has finished it. */
  lemma OnlyTheLastSignals(n: nat, run: seq<Event>, s: State, i: nat, k: nat)
    requires Reaches(n, run, s) && i < |s.workers| && k < |s.workers| && Finishing(s.workers[i].pc)
    ensures Finishing(s.workers[k].pc) ==> i == k
    ensures s.workers[i].done == s.generation ==> s.workers[k].done == s.generation
  {
    StartedKeepsInv(n);
    RunsKeepSignal(Started(n), run);
    ReachedInv(n, run, s);
    assert LastOfAll(s, i) && WorkerOk(s, k);
    CountZero(s.workers, s.generation);
  }

  // ------------------------------------------------------------- lost mutexes

  lemma WorkerKeepsStuck(s: State, i: nat, c: Choice)
    requires i < |s.workers| && WorkerEnabled(s, i, c) && LocksOk(s.workers[i], i, s.gate, s.doneLock)
    ensures var e := WorkerEffect(s, i, c);
            && (s.gate == Stuck ==> e.gate == Stuck) && (s.doneLock == Stuck ==> e.doneLock == Stuck)
            && (c == FailStuck ==> if HoldsDone(s.workers[i].pc) then e.doneLock == Stuck else e.gate == Stuck)
  {
    WorkerStepOwners(s, i, c);
  }

  lemma OwnerKeepsStuck(s: State, c: Choice, request: bool)
    requires |s.joined| == |s.workers| && MainEnabled(s, c, request) && OwnersOk(s)
    ensures var t := MainStep(s, c, request);
            && (s.gate == Stuck ==> t.gate == Stuck) && (s.doneLock == Stuck ==> t.doneLock == Stuck)
            && (c == FailStuck ==> if MainHoldsDone(s.main) then t.doneLock == Stuck else t.gate == Stuck)
  {
    var u := Noted(s, c);
    if InDispatch(s.main) {
      DispatchSticks(u, c, request);
    } else if InBarrier(s.main) {
      BarrierSticks(u, c);
    } else if InRequest(s.main) {
      RequestSticks(u, c);
    }
  }

  lemma DispatchSticks(s: State, c: Choice, request: bool)
    requires MainEnabled(s, c, request) && InDispatch(s.main) && OwnersOk(s)
    ensures var t := DispatchStep(s, c, request);
            && (s.gate == Stuck ==> t.gate == Stuck) && t.doneLock == s.doneLock && (c == FailStuck ==> t.gate == Stuck)
  {
  }

  lemma BarrierSticks(s: State, c: Choice)
    requires MainEnabled(s, c, false) && InBarrier(s.main) && OwnersOk(s)
    ensures var t := BarrierStep(s, c);
            && t.gate == s.gate && (s.doneLock == Stuck ==> t.doneLock == Stuck)
            && (c == FailStuck ==> t.doneLock == Stuck && MainHoldsDone(s.main))
  {
  }

  lemma RequestSticks(s: State, c: Choice)
    requires MainEnabled(s, c, false) && InRequest(s.main) && OwnersOk(s)
    ensures var t := RequestStep(s, c);
            && (s.gate == Stuck ==> t.gate == Stuck) && t.doneLock == s.doneLock && (c == FailStuck ==> t.gate == Stuck)
  {
  }

  /** An unlock that fails for good leaves its mutex locked, and nobody ever gets it back. */
  lemma StuckForGood(n: nat, before: seq<Event>, s: State, e: Event)
    requires Reaches(n, before, s) && Can(s, e)
    ensures var t := Do(s, e);
            && (s.gate == Stuck ==> t.gate == Stuck) && (s.doneLock == Stuck ==> t.doneLock == Stuck)
            && (ChoiceOf(e) == FailStuck ==> t.gate == Stuck || t.doneLock == Stuck)
  {
    ReachedInv(n, before, s);
    match e
    case WorkerMoves(i, c) =>
      assert WorkerOk(s, i);
      WorkerKeepsStuck(s, i, c);
    case OwnerMoves(c, request) => OwnerKeepsStuck(s, c, request);
  }

  // ------------------------------------------------------------- joined threads

  lemma DispatchKeepsJoined(s: State, c: Choice, request: bool, i: nat)
    requires JoinedOk(s) && MainEnabled(s, c, request) && InDispatch(s.main) && i < |s.workers| && s.joined[i]
    ensures var t := DispatchStep(s, c, request); t.joined[i] && t.workers[i] == s.workers[i]
  {
    if !s.main.Idle? {
      DispatchLeaves(s, c, request);
    }
  }

  lemma RequestKeepsJoined(s: State, c: Choice, i: nat)
    requires JoinedOk(s) && MainEnabled(s, c, false) && InRequest(s.main) && i < |s.workers| && s.joined[i]
    ensures var t := RequestStep(s, c); t.joined[i] && t.workers[i] == s.workers[i]
  {
    RequestLeaves(s, c);
  }

  lemma ReapKeepsJoined(s: State, c: Choice, i: nat)
    requires JoinedOk(s) && MainEnabled(s, c, false) && InReap(s.main) && i < |s.workers| && s.joined[i]
    ensures var t := ReapStep(s, c); t.joined[i] && t.workers[i] == s.workers[i]
  {
  }

  /** A thread that has been joined is gone and stays joined; it takes no step, and nobody
      cancels it. */
  lemma JoinedForGood(n: nat, before: seq<Event>, s: State, e: Event, i: nat)
    requires Reaches(n, before, s) && Can(s, e) && i < |s.workers| && s.joined[i]
    ensures var t := Do(s, e);
            s.workers[i].pc == Exited && |t.workers| == |t.joined| == |s.workers| && t.joined[i]
            && t.workers[i] == s.workers[i]
  {
    ReachedInv(n, before, s);
    match e
    case WorkerMoves(k, c) =>
    case OwnerMoves(c, request) =>
      var u := Noted(s, c);
      if InDispatch(s.main) {
        DispatchKeepsJoined(u, c, request, i);
      } else if InRequest(s.main) {
        RequestKeepsJoined(u, c, i);
      } else if InReap(s.main) {
        ReapKeepsJoined(u, c, i);
      }
  }
}
