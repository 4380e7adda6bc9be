/** How long a call can take: a bound on the steps of all threads together, under any
    schedule and whatever pthread calls fail. Only spurious wakeups add to it. */
module GateBound {
  import opened Gate
  import opened GateSafety
  import opened GateRuns
  import opened GateProgress

  /** Retiring, or done with it. */
  predicate OnRetreat(pc: MainPc) {
    pc.PStart? || Retiring(pc) || pc == Idle(Poisoned)
  }

  // ------------------------------------------------------------- what is left to do

  /** How far a completion signal can set the owner back. */
  function Toll(pc: MainPc): nat {
    if OnRetreat(pc) then 0 else 4
  }

  /** Steps left to a worker that takes no further generation. A worker signals at most
      three times: for its countdown, and twice for a failure. */
  function PcLeft(pc: WorkerPc, toll: nat): nat {
    match pc
    case Exited => 0
    case CancelUnlock => 1
    case CancelLock => 2
    case ReportUnlock(h) => if h then 6 + toll else 1
    case ReportSignal(h) => if h then 7 + 2 * toll else 2 + toll
    case ReportLock(h) => if h then 8 + 2 * toll else 3 + toll
    case Report(h) => if h then 9 + 2 * toll else 4 + toll
    case FailUnlock => 5 + toll
    case Leave(run) => if run then 21 + 3 * toll else 5 + toll
    case Woken(error) => if error then 10 + 2 * toll else 13 + 2 * toll
    case Asleep => 11 + 2 * toll
    case GateCheck => 12 + 2 * toll
    case GateLock => 13 + 2 * toll
    case MarkFailed => 14 + 2 * toll
    case DoneUnlock(_) => 15 + 2 * toll
    case DoneMark => 16 + 2 * toll
    case DoneSignal => 17 + 3 * toll
    case DoneLock => 18 + 3 * toll
    case Decrement => 19 + 3 * toll
    case Running => 20 + 3 * toll
  }

  function WorkerLeft(w: Worker, gen: nat, toll: nat): nat {
    PcLeft(w.pc, toll) + if w.seen < gen then 10 + toll else 0
  }

  function LeftSum(ws: seq<Worker>, gen: nat, toll: nat): nat {
    if ws == [] then 0 else LeftSum(ws[..|ws| - 1], gen, toll) + WorkerLeft(ws[|ws| - 1], gen, toll)
  }

  function Left(n: nat, k: nat): nat {
    if k < n then n - k else 0
  }

  function RetireLeft(pc: MainPc, n: nat): nat {
    match pc
    case PSpin(k) => 1 + Left(n, k)
    case SJoin(k) => 2 + n + Left(n, k)
    case SCancel(k) => 3 + 2 * n + Left(n, k)
    case SMark => 4 + 3 * n
    case SUnlock(_) => 5 + 3 * n
    case SBroadcast => 6 + 5 * n
    case SSet => 7 + 5 * n
    case SLock => 8 + 5 * n
    case PStart => 9 + 5 * n
    case _ => 0
  }

  /** Any step of a dispatch may turn it into a retirement. */
  function MainLeft(pc: MainPc, n: nat): nat {
    match pc
    case WSyncFinal => 10 + 5 * n
    case WPending => 11 + 5 * n
    case WUnlock(_) => 12 + 5 * n
    case WFinalCheck => 13 + 5 * n
    case WWoken(wake) => if wake == Signalled then 19 + 5 * n else 14 + 5 * n
    case WAsleep => 15 + 5 * n
    case WGoWait => 16 + 5 * n
    case WCheckPending => 17 + 5 * n
    case WCheckSync => 18 + 5 * n
    case WLock => 19 + 5 * n
    case WSync => 20 + 5 * n
    case DMark => 10 + 5 * n
    case DUnlock(_) => 21 + 5 * n
    case DBroadcast => 22 + 7 * n
    case DArm => 23 + 21 * n
    case DLock => 24 + 21 * n
    case _ => RetireLeft(pc, n)
  }

  function StepsLeft(s: State): nat {
    MainLeft(s.main, |s.workers|) + LeftSum(s.workers, s.generation, Toll(s.main))
  }

  // ------------------------------------------------------------- sums

  lemma {:induction false} LeftUpdate(ws: seq<Worker>, i: nat, w: Worker, gen: nat, toll: nat)
    requires i < |ws|
    ensures LeftSum(ws[i := w], gen, toll)
            == LeftSum(ws, gen, toll) - WorkerLeft(ws[i], gen, toll) + WorkerLeft(w, gen, toll)
  {
    var n := |ws| - 1;
    if i < n {
      LeftUpdate(ws[..n], i, w, gen, toll);
      assert ws[i := w][..n] == ws[..n][i := w];
    } else {
      assert ws[i := w][..n] == ws[..n];
    }
  }

  lemma {:induction false} WakingCosts(ws: seq<Worker>, gen: nat, toll: nat)
    ensures LeftSum(WakeAll(ws), gen, toll) <= LeftSum(ws, gen, toll) + 2 * |ws|
  {
    if ws != [] {
      var n := |ws| - 1;
      WakingCosts(ws[..n], gen, toll);
      assert WakeAll(ws)[..n] == WakeAll(ws[..n]);
    }
  }

  /** Arming gives every worker one more generation to run. */
  lemma {:induction false} ArmingCosts(ws: seq<Worker>, gen: nat)
    ensures LeftSum(ws, gen + 1, 4) <= LeftSum(ws, gen, 4) + 14 * |ws|
  {
    if ws != [] {
      ArmingCosts(ws[..|ws| - 1], gen);
    }
  }

  /** A retiring owner takes no signals. */
  lemma {:induction false} RetreatCosts(ws: seq<Worker>, gen: nat)
    ensures LeftSum(ws, gen, 0) <= LeftSum(ws, gen, 4)
  {
    if ws != [] {
      RetreatCosts(ws[..|ws| - 1], gen);
    }
  }

  lemma {:induction false} RetreatCeiling(ws: seq<Worker>, gen: nat)
    requires forall i | 0 <= i < |ws| :: LagOk(ws[i], gen)
    ensures LeftSum(ws, gen, 0) <= 28 * |ws|
  {
    if ws != [] {
      RetreatCeiling(ws[..|ws| - 1], gen);
      assert LagOk(ws[|ws| - 1], gen);
    }
  }

  /** Before a dispatch everybody is up to date. */
  lemma {:induction false} DispatchCeiling(ws: seq<Worker>, gen: nat)
    requires forall i | 0 <= i < |ws| :: LagOk(ws[i], gen) && ws[i].done >= gen
    ensures LeftSum(ws, gen, 4) <= 30 * |ws|
  {
    if ws != [] {
      DispatchCeiling(ws[..|ws| - 1], gen);
      assert LagOk(ws[|ws| - 1], gen);
    }
  }

  // ------------------------------------------------------------- worker steps

  /** What a step may add to the bound. */
  function Setback(c: Choice, main: MainPc): nat {
    if c != SpuriousWake then 0 else if OnRetreat(main) then 3 else 5
  }

  lemma SleepGetsNearer(s: State, i: nat, c: Choice, toll: nat)
    requires i < |s.workers| && WorkerEnabled(s, i, c) && (s.workers[i].pc.Asleep? || s.workers[i].pc.Woken?)
    ensures WorkerLeft(WaitEffect(s, i, c).w, s.generation, toll)
            < WorkerLeft(s.workers[i], s.generation, toll) + if c == SpuriousWake then 3 else 0
  {
  }

  lemma CheckGetsNearer(s: State, i: nat, c: Choice, toll: nat)
    requires i < |s.workers| && WorkerEnabled(s, i, c) && s.workers[i].pc.GateCheck?
    requires LagOk(s.workers[i], s.generation)
    ensures WorkerLeft(WaitEffect(s, i, c).w, s.generation, toll) < WorkerLeft(s.workers[i], s.generation, toll)
  {
  }

  lemma WaitGetsNearer(s: State, i: nat, c: Choice, toll: nat)
    requires i < |s.workers| && WorkerEnabled(s, i, c) && InWait(s.workers[i].pc)
    requires !s.workers[i].pc.Asleep? && !s.workers[i].pc.Woken? && !s.workers[i].pc.GateCheck?
    ensures WorkerLeft(WaitEffect(s, i, c).w, s.generation, toll) < WorkerLeft(s.workers[i], s.generation, toll)
  {
  }

  lemma ReportGetsNearer(s: State, i: nat, c: Choice, toll: nat)
    requires i < |s.workers| && WorkerEnabled(s, i, c)
    requires s.workers[i].pc.ReportLock? || s.workers[i].pc.ReportSignal?
    ensures var e := FailEffect(s, i, c);
            WorkerLeft(e.w, s.generation, toll) + (if e.signal then toll else 0)
            < WorkerLeft(s.workers[i], s.generation, toll)
  {
  }

  lemma FailGetsNearer(s: State, i: nat, c: Choice, toll: nat)
    requires i < |s.workers| && WorkerEnabled(s, i, c) && Failing(s.workers[i].pc)
    requires !s.workers[i].pc.ReportLock? && !s.workers[i].pc.ReportSignal?
    ensures var e := FailEffect(s, i, c);
            WorkerLeft(e.w, s.generation, toll) + (if e.signal then toll else 0)
            < WorkerLeft(s.workers[i], s.generation, toll)
  {
  }

  lemma RunGetsNearer(s: State, i: nat, c: Choice, toll: nat)
    requires i < |s.workers| && WorkerEnabled(s, i, c) && !InWait(s.workers[i].pc) && !Failing(s.workers[i].pc)
    ensures var e := RunEffect(s, i, c);
            WorkerLeft(e.w, s.generation, toll) + (if e.signal then toll else 0)
            < WorkerLeft(s.workers[i], s.generation, toll)
  {
  }

  lemma EffectGetsNearer(s: State, i: nat, c: Choice, toll: nat)
    requires i < |s.workers| && WorkerEnabled(s, i, c) && LagOk(s.workers[i], s.generation)
    ensures var e := WorkerEffect(s, i, c);
            WorkerLeft(e.w, s.generation, toll) + (if e.signal then toll else 0)
            < WorkerLeft(s.workers[i], s.generation, toll) + if c == SpuriousWake then 3 else 0
  {
    if s.workers[i].pc.Asleep? || s.workers[i].pc.Woken? {
      SleepGetsNearer(s, i, c, toll);
    } else if s.workers[i].pc.GateCheck? {
      CheckGetsNearer(s, i, c, toll);
    } else if InWait(s.workers[i].pc) {
      WaitGetsNearer(s, i, c, toll);
    } else if s.workers[i].pc.ReportLock? || s.workers[i].pc.ReportSignal? {
      ReportGetsNearer(s, i, c, toll);
    } else if Failing(s.workers[i].pc) {
      FailGetsNearer(s, i, c, toll);
    } else {
      RunGetsNearer(s, i, c, toll);
    }
  }

  /** Whatever succeeds or fails, a worker's step pays for itself and for the signal it
      may send; only a spurious wakeup sets it back. */
  lemma WorkerGetsNearer(s: State, i: nat, c: Choice)
    requires i < |s.workers| && WorkerEnabled(s, i, c) && LagOk(s.workers[i], s.generation)
    ensures StepsLeft(WorkerStep(s, i, c)) < StepsLeft(s) + Setback(c, s.main)
  {
    EffectGetsNearer(s, i, c, Toll(s.main));
    LeftUpdate(s.workers, i, WorkerEffect(s, i, c).w, s.generation, Toll(s.main));
  }

  // ------------------------------------------------------------- owner steps

  lemma RetreatLeft(pc: MainPc, n: nat)
    requires OnRetreat(pc)
    ensures MainLeft(pc, n) == RetireLeft(pc, n) && Toll(pc) == 0
  {
  }

  lemma DispatchGoesOn(s: State, c: Choice, request: bool)
    requires MainEnabled(s, c, request) && InDispatch(s.main) && !s.main.Idle?
    ensures var n := |s.workers|;
            MainLeft(DispatchStep(s, c, request).main, n)
            + (if s.main == DArm then 14 * n else if s.main == DBroadcast then 2 * n else 0) < MainLeft(s.main, n)
  {
  }

  lemma DispatchLeaves(s: State, c: Choice, request: bool)
    requires MainEnabled(s, c, request) && InDispatch(s.main) && !s.main.Idle?
    ensures var t := DispatchStep(s, c, request);
            && t.generation == s.generation + (if s.main == DArm then 1 else 0)
            && (t.workers == s.workers || (s.main == DBroadcast && t.workers == WakeAll(s.workers)))
            && (s.main == DArm || s.main == DBroadcast ==> !OnRetreat(t.main))
  {
  }

  lemma DispatchCosts(s: State, c: Choice, request: bool)
    requires MainEnabled(s, c, request) && InDispatch(s.main) && !s.main.Idle?
    ensures var t, n := DispatchStep(s, c, request), |s.workers|;
            LeftSum(t.workers, t.generation, Toll(t.main))
            <= LeftSum(s.workers, s.generation, 4)
               + if s.main == DArm then 14 * n else if s.main == DBroadcast then 2 * n else 0
  {
    DispatchLeaves(s, c, request);
    RetreatCosts(s.workers, s.generation);
    ArmingCosts(s.workers, s.generation);
    WakingCosts(s.workers, s.generation, 4);
  }

  lemma DispatchGetsNearer(s: State, c: Choice, request: bool)
    requires MainEnabled(s, c, request) && InDispatch(s.main) && !s.main.Idle?
    ensures StepsLeft(DispatchStep(s, c, request)) < StepsLeft(s)
  {
    DispatchCosts(s, c, request);
    DispatchGoesOn(s, c, request);
  }

  lemma BarrierGoesOn(s: State, c: Choice)
    requires MainEnabled(s, c, false) && InBarrier(s.main)
    requires !s.main.WAsleep? && !s.main.WWoken? && !WaitIsOver(s.main)
    ensures MainLeft(BarrierStep(s, c).main, |s.workers|) < MainLeft(s.main, |s.workers|)
  {
  }

  predicate WaitIsOver(pc: MainPc) {
    pc.WUnlock? || pc.WPending? || pc.WSyncFinal?
  }

  lemma BarrierFinishes(s: State, c: Choice)
    requires MainEnabled(s, c, false) && WaitIsOver(s.main)
    ensures MainLeft(BarrierStep(s, c).main, |s.workers|) < MainLeft(s.main, |s.workers|)
  {
  }

  lemma TimedWaitGoesOn(s: State, c: Choice)
    requires MainEnabled(s, c, false) && (s.main.WAsleep? || s.main.WWoken?)
    ensures MainLeft(BarrierStep(s, c).main, |s.workers|)
            < MainLeft(s.main, |s.workers|) + if c == SpuriousWake then 5 else 0
  {
  }

  lemma BarrierLeaves(s: State, c: Choice)
    requires MainEnabled(s, c, false) && InBarrier(s.main)
    ensures var t := BarrierStep(s, c); t.workers == s.workers && t.generation == s.generation
  {
  }

  lemma BarrierCosts(s: State, c: Choice)
    requires MainEnabled(s, c, false) && InBarrier(s.main)
    ensures var t := BarrierStep(s, c);
            LeftSum(t.workers, t.generation, Toll(t.main)) <= LeftSum(s.workers, s.generation, 4)
  {
    BarrierLeaves(s, c);
    RetreatCosts(s.workers, s.generation);
  }

  lemma BarrierGetsNearer(s: State, c: Choice)
    requires MainEnabled(s, c, false) && InBarrier(s.main)
    ensures StepsLeft(BarrierStep(s, c)) < StepsLeft(s) + Setback(c, s.main)
  {
    BarrierCosts(s, c);
    if s.main.WAsleep? || s.main.WWoken? {
      TimedWaitGoesOn(s, c);
    } else if WaitIsOver(s.main) {
      BarrierFinishes(s, c);
    } else {
      BarrierGoesOn(s, c);
    }
  }

  lemma RequestLeaves(s: State, c: Choice)
    requires MainEnabled(s, c, false) && InRequest(s.main)
    ensures var t := RequestStep(s, c);
            && t.generation == s.generation && OnRetreat(t.main)
            && (t.workers == s.workers || (s.main == SBroadcast && t.workers == WakeAll(s.workers)))
  {
  }

  lemma RequestCosts(s: State, c: Choice)
    requires MainEnabled(s, c, false) && InRequest(s.main)
    ensures var t := RequestStep(s, c);
            && t.generation == s.generation && OnRetreat(t.main)
            && LeftSum(t.workers, s.generation, 0)
               <= LeftSum(s.workers, s.generation, 0) + if s.main == SBroadcast then 2 * |s.workers| else 0
  {
    RequestLeaves(s, c);
    WakingCosts(s.workers, s.generation, 0);
  }

  lemma RequestGoesOn(s: State, c: Choice)
    requires MainEnabled(s, c, false) && InRequest(s.main)
    ensures var n := |s.workers|;
            RetireLeft(RequestStep(s, c).main, n) + (if s.main == SBroadcast then 2 * n else 0) < RetireLeft(s.main, n)
  {
  }

  lemma RequestGetsNearer(s: State, c: Choice)
    requires MainEnabled(s, c, false) && InRequest(s.main)
    ensures StepsLeft(RequestStep(s, c)) < StepsLeft(s)
  {
    RequestCosts(s, c);
    RequestGoesOn(s, c);
    RetreatLeft(s.main, |s.workers|);
    RetreatLeft(RequestStep(s, c).main, |s.workers|);
  }

  lemma CancelCostsNothing(s: State, c: Choice)
    requires |s.joined| == |s.workers| && MainEnabled(s, c, false) && s.main.SCancel?
    ensures LeftSum(ReapStep(s, c).workers, s.generation, 0) == LeftSum(s.workers, s.generation, 0)
  {
    var k := s.main.k;
    if k < |s.workers| {
      LeftUpdate(s.workers, k, s.workers[k].(cancelled := true), s.generation, 0);
    }
  }

  lemma ReapGoesOn(s: State, c: Choice)
    requires |s.joined| == |s.workers| && MainEnabled(s, c, false) && InReap(s.main)
    ensures OnRetreat(ReapStep(s, c).main)
    ensures RetireLeft(ReapStep(s, c).main, |s.workers|) < RetireLeft(s.main, |s.workers|)
  {
  }

  lemma ReapGetsNearer(s: State, c: Choice)
    requires |s.joined| == |s.workers| && MainEnabled(s, c, false) && InReap(s.main)
    ensures StepsLeft(ReapStep(s, c)) < StepsLeft(s)
  {
    ReapGoesOn(s, c);
    RetreatLeft(s.main, |s.workers|);
    RetreatLeft(ReapStep(s, c).main, |s.workers|);
    if s.main.SCancel? {
      CancelCostsNothing(s, c);
    }
  }

  lemma OwnerGetsNearer(s: State, c: Choice, request: bool)
    requires |s.joined| == |s.workers| && !s.main.Idle? && MainEnabled(s, c, request)
    ensures StepsLeft(MainStep(s, c, request)) < StepsLeft(s) + Setback(c, s.main)
  {
    var u := Noted(s, c);
    if InDispatch(s.main) {
      DispatchGetsNearer(u, c, request);
    } else if InBarrier(s.main) {
      BarrierGetsNearer(u, c);
    } else if InRequest(s.main) {
      RequestGetsNearer(u, c);
    } else {
      ReapGetsNearer(u, c);
    }
  }

  lemma StepGetsNearer(s: State, e: Event)
    requires Inv(s) && !s.main.Idle? && Can(s, e)
    ensures StepsLeft(Do(s, e)) < StepsLeft(s) + Setback(ChoiceOf(e), s.main)
  {
    match e
    case WorkerMoves(i, c) =>
      assert WorkerOk(s, i);
      WorkerGetsNearer(s, i, c);
    case OwnerMoves(c, request) => OwnerGetsNearer(s, c, request);
  }

  // ------------------------------------------------------------- how a call ends

  lemma DispatchEnds(s: State, c: Choice, request: bool)
    requires MainEnabled(s, c, request) && InDispatch(s.main) && !s.main.Idle?
    ensures !DispatchStep(s, c, request).main.Idle?
  {
  }

  lemma BarrierEnds(s: State, c: Choice)
    requires MainEnabled(s, c, false) && InBarrier(s.main)
    ensures var pc := BarrierStep(s, c).main; pc.Idle? ==> pc == Idle(Dispatched)
  {
  }

  lemma RequestEnds(s: State, c: Choice)
    requires MainEnabled(s, c, false) && InRequest(s.main)
    ensures OnRetreat(RequestStep(s, c).main)
  {
  }

  lemma ReapEnds(s: State, c: Choice)
    requires |s.joined| == |s.workers| && MainEnabled(s, c, false) && InReap(s.main)
    ensures OnRetreat(ReapStep(s, c).main)
  {
  }

  lemma MainStepEnds(s: State, c: Choice, request: bool)
    requires |s.joined| == |s.workers| && MainEnabled(s, c, request) && !s.main.Idle?
    ensures var pc := MainStep(s, c, request).main;
            pc.Idle? ==> pc == Idle(Dispatched) || pc == Idle(Poisoned)
  {
    var u := Noted(s, c);
    if InDispatch(s.main) {
      DispatchEnds(u, c, request);
    } else if InBarrier(s.main) {
      BarrierEnds(u, c);
    } else if InRequest(s.main) {
      RequestEnds(u, c);
    } else {
      ReapEnds(u, c);
    }
  }

  lemma MainStepRetreats(s: State, c: Choice, request: bool)
    requires |s.joined| == |s.workers| && MainEnabled(s, c, request) && !s.main.Idle? && OnRetreat(s.main)
    ensures OnRetreat(MainStep(s, c, request).main)
  {
    var u := Noted(s, c);
    if InRequest(s.main) {
      RequestEnds(u, c);
    } else {
      ReapEnds(u, c);
    }
  }

  /** A call that returns has dispatched or retired; a retirement goes on until it has. */
  lemma CallsEndTwoWays(s: State, e: Event)
    requires !s.main.Idle? && Can(s, e)
    ensures var pc := Do(s, e).main;
            && (pc.Idle? ==> pc == Idle(Dispatched) || pc == Idle(Poisoned))
            && (OnRetreat(s.main) ==> OnRetreat(pc))
  {
    match e
    case WorkerMoves(i, c) =>
    case OwnerMoves(c, request) =>
      MainStepEnds(s, c, request);
      if OnRetreat(s.main) {
        MainStepRetreats(s, c, request);
      }
  }

  // ------------------------------------------------------------- runs of one call

  /** A run during which the owner never gets back to its caller before the end. Any call
      of any thread may fail, any wait may wake spuriously or time out. */
  ghost predicate BusyRun(s: State, run: seq<Event>)
    decreases |run|
  {
    run == [] || (!s.main.Idle? && Can(s, run[0]) && BusyRun(Do(s, run[0]), run[1..]))
  }

  /** How many events of the run were resolved in this way. */
  function Count(run: seq<Event>, c: Choice): nat {
    if run == [] then 0 else (if ChoiceOf(run[0]) == c then 1 else 0) + Count(run[1..], c)
  }

  lemma {:induction false} BusyRunIsShort(s: State, run: seq<Event>)
    requires Inv(s) && BusyRun(s, run)
    ensures Happens(s, run) && Inv(After(s, run))
    ensures |run| + StepsLeft(After(s, run))
            <= StepsLeft(s) + (if OnRetreat(s.main) then 3 else 5) * Count(run, SpuriousWake)
    decreases |run|
  {
    if run != [] {
      var t := Do(s, run[0]);
      StepKeepsInv(s, run[0]);
      StepGetsNearer(s, run[0]);
      CallsEndTwoWays(s, run[0]);
      BusyRunIsShort(t, run[1..]);
    }
  }

  lemma {:induction false} BusyRunEnds(s: State, run: seq<Event>)
    requires Inv(s) && BusyRun(s, run) && !s.main.Idle? && Happens(s, run)
    ensures After(s, run).main.Idle? ==>
              After(s, run).main == Idle(Dispatched) || After(s, run).main == Idle(Poisoned)
    ensures OnRetreat(s.main) ==> OnRetreat(After(s, run).main)
    decreases |run|
  {
    if run != [] {
      var t := Do(s, run[0]);
      StepKeepsInv(s, run[0]);
      CallsEndTwoWays(s, run[0]);
      if t.main.Idle? {
        assert run[1..] == [];
      } else {
        BusyRunEnds(t, run[1..]);
      }
    }
  }

  lemma DispatchIsShort(s: State, run: seq<Event>)
    requires Inv(s) && s.main == DLock && BusyRun(s, run)
    ensures |run| <= 24 + 51 * |s.workers| + 5 * Count(run, SpuriousWake)
  {
    forall i | 0 <= i < |s.workers| ensures LagOk(s.workers[i], s.generation) {
      assert WorkerOk(s, i);
    }
    CountZero(s.workers, s.generation);
    DispatchCeiling(s.workers, s.generation);
    BusyRunIsShort(s, run);
  }

  lemma RetirementIsShort(s: State, run: seq<Event>)
    requires Inv(s) && s.main == PStart && BusyRun(s, run)
    ensures |run| <= 9 + 33 * |s.workers| + 3 * Count(run, SpuriousWake)
  {
    forall i | 0 <= i < |s.workers| ensures LagOk(s.workers[i], s.generation) {
      assert WorkerOk(s, i);
    }
    RetreatCeiling(s.workers, s.generation);
    BusyRunIsShort(s, run);
  }
}
