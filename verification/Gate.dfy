/** The dispatch gate of the worker pools (pool_gate.h) together with the worker loop,
    dispatch, poison and stop of worker_pool.h, as a transition system. Every lock, unlock,
    wait, signal, broadcast, cancellation and join, and every atomic access, is a step of its
    own; a pthread call may fail, a condition wait may wake spuriously or time out, and a
    failed unlock may or may not leave its mutex locked for good. Setting the own thread's
    cancel state touches nothing shared and is part of the step beside it. */
module Gate {

  datatype Owner = Free | ByMain | ByWorker(i: nat) | Stuck

  /** Program counter of a worker thread. `run` is the result of wait_for_go; `h` says
      whether the failure report is made with the gate lock held. */
  datatype WorkerPc =
    | GateLock | GateCheck | Asleep | Woken(error: bool) | Leave(run: bool)
    | Running | Decrement
    | DoneLock | DoneSignal | DoneMark | DoneUnlock(ok: bool) | MarkFailed
    | Report(h: bool) | ReportLock(h: bool) | ReportSignal(h: bool) | ReportUnlock(h: bool) | FailUnlock
    | CancelLock | CancelUnlock
    | Exited

  /** A worker: the last generation it took (`seen`), and as history the last generation
      it counted down (`done`) and the generations whose callback it entered (`log`).
      `bad` and `cancelled` mark workers that left by a gate failure or a cancellation, and
      `unheard` those whose report of it could not be signalled. */
  datatype Worker = Worker(
    pc: WorkerPc, seen: nat, done: nat, log: seq<nat>, bad: bool, cancelled: bool, unheard: bool)

  datatype Wake = Signalled | TimedOut | WaitError

  datatype Outcome = NoCall | Dispatched | Poisoned

  /** Program counter of the owner's thread: D dispatch, W wait_all, S stop, P poison. */
  datatype MainPc =
    | Idle(last: Outcome)
    | DLock | DArm | DBroadcast | DUnlock(ok: bool) | DMark
    | WSync | WLock | WCheckSync | WCheckPending | WGoWait | WAsleep | WWoken(wake: Wake)
    | WFinalCheck | WUnlock(ok: bool) | WPending | WSyncFinal
    | PStart | SLock | SSet | SBroadcast | SUnlock(ok: bool) | SMark | SCancel(k: nat) | SJoin(k: nat) | PSpin(k: nat)

  datatype State = State(
    workers: seq<Worker>, main: MainPc, gate: Owner, doneLock: Owner,
    generation: nat, exitRequested: bool, pending: int, syncFailed: bool,
    broken: bool, joined: seq<bool>, failed: bool)

  /** How the environment resolves a step. */
  datatype Choice = Good | Fail | FailStuck | SpuriousWake | Expire

  // ------------------------------------------------------------------- workers

  predicate HoldsGate(pc: WorkerPc) {
    || pc.GateCheck? || pc.Leave? || pc.FailUnlock? || pc.CancelUnlock?
    || ((pc.Report? || pc.ReportLock? || pc.ReportSignal? || pc.ReportUnlock?) && pc.h)
  }

  predicate HoldsDone(pc: WorkerPc) {
    pc.DoneSignal? || pc.DoneMark? || pc.DoneUnlock? || pc.ReportSignal? || pc.ReportUnlock?
  }

  /** The worker has taken a generation it has not counted down yet. */
  predicate Owing(pc: WorkerPc) {
    (pc.Leave? && pc.run) || pc.Running? || pc.Decrement?
  }

  /** `while (generation == seen && !exit_requested)` is over. */
  predicate ShouldGo(s: State, w: Worker) {
    w.seen != s.generation || s.exitRequested
  }

  predicate WorkerEnabled(s: State, i: nat, c: Choice)
    requires i < |s.workers|
  {
    match s.workers[i].pc
    case Exited => false
    case Asleep => c == SpuriousWake || c == Fail || (c == Good && s.workers[i].cancelled)
    case GateLock => (c == Good && s.gate == Free) || c == Fail
    case Woken(_) => c == Good && s.gate == Free
    case CancelLock => c == Good && s.gate == Free
    case DoneLock => (c == Good && s.doneLock == Free) || c == Fail
    case ReportLock(_) => (c == Good && s.doneLock == Free) || c == Fail
    case GateCheck => c == Good || c == Fail
    case DoneSignal => c == Good || c == Fail
    case ReportSignal(_) => c == Good || c == Fail
    case Running => c == Good
    case Decrement => c == Good
    case DoneMark => c == Good
    case MarkFailed => c == Good
    case Report(_) => c == Good
    case _ => c == Good || c == Fail || c == FailStuck
  }

  /** A mutex after an unlock that may have failed. */
  function Unlocked(c: Choice): Owner {
    if c == FailStuck then Stuck else Free
  }

  /** What one worker step does: to the worker itself and to the shared words. `signal`
      is a pthread_cond_signal on the completion condition. */
  datatype Effect = Effect(w: Worker, gate: Owner, doneLock: Owner, pending: int, syncFailed: bool, signal: bool)

  predicate InWait(pc: WorkerPc) {
    || pc.GateLock? || pc.GateCheck? || pc.Asleep? || pc.Woken? || pc.Leave? || pc.CancelLock? || pc.CancelUnlock?
  }

  /** Reporting a gate failure before leaving the loop. */
  predicate Failing(pc: WorkerPc) {
    pc.Report? || pc.ReportLock? || pc.ReportSignal? || pc.ReportUnlock? || pc.FailUnlock?
  }

  predicate Bad(c: Choice) {
    c == Fail || c == FailStuck
  }

  function Keep(s: State, w: Worker): Effect {
    Effect(w, s.gate, s.doneLock, s.pending, s.syncFailed, false)
  }

  /** up_pool_gate_wait_for_go, and the cleanup handler of a cancelled wait. */
  function WaitEffect(s: State, i: nat, c: Choice): Effect
    requires i < |s.workers| && WorkerEnabled(s, i, c) && InWait(s.workers[i].pc)
  {
    var w := s.workers[i];
    match w.pc
    case GateLock =>
      if Bad(c) then Keep(s, w.(pc := Report(false), bad := true))
      else Keep(s, w.(pc := GateCheck)).(gate := ByWorker(i))
    case GateCheck =>
      if Bad(c) then Keep(s, w.(pc := Report(true), bad := true))
      else if ShouldGo(s, w) then Keep(s, w.(pc := Leave(w.seen != s.generation), seen := s.generation))
      else Keep(s, w.(pc := Asleep)).(gate := Free)
    case Asleep => Keep(s, w.(pc := if c == Good then CancelLock else Woken(Bad(c))))
    case Woken(error) =>
      Keep(s, if error then w.(pc := Report(true), bad := true) else w.(pc := GateCheck)).(gate := ByWorker(i))
    case Leave(run) =>
      if Bad(c) then Keep(s, w.(pc := Report(false), bad := true)).(gate := Unlocked(c))
      else if run then Keep(s, w.(pc := Running, log := w.log + [w.seen])).(gate := Free)
      else Keep(s, w.(pc := Exited)).(gate := Free)
    case CancelLock => Keep(s, w.(pc := CancelUnlock)).(gate := ByWorker(i))
    case CancelUnlock => Keep(s, w.(pc := Exited)).(gate := Unlocked(c))
  }

  /** The callback and up_pool_gate_worker_done. */
  function RunEffect(s: State, i: nat, c: Choice): Effect
    requires i < |s.workers| && WorkerEnabled(s, i, c) && !InWait(s.workers[i].pc) && !Failing(s.workers[i].pc)
  {
    var w := s.workers[i];
    match w.pc
    case Running => Keep(s, w.(pc := Decrement))
    case Decrement =>
      Keep(s, w.(pc := if s.pending == 1 then DoneLock else GateLock, done := w.seen)).(pending := s.pending - 1)
    case DoneLock =>
      if Bad(c) then Keep(s, w.(pc := MarkFailed)) else Keep(s, w.(pc := DoneSignal)).(doneLock := ByWorker(i))
    case DoneSignal =>
      if Bad(c) then Keep(s, w.(pc := DoneMark))
      else Keep(s, w.(pc := DoneUnlock(true))).(signal := true)
    case DoneMark => Keep(s, w.(pc := DoneUnlock(false))).(syncFailed := true)
    case DoneUnlock(ok) => Keep(s, w.(pc := if ok && !Bad(c) then GateLock else MarkFailed)).(doneLock := Unlocked(c))
    case MarkFailed => Keep(s, w.(pc := GateLock)).(syncFailed := true)
  }

  /** up__pool_gate_report_worker_failure and the way out of the loop. The store after a
      failed signal repeats the one the report begins with. */
  function FailEffect(s: State, i: nat, c: Choice): Effect
    requires i < |s.workers| && WorkerEnabled(s, i, c) && Failing(s.workers[i].pc)
  {
    var w := s.workers[i];
    match w.pc
    case Report(h) => Keep(s, w.(pc := ReportLock(h))).(syncFailed := true)
    case ReportLock(h) =>
      if Bad(c) then Keep(s, w.(pc := if h then FailUnlock else Exited, unheard := true))
      else Keep(s, w.(pc := ReportSignal(h))).(doneLock := ByWorker(i))
    case ReportSignal(h) =>
      if Bad(c) then Keep(s, w.(pc := ReportUnlock(h), unheard := true))
      else Keep(s, w.(pc := ReportUnlock(h))).(signal := true)
    case ReportUnlock(h) => Keep(s, w.(pc := if h then FailUnlock else Exited)).(doneLock := Unlocked(c))
    case FailUnlock => Keep(s, w.(pc := if Bad(c) then Report(false) else Exited)).(gate := Unlocked(c))
  }

  function WorkerEffect(s: State, i: nat, c: Choice): Effect
    requires i < |s.workers| && WorkerEnabled(s, i, c)
  {
    if InWait(s.workers[i].pc) then WaitEffect(s, i, c)
    else if Failing(s.workers[i].pc) then FailEffect(s, i, c)
    else RunEffect(s, i, c)
  }

  /** The owner is the only waiter on the completion condition. */
  function WorkerStep(s: State, i: nat, c: Choice): State
    requires i < |s.workers| && WorkerEnabled(s, i, c)
  {
    var e := WorkerEffect(s, i, c);
    s.(workers := s.workers[i := e.w], gate := e.gate, doneLock := e.doneLock, pending := e.pending,
       syncFailed := e.syncFailed, failed := s.failed || c == Fail || c == FailStuck,
       main := if e.signal && s.main == WAsleep then WWoken(Signalled) else s.main)
  }

  // ----------------------------------------------------------------- the owner

  predicate MainHoldsGate(pc: MainPc) {
    pc.DArm? || pc.DBroadcast? || pc.DUnlock? || pc.SSet? || pc.SBroadcast? || pc.SUnlock?
  }

  predicate MainHoldsDone(pc: MainPc) {
    pc.WCheckSync? || pc.WCheckPending? || pc.WGoWait? || pc.WFinalCheck? || pc.WUnlock?
  }

  predicate Retiring(pc: MainPc) {
    pc.SLock? || pc.SSet? || pc.SBroadcast? || pc.SUnlock? || pc.SMark? || pc.SCancel? || pc.SJoin? || pc.PSpin?
  }

  function WakeAll(ws: seq<Worker>): (r: seq<Worker>)
    ensures |r| == |ws|
    ensures forall i | 0 <= i < |ws| :: r[i] == if ws[i].pc == Asleep then ws[i].(pc := Woken(false)) else ws[i]
  {
    seq(|ws|, i requires 0 <= i < |ws| => if ws[i].pc == Asleep then ws[i].(pc := Woken(false)) else ws[i])
  }

  /** `request` is what the owner asks for when it is idle: a dispatch or a poison. */
  predicate MainEnabled(s: State, c: Choice, request: bool) {
    match s.main
    case Idle(_) => c == Good && (request ==> !s.broken)
    case DLock => (c == Good && s.gate == Free) || c == Fail
    case SLock => (c == Good && s.gate == Free) || c == Fail
    case WLock => (c == Good && s.doneLock == Free) || c == Fail
    case WWoken(_) => c == Good && s.doneLock == Free
    case WAsleep => c == SpuriousWake || c == Expire || c == Fail
    case DBroadcast => c == Good || c == Fail
    case SBroadcast => c == Good || c == Fail
    case WSync => c == Good || c == Fail
    case WGoWait => c == Good || c == Fail
    case SCancel(_) => c == Good || c == Fail
    case DUnlock(_) => c == Good || c == Fail || c == FailStuck
    case SUnlock(_) => c == Good || c == Fail || c == FailStuck
    case WUnlock(_) => c == Good || c == Fail || c == FailStuck
    case SJoin(k) =>
      (c == Good && (k < |s.workers| && k < |s.joined| && !s.joined[k] ==> s.workers[k].pc == Exited)) || c == Fail
    case PSpin(k) => c == Good && (k < |s.workers| ==> s.workers[k].pc == Exited)
    case _ => c == Good
  }

  /** The owner inside up_pool_gate_wait_all. */
  predicate InBarrier(pc: MainPc) {
    || pc.WSync? || pc.WLock? || pc.WCheckSync? || pc.WCheckPending? || pc.WGoWait? || pc.WAsleep? || pc.WWoken?
    || pc.WFinalCheck? || pc.WUnlock? || pc.WPending? || pc.WSyncFinal?
  }

  predicate InDispatch(pc: MainPc) {
    pc.Idle? || pc.DLock? || pc.DArm? || pc.DBroadcast? || pc.DUnlock? || pc.DMark?
  }

  /** up_worker_pool_dispatch up to the barrier. */
  function DispatchStep(s: State, c: Choice, request: bool): (t: State)
    requires MainEnabled(s, c, request) && InDispatch(s.main)
    ensures |t.workers| == |s.workers| && t.joined == s.joined && t.failed == s.failed
  {
    match s.main
    case Idle(_) => s.(main := if request then DLock else PStart)
    case DLock => if Bad(c) then s.(main := PStart) else s.(main := DArm, gate := ByMain)
    case DArm => s.(main := DBroadcast, pending := |s.workers|, generation := s.generation + 1)
    case DBroadcast =>
      if Bad(c) then s.(main := DUnlock(false)) else s.(main := DUnlock(true), workers := WakeAll(s.workers))
    case DUnlock(ok) =>
      if ok && !Bad(c) then s.(main := WSync, gate := Free)
      else s.(main := DMark, gate := Unlocked(c))
    case DMark => s.(main := PStart, syncFailed := true)
  }

  /** up_pool_gate_wait_all: it changes nothing but where the owner is and its lock. */
  function BarrierStep(s: State, c: Choice): (t: State)
    requires MainEnabled(s, c, false) && InBarrier(s.main)
    ensures t.workers == s.workers && t.joined == s.joined && t.failed == s.failed
  {
    match s.main
    case WSync => s.(main := if Bad(c) || s.syncFailed then PStart else WLock)
    case WLock => if Bad(c) then s.(main := PStart) else s.(main := WCheckSync, doneLock := ByMain)
    case WCheckSync => s.(main := if s.syncFailed then WUnlock(false) else WCheckPending)
    case WCheckPending => s.(main := if s.pending == 0 then WUnlock(true) else WGoWait)
    case WGoWait => if Bad(c) then s.(main := WUnlock(false)) else s.(main := WAsleep, doneLock := Free)
    case WAsleep =>
      s.(main := WWoken(if c == Expire then TimedOut else if c == Fail then WaitError else Signalled))
    case WWoken(wake) =>
      s.(doneLock := ByMain,
         main := match wake case Signalled => WCheckSync case TimedOut => WFinalCheck case WaitError => WUnlock(false))
    case WFinalCheck => s.(main := WUnlock(s.pending == 0))
    case WUnlock(ok) => s.(main := if ok && !Bad(c) then WPending else PStart, doneLock := Unlocked(c))
    case WPending => s.(main := if s.pending == 0 then WSyncFinal else PStart)
    case WSyncFinal => s.(main := if s.syncFailed then PStart else Idle(Dispatched))
  }

  /** The start of up_worker_pool_poison and up_pool_gate_request_exit. */
  predicate InRequest(pc: MainPc) {
    pc.PStart? || pc.SLock? || pc.SSet? || pc.SBroadcast? || pc.SUnlock? || pc.SMark?
  }

  function RequestStep(s: State, c: Choice): (t: State)
    requires MainEnabled(s, c, false) && InRequest(s.main)
    ensures |t.workers| == |s.workers| && t.joined == s.joined && t.failed == s.failed
  {
    match s.main
    case PStart => s.(main := SLock, broken := true)
    case SLock => if Bad(c) then s.(main := SMark) else s.(main := SSet, gate := ByMain)
    case SSet => s.(main := SBroadcast, exitRequested := true)
    case SBroadcast =>
      if Bad(c) then s.(main := SUnlock(false)) else s.(main := SUnlock(true), workers := WakeAll(s.workers))
    case SUnlock(ok) =>
      if ok && !Bad(c) then s.(main := SJoin(0), gate := Free)
      else s.(main := SMark, gate := Unlocked(c))
    case SMark => s.(main := SCancel(0), syncFailed := true)
  }

  /** Cancelling and reaping, one thread at a time: the rest of up_worker_pool_stop and
      up_worker_pool_poison. */
  predicate InReap(pc: MainPc) {
    pc.SCancel? || pc.SJoin? || pc.PSpin?
  }

  function ReapStep(s: State, c: Choice): (t: State)
    requires |s.joined| == |s.workers| && MainEnabled(s, c, false) && InReap(s.main)
    ensures |t.workers| == |t.joined| == |s.workers| && t.failed == s.failed
  {
    match s.main
    case SCancel(k) =>
      if k >= |s.workers| then s.(main := SJoin(0))
      else if Bad(c) || s.joined[k] then s.(main := SCancel(k + 1))
      else s.(main := SCancel(k + 1), workers := s.workers[k := s.workers[k].(cancelled := true)])
    case SJoin(k) =>
      if k >= |s.workers| then s.(main := PSpin(0))
      else s.(main := SJoin(k + 1), joined := if Bad(c) then s.joined else s.joined[k := true])
    case PSpin(k) => s.(main := if k >= |s.workers| then Idle(Poisoned) else PSpin(k + 1))
  }

  /** The step's choice, once it is on record. */
  function Noted(s: State, c: Choice): State {
    s.(failed := s.failed || Bad(c))
  }

  function MainStep(s: State, c: Choice, request: bool): (t: State)
    requires |s.joined| == |s.workers| && MainEnabled(s, c, request)
    ensures |t.workers| == |t.joined| == |s.workers|
  {
    if InDispatch(s.main) then DispatchStep(Noted(s, c), c, request)
    else if InBarrier(s.main) then BarrierStep(Noted(s, c), c)
    else if InRequest(s.main) then RequestStep(Noted(s, c), c)
    else ReapStep(Noted(s, c), c)
  }
}
