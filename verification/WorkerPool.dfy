/** The lifecycle of a worker pool (worker_pool.h): sticky lazy start, partial-spawn
    policy, poison, and a teardown that releases nothing while a thread may still run.
    Which system call or owner hook fails is an input of every operation. */
module WorkerPool {
  import opened ThreadPolicy

  /** What goes wrong while a pool starts: the hooks and calls that succeed. */
  datatype StartCalls = StartCalls(
    prepare: bool, slots: bool, records: bool, gate: bool, construct: nat -> bool, spawn: nat -> bool)

  /** What goes wrong while threads are stopped. */
  datatype StopCalls = StopCalls(requestExit: bool, join: nat -> bool)

  /** Slots 0, 1, ... come up until one is rejected or its thread cannot be spawned. */
  function Built(f: StartCalls, threaded: bool, limit: nat, i: nat): (n: nat)
    requires i <= limit
    ensures i <= n <= limit
    decreases limit - i
  {
    if i == limit || !f.construct(i) || (threaded && !f.spawn(i)) then i else Built(f, threaded, limit, i + 1)
  }

  /** The count is exact: every slot below it came up, and the one after it did not. */
  lemma {:induction false} BuiltIsFirstFailure(f: StartCalls, threaded: bool, limit: nat, i: nat)
    requires i <= limit
    ensures var n := Built(f, threaded, limit, i);
            && (forall k | i <= k < n :: f.construct(k) && (threaded ==> f.spawn(k)))
            && (n < limit ==> !f.construct(n) || (threaded && !f.spawn(n)))
    decreases limit - i
  {
    if i < limit && f.construct(i) && (threaded ==> f.spawn(i)) {
      BuiltIsFirstFailure(f, threaded, limit, i + 1);
    }
  }

  /** up__pool_setup succeeds. */
  predicate SetupOk(nPref: int, f: StartCalls) {
    1 <= nPref <= THREADS_MAX && f.prepare && f.slots && (nPref > 1 ==> f.records && f.gate)
  }

  /** How many workers a start brings up, and whether that makes a usable pool. */
  function Workers(nPref: int, f: StartCalls): nat {
    if SetupOk(nPref, f) then Built(f, nPref > 1, nPref, 0) else 0
  }

  predicate StartOk(nPref: int, allOrNothing: bool, f: StartCalls) {
    Workers(nPref, f) > 0 && (allOrNothing ==> Workers(nPref, f) == nPref)
  }

  /** Between one and 64 workers are asked for and everything a pool of that size is made of
      can be had; a single worker runs inline and needs neither thread records nor a gate. */
  predicate CanSetUp(nPref: int, f: StartCalls) {
    (nPref == 1 && f.prepare && f.slots) || (2 <= nPref <= 64 && f.prepare && f.slots && f.records && f.gate)
  }

  /** An all-or-nothing pool starts exactly if it can be set up and every requested worker
      comes up; any other pool if it can be set up and the first worker comes up. */
  lemma StartNeeds(nPref: int, f: StartCalls)
    ensures StartOk(nPref, true, f) <==>
              CanSetUp(nPref, f) && forall i: nat | i < nPref :: f.construct(i) && (nPref > 1 ==> f.spawn(i))
    ensures StartOk(nPref, false, f) <==> CanSetUp(nPref, f) && f.construct(0) && (nPref > 1 ==> f.spawn(0))
  {
    if SetupOk(nPref, f) {
      BuiltIsFirstFailure(f, nPref > 1, nPref, 0);
    }
  }

  /** A pool with its owner's ledger: how often slot i has been constructed (`made`) and
      released (`gone`). */
  class Pool {
    const nPref: int
    const allOrNothing: bool
    var nWorkers: nat
    var inlineRun: bool
    var lazyDone: bool
    var lazyFailed: bool
    var broken: bool
    var hasSlots: bool
    var hasRecords: bool
    var gateReady: bool
    var started: seq<bool>
    var exited: seq<bool>
    ghost var made: seq<nat>
    ghost var gone: seq<nat>

    /** Every constructed slot is live below nWorkers and released otherwise, at most once
        ever; only a live slot has a thread. */
    ghost predicate LedgerOk(live: nat)
      reads this
    {
      && |made| == |gone| == THREADS_MAX && live <= THREADS_MAX
      && (forall i | 0 <= i < THREADS_MAX :: made[i] == gone[i] + (if i < live then 1 else 0))
      && (forall i | 0 <= i < THREADS_MAX :: made[i] <= 1)
    }

    ghost predicate RecordsOk(live: nat)
      reads this
    {
      && |started| == |exited| == (if hasRecords then nPref else 0)
      && (hasRecords ==> 2 <= nPref <= THREADS_MAX && hasSlots)
      && (forall i | 0 <= i < |started| && started[i] :: i < live)
      && (live > 0 ==> live <= nPref && hasSlots)
      && (inlineRun ==> nPref == 1)
      && (live > 0 ==> inlineRun == (nPref == 1) && hasRecords == (nPref > 1))
      && (gateReady ==> hasRecords)
    }

    ghost predicate Untouched()
      reads this
    {
      nWorkers == 0 && !hasSlots && !hasRecords && !gateReady && |made| == THREADS_MAX
      && forall i | 0 <= i < THREADS_MAX :: made[i] == 0
    }

    ghost predicate Valid()
      reads this
    {
      && LedgerOk(nWorkers) && RecordsOk(nWorkers)
      && (!lazyDone && !lazyFailed ==> Untouched())
      && !(lazyDone && lazyFailed)
      && (lazyDone && nWorkers > 0 && allOrNothing ==> nWorkers == nPref)
      && (lazyDone && nWorkers > 0 && !broken && !inlineRun ==> forall i | 0 <= i < nWorkers :: started[i])
      && (lazyFailed && nWorkers > 0 ==> broken)
    }

    /** A pool that up_worker_pool_dispatch may be called on. */
    ghost predicate Usable()
      reads this
    {
      Valid() && lazyDone && nWorkers > 0 && !broken
    }

    /** up_worker_pool_config on a zeroed pool: it allocates nothing. */
    constructor (nPref: int, allOrNothing: bool)
      ensures Valid() && this.nPref == nPref && this.allOrNothing == allOrNothing
      ensures !lazyDone && !lazyFailed && !broken && Untouched()
    {
      this.nPref := nPref;
      this.allOrNothing := allOrNothing;
      nWorkers, inlineRun, lazyDone, lazyFailed, broken := 0, false, false, false, false;
      hasSlots, hasRecords, gateReady := false, false, false;
      started, exited := [], [];
      made := seq(THREADS_MAX, i => 0);
      gone := seq(THREADS_MAX, i => 0);
    }

    /** up__pool_setup with up__pool_alloc: what was allocated before a failure stays for
        destroy. */
    method Setup(f: StartCalls) returns (ok: bool)
      requires Valid() && Untouched()
      modifies this`hasSlots, this`hasRecords, this`gateReady, this`inlineRun, this`started, this`exited
      ensures ok == SetupOk(nPref, f)
      ensures LedgerOk(0) && RecordsOk(0)
      ensures ok ==> hasSlots && inlineRun == (nPref == 1) && hasRecords == gateReady == (nPref > 1)
      ensures hasRecords ==> forall i | 0 <= i < nPref :: !started[i]
    {
      inlineRun := false;
      started, exited := [], [];
      if nPref < 1 || nPref > THREADS_MAX || !f.prepare || !f.slots {
        return false;
      }
      hasSlots := true;
      if nPref > 1 {
        if !f.records {
          return false;
        }
        hasRecords := true;
        started, exited := seq(nPref, i => false), seq(nPref, i => false);
      }
      inlineRun := nPref == 1;
      if !inlineRun {
        if !f.gate {
          return false;
        }
        gateReady := true;
      }
      return true;
    }

    /** up__pool_construct_one: a slot that construct rejects owns nothing, one whose
        thread cannot be spawned is released on the spot. */
    method ConstructOne(f: StartCalls, i: nat) returns (ok: bool)
      requires LedgerOk(i) && RecordsOk(i) && hasSlots && i < nPref <= THREADS_MAX && made[i] == 0
      requires inlineRun == (nPref == 1) && hasRecords == (nPref > 1)
      modifies this`started, this`exited, this`made, this`gone
      ensures ok == (f.construct(i) && (inlineRun || f.spawn(i)))
      ensures LedgerOk(if ok then i + 1 else i) && RecordsOk(if ok then i + 1 else i)
      ensures forall k | i < k < THREADS_MAX :: made[k] == old(made[k])
      ensures started == (if ok && !inlineRun then old(started)[i := true] else old(started))
    {
      if !f.construct(i) {
        return false;
      }
      made := made[i := made[i] + 1];
      if inlineRun {
        return true;
      }
      if f.spawn(i) {
        started, exited := started[i := true], exited[i := false];
        return true;
      }
      gone := gone[i := gone[i] + 1];
      return false;
    }

    method ConstructAll(f: StartCalls) returns (built: nat)
      requires LedgerOk(0) && RecordsOk(0) && hasSlots && 1 <= nPref <= THREADS_MAX
      requires inlineRun == (nPref == 1) && hasRecords == (nPref > 1)
      requires forall i | 0 <= i < THREADS_MAX :: made[i] == 0
      modifies this`started, this`exited, this`made, this`gone
      ensures built == Built(f, !inlineRun, nPref, 0)
      ensures LedgerOk(built) && RecordsOk(built)
      ensures !inlineRun ==> forall i | 0 <= i < built :: started[i]
    {
      var limit := if inlineRun then 1 else nPref;
      built := 0;
      while built < limit
        invariant built <= limit == nPref
        invariant LedgerOk(built) && RecordsOk(built)
        invariant forall k | built <= k < THREADS_MAX :: made[k] == 0
        invariant !inlineRun ==> forall i | 0 <= i < built :: started[i]
        invariant Built(f, !inlineRun, limit, 0) == Built(f, !inlineRun, limit, built)
      {
        var ok := ConstructOne(f, built);
        if !ok {
          break;
        }
        built := built + 1;
      }
    }

    /** up_worker_pool_stop: every thread that can be joined is reaped; the others keep
        their marker for a later try. */
    method Stop(f: StopCalls) returns (ok: bool)
      requires |started| == |exited| == (if hasRecords then nPref else 0) && (hasRecords ==> 2 <= nPref)
      modifies this`broken, this`started
      ensures |started| == |old(started)|
      ensures forall i | 0 <= i < |started| :: started[i] == (old(started)[i] && !f.join(i))
      ensures ok <==> forall i | 0 <= i < |started| :: !started[i]
      ensures broken == (old(broken) || !ok || (hasRecords && gateReady && !f.requestExit))
    {
      if !hasRecords {
        return true;
      }
      if gateReady && !f.requestExit {
        broken := true;
      }
      ok := true;
      var i: nat := 0;
      ghost var wasBroken := broken;
      while i < |started|
        invariant i <= |started| == |old(started)|
        invariant forall k | 0 <= k < |started| ::
                    started[k] == (old(started)[k] && (k < i ==> !f.join(k)))
        invariant ok <==> forall k | 0 <= k < i :: !started[k]
        invariant broken == (wasBroken || !ok)
      {
        if started[i] {
          if f.join(i) {
            started := started[i := false];
          } else {
            broken := true;
            ok := false;
          }
        }
        i := i + 1;
      }
    }

    /** up__pool_release_slots. */
    method ReleaseSlots(n: nat)
      requires LedgerOk(n)
      modifies this`gone
      ensures LedgerOk(0)
    {
      var i: nat := 0;
      while i < n
        invariant i <= n && |gone| == THREADS_MAX
        invariant forall k | 0 <= k < THREADS_MAX :: made[k] == gone[k] + (if i <= k < n then 1 else 0)
      {
        gone := gone[i := gone[i] + 1];
        i := i + 1;
      }
    }

    /** up__pool_retire_failed_start: with one thread not reaped nothing is released and
        everything is left for destroy. */
    method RetireFailedStart(built: nat, f: StopCalls)
      requires LedgerOk(built) && RecordsOk(built)
      modifies this`broken, this`started, this`gone, this`nWorkers
      ensures LedgerOk(nWorkers) && RecordsOk(nWorkers)
      ensures if exists i :: 0 <= i < |started| && started[i] then broken && nWorkers == built && gone == old(gone)
              else nWorkers == 0
      ensures forall i | 0 <= i < |started| :: started[i] == (old(started)[i] && !f.join(i))
    {
      nWorkers := built;
      var ok := Stop(f);
      if ok {
        ReleaseSlots(built);
        nWorkers := 0;
      }
    }

    method Start(f: StartCalls, g: StopCalls) returns (ok: bool)
      requires Valid() && Untouched()
      modifies this
      ensures ok == StartOk(nPref, allOrNothing, f)
      ensures LedgerOk(nWorkers) && RecordsOk(nWorkers)
      ensures lazyDone == old(lazyDone) && lazyFailed == old(lazyFailed)
      ensures ok ==> nWorkers == Workers(nPref, f) && broken == old(broken)
      ensures ok && !inlineRun ==> forall i | 0 <= i < nWorkers :: started[i]
      ensures !ok && nWorkers > 0 ==> broken && exists i :: 0 <= i < |started| && started[i] && !g.join(i)
    {
      var setup := Setup(f);
      if !setup {
        return false;
      }
      var built := ConstructAll(f);
      var need := if inlineRun then 1 else nPref;
      if built == 0 || (allOrNothing && built < need) {
        RetireFailedStart(built, g);
        return false;
      }
      nWorkers := built;
      return true;
    }

    /** up_worker_pool_ensure_started. */
    method EnsureStarted(f: StartCalls, g: StopCalls) returns (ok: bool)
      requires Valid()
      modifies this
      ensures Valid()
      ensures ok == lazyDone && lazyFailed == !ok
      ensures old(lazyDone || lazyFailed) ==> unchanged(this) && ok == old(lazyDone)
      ensures !old(lazyDone || lazyFailed) ==> ok == StartOk(nPref, allOrNothing, f)
      ensures !old(lazyDone || lazyFailed) && ok ==> nWorkers == Workers(nPref, f) && broken == old(broken)
      ensures !old(lazyDone || lazyFailed) && !ok && nWorkers > 0 ==> exists i ::
              0 <= i < |started| && started[i] && !g.join(i)
    {
      if lazyDone {
        return true;
      }
      if lazyFailed {
        return false;
      }
      ok := Start(f, g);
      if ok {
        lazyDone := true;
      } else {
        lazyFailed := true;
      }
    }

    /** `while (!exited) nanosleep`: the thread publishes its exit when its callback is done
        (that it gets there is the gate's business), and the owner waits for it. */
    method AwaitExit(i: nat)
      requires |exited| == |started| && i < |started|
      modifies this`exited
      ensures |exited| == |started| && exited[i]
      ensures forall k | 0 <= k < |exited| && k != i :: exited[k] == old(exited)[k]
    {
      if !exited[i] {
        exited := exited[i := true];
      }
    }

    method AwaitUnjoined()
      requires |exited| == |started|
      modifies this`exited
      ensures |exited| == |started| && forall i | 0 <= i < |started| && started[i] :: exited[i]
    {
      var i: nat := 0;
      while i < |started|
        invariant i <= |started| == |exited|
        invariant forall k | 0 <= k < i && started[k] :: exited[k]
      {
        if started[i] {
          AwaitExit(i);
        }
        i := i + 1;
      }
    }

    /** up_worker_pool_poison, at any time: afterwards the pool is broken and every thread
        has been joined or, if that failed, has published its exit. */
    method Poison(f: StopCalls)
      requires Valid()
      modifies this`broken, this`started, this`exited
      ensures Valid() && broken
      ensures |started| == |old(started)|
      ensures forall i | 0 <= i < |started| :: started[i] == (old(started)[i] && !f.join(i))
      ensures forall i | 0 <= i < |started| && started[i] :: exited[i]
    {
      broken := true;
      var ok := Stop(f);
      if ok {
        return;
      }
      AwaitUnjoined();
    }

    /** up_worker_pool_dispatch, with what the gate reports as an input. */
    method Dispatch(gateOk: bool, f: StopCalls) returns (ok: bool)
      requires Usable()
      modifies this`broken, this`started, this`exited
      ensures Valid() && ok == (inlineRun || gateOk)
      ensures if ok then Usable() && started == old(started) else broken
      ensures |started| == |old(started)| && forall i | 0 <= i < |started| :: started[i] ==> old(started)[i]
      ensures !ok ==> forall i | 0 <= i < |started| && started[i] :: exited[i]
    {
      if inlineRun || gateOk {
        return true;
      }
      Poison(f);
      return false;
    }

    /** An owner's frame: nothing on a broken pool, else a lazy start and a dispatch. */
    method Frame(f: StartCalls, gateOk: bool, g: StopCalls) returns (ok: bool)
      requires Valid() && (lazyDone && !broken ==> nWorkers > 0)
      modifies this
      ensures Valid() && (lazyDone && !broken ==> nWorkers > 0)
      ensures ok ==> Usable()
      ensures ok <==>
                && !old(broken) && !old(lazyFailed) && (old(lazyDone) || StartOk(nPref, allOrNothing, f))
                && (nPref == 1 || gateOk)
      ensures old(broken) ==> !ok && unchanged(this)
      ensures old(lazyFailed) ==> !ok && unchanged(this)
    {
      if broken {
        return false;
      }
      var up := EnsureStarted(f, g);
      if !up {
        return false;
      }
      ok := Dispatch(gateOk, g);
    }

    /** up_worker_pool_destroy: all or nothing is released. */
    method Destroy(f: StopCalls) returns (ok: bool)
      requires Valid()
      modifies this
      ensures lazyDone == old(lazyDone) && lazyFailed == old(lazyFailed)
      ensures Valid()
      ensures made == old(made)
      ensures ok <==> forall i | 0 <= i < |old(started)| && old(started)[i] :: f.join(i)
      ensures ok ==> gone == made && nWorkers == 0 && !hasSlots && !hasRecords && !gateReady
      ensures !ok ==> gone == old(gone) && nWorkers == old(nWorkers) && hasSlots == old(hasSlots) && broken
    {
      ok := Stop(f);
      if !ok {
        return;
      }
      ReleaseSlots(nWorkers);
      Free();
    }

    /** The storage of a pool without live slots. */
    method Free()
      requires LedgerOk(0) && !(lazyDone && lazyFailed) && (inlineRun ==> nPref == 1)
      requires !lazyDone && !lazyFailed ==> Untouched()
      modifies this`nWorkers, this`hasSlots, this`hasRecords, this`gateReady, this`started, this`exited
      ensures Valid() && nWorkers == 0 && !hasSlots && !hasRecords && !gateReady
    {
      nWorkers := 0;
      hasSlots, hasRecords, gateReady := false, false, false;
      started, exited := [], [];
    }
  }

  datatype Call =
    | EnsureStarted(start: StartCalls, retire: StopCalls)
    | Frame(start: StartCalls, gateOk: bool, stop: StopCalls)
    | Poison(stop: StopCalls)
    | Destroy(stop: StopCalls)

  /** Any life of a pool: the calls of an owner in any order and with any failures, up to
      the first destroy that succeeds. Until then no slot has been released more often than
      constructed, a slot whose thread has not been joined is still held, and a start that
      has failed stays failed; after it every constructed slot has been released exactly
      once. */
  method Live(nPref: int, allOrNothing: bool, calls: seq<Call>) returns (pool: Pool, destroyed: bool)
    ensures |pool.made| == |pool.gone| == THREADS_MAX
    ensures forall i | 0 <= i < THREADS_MAX :: pool.gone[i] <= pool.made[i] <= 1
    ensures destroyed ==> pool.gone == pool.made && pool.nWorkers == 0 && !pool.hasSlots
    ensures !destroyed ==> forall i | 0 <= i < |pool.started| && pool.started[i] ::
                             i < THREADS_MAX && pool.gone[i] == 0 && pool.made[i] == 1
    ensures !destroyed && pool.lazyDone && !pool.broken ==>
            pool.nWorkers > 0 && (allOrNothing ==> pool.nWorkers == nPref)
  {
    pool := new Pool(nPref, allOrNothing);
    destroyed := false;
    var k := 0;
    while k < |calls|
      invariant fresh(pool) && pool.nPref == nPref && pool.allOrNothing == allOrNothing
      invariant k <= |calls| && !destroyed && pool.Valid()
      invariant pool.lazyDone && !pool.broken ==> pool.nWorkers > 0
    {
      match calls[k] {
        case EnsureStarted(f, g) => var started := pool.EnsureStarted(f, g);
        case Frame(f, gateOk, g) => var done := pool.Frame(f, gateOk, g);
        case Poison(f) => pool.Poison(f);
        case Destroy(f) =>
          destroyed := pool.Destroy(f);
          if destroyed {
            return;
          }
      }
      k := k + 1;
    }
  }
}
