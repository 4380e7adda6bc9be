/** Whole runs of the gate: any interleaving of the owner and the workers, with any
    spurious wakeups, timeouts and pthread failures, from a freshly started pool. */
module GateRuns {
  import opened Gate
  import opened GateSafety

  /** `request` says whether an idle owner's next call is a dispatch. */
  datatype Event = WorkerMoves(i: nat, c: Choice) | OwnerMoves(c: Choice, request: bool)

  ghost predicate Can(s: State, e: Event) {
    |s.joined| == |s.workers| &&
    match e
    case WorkerMoves(i, c) => i < |s.workers| && WorkerEnabled(s, i, c)
    case OwnerMoves(c, request) => MainEnabled(s, c, request)
  }

  ghost function Do(s: State, e: Event): State
    requires Can(s, e)
  {
    match e
    case WorkerMoves(i, c) => WorkerStep(s, i, c)
    case OwnerMoves(c, request) => MainStep(s, c, request)
  }

  /** The events can happen one after the other, starting in s. */
  ghost predicate Happens(s: State, run: seq<Event>)
    decreases |run|
  {
    run == [] || (Can(s, run[0]) && Happens(Do(s, run[0]), run[1..]))
  }

  ghost function After(s: State, run: seq<Event>): State
    requires Happens(s, run)
    decreases |run|
  {
    if run == [] then s else After(Do(s, run[0]), run[1..])
  }

  lemma Chain(s: State, e: Event, run: seq<Event>)
    requires Can(s, e) && Happens(Do(s, e), run)
    ensures Happens(s, [e] + run) && After(s, [e] + run) == After(Do(s, e), run)
  {
    assert ([e] + run)[1..] == run;
  }

  lemma {:induction false} Append(s: State, a: seq<Event>, b: seq<Event>)
    requires Happens(s, a) && Happens(After(s, a), b)
    ensures Happens(s, a + b) && After(s, a + b) == After(After(s, a), b)
    decreases |a|
  {
    if a == [] {
      assert a + b == b;
    } else {
      var t := Do(s, a[0]);
      Append(t, a[1..], b);
      Chain(s, a[0], a[1..] + b);
      assert [a[0]] + (a[1..] + b) == a + b;
    }
  }

  /** A pool of n workers just spawned, before its first dispatch. */
  function Started(n: nat): State {
    State(seq(n, i => Worker(GateLock, 0, 0, [], false, false, false)), Idle(NoCall), Free, Free,
          0, false, 0, false, false, seq(n, i => false), false)
  }

  /** n workers could have been started and the run could have led to s. */
  ghost predicate Reaches(n: nat, run: seq<Event>, s: State) {
    Happens(Started(n), run) && s == After(Started(n), run)
  }

  lemma ReachesFurther(n: nat, before: seq<Event>, s: State, run: seq<Event>)
    requires Reaches(n, before, s) && Happens(s, run)
    ensures Reaches(n, before + run, After(s, run))
  {
    Append(Started(n), before, run);
  }

  lemma StartedKeepsInv(n: nat)
    ensures Inv(Started(n))
  {
    var s := Started(n);
    CountZero(s.workers, 0);
  }

  lemma StepKeepsInv(s: State, e: Event)
    requires Inv(s) && Can(s, e)
    ensures Inv(Do(s, e))
  {
    match e
    case WorkerMoves(i, c) => WorkerStepKeepsInv(s, i, c);
    case OwnerMoves(c, request) => MainStepKeepsInv(s, c, request);
  }

  lemma {:induction false} RunKeepsInv(s: State, run: seq<Event>)
    requires Inv(s) && Happens(s, run)
    ensures Inv(After(s, run))
    decreases |run|
  {
    if run != [] {
      StepKeepsInv(s, run[0]);
      RunKeepsInv(Do(s, run[0]), run[1..]);
    }
  }

  lemma ReachedInv(n: nat, run: seq<Event>, s: State)
    requires Reaches(n, run, s)
    ensures Inv(s)
  {
    StartedKeepsInv(n);
    RunKeepsInv(Started(n), run);
  }

  /** The worker has entered exactly the callbacks of generations 1 to gen, once each, in
      order, and is inside none of them. */
  ghost predicate RanAll(w: Worker, gen: nat) {
    w.pc != Running && |w.log| == gen && forall m | 0 <= m < gen :: w.log[m] == m + 1
  }

  /** A dispatch that returns 0 has run its generation, and every one before it, exactly
      once on every worker, and no worker is still inside a callback. */
  lemma DispatchRanEveryWorker(n: nat, run: seq<Event>, s: State)
    requires Reaches(n, run, s) && s.main == Idle(Dispatched)
    ensures s.generation > 0 && s.pending == 0 && !s.broken
    ensures forall i | 0 <= i < |s.workers| :: RanAll(s.workers[i], s.generation)
  {
    ReachedInv(n, run, s);
    CountZero(s.workers, s.generation);
    forall i | 0 <= i < |s.workers| ensures RanAll(s.workers[i], s.generation) {
      assert WorkerOk(s, i);
    }
  }

  /** `pending` counts the workers that have not finished the current generation, and no
      worker is more than one generation behind. */
  lemma PendingCountsUnfinished(n: nat, run: seq<Event>, s: State)
    requires Reaches(n, run, s)
    ensures s.pending == CountOwing(s.workers, s.generation)
    ensures forall i | 0 <= i < |s.workers| :: s.workers[i].seen <= s.generation <= s.workers[i].seen + 1
    ensures forall i | 0 <= i < |s.workers| :: s.workers[i].pc == Running ==> s.workers[i].seen == s.generation
  {
    ReachedInv(n, run, s);
    forall i | 0 <= i < |s.workers|
      ensures s.workers[i].seen <= s.generation <= s.workers[i].seen + 1
      ensures s.workers[i].pc == Running ==> s.workers[i].seen == s.generation
    {
      assert WorkerOk(s, i);
    }
  }

  /** Whenever a call of the owner has returned, whatever failed, no callback is active,
      so the borrowed pictures are not touched any more; and once the pool is broken all
      its workers are gone. */
  lemma ReturnMeansQuiet(n: nat, run: seq<Event>, s: State)
    requires Reaches(n, run, s) && s.main.Idle?
    ensures forall i | 0 <= i < |s.workers| :: !Owing(s.workers[i].pc)
    ensures s.broken ==> AllExited(s)
  {
    ReachedInv(n, run, s);
    CountZero(s.workers, s.generation);
    forall i | 0 <= i < |s.workers| ensures !Owing(s.workers[i].pc) {
      assert WorkerOk(s, i);
    }
  }

  /** A worker that left without a gate failure or a cancellation left on an exit request
      and only after running every generation, the last one included, exactly once. */
  lemma HealthyExitRanEverything(n: nat, run: seq<Event>, s: State, i: nat)
    requires Reaches(n, run, s) && i < |s.workers|
    requires s.workers[i].pc == Exited && !s.workers[i].bad && !s.workers[i].cancelled
    ensures s.exitRequested && s.broken && RanAll(s.workers[i], s.generation)
  {
    ReachedInv(n, run, s);
    assert WorkerOk(s, i);
  }

  /** No worker, healthy or not, ever runs a generation twice or out of order. */
  lemma NeverRerun(n: nat, run: seq<Event>, s: State, i: nat)
    requires Reaches(n, run, s) && i < |s.workers|
    ensures |s.workers[i].log| <= s.generation
    ensures forall m | 0 <= m < |s.workers[i].log| :: s.workers[i].log[m] == m + 1
  {
    ReachedInv(n, run, s);
    assert WorkerOk(s, i);
  }

  /** No lost wakeup, worker side: with the gate free and no pthread failure no worker
      sleeps on a condition that already holds. */
  lemma NoWorkerSleepsOnTrue(n: nat, run: seq<Event>, s: State, i: nat)
    requires Reaches(n, run, s) && i < |s.workers| && s.gate == Free && !s.failed
    ensures s.workers[i].pc == Asleep ==> !ShouldGo(s, s.workers[i])
  {
    ReachedInv(n, run, s);
    assert WorkerOk(s, i);
  }

  /** No lost wakeup, owner side: if the owner sleeps although everything is counted down,
      the worker that counted last has not signalled yet and still will. */
  lemma OwnerStillToBeSignalled(n: nat, run: seq<Event>, s: State)
    requires Reaches(n, run, s) && s.main == WAsleep && s.pending == 0 && !s.failed
    ensures exists i :: 0 <= i < |s.workers| && AboutToSignal(s.workers[i])
  {
    ReachedInv(n, run, s);
  }
}
