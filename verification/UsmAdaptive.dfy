/** The adaptive wrapper around the sharpening pool (usm_adaptive.h): it lets the tuner try
    other worker counts on trial pools, adopts a trial pool as the new incumbent, and owns
    every pool it creates until it is destroyed. What the allocator, the pools and the
    clock do is an input of every frame. */
module UsmAdaptive {
  import T = Tuner
  import Search = TunerSearch
  import Usm = UsmPool

  /** How up_usm_pool_apply ends: its status, and the worker count the pool is left with,
      which a partial spawn on the first frame may lower. */
  datatype Outcome = Outcome(status: Usm.Status, threads: int)

  /** What one frame meets. */
  datatype Frame = Frame(createOk: bool, first: Outcome, second: Outcome, timed: bool, elapsed: T.Elapsed)

  /** A frame's luma plane: how often it has been sharpened, and whether a dispatch was
      given up in the middle of it. */
  datatype Pixels = Pixels(sharpened: nat, torn: bool)

  const UNTOUCHED := Pixels(0, false)

  /** What a status promises about the pixels. */
  predicate StatusIsTrue(status: Usm.Status, px: Pixels) {
    match status
    case Ok => px == Pixels(1, false)
    case FailedUnchanged => px == UNTOUCHED
    case OutputUncertain => px == Pixels(0, true)
  }

  datatype Maybe = None | Some(id: nat)

  /** All pools ever created: the worker counts of those alive, those destroyed, and in which
      order they were used. */
  class Heap {
    var next: nat
    var live: map<nat, int>
    var gone: set<nat>
    var uses: seq<nat>

    /** Every pool created so far is either alive or has been destroyed, never both. */
    ghost predicate Valid()
      reads this
    {
      && live.Keys !! gone
      && forall id: nat :: id < next <==> id in live || id in gone
    }

    constructor ()
      ensures Valid() && live == map[] && gone == {} && next == 0 && uses == []
    {
      next, live, gone, uses := 0, map[], {}, [];
    }

    /** up_usm_pool_create. */
    method Create(threads: int, width: int, height: int, stripeRows: int, ok: bool) returns (pool: Maybe)
      requires Valid()
      modifies this
      ensures Valid() && gone == old(gone) && uses == old(uses)
      ensures if ok && 1 <= threads && 0 < width && 0 < height
              then pool == Some(old(next)) && next == old(next) + 1 && pool.id !in old(live)
                   && live == old(live)[pool.id := Usm.ResolveThreads(threads, height, stripeRows)]
              else pool == None && live == old(live) && next == old(next)
    {
      if !ok || threads < 1 || width <= 0 || height <= 0 {
        return None;
      }
      pool := Some(next);
      live := live[next := Usm.ResolveThreads(threads, height, stripeRows)];
      next := next + 1;
    }

    /** up_usm_pool_destroy: only ever called on a live pool. */
    method Destroy(id: nat)
      requires Valid() && id in live
      modifies this
      ensures Valid() && live == old(live) - {id} && gone == old(gone) + {id} && next == old(next) && uses == old(uses)
    {
      live := live - {id};
      gone := gone + {id};
    }

    /** up_usm_pool_apply on a plane. */
    method Apply(id: nat, o: Outcome, px: Pixels) returns (px': Pixels)
      requires Valid() && id in live
      modifies this
      ensures Valid() && live == old(live)[id := o.threads] && gone == old(gone) && next == old(next)
      ensures uses == old(uses) + [id]
      ensures px' == match o.status
                     case Ok => px.(sharpened := px.sharpened + 1)
                     case FailedUnchanged => px
                     case OutputUncertain => px.(torn := true)
    {
      live, uses := live[id := o.threads], uses + [id];
      px' := match o.status
        case Ok => px.(sharpened := px.sharpened + 1)
        case FailedUnchanged => px
        case OutputUncertain => px.(torn := true);
    }
  }

  class Adaptive {
    const tuner: T.Tuner
    const heap: Heap
    const width: int
    const height: int
    const stripeRows: int
    var trial: Maybe
    var trialCount: int
    var enabled: bool
    var stopped: bool
    var retained: bool

    /** Between frames. The heap holds the incumbent and the trial pool and nothing else;
        while the search is on, a trial pool has exactly the candidate's workers, a
        comparison always has one, and none is left over outside trial and comparison. */
    ghost predicate Valid(best: nat)
      reads this, heap, tuner, tuner.samples
    {
      && heap.Valid() && tuner.Valid() && Search.Inv(tuner.View())
      && (trial.Some? ==> trial.id != best)
      && heap.live.Keys == {best} + (if trial.Some? then {trial.id} else {})
      && (trial.None? <==> trialCount == 0) && (!enabled ==> trial == None)
      && (enabled ==> tuner.limit > 1 && 0 < width && 0 < height && Fits(tuner.limit))
      && (enabled && (tuner.phase == T.Base || tuner.phase == T.Settled) ==> trial == None)
      && (enabled && tuner.phase == T.Confirm ==> trial.Some?)
      && (enabled && trial.Some? ==> trialCount == tuner.candidate == heap.live[trial.id])
    }

    /** Every count the tuner may ask for leaves each stripe its minimum height. */
    predicate Fits(limit: int)
    {
      limit <= height / (if stripeRows > 0 then stripeRows else Usm.STRIPE_MIN_ROWS)
    }

    /** up_usm_adaptive_init; a zeroed wrapper is the same with limit 1. */
    constructor (heap: Heap, best: nat, initial: int, limit: int, width: int, height: int, stripeRows: int)
      requires heap.Valid() && heap.live.Keys == {best} && 0 < width && 0 < height
      ensures Valid(best) && this.heap == heap && fresh(tuner) && fresh(tuner.samples) && trial == None && !stopped
      ensures enabled <==> 2 <= limit && 2 <= height / (if stripeRows > 0 then stripeRows else 8)
      ensures enabled && 1 <= initial && initial <= tuner.limit ==> tuner.best == initial
      ensures enabled && limit <= 64 && limit <= height / (if stripeRows > 0 then stripeRows else 8) ==>
                tuner.limit == limit
    {
      var rows := if stripeRows > 0 then stripeRows else Usm.STRIPE_MIN_ROWS;
      var byHeight := height / rows;
      var top := if limit > byHeight then byHeight else limit;
      var t := new T.Tuner(initial, top);
      Search.FreshInv(initial, top);
      tuner := t;
      this.heap := heap;
      this.width, this.height, this.stripeRows := width, height, stripeRows;
      trial, trialCount, stopped, retained := None, 0, false, false;
      enabled := t.limit > 1;
    }

    method ClearTrial()
      requires heap.Valid() && (trial.Some? ==> trial.id in heap.live)
      modifies this, heap
      ensures heap.Valid() && trial == None && trialCount == 0 && heap.next == old(heap.next)
      ensures heap.uses == old(heap.uses)
      ensures heap.live == old(heap.live) - (if old(trial).Some? then {old(trial).id} else {})
      ensures enabled == old(enabled) && stopped == old(stopped) && retained == old(retained)
    {
      if trial.Some? {
        heap.Destroy(trial.id);
      }
      trial := None;
      trialCount := 0;
    }

    /** up_usm_adaptive_stop: the search is over for good, the incumbent stays. */
    method Stop(best: nat)
      requires heap.Valid() && tuner.Valid() && Search.Inv(tuner.View()) && (trial.Some? ==> trial.id != best)
      requires heap.live.Keys == {best} + (if trial.Some? then {trial.id} else {})
      modifies this, heap
      ensures Valid(best) && !enabled && stopped && trial == None && retained == old(retained)
      ensures heap.live.Keys == {best} && heap.next == old(heap.next) && heap.uses == old(heap.uses)
    {
      ClearTrial();
      enabled := false;
      stopped := true;
    }

    /** A trial pool is wanted, and there is one or it can be had. */
    predicate UsesTrial(createOk: bool)
      reads this, tuner
    {
      enabled && tuner.current != tuner.best && (trialCount == tuner.current || createOk)
    }

    /** up_usm_adaptive_select: the pool for the count the tuner asks for. */
    method Select(best: nat, createOk: bool) returns (pool: nat)
      requires Valid(best) && enabled
      modifies this, heap
      ensures Valid(best) && pool in heap.live && retained == old(retained) && heap.uses == old(heap.uses)
      ensures enabled == (tuner.current == tuner.best || old(UsesTrial(createOk)))
      ensures enabled && tuner.current != tuner.best ==>
                trial == Some(pool) && heap.live[pool] == tuner.current && pool == old(TrialPool())
      ensures !(enabled && tuner.current != tuner.best) ==> pool == best
      ensures !enabled ==> !createOk && stopped
    {
      if tuner.current == tuner.best {
        return best;
      }
      if trialCount == tuner.current {
        return trial.id;
      }
      ClearTrial();
      var made := heap.Create(tuner.current, width, height, stripeRows, createOk);
      AsManyAsAsked();
      trial := made;
      if made.None? {
        Stop(best);
        return best;
      }
      trialCount := tuner.current;
      return made.id;
    }

    /** A trial pool is never capped below the count it is created for. */
    lemma AsManyAsAsked()
      requires tuner.Valid() && Search.Inv(tuner.View()) && 0 < height && Fits(tuner.limit)
      ensures Usm.ResolveThreads(tuner.current, height, stripeRows) == tuner.current
    {
    }

    /** up_usm_adaptive_accept: on adoption the old incumbent is destroyed and the trial
        pool takes its place with exactly the workers the tuner now holds best. */
    method Accept(best: nat, elapsed: T.Elapsed) returns (best': nat)
      requires Valid(best) && enabled
      requires tuner.phase == T.Trial ==> trial.Some?
      modifies this, heap, tuner, tuner.samples
      ensures Valid(best') && enabled && retained == old(retained) && heap.uses == old(heap.uses)
      ensures tuner.View() == T.Observe(old(tuner.View()), elapsed)
      ensures best' != best <==> tuner.best != old(tuner.best)
      ensures best' != best ==>
                Some(best') == old(trial) && heap.live[best'] == tuner.best && best in heap.gone && trial == None
    {
      var previous := tuner.best;
      var phase := tuner.phase;
      ghost var before := tuner.View();
      Search.ObserveKeepsInv(before, elapsed);
      PhasesOf(before, elapsed);
      tuner.ObserveFrame(elapsed);
      assert tuner.View() == T.Observe(before, elapsed);
      if tuner.best == previous {
        if phase == T.Confirm && tuner.phase == T.Base {
          ClearTrial();
        }
        return best;
      }
      heap.Destroy(best);
      best' := trial.id;
      trial := None;
      trialCount := 0;
    }

    /** up_usm_adaptive_recover: a trial pool has failed. If it left the pixels alone, the
        incumbent sharpens them instead. */
    method Recover(best: nat, selected: nat, status: Usm.Status, second: Outcome, px: Pixels)
        returns (result: Usm.Status, px': Pixels)
      requires heap.Valid() && tuner.Valid() && Search.Inv(tuner.View()) && trial == Some(selected) && selected != best
      requires heap.live.Keys == {best, selected} && status != Usm.Ok && StatusIsTrue(status, px) && !retained
      modifies this, heap
      ensures Valid(best) && !enabled && stopped && trial == None && StatusIsTrue(result, px')
      ensures heap.live.Keys == {best} && selected in heap.gone
      ensures result == if status == Usm.OutputUncertain then status else second.status
      ensures retained == (status == Usm.OutputUncertain)
      ensures heap.uses == old(heap.uses) + if status == Usm.OutputUncertain then [] else [best]
    {
      Stop(best);
      if status == Usm.OutputUncertain {
        retained := true;
        return status, px;
      }
      px' := heap.Apply(best, second, px);
      result := second.status;
    }

    /** The trial pool the tuner asks for: the one there is, or the next to be created. */
    function TrialPool(): nat
      reads this, tuner, heap
    {
      if trialCount == tuner.current && trial.Some? then trial.id else heap.next
    }

    /** How a frame ends: with the second outcome if a trial pool has left the pixels alone. */
    predicate Retries(f: Frame)
      reads this, tuner
    {
      UsesTrial(f.createOk) && f.first.status == Usm.FailedUnchanged
    }

    /** The frame was sharpened by as many workers as asked for, and its time taken. */
    predicate Timed(f: Frame, count: int)
    {
      f.first.threads == count && f.timed && f.elapsed.Finite? && f.elapsed.us > 0.0
    }

    /** What the tuner makes of a sharpened frame. */
    method Learn(best: nat, f: Frame) returns (best': nat)
      requires enabled && (tuner.phase == T.Trial ==> trial.Some?)
      requires heap.Valid() && tuner.Valid() && Search.Inv(tuner.View()) && (trial.Some? ==> trial.id != best)
      requires heap.live.Keys == {best} + (if trial.Some? then {trial.id} else {})
      requires f.first.threads == tuner.current ==> Valid(best)
      modifies this, heap, tuner, tuner.samples
      ensures Valid(best') && enabled == Timed(f, old(tuner.current))
      ensures retained == old(retained) && heap.uses == old(heap.uses)
      ensures tuner.View() == if enabled then T.Observe(old(tuner.View()), f.elapsed) else old(tuner.View())
      ensures best' != best <==> tuner.best != old(tuner.best)
      ensures best' != best ==> heap.live[best'] == tuner.best && best in heap.gone
    {
      if f.first.threads != tuner.current || !f.timed || !f.elapsed.Finite? || f.elapsed.us <= 0.0 {
        Stop(best);
        return best;
      }
      best' := Accept(best, f.elapsed);
    }

    /** The frame goes through the pool the tuner asks for, or else the incumbent. */
    method Use(best: nat, f: Frame) returns (selected: nat, px: Pixels)
      requires Valid(best)
      modifies this, heap
      ensures heap.Valid() && (trial.Some? ==> trial.id != best) && retained == old(retained)
      ensures heap.live.Keys == {best} + (if trial.Some? then {trial.id} else {})
      ensures selected == if old(UsesTrial(f.createOk)) then old(TrialPool()) else best
      ensures if old(UsesTrial(f.createOk)) then trial == Some(selected) else Valid(best)
      ensures f.first.threads == tuner.current ==> Valid(best)
      ensures enabled == (old(enabled) && (tuner.current == tuner.best || old(UsesTrial(f.createOk))))
      ensures !enabled && old(enabled) ==> stopped
      ensures StatusIsTrue(f.first.status, px) && heap.uses == old(heap.uses) + [selected]
      ensures !old(enabled) ==> heap.next == old(heap.next)
    {
      selected := best;
      if enabled {
        selected := Select(best, f.createOk);
      }
      px := heap.Apply(selected, f.first, UNTOUCHED);
    }

    /** up_usm_adaptive_apply: one frame. The pixels are sharpened at most once, and the
        status says truthfully what happened to them, whichever pool failed where. The pool
        used is the trial pool exactly if the tuner asks for one and it can be had; if it
        leaves the pixels alone the incumbent is used too. The search goes on exactly if the
        pool it asked for could be had, and has sharpened the frame with as many workers as
        asked for and a time was taken; a failure of the incumbent is for the caller. */
    method ApplyFrame(best: nat, f: Frame) returns (best': nat, status: Usm.Status, px: Pixels)
      requires Valid(best)
      modifies this, heap, tuner, tuner.samples
      ensures Valid(best') && StatusIsTrue(status, px)
      ensures best' != best ==> heap.live[best'] == tuner.best && best in heap.gone && status == Usm.Ok
      ensures retained ==> status == Usm.OutputUncertain && best' == best && !enabled
      ensures !old(enabled) ==> best' == best && !enabled && !retained && heap.next == old(heap.next)
      ensures tuner.best == old(tuner.best) ==> best' == best
      ensures status == if old(Retries(f)) then f.second.status else f.first.status
      ensures retained == (old(UsesTrial(f.createOk)) && f.first.status == Usm.OutputUncertain)
      ensures heap.uses == old(heap.uses) + (if old(UsesTrial(f.createOk)) then [old(TrialPool())] else [best])
                           + if old(Retries(f)) then [best] else []
      ensures enabled <==>
                && old(enabled) && (old(tuner.current == tuner.best) || old(UsesTrial(f.createOk)))
                && if f.first.status == Usm.Ok then Timed(f, old(tuner.current)) else old(tuner.current == tuner.best)
      ensures tuner.View() == if enabled && status == Usm.Ok then T.Observe(old(tuner.View()), f.elapsed)
              else old(tuner.View())
    {
      retained := false;
      best' := best;
      var selected;
      selected, px := Use(best, f);
      status := f.first.status;
      if status != Usm.Ok && selected != best {
        status, px := Recover(best, selected, status, f.second, px);
        return;
      }
      if status != Usm.Ok || !enabled {
        return;
      }
      best' := Learn(best, f);
    }

    /** Close (DisableUsm): the search stops and the incumbent is destroyed too. */
    method Close(best: nat)
      requires Valid(best)
      modifies this, heap
      ensures heap.Valid() && heap.live == map[] && heap.next == old(heap.next) && trial == None && !enabled
    {
      Stop(best);
      heap.Destroy(best);
    }
  }

  ghost predicate AllTrue(results: seq<(Usm.Status, Pixels)>) {
    forall k | 0 <= k < |results| :: StatusIsTrue(results[k].0, results[k].1)
  }

  method PlayFrames(a: Adaptive, first: nat, frames: seq<Frame>) returns (best: nat, results: seq<(Usm.Status, Pixels)>)
    requires a.Valid(first)
    modifies a, a.heap, a.tuner, a.tuner.samples
    ensures a.Valid(best) && |results| == |frames| && AllTrue(results)
  {
    best, results := first, [];
    for k := 0 to |frames|
      invariant a.Valid(best) && |results| == k && AllTrue(results)
    {
      var status, px;
      best, status, px := a.ApplyFrame(best, frames[k]);
      results := results + [(status, px)];
    }
  }

  /** A whole playback: whatever the allocator, the pools and the clock do on each frame,
      every frame is sharpened at most once and reported truthfully, and at the end every
      pool that was ever created has been destroyed exactly once. */
  method Playback(initial: int, limit: int, width: int, height: int, stripeRows: int, frames: seq<Frame>)
      returns (heap: Heap, results: seq<(Usm.Status, Pixels)>)
    requires 1 <= initial && 0 < width && 0 < height
    ensures |results| == |frames| && AllTrue(results)
    ensures heap.live == map[] && forall id: nat :: id in heap.gone <==> id < heap.next
  {
    heap := new Heap();
    var first := heap.Create(initial, width, height, stripeRows, true);
    assert heap.live.Keys == {first.id};
    var a := new Adaptive(heap, first.id, initial, limit, width, height, stripeRows);
    var best;
    best, results := PlayFrames(a, first.id, frames);
    a.Close(best);
  }

  /** What one observation does to phase, incumbent and candidate. */
  lemma PhasesOf(t: T.State, e: T.Elapsed)
    requires Search.Inv(t)
    ensures var v := T.Observe(t, e);
            && v.limit == t.limit
            && (v.best != t.best ==> t.phase == T.Confirm && v.phase == T.Base && v.best == t.candidate)
            && (v.phase == T.Confirm ==> t.phase == T.Trial || t.phase == T.Confirm)
            && (t.phase == T.Trial ==> (v.phase == T.Trial || v.phase == T.Confirm) && v.candidate == t.candidate)
            && (t.phase == T.Confirm ==> (v.phase == T.Confirm && v.candidate == t.candidate) || v.phase == T.Base)
            && (t.phase == T.Base || t.phase == T.Settled ==> v.phase != T.Confirm)
  {
  }
}
