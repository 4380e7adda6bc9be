/** One playback through the filter (autoupscale.c): who owns each picture, when the
    backend is swapped, and when sharpening is given up. What VLC, the scaler backends and
    the sharpening pools do on each frame is an input. */
module FilterLifecycle {
  import A = UsmAdaptive
  import Usm = UsmPool

  const PROBE_WINDOW_FRAMES := 60

  datatype BackendId = Zimg | Swscale

  datatype Backend = NoBackend | Active(id: BackendId)

  datatype Process = Done | Transient | Fatal

  /** What one frame meets: whether it has planes and readable views, the probe's verdict,
      whether an output picture can be had, how scaling and sharpening end, and whether
      swscale can be picked and opened. */
  datatype Env = Env(
    inPlanes: bool, inView: bool, textured: bool, newPicture: bool, process: Process,
    outPlanes: bool, outView: bool, usm: A.Frame, pick: bool, open: bool)

  /** An output picture's content. */
  datatype Content = Content(scaled: bool, px: A.Pixels)

  /** A frame without a result, or the pixels of the result. */
  datatype Fate = Dropped | HandedOn(px: A.Pixels)

  const BLANK := Content(false, A.UNTOUCHED)

  /** A frame the filter may hand on. */
  predicate Deliverable(c: Content) {
    c.scaled && c.px.sharpened <= 1 && !c.px.torn
  }

  /** VLC's side of the pictures: those the filter holds a reference to, those it has
      released, and those it has handed on. */
  class Host {
    var next: nat
    var held: set<nat>
    var released: set<nat>
    var returned: set<nat>
    var content: map<nat, Content>

    /** Every picture so far is held, released or handed on, and only one of these; those
        handed on are fit to be seen. */
    ghost predicate Valid()
      reads this
    {
      && held !! released !! returned
      && (forall id: nat :: id < next <==> id in held || id in released || id in returned)
      && (forall id: nat :: id < next ==> id in content)
      && (forall id | id in returned :: id in content && Deliverable(content[id]))
    }

    constructor ()
      ensures Valid() && held == {} && next == 0
    {
      next, held, released, returned, content := 0, {}, {}, {}, map[];
    }

    /** A picture comes into the filter's hands: an input frame, or filter_NewPicture. */
    method Obtain() returns (id: nat)
      requires Valid()
      modifies this
      ensures Valid() && id == old(next) && next == id + 1 && held == old(held) + {id}
      ensures released == old(released) && returned == old(returned) && content == old(content)[id := BLANK]
    {
      id := next;
      next := next + 1;
      held := held + {id};
      content := content[id := BLANK];
    }

    /** picture_Release: only of a picture still held. */
    method Release(id: nat)
      requires Valid() && id in held
      modifies this
      ensures Valid() && held == old(held) - {id} && released == old(released) + {id}
      ensures returned == old(returned) && next == old(next) && content == old(content)
    {
      held := held - {id};
      released := released + {id};
    }

    /** The frame is the filter's result. */
    method HandOn(id: nat)
      requires Valid() && id in held && Deliverable(content[id])
      modifies this
      ensures Valid() && held == old(held) - {id} && returned == old(returned) + {id}
      ensures released == old(released) && next == old(next) && content == old(content)
    {
      held := held - {id};
      returned := returned + {id};
    }

    /** The end of a frame: drop the output, or hand it on; the input goes either way. */
    method Conclude(input: nat, output: nat, drop: bool) returns (result: A.Maybe)
      requires Valid() && input != output && held == {input, output} && (!drop ==> Deliverable(content[output]))
      modifies this
      ensures Valid() && held == {} && next == old(next) && content == old(content)
      ensures released == old(released) + {input} + (if drop then {output} else {})
      ensures returned == old(returned) + (if drop then {} else {output})
      ensures result == if drop then A.None else A.Some(output)
    {
      if drop {
        Release(output);
        Release(input);
        return A.None;
      }
      Release(input);
      HandOn(output);
      return A.Some(output);
    }

    method Write(id: nat, c: Content)
      requires Valid() && id in held
      modifies this
      ensures Valid() && content == old(content)[id := c]
      ensures held == old(held) && released == old(released) && returned == old(returned) && next == old(next)
    {
      content := content[id := c];
    }
  }

  class Filter {
    const host: Host
    const heap: A.Heap
    const usm: A.Adaptive?
    const forced: bool
    var backend: Backend
    var fallbackTried: bool
    var amount: int
    var pool: A.Maybe
    var skipSharp: bool
    var probeActive: bool
    var probeFrames: nat
    ghost var zimgOpens: nat
    ghost var zimgCloses: nat
    ghost var swscaleOpens: nat
    ghost var swscaleCloses: nat

    ghost function Parts(): set<object>
    {
      {this, host, heap} + if usm != null then {usm, usm.tuner, usm.tuner.samples} else {}
    }

    /** A backend is open exactly while it is the current one; zimg is only ever the first,
        and swscale is opened at most once. */
    ghost predicate BackendOk()
      reads this
    {
      && zimgOpens == zimgCloses + (if backend == Active(Zimg) then 1 else 0)
      && swscaleOpens == swscaleCloses + (if backend == Active(Swscale) then 1 else 0)
      && zimgOpens <= 1 && swscaleOpens <= 1
      && (backend == Active(Zimg) ==> swscaleOpens == 0)
      && (backend == NoBackend ==> fallbackTried)
    }

    ghost predicate UsmOk()
      reads Parts()
    {
      if pool.Some? then usm != null && usm.heap == heap && usm.Valid(pool.id)
      else heap.Valid() && heap.live == map[]
    }

    ghost predicate Valid()
      reads Parts()
    {
      host.Valid() && BackendOk() && UsmOk()
    }

    /** After a successful open. The pool, if sharpening is wanted and it could be created,
        is the only one in the heap. */
    constructor (host: Host, heap: A.Heap, usm: A.Adaptive?, pool: A.Maybe, id: BackendId, forced: bool,
                 amount: int, probe: bool)
      requires host.Valid()
      requires if pool.Some? then usm != null && usm.heap == heap && usm.Valid(pool.id)
               else heap.Valid() && heap.live == map[]
      ensures Valid() && backend == Active(id) && this.host == host && this.heap == heap && this.usm == usm
    {
      this.host, this.heap, this.usm, this.pool, this.forced, this.amount := host, heap, usm, pool, forced, amount;
      backend, fallbackTried, skipSharp := Active(id), false, false;
      probeActive, probeFrames := probe, 0;
      zimgOpens, zimgCloses := if id == Zimg then 1 else 0, 0;
      swscaleOpens, swscaleCloses := if id == Swscale then 1 else 0, 0;
    }

    method DisableUsm()
      requires UsmOk()
      modifies this`amount, this`pool, heap, if usm != null then {usm} else {}
      ensures UsmOk() && pool == A.None && amount == 0
    {
      amount := 0;
      if pool.Some? {
        usm.Close(pool.id);
      }
      pool := A.None;
    }

    /** RunProbe: once the window is full a textured source ends sharpening. */
    method RunProbe(env: Env)
      requires UsmOk()
      modifies this`amount, this`pool, this`skipSharp, this`probeActive, this`probeFrames
      modifies heap, if usm != null then {usm} else {}
      ensures UsmOk() && probeFrames == old(probeFrames) + (if env.inView then 1 else 0)
      ensures var full := env.inView && probeFrames >= PROBE_WINDOW_FRAMES;
              && probeActive == (old(probeActive) && !full)
              && skipSharp == (old(skipSharp) || (full && env.textured))
              && (if full && env.textured then pool == A.None && amount == 0
                  else pool == old(pool) && amount == old(amount)
                       && unchanged(heap) && (usm != null ==> unchanged(usm)))
    {
      if !env.inView {
        return;
      }
      probeFrames := probeFrames + 1;
      if probeFrames < PROBE_WINDOW_FRAMES {
        return;
      }
      probeActive := false;
      if env.textured {
        skipSharp := true;
        DisableUsm();
      }
    }

    /** A frame whose output view is as given gets sharpened. */
    predicate Sharpens(env: Env)
      reads this
    {
      amount > 0 && pool.Some? && env.outPlanes && !skipSharp && env.outView
    }

    /** How the sharpening of a frame ends: a trial pool that leaves the pixels alone gives
        the incumbent a turn. */
    function Verdict(env: Env): Usm.Status
      reads this, usm, if usm != null then {usm.tuner} else {}
    {
      if usm != null && usm.Retries(env.usm) then env.usm.second.status else env.usm.first.status
    }

    /** Only a trial pool has failed, in the middle of the picture. */
    predicate TrialLost(env: Env)
      reads this, usm, if usm != null then {usm.tuner} else {}
    {
      usm != null && usm.UsesTrial(env.usm.createOk) && env.usm.first.status == Usm.OutputUncertain
    }

    /** This frame's failure ends sharpening. */
    predicate GivesUp(env: Env)
      reads this, usm, if usm != null then {usm.tuner} else {}
    {
      Sharpens(env) && Verdict(env) != Usm.Ok && !TrialLost(env)
    }

    /** ApplyUsmIfEnabled: the status is true of the plane, which is untouched, sharpened
        exactly once or uncertain. A failure ends sharpening, unless only a trial pool has
        failed and the incumbent is retained. */
    method ApplyUsm(env: Env) returns (status: Usm.Status, px: A.Pixels)
      requires UsmOk()
      modifies this`amount, this`pool, heap, if usm != null then {usm, usm.tuner, usm.tuner.samples} else {}
      ensures UsmOk()
      ensures if old(Sharpens(env))
              then status == old(Verdict(env)) && A.StatusIsTrue(status, px)
              else status == Usm.Ok && px == A.UNTOUCHED
      ensures status != Usm.Ok ==> pool == A.None || (usm != null && usm.retained && status == Usm.OutputUncertain)
      ensures if old(GivesUp(env)) then pool == A.None && amount == 0
              else pool.Some? == old(pool).Some? && amount == old(amount)
    {
      if amount <= 0 || pool.None? || !env.outPlanes || skipSharp || !env.outView {
        return Usm.Ok, A.UNTOUCHED;
      }
      var best;
      best, status, px := usm.ApplyFrame(pool.id, env.usm);
      pool := A.Some(best);
      if status != Usm.Ok && !usm.retained {
        DisableUsm();
      }
    }

    /** The pixels after sharpening has ended like this. */
    static function Result(status: Usm.Status): A.Pixels
    {
      match status
      case Ok => A.Pixels(1, false)
      case FailedUnchanged => A.Pixels(0, false)
      case OutputUncertain => A.Pixels(0, true)
    }

    /** FinishScaledFrame: an output whose sharpening is uncertain is dropped. */
    method FinishScaledFrame(input: nat, output: nat, env: Env) returns (result: A.Maybe)
      requires Valid() && input != output && host.held == {input, output}
               && host.content[output] == Content(true, A.UNTOUCHED)
      modifies Parts()
      ensures Valid() && host.held == {} && host.next == old(host.next) && backend == old(backend)
      ensures input in host.released && old(host.released) <= host.released
      ensures output in host.content && host.content[output].scaled
      ensures if host.content[output].px.torn
              then result == A.None && output in host.released && host.returned == old(host.returned)
              else result == A.Some(output) && host.returned == old(host.returned) + {output}
      ensures host.content[output].px == if old(Sharpens(env)) then Result(old(Verdict(env))) else A.UNTOUCHED
      ensures if old(GivesUp(env)) then pool == A.None && amount == 0
              else pool.Some? == old(pool).Some? && amount == old(amount)
      ensures unchanged(this`backend, this`fallbackTried, this`swscaleOpens)
      ensures unchanged(this`probeFrames, this`probeActive, this`skipSharp)
    {
      var status, px := ApplyUsm(env);
      host.Write(output, Content(true, px));
      result := host.Conclude(input, output, status == Usm.OutputUncertain);
    }

    method RetireBackend()
      requires BackendOk() && backend.Active? && fallbackTried
      modifies this`backend, this`zimgCloses, this`swscaleCloses
      ensures BackendOk() && backend == NoBackend
    {
      if backend.id == Zimg {
        zimgCloses := zimgCloses + 1;
      } else {
        swscaleCloses := swscaleCloses + 1;
      }
      backend := NoBackend;
    }

    /** The backend after a fatal failure of the given one. */
    function AfterFatal(before: Backend, tried: bool, env: Env): Backend
    {
      if before == Active(Zimg) && !tried then (if !forced && env.pick && env.open then Active(Swscale) else NoBackend)
      else before
    }

    /** The backend changes exactly if zimg fails for the first time. It is replaced by swscale
        exactly if zimg was not forced and swscale could be picked and opened. */
    lemma FallbackExactly(before: Backend, tried: bool, env: Env)
      ensures AfterFatal(before, tried, env) != before <==> before == Active(Zimg) && !tried
      ensures AfterFatal(before, tried, env) == Active(Swscale) <==>
                before == Active(Swscale) || (before == Active(Zimg) && !tried && !forced && env.pick && env.open)
    {
    }

    /** TryBackendFallback: at most once in a playback, and only away from zimg. */
    method TryBackendFallback(env: Env)
      requires BackendOk() && backend.Active?
      modifies this`backend, this`fallbackTried, this`zimgCloses, this`swscaleCloses, this`swscaleOpens
      ensures BackendOk() && fallbackTried
      ensures backend == AfterFatal(old(backend), old(fallbackTried), env)
    {
      if fallbackTried {
        return;
      }
      fallbackTried := true;
      if backend.id != Zimg {
        return;
      }
      RetireBackend();
      if !forced && env.pick && env.open {
        swscaleOpens := swscaleOpens + 1;
        backend := Active(Swscale);
      }
    }

    /** The way out of a frame the backend could not scale. */
    method DropFrame(input: nat, output: nat, env: Env)
      requires Valid() && backend.Active? && input != output && host.held == {input, output}
      modifies host, this`backend, this`fallbackTried, this`zimgCloses, this`swscaleCloses, this`swscaleOpens
      ensures Valid() && host.held == {} && host.next == old(host.next) && host.returned == old(host.returned)
      ensures input in host.released && output in host.released && old(host.released) <= host.released
      ensures backend == if env.process == Fatal then AfterFatal(old(backend), old(fallbackTried), env)
              else old(backend)
    {
      if env.process == Fatal {
        TryBackendFallback(env);
      }
      host.Release(output);
      host.Release(input);
    }

    /** What becomes of the frame from here on. */
    function FateOf(env: Env): Fate
      reads this, usm, if usm != null then {usm.tuner} else {}
    {
      if !env.newPicture || env.process != Done then Dropped
      else if !Sharpens(env) then HandedOn(A.UNTOUCHED)
      else if Verdict(env) == Usm.OutputUncertain then Dropped
      else HandedOn(Result(Verdict(env)))
    }

    /** Scaling into an output picture, and what follows. */
    method ProcessFrame(input: nat, output: nat, env: Env) returns (result: A.Maybe)
      requires Valid() && backend.Active? && input != output && host.held == {input, output} && env.newPicture
      modifies Parts()
      ensures Valid() && host.held == {} && input in host.released && old(host.released) <= host.released
      ensures host.next == old(host.next)
      ensures if result.Some? then result.id == output && host.returned == old(host.returned) + {output}
              else host.returned == old(host.returned)
      ensures result.Some? <==> old(FateOf(env)).HandedOn?
      ensures result.Some? ==> output in host.content && host.content[output] == Content(true, old(FateOf(env)).px)
      ensures if env.process == Done && old(GivesUp(env)) then pool == A.None && amount == 0
              else pool.Some? == old(pool).Some? && amount == old(amount)
      ensures unchanged(this`probeFrames, this`probeActive, this`skipSharp)
      ensures backend == if env.process == Fatal then AfterFatal(old(backend), old(fallbackTried), env)
                         else old(backend)
    {
      if env.process != Done {
        DropFrame(input, output, env);
        return A.None;
      }
      host.Write(output, Content(true, A.UNTOUCHED));
      result := FinishScaledFrame(input, output, env);
    }

    /** The rest of FilterFrame, from filter_NewPicture on. */
    method ScaleFrame(input: nat, env: Env) returns (result: A.Maybe)
      requires Valid() && host.held == {input} && backend.Active?
      modifies Parts()
      ensures Valid() && host.held == {} && input in host.released && old(host.released) <= host.released
      ensures host.next == old(host.next) + if env.newPicture then 1 else 0
      ensures if result.Some? then result.id == old(host.next) && env.newPicture
              && host.returned == old(host.returned) + {result.id}
              else host.returned == old(host.returned)
      ensures result.Some? <==> old(FateOf(env)).HandedOn?
      ensures result.Some? ==>
                result.id in host.content && host.content[result.id] == Content(true, old(FateOf(env)).px)
      ensures if env.newPicture && env.process == Done && old(GivesUp(env)) then pool == A.None && amount == 0
              else pool.Some? == old(pool).Some? && amount == old(amount)
      ensures unchanged(this`probeFrames, this`probeActive, this`skipSharp)
      ensures backend == if env.newPicture
              && env.process == Fatal then AfterFatal(old(backend), old(fallbackTried), env)
                         else old(backend)
    {
      if !env.newPicture {
        host.Release(input);
        return A.None;
      }
      var output := host.Obtain();
      result := ProcessFrame(input, output, env);
    }

    /** This frame fills the probe's window, and the source is textured. */
    predicate ProbeEnds(env: Env)
      reads this
    {
      && backend.Active? && probeActive && env.inPlanes && env.inView && probeFrames + 1 >= 60
      && env.textured
    }

    /** This frame gets through to a sharpening pool. */
    predicate ToSharpen(env: Env)
      reads this
    {
      && backend.Active? && env.newPicture && env.process == Done
      && amount > 0 && pool.Some? && !skipSharp && !ProbeEnds(env) && env.outPlanes && env.outView
    }

    /** The probe's turn in a frame. */
    method Probe(env: Env)
      requires Valid() && backend.Active?
      modifies this`amount, this`pool, this`skipSharp, this`probeActive, this`probeFrames
      modifies heap, if usm != null then {usm} else {}
      ensures Valid()
      ensures if old(ProbeEnds(env)) then pool == A.None && amount == 0 && skipSharp
              else pool == old(pool) && amount == old(amount) && skipSharp == old(skipSharp)
                   && unchanged(heap) && (usm != null ==> unchanged(usm))
      ensures var probed := old(probeActive) && env.inPlanes && env.inView;
              && probeFrames == old(probeFrames) + (if probed then 1 else 0)
              && probeActive == (old(probeActive) && !(probed && probeFrames >= 60))
      ensures FateOf(env) == old(FrameFate(env))
      ensures env.newPicture && env.process == Done && GivesUp(env)
              <==> old(ToSharpen(env) && Verdict(env) != Usm.Ok && !TrialLost(env))
    {
      if probeActive && env.inPlanes {
        RunProbe(env);
      }
      assert Sharpens(env) == old(Sharpens(env) && !ProbeEnds(env));
    }

    /** What becomes of a frame that reaches the filter now. */
    function FrameFate(env: Env): Fate
      reads this, usm, if usm != null then {usm.tuner} else {}
    {
      if backend.NoBackend? || !env.newPicture || env.process != Done then Dropped
      else if !ToSharpen(env) then HandedOn(A.UNTOUCHED)
      else if Verdict(env) == Usm.OutputUncertain then Dropped
      else HandedOn(Result(Verdict(env)))
    }

    /** In particular: a frame is lost to the viewer only if it cannot be scaled or its
        sharpening was given up half way; and a frame that gets through to a pool that does
        its work is sharpened, exactly once. */
    lemma FateExactly(env: Env)
      ensures FrameFate(env) == Dropped <==>
                || backend == NoBackend || !env.newPicture || env.process != Done
                || (ToSharpen(env) && Verdict(env) == Usm.OutputUncertain)
      ensures FrameFate(env) == HandedOn(A.Pixels(1, false)) <==> ToSharpen(env) && Verdict(env) == Usm.Ok
      ensures ToSharpen(env) && env.usm.first.status == Usm.Ok ==> FrameFate(env) == HandedOn(A.Pixels(1, false))
      ensures FrameFate(env).HandedOn? && FrameFate(env).px != A.Pixels(1, false) ==>
                FrameFate(env).px == A.Pixels(0, false)
    {
    }

    /** FilterFrame. Whatever happens, the input is released exactly once, and an output that
        was obtained is either the result or released exactly once. A frame that could be
        scaled is sharpened exactly if sharpening is on, the probe does not end it and the
        output can be written: exactly once if the pools do their work, and it is dropped only
        if they leave it uncertain. Sharpening ends with a textured source, or with a failure
        that is not only a trial pool's. */
    method FilterFrame(input: nat, env: Env) returns (result: A.Maybe)
      requires Valid() && host.held == {input}
      modifies Parts()
      ensures Valid() && host.held == {} && input in host.released && old(host.released) <= host.released
      ensures old(host.next) <= host.next <= old(host.next) + 1
      ensures if result.Some? then result.id == old(host.next) < host.next
              && host.returned == old(host.returned) + {result.id}
              else host.returned == old(host.returned)
      ensures result.Some? <==> old(FrameFate(env)).HandedOn?
      ensures result.Some? ==>
                result.id in host.content && host.content[result.id] == Content(true, old(FrameFate(env)).px)
      ensures old(ToSharpen(env)) && env.usm.first.status == Usm.Ok ==>
                result.Some? && host.content[result.id] == Content(true, A.Pixels(1, false))
      ensures if old(ProbeEnds(env)) || (old(ToSharpen(env)) && old(Verdict(env)) != Usm.Ok && !old(TrialLost(env)))
              then pool == A.None && amount == 0 else pool.Some? == old(pool).Some? && amount == old(amount)
      ensures skipSharp == (old(skipSharp) || old(ProbeEnds(env)))
      ensures var probed := old(backend.Active? && probeActive) && env.inPlanes && env.inView;
              && probeFrames == old(probeFrames) + (if probed then 1 else 0)
              && probeActive == (old(probeActive) && !(probed && probeFrames >= 60))
      ensures backend == if env.newPicture
              && env.process == Fatal then AfterFatal(old(backend), old(fallbackTried), env)
                         else old(backend)
    {
      if backend.NoBackend? {
        host.Release(input);
        return A.None;
      }
      Probe(env);
      result := ScaleFrame(input, env);
    }

    /** up_autoupscale_close. */
    method Close()
      requires Valid()
      modifies this, heap, if usm != null then {usm} else {}
      ensures zimgOpens == zimgCloses <= 1 && swscaleOpens == swscaleCloses <= 1
      ensures heap.Valid() && heap.live == map[]
    {
      if backend.Active? {
        fallbackTried := true;
        RetireBackend();
      }
      DisableUsm();
    }
  }

  /** The frames of a playback: each either has a picture or none. */
  datatype Arrival = Arrival(picture: bool, env: Env)

  /** A whole playback up to Close: whatever fails on the way, every input has been released
      and never handed on, the pictures handed on are exactly the results, all of them fit to
      be seen, every other picture has been released, every backend that was opened has been
      closed, each at most once, and no pool is left. */
  method Playback(f: Filter, frames: seq<Arrival>) returns (inputs: set<nat>, results: set<nat>)
    requires f.Valid() && f.host.held == {}
    modifies f.Parts()
    ensures f.host.Valid() && f.host.held == {}
    ensures inputs <= f.host.released && inputs !! results
    ensures f.host.returned == old(f.host.returned) + results
    ensures f.zimgOpens == f.zimgCloses <= 1 && f.swscaleOpens == f.swscaleCloses <= 1 && f.heap.live == map[]
  {
    inputs, results := {}, {};
    for k := 0 to |frames|
      invariant f.Valid() && f.host.held == {}
      invariant inputs <= f.host.released && f.host.returned == old(f.host.returned) + results
    {
      if frames[k].picture {
        var input := f.host.Obtain();
        var result := f.FilterFrame(input, frames[k].env);
        inputs := inputs + {input};
        if result.Some? {
          results := results + {result.id};
        }
      }
    }
    f.Close();
  }
}
