/** The pool's workers as interleaved processes. A step is one pixel: one blurred pixel
    stored in private scratch, or one combined pixel stored in the destination plane. Any
    worker may take the next step at any time, and in place all of them read and write
    the same bytes. */
module UsmSchedule {
  import opened Planes
  import opened UsmKernel
  import UsmPool
  import UsmSweep

  /** What set_per_frame fixed before the dispatch. In place the source is the destination
      of the running state and `halo` holds the snapshots taken from the frame. */
  datatype Job = Job(width: nat, height: nat, dst: Geom, src: Geom, inPlace: bool,
                     source: seq<Byte>, amount: nat, stripes: seq<Stripe>)

  datatype Stripe = Stripe(lo: nat, hi: nat, haloTop: seq<Byte>, haloBot: seq<Byte>)

  datatype Phase = PrimeUp | PrimeMid | BlurDown | Combine | Finished

  /** One worker: where it is in its sweep, and its three rolling rows. */
  datatype Worker = Worker(phase: Phase, y: nat, x: nat, up: seq<Byte>, mid: seq<Byte>, dn: seq<Byte>)

  datatype State = State(plane: seq<Byte>, workers: seq<Worker>)

  ghost predicate ValidJob(j: Job, t: Target) {
    && 0 < j.width && 0 < j.height && j.amount <= AMOUNT_Q8_MAX && |j.stripes| > 0
    && j.dst.width == j.src.width == j.width && j.dst.height == j.src.height == j.height
    && j.width <= j.dst.stride && (j.inPlace ==> j.dst == j.src)
    && j.src.Fits(|j.source|) && PictureOf(j.source, j.src) == t.source
    && IsTarget(t, j.width, j.height, j.amount)
    && (forall i | 0 <= i < |j.stripes| :: ValidStripe(j, t, i))
    && (forall i, k | 0 <= i < k < |j.stripes| :: j.stripes[i].hi <= j.stripes[k].lo)
  }

  /** Snapshots are taken exactly where a neighbour may overwrite a row in place. */
  ghost predicate ValidStripe(j: Job, t: Target, i: nat)
    requires i < |j.stripes| && Sized(t.source, j.width, j.height)
  {
    var s := j.stripes[i];
    && s.lo < s.hi <= j.height
    && (j.inPlace && s.lo > 0 ==> s.haloTop == t.source[s.lo - 1])
    && (j.inPlace && s.hi < j.height ==> s.haloBot == t.source[s.hi])
  }

  /** Every row of the frame is in some stripe. */
  ghost predicate Covers(j: Job) {
    forall y: nat | y < j.height :: HasOwner(j, y)
  }

  ghost predicate HasOwner(j: Job, y: nat) {
    exists i: nat :: InStripe(j, i, y)
  }

  predicate InStripe(j: Job, i: nat, y: nat) {
    i < |j.stripes| && j.stripes[i].lo <= y < j.stripes[i].hi
  }

  function Blank(width: nat): seq<Byte> {
    seq(width, _ => 0)
  }

  function Start(j: Job, plane: seq<Byte>): State {
    State(plane, seq(|j.stripes|, i requires 0 <= i < |j.stripes| =>
      Worker(PrimeUp, j.stripes[i].lo, 0, Blank(j.width), Blank(j.width), Blank(j.width))))
  }

  /** The row a blur step reads: a snapshot for the two rows a neighbour may be
      overwriting, the live plane (or the separate source) for every other row. */
  function ReadRow(j: Job, plane: seq<Byte>, i: nat, y: nat): (row: seq<Byte>)
    requires i < |j.stripes| && j.dst.Fits(|plane|) && j.src.Fits(|j.source|)
    requires j.dst.height == j.src.height == j.height && y < j.height
  {
    var s := j.stripes[i];
    if j.inPlace && y == s.lo - 1 then s.haloTop
    else if j.inPlace && y == s.hi then s.haloBot
    else if j.inPlace then RowOf(plane, j.dst, y)
    else RowOf(j.source, j.src, y)
  }

  /** The row whose blur the worker is computing. */
  function BlurSource(j: Job, w: Worker): nat
    requires 0 < j.height
  {
    match w.phase
    case PrimeUp => Clamped(w.y - 1, j.height)
    case PrimeMid => Clamped(w.y, j.height)
    case _ => Clamped(w.y + 1, j.height)
  }

  // --------------------------------------------------------------- invariant

  ghost predicate Prefix(a: seq<Byte>, b: seq<Byte>, n: nat) {
    n <= |a| == |b| && forall k | 0 <= k < n :: a[k] == b[k]
  }

  /** What worker w of stripe s has in its rolling rows. */
  ghost predicate Rolling(j: Job, t: Target, s: Stripe, w: Worker)
    requires IsTarget(t, j.width, j.height, j.amount) && 0 < j.height
  {
    var above, here := t.blurred[Clamped(w.y - 1, j.height)], t.blurred[Clamped(w.y, j.height)];
    var below := t.blurred[Clamped(w.y + 1, j.height)];
    && |w.up| == |w.mid| == |w.dn| == j.width && s.lo <= w.y <= s.hi
    && match w.phase
       case PrimeUp => w.y == s.lo && w.x < j.width && Prefix(w.up, above, w.x)
       case PrimeMid => w.y == s.lo && w.x < j.width && w.up == above && Prefix(w.mid, here, w.x)
       case BlurDown => w.y < s.hi && w.x < j.width && w.up == above && w.mid == here && Prefix(w.dn, below, w.x)
       case Combine => w.y < s.hi && w.x < j.width && w.up == above && w.mid == here && w.dn == below
       case Finished => w.y == s.hi
  }

  /** Pixel (y, x) of the worker's stripe has been written. */
  predicate Written(w: Worker, y: nat, x: nat) {
    y < w.y || (y == w.y && w.phase == Combine && x < w.x)
  }

  function At(j: Job, y: nat, x: nat): nat {
    RowStart(j.dst.stride, y) + x
  }

  /** Written pixels are final; in place, unwritten ones are still the frame's. */
  ghost predicate PixelInv(j: Job, t: Target, plane: seq<Byte>, w: Worker, y: nat, x: nat)
    requires IsTarget(t, j.width, j.height, j.amount) && y < j.height && x < j.width
  {
    && At(j, y, x) < |plane|
    && (Written(w, y, x) ==> plane[At(j, y, x)] == t.masked[y][x])
    && (!Written(w, y, x) && j.inPlace ==> plane[At(j, y, x)] == t.source[y][x])
  }

  ghost predicate StripeInv(j: Job, t: Target, plane: seq<Byte>, i: nat, w: Worker)
    requires IsTarget(t, j.width, j.height, j.amount) && 0 < j.height
    requires i < |j.stripes| && j.stripes[i].hi <= j.height
  {
    && Rolling(j, t, j.stripes[i], w)
    && forall y: nat, x: nat | j.stripes[i].lo <= y < j.stripes[i].hi && x < j.width :: PixelInv(j, t, plane, w, y, x)
  }

  ghost predicate Inv(j: Job, t: Target, before: seq<Byte>, s: State)
    requires ValidJob(j, t)
  {
    && |s.workers| == |j.stripes| && j.dst.Fits(|s.plane|) && |before| == |s.plane|
    && (forall i: nat | i < |j.stripes| :: ValidStripe(j, t, i) && StripeInv(j, t, s.plane, i, s.workers[i]))
    && (forall k | 0 <= k < |s.plane| && !Visible(j.dst, 0, j.height, k) :: s.plane[k] == before[k])
  }

  // -------------------------------------------------------------------- steps

  /** Worker i computes one blurred pixel into one of its rolling rows. */
  function BlurStep(j: Job, plane: seq<Byte>, i: nat, w: Worker): Worker
    requires i < |j.stripes| && j.dst.Fits(|plane|) && j.src.Fits(|j.source|) && 0 < j.height
    requires j.dst.height == j.src.height == j.height
    requires |w.up| == |w.mid| == |w.dn| == j.width && w.x < j.width
    requires |ReadRow(j, plane, i, BlurSource(j, w))| == j.width
    requires w.phase != Combine && w.phase != Finished
  {
    var b := HBlurAt(ReadRow(j, plane, i, BlurSource(j, w)), w.x);
    var last := w.x + 1 == j.width;
    var x := if last then 0 else w.x + 1;
    match w.phase
    case PrimeUp => w.(up := w.up[w.x := b], x := x, phase := if last then PrimeMid else PrimeUp)
    case PrimeMid => w.(mid := w.mid[w.x := b], x := x, phase := if last then BlurDown else PrimeMid)
    case BlurDown => w.(dn := w.dn[w.x := b], x := x, phase := if last then Combine else BlurDown)
  }

  /** After the last pixel of a row the rolling rows rotate and the next row begins. */
  function CombineStep(j: Job, s: Stripe, w: Worker): Worker {
    if w.x + 1 < j.width then w.(x := w.x + 1)
    else Worker(if w.y + 1 < s.hi then BlurDown else Finished, w.y + 1, 0, w.mid, w.dn, w.up)
  }

  /** The source byte under the worker's cursor. */
  function Here(j: Job, plane: seq<Byte>, w: Worker): Byte
    requires j.dst.Fits(|plane|) && j.src.Fits(|j.source|)
    requires j.dst.height == j.src.height == j.height && j.dst.width == j.src.width == j.width
    requires w.y < j.height && w.x < j.width
  {
    if j.inPlace then RowOf(plane, j.dst, w.y)[w.x] else RowOf(j.source, j.src, w.y)[w.x]
  }

  /** The state after worker i takes its next step. */
  ghost function Step(j: Job, t: Target, before: seq<Byte>, s: State, i: nat): (s': State)
    requires ValidJob(j, t) && Inv(j, t, before, s) && i < |s.workers|
  {
    var w := s.workers[i];
    assert StripeInv(j, t, s.plane, i, w);
    match w.phase
    case Finished => s
    case Combine =>
      PixelInPlane(j, s.plane, w.y, w.x);
      var out := Sharpen(Here(j, s.plane, w), Tap(w.up[w.x], w.mid[w.x], w.dn[w.x]), j.amount);
      State(s.plane[At(j, w.y, w.x) := out], s.workers[i := CombineStep(j, j.stripes[i], w)])
    case _ =>
      ReadsFrame(j, t, before, s, i);
      State(s.plane, s.workers[i := BlurStep(j, s.plane, i, w)])
  }

  lemma PixelInPlane(j: Job, plane: seq<Byte>, y: nat, x: nat)
    requires j.dst.Fits(|plane|) && y < j.dst.height && x < j.dst.width
    ensures At(j, y, x) < |plane|
  {
    RowInPlane(j.dst, |plane|, y);
  }

  lemma UnwrittenRow(j: Job, t: Target, plane: seq<Byte>, i: nat, w: Worker, y: nat)
    requires IsTarget(t, j.width, j.height, j.amount) && 0 < j.height
    requires j.dst.width == j.width && j.dst.height == j.height
    requires i < |j.stripes| && j.stripes[i].hi <= j.height && j.dst.Fits(|plane|) && j.inPlace
    requires StripeInv(j, t, plane, i, w) && j.stripes[i].lo <= y < j.stripes[i].hi
    requires w.y <= y && w.phase != Combine
    ensures RowOf(plane, j.dst, y) == t.source[y]
  {
    var row := RowOf(plane, j.dst, y);
    forall x: nat | x < j.width ensures row[x] == t.source[y][x] {
      assert PixelInv(j, t, plane, w, y, x);
    }
  }

  /** However far the neighbours have got, a blur step reads a row of the frame. */
  lemma ReadsFrame(j: Job, t: Target, before: seq<Byte>, s: State, i: nat)
    requires ValidJob(j, t) && Inv(j, t, before, s) && i < |s.workers|
    requires s.workers[i].phase != Finished && s.workers[i].phase != Combine
    ensures ReadRow(j, s.plane, i, BlurSource(j, s.workers[i])) == t.source[BlurSource(j, s.workers[i])]
  {
    var w, st := s.workers[i], j.stripes[i];
    var y := BlurSource(j, w);
    assert ValidStripe(j, t, i) && StripeInv(j, t, s.plane, i, w);
    if !j.inPlace {
      assert PictureOf(j.source, j.src)[y] == RowOf(j.source, j.src, y);
    } else if y == st.lo - 1 || y == st.hi {
    } else {
      assert st.lo <= y < st.hi && w.y <= y;
      UnwrittenRow(j, t, s.plane, i, w, y);
    }
  }

  // ------------------------------------------------------------- preservation

  /** A blur step extends the rolling row it is filling. */
  lemma BlurKeepsRolling(j: Job, t: Target, plane: seq<Byte>, i: nat, w: Worker)
    requires ValidJob(j, t) && i < |j.stripes| && ValidStripe(j, t, i) && j.dst.Fits(|plane|)
    requires Rolling(j, t, j.stripes[i], w) && w.phase != Finished && w.phase != Combine
    requires ReadRow(j, plane, i, BlurSource(j, w)) == t.source[BlurSource(j, w)]
    ensures Rolling(j, t, j.stripes[i], BlurStep(j, plane, i, w))
  {
    var y := BlurSource(j, w);
    assert TargetRow(t, j.amount, y);
    assert BlurPixel(t.blurred[y], t.source[y], w.x);
    var b := HBlurAt(t.source[y], w.x);
    assert b == t.blurred[y][w.x];
    match w.phase
    case PrimeUp => PrefixGrows(w.up, t.blurred[y], w.x, b);
    case PrimeMid => PrefixGrows(w.mid, t.blurred[y], w.x, b);
    case BlurDown => PrefixGrows(w.dn, t.blurred[y], w.x, b);
  }

  lemma PrefixGrows(a: seq<Byte>, b: seq<Byte>, n: nat, v: Byte)
    requires Prefix(a, b, n) && n < |a| && v == b[n]
    ensures Prefix(a[n := v], b, n + 1)
    ensures n + 1 == |a| ==> a[n := v] == b
  {
  }

  lemma BlurKeepsStripe(j: Job, t: Target, plane: seq<Byte>, i: nat, w: Worker, w': Worker)
    requires IsTarget(t, j.width, j.height, j.amount) && 0 < j.height
    requires i < |j.stripes| && j.stripes[i].hi <= j.height
    requires StripeInv(j, t, plane, i, w) && Rolling(j, t, j.stripes[i], w')
    requires w'.y == w.y && w.phase != Combine && (w'.phase == Combine ==> w'.x == 0)
    ensures StripeInv(j, t, plane, i, w')
  {
    forall y: nat, x: nat | j.stripes[i].lo <= y < j.stripes[i].hi && x < j.width
      ensures PixelInv(j, t, plane, w', y, x) {
      assert PixelInv(j, t, plane, w, y, x);
    }
  }

  /** The byte a combine step stores is the mask's. */
  lemma CombineValue(j: Job, t: Target, plane: seq<Byte>, i: nat, w: Worker)
    requires ValidJob(j, t) && i < |j.stripes| && ValidStripe(j, t, i) && j.dst.Fits(|plane|)
    requires StripeInv(j, t, plane, i, w) && w.phase == Combine
    ensures Sharpen(Here(j, plane, w), Tap(w.up[w.x], w.mid[w.x], w.dn[w.x]), j.amount) == t.masked[w.y][w.x]
  {
    assert PixelInv(j, t, plane, w, w.y, w.x);
    if !j.inPlace {
      assert PictureOf(j.source, j.src)[w.y] == RowOf(j.source, j.src, w.y);
    }
    assert Here(j, plane, w) == t.source[w.y][w.x];
    assert TargetRow(t, j.amount, w.y);
    assert SharpPixel(t.masked[w.y], t.source[w.y], w.up, w.mid, w.dn, j.amount, w.x);
  }

  lemma CombineKeepsStripe(j: Job, t: Target, plane: seq<Byte>, i: nat, w: Worker)
    requires ValidJob(j, t) && i < |j.stripes| && ValidStripe(j, t, i) && j.dst.Fits(|plane|)
    requires StripeInv(j, t, plane, i, w) && w.phase == Combine && At(j, w.y, w.x) < |plane|
    ensures StripeInv(j, t, plane[At(j, w.y, w.x) := t.masked[w.y][w.x]], i, CombineStep(j, j.stripes[i], w))
  {
    var w' := CombineStep(j, j.stripes[i], w);
    var plane' := plane[At(j, w.y, w.x) := t.masked[w.y][w.x]];
    assert Rolling(j, t, j.stripes[i], w');
    forall y: nat, x: nat | j.stripes[i].lo <= y < j.stripes[i].hi && x < j.width
      ensures PixelInv(j, t, plane', w', y, x) {
      assert PixelInv(j, t, plane, w, y, x);
      if At(j, y, x) == At(j, w.y, w.x) {
        PixelsApart(j.dst, y, x, w.y, w.x);
      }
    }
  }

  /** A write to a pixel outside stripe k is invisible to worker k. */
  lemma OthersKeepStripe(j: Job, t: Target, plane: seq<Byte>, k: nat, w: Worker, y: nat, x: nat, b: Byte)
    requires ValidJob(j, t) && k < |j.stripes| && j.dst.Fits(|plane|) && j.stripes[k].hi <= j.height
    requires StripeInv(j, t, plane, k, w) && !InStripe(j, k, y) && x < j.width && At(j, y, x) < |plane|
    ensures StripeInv(j, t, plane[At(j, y, x) := b], k, w)
  {
    var plane' := plane[At(j, y, x) := b];
    forall z: nat, u: nat | j.stripes[k].lo <= z < j.stripes[k].hi && u < j.width
      ensures PixelInv(j, t, plane', w, z, u) {
      assert PixelInv(j, t, plane, w, z, u);
      if At(j, z, u) == At(j, y, x) {
        PixelsApart(j.dst, z, u, y, x);
      }
    }
  }

  /** Every step of every worker keeps the invariant. */
  lemma StepKeepsInv(j: Job, t: Target, before: seq<Byte>, s: State, i: nat)
    requires ValidJob(j, t) && Inv(j, t, before, s) && i < |s.workers|
    ensures Inv(j, t, before, Step(j, t, before, s, i))
  {
    var w := s.workers[i];
    assert ValidStripe(j, t, i) && StripeInv(j, t, s.plane, i, w);
    if w.phase == Combine {
      CombineKeepsInv(j, t, before, s, i);
    } else if w.phase != Finished {
      ReadsFrame(j, t, before, s, i);
      BlurKeepsRolling(j, t, s.plane, i, w);
      BlurKeepsStripe(j, t, s.plane, i, w, BlurStep(j, s.plane, i, w));
    }
  }

  lemma CombineKeepsInv(j: Job, t: Target, before: seq<Byte>, s: State, i: nat)
    requires ValidJob(j, t) && Inv(j, t, before, s) && i < |s.workers| && s.workers[i].phase == Combine
    ensures Inv(j, t, before, Step(j, t, before, s, i))
  {
    var w := s.workers[i];
    assert ValidStripe(j, t, i) && StripeInv(j, t, s.plane, i, w);
    PixelInPlane(j, s.plane, w.y, w.x);
    CombineValue(j, t, s.plane, i, w);
    CombineKeepsStripe(j, t, s.plane, i, w);
    var s' := Step(j, t, before, s, i);
    forall k: nat | k < |j.stripes| ensures ValidStripe(j, t, k) && StripeInv(j, t, s'.plane, k, s'.workers[k]) {
      if k != i {
        assert ValidStripe(j, t, k) && StripeInv(j, t, s.plane, k, s.workers[k]);
        assert j.stripes[k].hi <= j.stripes[i].lo || j.stripes[i].hi <= j.stripes[k].lo;
        OthersKeepStripe(j, t, s.plane, k, s.workers[k], w.y, w.x, t.masked[w.y][w.x]);
      }
    }
    assert Visible(j.dst, 0, j.height, At(j, w.y, w.x));
  }

  // ---------------------------------------------------------------- data races

  /** The next step of worker i may read byte k of the destination plane. */
  ghost predicate MayRead(j: Job, s: State, i: nat, k: int)
    requires i < |s.workers| == |j.stripes| && 0 < j.height
  {
    var w := s.workers[i];
    var y := if w.phase == Combine then w.y else BlurSource(j, w);
    && j.inPlace && w.phase != Finished
    && !(w.phase != Combine && (y == j.stripes[i].lo - 1 || y == j.stripes[i].hi))
    && RowStart(j.dst.stride, y) <= k < RowStart(j.dst.stride, y) + j.width
  }

  ghost predicate WillWrite(j: Job, s: State, i: nat, k: int)
    requires i < |s.workers|
  {
    s.workers[i].phase == Combine && k == At(j, s.workers[i].y, s.workers[i].x)
  }

  /** Byte k of the destination plane belongs to a row of stripe i. */
  ghost predicate OwnByte(j: Job, i: nat, k: int) {
    exists y: nat :: InStripe(j, i, y) && RowStart(j.dst.stride, y) <= k < RowStart(j.dst.stride, y) + j.width
  }

  /** Whatever a worker reads or writes in the shared plane lies in its own stripe. */
  lemma TouchesOwnStripe(j: Job, t: Target, before: seq<Byte>, s: State, i: nat, k: int)
    requires ValidJob(j, t) && Inv(j, t, before, s) && i < |s.workers|
    requires MayRead(j, s, i, k) || WillWrite(j, s, i, k)
    ensures OwnByte(j, i, k)
  {
    var w := s.workers[i];
    assert ValidStripe(j, t, i) && StripeInv(j, t, s.plane, i, w);
    assert InStripe(j, i, if w.phase == Combine then w.y else BlurSource(j, w));
  }

  lemma StripesShareNoByte(j: Job, t: Target, i: nat, m: nat, k: int)
    requires ValidJob(j, t) && i < |j.stripes| && m < |j.stripes| && OwnByte(j, i, k) && OwnByte(j, m, k)
    ensures i == m
  {
    var y: nat :| InStripe(j, i, y) && RowStart(j.dst.stride, y) <= k < RowStart(j.dst.stride, y) + j.width;
    var z: nat :| InStripe(j, m, z) && RowStart(j.dst.stride, z) <= k < RowStart(j.dst.stride, z) + j.width;
    assert i == m || j.stripes[i].hi <= j.stripes[m].lo || j.stripes[m].hi <= j.stripes[i].lo;
    PixelsApart(j.dst, y, k - RowStart(j.dst.stride, y), z, k - RowStart(j.dst.stride, z));
  }

  // ---------------------------------------------------------------- whole runs

  lemma StartInv(j: Job, t: Target, plane: seq<Byte>)
    requires ValidJob(j, t) && j.dst.Fits(|plane|) && (j.inPlace ==> plane == j.source)
    ensures Inv(j, t, plane, Start(j, plane))
  {
    var s := Start(j, plane);
    forall i: nat | i < |j.stripes| ensures ValidStripe(j, t, i) && StripeInv(j, t, s.plane, i, s.workers[i]) {
      var w := s.workers[i];
      assert ValidStripe(j, t, i);
      forall y: nat, x: nat | j.stripes[i].lo <= y < j.stripes[i].hi && x < j.width
        ensures PixelInv(j, t, plane, w, y, x) {
        PixelInPlane(j, plane, y, x);
        if j.inPlace {
          assert t.source[y] == RowOf(plane, j.dst, y);
        }
      }
    }
  }

  ghost predicate Schedule(j: Job, schedule: seq<nat>) {
    forall k | 0 <= k < |schedule| :: schedule[k] < |j.stripes|
  }

  /** The state after the workers have stepped in the order of `schedule`. */
  ghost function Run(j: Job, t: Target, before: seq<Byte>, s: State, schedule: seq<nat>): (s': State)
    requires ValidJob(j, t) && Inv(j, t, before, s) && Schedule(j, schedule)
    ensures Inv(j, t, before, s')
    decreases |schedule|
  {
    if schedule == [] then s
    else
      StepKeepsInv(j, t, before, s, schedule[0]);
      Run(j, t, before, Step(j, t, before, s, schedule[0]), schedule[1..])
  }

  /** A byte that one worker is about to write, at whatever time, is never read or written
      by another worker at any time, earlier, later or on another course of the dispatch:
      the granularity of a step does not matter. */
  lemma NoDataRace(j: Job, t: Target, before: seq<Byte>, s: State, now: seq<nat>, ever: seq<nat>,
                   m: nat, i: nat, k: int)
    requires ValidJob(j, t) && Inv(j, t, before, s) && Schedule(j, now) && Schedule(j, ever)
    requires i < |s.workers| && m < |s.workers| && i != m
    requires WillWrite(j, Run(j, t, before, s, now), m, k)
    ensures var u := Run(j, t, before, s, ever); !MayRead(j, u, i, k) && !WillWrite(j, u, i, k)
  {
    var u := Run(j, t, before, s, ever);
    if MayRead(j, u, i, k) || WillWrite(j, u, i, k) {
      TouchesOwnStripe(j, t, before, u, i, k);
      TouchesOwnStripe(j, t, before, Run(j, t, before, s, now), m, k);
      StripesShareNoByte(j, t, i, m, k);
    }
  }

  ghost predicate AllFinished(s: State) {
    forall i | 0 <= i < |s.workers| :: s.workers[i].phase == Finished
  }

  lemma FinishedIsMasked(j: Job, t: Target, before: seq<Byte>, s: State)
    requires ValidJob(j, t) && Covers(j) && Inv(j, t, before, s) && AllFinished(s)
    ensures PictureOf(s.plane, j.dst) == t.masked
  {
    forall y | 0 <= y < j.height ensures PictureOf(s.plane, j.dst)[y] == t.masked[y] {
      assert HasOwner(j, y);
      var i: nat :| InStripe(j, i, y);
      assert ValidStripe(j, t, i) && StripeInv(j, t, s.plane, i, s.workers[i]);
      var row := RowOf(s.plane, j.dst, y);
      forall x: nat | x < j.width ensures row[x] == t.masked[y][x] {
        assert PixelInv(j, t, s.plane, s.workers[i], y, x);
      }
      assert row == t.masked[y];
    }
  }

  // ---------------------------------------------------------------- progress

  /** Pixels worker w still has to blur or combine. */
  function Remaining(width: nat, s: Stripe, w: Worker): int
    requires w.y <= s.hi
  {
    match w.phase
    case PrimeUp => RowStart(2 * width, s.hi - w.y) + 2 * width - w.x
    case PrimeMid => RowStart(2 * width, s.hi - w.y) + width - w.x
    case BlurDown => RowStart(2 * width, s.hi - w.y) - w.x
    case Combine => RowStart(2 * width, s.hi - w.y) - width - w.x
    case Finished => 0
  }

  function Occurrences(schedule: seq<nat>, i: nat): nat {
    if schedule == [] then 0 else (if schedule[0] == i then 1 else 0) + Occurrences(schedule[1..], i)
  }

  /** Where an unfinished worker's cursor can be. */
  predicate CursorOk(width: nat, s: Stripe, w: Worker) {
    w.y <= s.hi && (w.phase != Finished ==> w.x < width) && (w.phase == BlurDown || w.phase == Combine ==> w.y < s.hi)
  }

  lemma NothingLeftIsFinished(width: nat, s: Stripe, w: Worker)
    requires CursorOk(width, s, w)
    ensures Remaining(width, s, w) >= 0 && (Remaining(width, s, w) == 0 <==> w.phase == Finished)
  {
  }

  /** The phase after the last pixel of a row. */
  function NextPhase(s: Stripe, w: Worker): Phase {
    match w.phase
    case PrimeUp => PrimeMid
    case PrimeMid => BlurDown
    case BlurDown => Combine
    case Combine => if w.y + 1 < s.hi then BlurDown else Finished
    case Finished => Finished
  }

  lemma CursorSpendsOne(width: nat, s: Stripe, w: Worker, v: Worker)
    requires CursorOk(width, s, w) && w.phase != Finished
    requires if w.x + 1 < width then v.x == w.x + 1 && v.phase == w.phase && v.y == w.y
             else v.x == 0 && v.phase == NextPhase(s, w) && v.y == w.y + (if w.phase == Combine then 1 else 0)
    requires w.phase == PrimeUp || w.phase == PrimeMid ==> w.y < s.hi
    ensures v.y <= s.hi && Remaining(width, s, v) == Remaining(width, s, w) - 1
  {
  }

  lemma StepMovesCursor(j: Job, t: Target, before: seq<Byte>, s: State, i: nat)
    requires ValidJob(j, t) && Inv(j, t, before, s) && i < |s.workers| && s.workers[i].phase != Finished
    ensures var w, v := s.workers[i], Step(j, t, before, s, i).workers[i];
            if w.x + 1 < j.width then v.x == w.x + 1 && v.phase == w.phase && v.y == w.y
            else v.x == 0 && v.phase == NextPhase(j.stripes[i], w) && v.y == w.y + (if w.phase == Combine then 1 else 0)
  {
    assert ValidStripe(j, t, i) && StripeInv(j, t, s.plane, i, s.workers[i]);
    if s.workers[i].phase != Combine {
      ReadsFrame(j, t, before, s, i);
    }
  }

  lemma InvCursor(j: Job, t: Target, before: seq<Byte>, s: State, i: nat)
    requires ValidJob(j, t) && Inv(j, t, before, s) && i < |s.workers|
    ensures CursorOk(j.width, j.stripes[i], s.workers[i])
    ensures s.workers[i].phase == PrimeUp || s.workers[i].phase == PrimeMid ==> s.workers[i].y < j.stripes[i].hi
  {
    assert ValidStripe(j, t, i) && StripeInv(j, t, s.plane, i, s.workers[i]);
  }

  /** A worker's own turn takes one pixel off what it has left; others' turns take none. */
  lemma StepSpendsOne(j: Job, t: Target, before: seq<Byte>, s: State, k: nat, i: nat)
    requires ValidJob(j, t) && Inv(j, t, before, s) && k < |s.workers| && i < |s.workers|
    ensures s.workers[i].y <= j.stripes[i].hi
    ensures Step(j, t, before, s, k).workers[i].y <= j.stripes[i].hi
    ensures Remaining(j.width, j.stripes[i], Step(j, t, before, s, k).workers[i])
            == Remaining(j.width, j.stripes[i], s.workers[i])
               - (if k == i && s.workers[i].phase != Finished then 1 else 0)
    ensures Remaining(j.width, j.stripes[i], s.workers[i]) >= 0
    ensures Remaining(j.width, j.stripes[i], s.workers[i]) == 0 <==> s.workers[i].phase == Finished
  {
    var w := s.workers[i];
    InvCursor(j, t, before, s, i);
    NothingLeftIsFinished(j.width, j.stripes[i], w);
    if k == i && w.phase != Finished {
      StepMovesCursor(j, t, before, s, i);
      CursorSpendsOne(j.width, j.stripes[i], w, Step(j, t, before, s, i).workers[i]);
    } else {
      OthersStand(j, t, before, s, k, i);
    }
  }

  lemma OthersStand(j: Job, t: Target, before: seq<Byte>, s: State, k: nat, i: nat)
    requires ValidJob(j, t) && Inv(j, t, before, s) && k < |s.workers| && i < |s.workers|
    requires k != i || s.workers[i].phase == Finished
    ensures Step(j, t, before, s, k).workers[i] == s.workers[i]
  {
  }

  lemma {:induction false} RunSpends(j: Job, t: Target, before: seq<Byte>, s: State, schedule: seq<nat>, i: nat)
    requires ValidJob(j, t) && Inv(j, t, before, s) && Schedule(j, schedule) && i < |j.stripes|
    ensures s.workers[i].y <= j.stripes[i].hi
    ensures var s' := Run(j, t, before, s, schedule);
            var left := Remaining(j.width, j.stripes[i], s.workers[i]) - Occurrences(schedule, i);
            && s'.workers[i].y <= j.stripes[i].hi
            && Remaining(j.width, j.stripes[i], s'.workers[i]) == (if left < 0 then 0 else left)
    decreases |schedule|
  {
    StepSpendsOne(j, t, before, s, i, i);
    if schedule != [] {
      StepKeepsInv(j, t, before, s, schedule[0]);
      StepSpendsOne(j, t, before, s, schedule[0], i);
      RunSpends(j, t, before, Step(j, t, before, s, schedule[0]), schedule[1..], i);
    }
  }

  // ------------------------------------------------------------ the pool's job

  /** Row boundaries of consecutive non-empty stripes that cover the height. */
  ghost predicate ValidBounds(bounds: seq<nat>, height: nat) {
    && |bounds| >= 2 && bounds[0] == 0 && bounds[|bounds| - 1] == height
    && forall i, k | 0 <= i < k < |bounds| :: bounds[i] < bounds[k]
  }

  function PoolBounds(n: nat, height: nat): seq<nat>
    requires 0 < n
  {
    seq(n + 1, i requires 0 <= i <= n => UsmPool.StripeStart(i, n, height))
  }

  lemma PoolBoundsAreValid(n: nat, height: nat)
    requires 1 <= n <= height
    ensures ValidBounds(PoolBounds(n, height), height)
  {
    UsmPool.StripeEnds(n, height);
    forall i, k | 0 <= i < k <= n ensures PoolBounds(n, height)[i] < PoolBounds(n, height)[k] {
      UsmPool.StripeInside(i, n, height);
      UsmPool.StripesOrdered(i + 1, k, n, height);
    }
  }

  lemma {:induction false} BoundsCover(bounds: seq<nat>, k: nat, y: nat) returns (i: nat)
    requires k < |bounds| && bounds[0] == 0 && y < bounds[k]
    ensures i < k && bounds[i] <= y < bounds[i + 1]
  {
    if y < bounds[k - 1] {
      i := BoundsCover(bounds, k - 1, y);
    } else {
      i := k - 1;
    }
  }

  /** The stripes between the boundaries, with the rows of the frame next to them. */
  ghost predicate HasStripes(j: Job, pic: Picture, bounds: seq<nat>) {
    && |j.stripes| + 1 == |bounds| && |pic| == j.height
    && forall i | 0 <= i < |j.stripes| ::
         && j.stripes[i].lo == bounds[i] && j.stripes[i].hi == bounds[i + 1]
         && (j.inPlace && 0 < bounds[i] <= |pic| ==> j.stripes[i].haloTop == pic[bounds[i] - 1])
         && (j.inPlace && bounds[i + 1] < |pic| ==> j.stripes[i].haloBot == pic[bounds[i + 1]])
  }

  /** j is the dispatch of a frame on `plane` to n workers of a pool. */
  ghost predicate PoolJob(j: Job, plane: seq<Byte>, n: nat) {
    && j.dst.width == j.src.width == j.width && j.dst.height == j.src.height == j.height
    && j.src.Fits(|j.source|) && j.dst.Fits(|plane|)
    && (j.inPlace ==> j.dst == j.src && plane == j.source)
    && j.amount <= AMOUNT_Q8_MAX && 1 <= n <= j.height
    && HasStripes(j, PictureOf(j.source, j.src), PoolBounds(n, j.height))
  }

  ghost function TargetFor(j: Job): (t: Target)
    requires j.src.Fits(|j.source|)
    ensures t.source == PictureOf(j.source, j.src) && t.masked == Mask(PictureOf(j.source, j.src), j.amount)
    ensures IsTarget(t, j.src.width, j.src.height, j.amount)
  {
    TargetOf(PictureOf(j.source, j.src), j.amount)
  }

  lemma BoundedJobIsValid(j: Job, t: Target, bounds: seq<nat>)
    requires j.dst.width == j.src.width == j.width && j.dst.height == j.src.height == j.height
    requires j.src.Fits(|j.source|) && j.width <= j.dst.stride && (j.inPlace ==> j.dst == j.src)
    requires j.amount <= AMOUNT_Q8_MAX && IsTarget(t, j.width, j.height, j.amount)
             && t.source == PictureOf(j.source, j.src)
    requires ValidBounds(bounds, j.height) && HasStripes(j, t.source, bounds)
    ensures ValidJob(j, t) && Covers(j)
  {
    forall i | 0 <= i < |j.stripes| ensures ValidStripe(j, t, i) {
      assert bounds[i] < bounds[i + 1];
      assert i + 1 < |bounds| - 1 ==> bounds[i + 1] < bounds[|bounds| - 1];
    }
    forall i, k | 0 <= i < k < |j.stripes| ensures j.stripes[i].hi <= j.stripes[k].lo {
      assert i + 1 < k ==> bounds[i + 1] < bounds[k];
    }
    forall y: nat | y < j.height ensures HasOwner(j, y) {
      var i := BoundsCover(bounds, |bounds| - 1, y);
      assert InStripe(j, i, y);
    }
  }

  lemma PoolJobIsValid(j: Job, plane: seq<Byte>, n: nat)
    requires PoolJob(j, plane, n)
    ensures ValidJob(j, TargetFor(j)) && Covers(j) && Inv(j, TargetFor(j), plane, Start(j, plane))
  {
    PoolBoundsAreValid(n, j.height);
    BoundedJobIsValid(j, TargetFor(j), PoolBounds(n, j.height));
    StartInv(j, TargetFor(j), plane);
  }

  /** The frame after the workers have stepped in the order of `schedule`. */
  ghost function PoolRun(j: Job, plane: seq<Byte>, n: nat, schedule: seq<nat>): (s: State)
    requires PoolJob(j, plane, n) && Schedule(j, schedule)
    ensures |s.workers| == n && |s.plane| == |plane|
  {
    PoolJobIsValid(j, plane, n);
    Run(j, TargetFor(j), plane, Start(j, plane), schedule)
  }

  /** Any worker count, any interleaving, in place or not: once every worker has finished,
      the plane shows the whole-plane mask of the frame and no other byte has changed. */
  lemma AnyInterleavingIsMask(j: Job, plane: seq<Byte>, n: nat, schedule: seq<nat>)
    requires PoolJob(j, plane, n) && Schedule(j, schedule)
    requires AllFinished(PoolRun(j, plane, n, schedule))
    ensures var after := PoolRun(j, plane, n, schedule).plane;
            && PictureOf(after, j.dst) == Mask(PictureOf(j.source, j.src), j.amount)
            && forall k | 0 <= k < |plane| && !Visible(j.dst, 0, j.height, k) :: after[k] == plane[k]
  {
    PoolJobIsValid(j, plane, n);
    FinishedIsMasked(j, TargetFor(j), plane, PoolRun(j, plane, n, schedule));
  }

  /** Two priming rows, then two rows of pixels per stripe row. */
  function WorkerSteps(j: Job, i: nat): nat
    requires i < |j.stripes| && j.stripes[i].lo <= j.stripes[i].hi
  {
    2 * j.width + RowStart(2 * j.width, j.stripes[i].hi - j.stripes[i].lo)
  }

  lemma RunFinishes(j: Job, t: Target, before: seq<Byte>, s: State, schedule: seq<nat>, i: nat)
    requires ValidJob(j, t) && Inv(j, t, before, s) && Schedule(j, schedule) && i < |j.stripes|
    ensures s.workers[i].y <= j.stripes[i].hi
    ensures Run(j, t, before, s, schedule).workers[i].phase == Finished
            <==> Occurrences(schedule, i) >= Remaining(j.width, j.stripes[i], s.workers[i])
  {
    RunSpends(j, t, before, s, schedule, i);
    var after := Run(j, t, before, s, schedule);
    InvCursor(j, t, before, after, i);
    NothingLeftIsFinished(j.width, j.stripes[i], after.workers[i]);
  }

  lemma StartSteps(j: Job, plane: seq<Byte>, i: nat)
    requires i < |j.stripes| && j.stripes[i].lo <= j.stripes[i].hi
    ensures Start(j, plane).workers[i].y <= j.stripes[i].hi
    ensures Remaining(j.width, j.stripes[i], Start(j, plane).workers[i]) == WorkerSteps(j, i)
  {
  }

  lemma StripeOrdered(j: Job, t: Target, before: seq<Byte>, s: State, i: nat)
    requires ValidJob(j, t) && Inv(j, t, before, s) && i < |j.stripes|
    ensures j.stripes[i].lo <= j.stripes[i].hi
  {
    assert ValidStripe(j, t, i);
  }

  lemma FinishedAfterTurns(j: Job, t: Target, plane: seq<Byte>, schedule: seq<nat>, i: nat)
    requires ValidJob(j, t) && Inv(j, t, plane, Start(j, plane)) && Schedule(j, schedule) && i < |j.stripes|
    ensures j.stripes[i].lo <= j.stripes[i].hi
    ensures Run(j, t, plane, Start(j, plane), schedule).workers[i].phase == Finished
            <==> Occurrences(schedule, i) >= WorkerSteps(j, i)
  {
    StripeOrdered(j, t, plane, Start(j, plane), i);
    StartSteps(j, plane, i);
    RunFinishes(j, t, plane, Start(j, plane), schedule, i);
  }

  /** No worker ever waits for another: worker i has finished exactly when it has been
      scheduled WorkerSteps times, wherever those turns fall in the schedule. */
  lemma FinishedExactly(j: Job, plane: seq<Byte>, n: nat, schedule: seq<nat>, i: nat)
    requires PoolJob(j, plane, n) && Schedule(j, schedule) && i < n
    ensures j.stripes[i].lo <= j.stripes[i].hi
    ensures PoolRun(j, plane, n, schedule).workers[i].phase == Finished
            <==> Occurrences(schedule, i) >= WorkerSteps(j, i)
  {
    PoolJobIsValid(j, plane, n);
    FinishedAfterTurns(j, TargetFor(j), plane, schedule, i);
  }

  // ------------------------------------------------------- from the pool's own state

  /** The stripe a worker of the pool has been told to run, with what its halo rows hold. */
  ghost function StripeOf(w: UsmSweep.Worker): Stripe
    requires w.base + 5 * w.width <= w.scratch.Length
    reads w, w.scratch
  {
    var top, bot := w.base + 3 * w.width, w.base + 4 * w.width;
    Stripe(w.yStart, w.yEnd, w.scratch[top..top + w.width], w.scratch[bot..bot + w.width])
  }

  ghost predicate SlotsFit(pool: UsmPool.Pool) {
    forall i | 0 <= i < |pool.workers| ::
      pool.workers[i].scratch == pool.scratch && pool.workers[i].base + 5 * pool.workers[i].width <= pool.scratch.Length
  }

  /** The dispatch the pool is about to make, read off its workers and buffers. */
  ghost function JobOf(pool: UsmPool.Pool, dst: array<Byte>, dstStride: nat, src: array<Byte>, srcStride: nat,
                       amount: nat): Job
    requires pool.nThreads <= |pool.workers| && SlotsFit(pool)
    reads pool, pool.workers, pool.scratch, src
  {
    Job(pool.width, pool.height, Geom(dstStride, pool.width, pool.height), Geom(srcStride, pool.width, pool.height),
        dst == src, src[..], amount, StripesOf(pool.workers, pool.nThreads))
  }

  ghost function StripesOf(workers: seq<UsmSweep.Worker>, n: nat): (stripes: seq<Stripe>)
    requires n <= |workers|
    requires forall i | 0 <= i < n :: workers[i].base + 5 * workers[i].width <= workers[i].scratch.Length
    reads workers, set i | 0 <= i < n :: workers[i].scratch
    ensures |stripes| == n && forall i | 0 <= i < n :: stripes[i] == StripeOf(workers[i])
  {
    if n == 0 then [] else StripesOf(workers, n - 1) + [StripeOf(workers[n - 1])]
  }

  lemma ShapeFits(pool: UsmPool.Pool)
    requires pool.Shape()
    ensures SlotsFit(pool)
  {
    forall i: nat | i < |pool.workers|
      ensures pool.workers[i].scratch == pool.scratch
              && pool.workers[i].base + 5 * pool.workers[i].width <= pool.scratch.Length
    {
      pool.SlotInside(i);
      assert pool.workers[i].base == RowStart(5 * pool.width, i) && pool.workers[i].width == pool.width;
    }
  }

  /** In place, a prepared worker's halo rows hold the rows of the frame next to its stripe. */
  lemma HalosAreRows(pool: UsmPool.Pool, i: nat, dst: array<Byte>, stride: nat, amount: nat, t: Target)
    requires pool.Shape() && SlotsFit(pool) && i < |pool.workers|
    requires pool.Told(i, dst, stride, dst, stride, amount) && pool.CanRun(i, t)
    ensures var s := StripeOf(pool.workers[i]);
            && s.hi <= pool.height == |t.source|
            && (0 < s.lo ==> s.haloTop == t.source[s.lo - 1]) && (s.hi < pool.height ==> s.haloBot == t.source[s.hi])
  {
    var w := pool.workers[i];
    if 0 < w.yStart {
      assert Holds(w.SrcRow(w.yStart - 1).buffer, w.SrcRow(w.yStart - 1).offset, t.source[w.yStart - 1]);
    }
    if w.yEnd < pool.height {
      assert Holds(w.SrcRow(w.yEnd).buffer, w.SrcRow(w.yEnd).offset, t.source[w.yEnd]);
    }
  }

  lemma PreparedStripe(pool: UsmPool.Pool, i: nat, dst: array<Byte>, dstStride: nat, src: array<Byte>, srcStride: nat,
                       amount: nat, t: Target)
    requires pool.Partitioned() && SlotsFit(pool) && i < pool.nThreads && |t.source| == pool.height
    requires pool.Told(i, dst, dstStride, src, srcStride, amount) && pool.CanRun(i, t)
    ensures var s := StripeOf(pool.workers[i]);
            var lo := UsmPool.StripeStart(i, pool.nThreads, pool.height);
            var hi := UsmPool.StripeStart(i + 1, pool.nThreads, pool.height);
            && s.lo == lo && s.hi == hi
            && (dst == src && 0 < lo <= pool.height ==> s.haloTop == t.source[lo - 1])
            && (dst == src && hi < pool.height ==> s.haloBot == t.source[hi])
  {
    assert pool.OwnsStripe(i);
    if dst == src {
      HalosAreRows(pool, i, dst, dstStride, amount, t);
    }
  }

  /** A partitioned pool whose workers have been prepared for a frame is about to make a
      dispatch of that frame: its bounds and its snapshots are the right ones. */
  lemma PreparedIsPoolJob(pool: UsmPool.Pool, dst: array<Byte>, dstStride: nat, src: array<Byte>, srcStride: nat,
                          amount: nat, t: Target)
    requires pool.Partitioned() && pool.FrameArgs(dst, dstStride, src, srcStride, amount, t) && SlotsFit(pool)
    requires Shows(src, Geom(srcStride, pool.width, pool.height), t.source)
    requires forall i: nat | i < pool.nThreads ::
               pool.Told(i, dst, dstStride, src, srcStride, amount) && pool.CanRun(i, t)
    ensures var j := JobOf(pool, dst, dstStride, src, srcStride, amount);
            PoolJob(j, dst[..], pool.nThreads) && PictureOf(j.source, j.src) == t.source
  {
    var j := JobOf(pool, dst, dstStride, src, srcStride, amount);
    ShowsIsPictureOf(src, j.src, t.source);
    PreparedStripes(pool, dst, dstStride, src, srcStride, amount, t);
  }

  lemma PreparedStripes(pool: UsmPool.Pool, dst: array<Byte>, dstStride: nat, src: array<Byte>, srcStride: nat,
                        amount: nat, t: Target)
    requires pool.Partitioned() && SlotsFit(pool) && |t.source| == pool.height
    requires forall i: nat | i < pool.nThreads ::
               pool.Told(i, dst, dstStride, src, srcStride, amount) && pool.CanRun(i, t)
    ensures HasStripes(JobOf(pool, dst, dstStride, src, srcStride, amount), t.source,
                       PoolBounds(pool.nThreads, pool.height))
  {
    var j := JobOf(pool, dst, dstStride, src, srcStride, amount);
    var bounds := PoolBounds(pool.nThreads, pool.height);
    forall i: nat | i < |j.stripes|
      ensures j.stripes[i].lo == bounds[i] && j.stripes[i].hi == bounds[i + 1]
      ensures j.inPlace && 0 < bounds[i] <= |t.source| ==> j.stripes[i].haloTop == t.source[bounds[i] - 1]
      ensures j.inPlace && bounds[i + 1] < |t.source| ==> j.stripes[i].haloBot == t.source[bounds[i + 1]]
    {
      assert pool.Told(i, dst, dstStride, src, srcStride, amount) && pool.CanRun(i, t);
      PreparedStripe(pool, i, dst, dstStride, src, srcStride, amount, t);
      assert j.stripes[i] == StripeOf(pool.workers[i]);
    }
  }

  /** After usm_pool_set_per_frame the pool is about to make a dispatch of the frame: what
      AnyInterleavingIsMask asks of the stripes and the snapshots holds. */
  method PrepareDispatch(pool: UsmPool.Pool, dst: array<Byte>, dstStride: nat, src: array<Byte>, srcStride: nat,
                         amount: nat, ghost t: Target)
    requires pool.Partitioned() && pool.FrameArgs(dst, dstStride, src, srcStride, amount, t)
    requires Shows(src, Geom(srcStride, pool.width, pool.height), t.source)
    modifies pool.workers, pool.scratch
    ensures SlotsFit(pool) && pool.nThreads <= |pool.workers|
    ensures var j := JobOf(pool, dst, dstStride, src, srcStride, amount);
            PoolJob(j, dst[..], pool.nThreads) && PictureOf(j.source, j.src) == t.source
  {
    pool.PartitionedIsOrdered();
    pool.SetPerFrame(dst, dstStride, src, srcStride, amount, t);
    forall i: nat | i < pool.nThreads ensures pool.OwnsStripe(i) {
      assert old(pool.OwnsStripe(i));
    }
    ShapeFits(pool);
    PreparedIsPoolJob(pool, dst, dstStride, src, srcStride, amount, t);
  }
}
