/** The pool around the sweep (usm_pool.c): stripe partition, halo snapshots and one
    frame's dispatch, with the workers running to completion in any order. UsmSchedule
    interleaves them pixel by pixel. */
module UsmPool {
  import opened Arith
  import opened Planes
  import opened PlaneCopy
  import opened UsmKernel
  import opened UsmSweep
  import opened ThreadPolicy

  const STRIPE_MIN_ROWS := 8

  /** UP_USM_APPLY_*. */
  datatype Status = Ok | FailedUnchanged | OutputUncertain

  function ResolveThreads(nThreads: int, height: nat, stripeMinRows: int): int {
    var n := if nThreads > THREADS_MAX then THREADS_MAX else nThreads;
    var rows := if stripeMinRows <= 0 then STRIPE_MIN_ROWS else stripeMinRows;
    var maxBySize := if height / rows < 1 then 1 else height / rows;
    if n > maxBySize then maxBySize else n
  }

  /** A created pool has between one and 64 workers, no more than were asked for, and
      more than one only if that leaves every stripe at least the minimum height. */
  lemma ResolvedThreads(nThreads: int, height: nat, stripeMinRows: int)
    requires 1 <= nThreads && 0 < height
    ensures var n := ResolveThreads(nThreads, height, stripeMinRows);
            && 1 <= n <= THREADS_MAX && n <= nThreads && n <= height
            && (n == 1 || (forall i: nat | i < n ::
                  StripeStart(i, n, height) + (if stripeMinRows <= 0 then STRIPE_MIN_ROWS else stripeMinRows)
                    <= StripeStart(i + 1, n, height)))
  {
    var n := ResolveThreads(nThreads, height, stripeMinRows);
    var rows := if stripeMinRows <= 0 then STRIPE_MIN_ROWS else stripeMinRows;
    QuotientFits(height, rows);
    if n > 1 {
      assert n <= height / rows;
      MulMono(n, height / rows, rows);
      forall i: nat | i < n ensures StripeStart(i, n, height) + rows <= StripeStart(i + 1, n, height) {
        StripeTall(i, n, height, rows);
      }
    }
  }

  /** It has the most workers that the request, the limit of 64 and the minimum height of a
      stripe allow. */
  lemma MostThreads(nThreads: int, height: nat, stripeMinRows: int, k: nat)
    requires k <= nThreads && k <= 64 && k * (if stripeMinRows <= 0 then 8 else stripeMinRows) <= height
    ensures k <= ResolveThreads(nThreads, height, stripeMinRows)
  {
    DivAtLeast(height, if stripeMinRows <= 0 then 8 else stripeMinRows, k);
  }

  lemma QuotientFits(height: nat, rows: nat)
    requires 0 < rows
    ensures (height / rows) * rows <= height && height / rows <= height
  {
    DivBounds(height, rows);
    MulMono(1, rows, height / rows);
  }

  /** i * height / n: stripe i is [StripeStart(i), StripeStart(i + 1)). */
  function StripeStart(i: nat, n: nat, height: nat): nat
    requires 0 < n
  {
    Share(i, height, n)
  }

  /** A boundary is its proportional share of the height, rounded down, so any two stripes
      differ by at most one row. */
  lemma StripesAreEven(i: nat, j: nat, n: nat, height: nat)
    requires i < n && j < n
    ensures StripeStart(i, n, height) * n <= i * height < StripeStart(i, n, height) * n + n
    ensures var a, b := StripeStart(i + 1, n, height) - StripeStart(i, n, height),
                        StripeStart(j + 1, n, height) - StripeStart(j, n, height);
            a <= b + 1
  {
    StripeRows(i, n, height);
    StripeRows(j, n, height);
    WithinOne(StripeStart(i + 1, n, height) - StripeStart(i, n, height),
              StripeStart(j + 1, n, height) - StripeStart(j, n, height), n, height);
  }

  lemma WithinOne(a: int, b: int, n: nat, height: nat)
    requires a * n < height + n && height - n < b * n
    ensures a <= b + 1
  {
    if a >= b + 2 {
      MulMono(0, a - b - 2, n);
    }
    assert (a - b - 2) * n == a * n - b * n - 2 * n;
  }

  lemma StripeRows(i: nat, n: nat, height: nat)
    requires i < n
    ensures StripeStart(i, n, height) * n <= i * height < StripeStart(i, n, height) * n + n
    ensures height - n < (StripeStart(i + 1, n, height) - StripeStart(i, n, height)) * n < height + n
  {
    var a, b: int := StripeStart(i, n, height), StripeStart(i + 1, n, height);
    DivBounds(i * height, n);
    DivBounds((i + 1) * height, n);
    assert (i + 1) * height == i * height + height;
    assert (b - a) * n == b * n - a * n;
  }

  lemma StripeTall(i: nat, n: nat, height: nat, rows: nat)
    requires i < n && n * rows <= height
    ensures StripeStart(i, n, height) + rows <= StripeStart(i + 1, n, height)
  {
    var q := i * height / n;
    DivBounds(i * height, n);
    assert (i + 1) * height == i * height + height;
    assert (q + rows) * n == q * n + n * rows;
    DivAtLeast((i + 1) * height, n, q + rows);
  }

  lemma StripeEnds(n: nat, height: nat)
    requires 0 < n
    ensures StripeStart(0, n, height) == 0 && StripeStart(n, n, height) == height
  {
    assert n * height == height * n;
    DivUnique(n * height, n, height);
  }

  /** With no more stripes than rows, no stripe is empty. */
  lemma StripeInside(i: nat, n: nat, height: nat)
    requires i < n <= height
    ensures StripeStart(i, n, height) < StripeStart(i + 1, n, height) <= height
  {
    StripeTall(i, n, height, 1);
    StripeEnds(n, height);
    StripesOrdered(i + 1, n, n, height);
  }

  lemma StripesOrdered(i: nat, j: nat, n: nat, height: nat)
    requires 0 < n && i <= j
    ensures StripeStart(i, n, height) <= StripeStart(j, n, height)
  {
    MulMono(i, j, height);
    DivMono(i * height, j * height, n);
  }

  predicate UseBiasedRounding(width: int, height: int, workers: int) {
    && workers > 0
    && ((width == 1280 && height == 720 && workers <= 8) || (width == 1920 && height == 1080 && workers <= 12))
  }

  /** usm_pool_s with the slots that hold a live worker. */
  class Pool {
    const width: nat
    const height: nat
    const scratch: array<Byte>
    const workers: seq<Worker>
    var nThreads: nat

    /** Slots are distinct, of the pool's geometry, and own five consecutive rows each of
        the one scratch block. */
    ghost predicate Shape() {
      && 0 < width && 0 < height
      && RowStart(5 * width, |workers|) <= scratch.Length
      && (forall i | 0 <= i < |workers| ::
            && workers[i].width == width && workers[i].height == height
            && workers[i].scratch == scratch && workers[i].base == RowStart(5 * width, i))
      && (forall i, j | 0 <= i < j < |workers| :: workers[i] != workers[j])
    }

    /** Worker i owns stripe i of nThreads. */
    ghost predicate Partitioned()
      reads this, workers
    {
      && Shape() && 1 <= nThreads <= |workers| && nThreads <= height
      && forall i: nat | i < nThreads :: OwnsStripe(i)
    }

    ghost predicate OwnsStripe(i: nat)
      requires 1 <= nThreads <= |workers| && i < nThreads
      reads this, workers
    {
      && workers[i].yStart == StripeStart(i, nThreads, height)
      && workers[i].yEnd == StripeStart(i + 1, nThreads, height)
    }

    constructor (nWorkers: nat, width: nat, height: nat)
      requires 0 < nWorkers <= height && 0 < width
      ensures Partitioned() && nThreads == nWorkers == |workers|
      ensures this.width == width && this.height == height
      ensures fresh(scratch) && forall w | w in workers :: fresh(w)
    {
      this.width, this.height, nThreads := width, height, nWorkers;
      var block := new Byte[nWorkers * (5 * width)];
      var slots := MakeSlots(block, nWorkers, width, height);
      scratch, workers := block, slots;
      new;
      RowStartIsProduct(5 * width, nWorkers);
      Repartition(nWorkers);
    }

    static method MakeSlots(block: array<Byte>, n: nat, width: nat, height: nat) returns (slots: seq<Worker>)
      ensures |slots| == n && forall w | w in slots :: fresh(w)
      ensures forall i, j | 0 <= i < j < n :: slots[i] != slots[j]
      ensures forall i | 0 <= i < n ::
                && slots[i].width == width && slots[i].height == height
                && slots[i].scratch == block && slots[i].base == RowStart(5 * width, i)
    {
      slots := [];
      for i := 0 to n
        invariant |slots| == i && forall w | w in slots :: fresh(w)
        invariant forall j, k | 0 <= j < k < i :: slots[j] != slots[k]
        invariant forall k | 0 <= k < i ::
                    && slots[k].width == width && slots[k].height == height
                    && slots[k].scratch == block && slots[k].base == RowStart(5 * width, k)
      {
        var w := new Worker(block, RowStart(5 * width, i), width, height);
        slots := slots + [w];
      }
    }

    /** Divide the height over the first n workers. */
    method Repartition(n: nat)
      requires Shape() && 1 <= n <= |workers| && n <= height
      modifies this, workers
      ensures Partitioned() && nThreads == n
      ensures forall i | 0 <= i < n :: workers[i].biased == UseBiasedRounding(width, height, n)
    {
      nThreads := n;
      for i := 0 to n
        invariant nThreads == n
        invariant forall k: nat | k < i :: OwnsStripe(k) && workers[k].biased == UseBiasedRounding(width, height, n)
      {
        StripeEnds(n, height);
        workers[i].yStart := i * height / n;
        workers[i].yEnd := if i == n - 1 then height else (i + 1) * height / n;
        workers[i].biased := UseBiasedRounding(width, height, n);
      }
    }

    // ------------------------------------------------------------- one frame

    /** The pictures and the settings one frame hands to every worker. */
    ghost predicate FrameArgs(dst: array<Byte>, dstStride: nat, src: array<Byte>, srcStride: nat, amount: nat,
                              t: Target)
      reads this
    {
      && Geom(srcStride, width, height).Fits(src.Length) && Geom(dstStride, width, height).Fits(dst.Length)
      && scratch != src && scratch != dst && (dst == src ==> dstStride == srcStride)
      && amount <= AMOUNT_Q8_MAX && IsTarget(t, width, height, amount)
    }

    ghost predicate Told(i: nat, dst: array<Byte>, dstStride: nat, src: array<Byte>, srcStride: nat, amount: nat)
      requires Shape() && i < |workers|
      reads this, workers
    {
      && workers[i].src == src && workers[i].dst == dst
      && workers[i].srcStride == srcStride && workers[i].dstStride == dstStride && workers[i].amountQ8 == amount
      && (dst == src && 0 < workers[i].yStart ==> workers[i].haloTop)
      && (dst == src && workers[i].yEnd < height ==> workers[i].haloBot)
    }

    /** Worker i can still run: every row it will read is a row of the frame. */
    ghost predicate CanRun(i: nat, t: Target)
      requires Shape() && i < |workers|
      reads this, workers, scratch, workers[i].src
    {
      && workers[i].Valid() && IsTarget(t, width, height, workers[i].amountQ8)
      && workers[i].Ready(t, if workers[i].yStart > 0 then workers[i].yStart - 1 else 0)
    }

    ghost predicate HasRun(i: nat, t: Target)
      requires Shape() && i < |workers|
      reads this, workers, workers[i].dst
    {
      && workers[i].Valid() && IsTarget(t, width, height, workers[i].amountQ8)
      && workers[i].RowsDone(t, workers[i].yEnd)
    }

    /** Point worker i at the frame; in place, snapshot the two rows its neighbours
        will overwrite. */
    method PrepareWorker(i: nat, dst: array<Byte>, dstStride: nat, src: array<Byte>, srcStride: nat, amount: nat,
                         ghost t: Target)
      requires Shape() && i < |workers| && workers[i].yStart < workers[i].yEnd <= height
      requires FrameArgs(dst, dstStride, src, srcStride, amount, t)
      requires Shows(src, Geom(srcStride, width, height), t.source)
      modifies workers[i], scratch
      ensures workers[i].yStart == old(workers[i].yStart) && workers[i].yEnd == old(workers[i].yEnd)
      ensures workers[i].biased == old(workers[i].biased)
      ensures Told(i, dst, dstStride, src, srcStride, amount) && CanRun(i, t)
      ensures OnlySlot(i)
    {
      SlotInside(i);
      var w := workers[i];
      w.src, w.srcStride, w.dst, w.dstStride, w.amountQ8 := src, srcStride, dst, dstStride, amount;
      w.haloTop, w.haloBot := false, false;
      if dst == src {
        SnapshotHalo(w, t);
      }
      assert Shows(src, Geom(srcStride, width, height), t.source);
      PreparedCanRun(i, t);
    }

    /** Nothing outside slot i changed in the scratch block. */
    twostate predicate OnlySlot(i: nat)
      reads scratch
    {
      forall k | 0 <= k < scratch.Length && !(RowStart(5 * width, i) <= k < RowStart(5 * width, i) + 5 * width) ::
        scratch[k] == old(scratch[k])
    }

    lemma PreparedCanRun(i: nat, t: Target)
      requires Shape() && i < |workers| && workers[i].Valid() && IsTarget(t, width, height, workers[i].amountQ8)
      requires Shows(workers[i].src, Geom(workers[i].srcStride, width, height), t.source)
      requires workers[i].haloTop ==>
                 workers[i].yStart > 0 && Holds(scratch, workers[i].base + 3 * width, t.source[workers[i].yStart - 1])
      requires workers[i].haloBot ==>
                 workers[i].yEnd < height && Holds(scratch, workers[i].base + 4 * width, t.source[workers[i].yEnd])
      ensures CanRun(i, t)
    {
      var w := workers[i];
      forall y: nat | (if w.yStart > 0 then w.yStart - 1 else 0) <= y <= w.yEnd && y < height
        ensures Holds(w.SrcRow(y).buffer, w.SrcRow(y).offset, t.source[y])
      {
        assert Holds(w.src, RowStart(w.srcStride, y), t.source[y]);
      }
    }

    /** Rows yStart - 1 and yEnd of the plane into the worker's fourth and fifth rows. */
    method SnapshotHalo(w: Worker, ghost t: Target)
      requires w.Valid() && w.scratch == scratch && w.width == width && w.height == height
      requires IsTarget(t, width, height, w.amountQ8) && Shows(w.src, Geom(w.srcStride, width, height), t.source)
      requires !w.haloTop && !w.haloBot
      modifies w`haloTop, w`haloBot, scratch
      ensures w.haloTop == (w.yStart > 0) && w.haloBot == (w.yEnd < height)
      ensures w.haloTop ==> Holds(scratch, w.base + 3 * width, t.source[w.yStart - 1])
      ensures w.haloBot ==> Holds(scratch, w.base + 4 * width, t.source[w.yEnd])
      ensures forall k | 0 <= k < scratch.Length && !(w.base + 3 * width <= k < w.base + 5 * width) ::
                scratch[k] == old(scratch[k])
    {
      if w.yStart > 0 {
        SaveRow(w, w.base + 3 * width, w.yStart - 1, t);
        w.haloTop := true;
      }
      if w.yEnd < height {
        SaveRow(w, w.base + 4 * width, w.yEnd, t);
        w.haloBot := true;
      }
    }

    /** Row y of the worker's source into the scratch row at off. */
    method SaveRow(w: Worker, off: nat, y: nat, ghost t: Target)
      requires w.src != scratch && w.width == width && w.height == height && y < height
      requires Geom(w.srcStride, width, height).Fits(w.src.Length) && off + width <= scratch.Length
      requires Sized(t.source, width, height) && Shows(w.src, Geom(w.srcStride, width, height), t.source)
      modifies scratch
      ensures Holds(scratch, off, t.source[y])
      ensures forall k | 0 <= k < scratch.Length && !(off <= k < off + width) :: scratch[k] == old(scratch[k])
    {
      assert Holds(w.src, RowStart(w.srcStride, y), t.source[y]);
      CopyBytes(scratch, off, w.src, RowStart(w.srcStride, y), width);
    }

    lemma SlotInside(i: nat)
      requires Shape() && i < |workers|
      ensures RowStart(5 * width, i) + 5 * width <= scratch.Length
    {
      RowsApart(5 * width, i, |workers|);
    }

    /** Stripes in ascending order, none empty, none overlapping. */
    ghost predicate Ordered()
      reads this, workers
    {
      && Shape() && 1 <= nThreads <= |workers|
      && (forall i | 0 <= i < nThreads :: workers[i].yStart < workers[i].yEnd <= height)
      && (forall i, j | 0 <= i < j < nThreads :: workers[i].yEnd <= workers[j].yStart)
    }

    lemma PartitionedIsOrdered()
      requires Partitioned()
      ensures Ordered()
    {
      forall i | 0 <= i < nThreads ensures workers[i].yStart < workers[i].yEnd <= height {
        assert OwnsStripe(i);
        StripeInside(i, nThreads, height);
      }
      forall i, j | 0 <= i < j < nThreads ensures workers[i].yEnd <= workers[j].yStart {
        assert OwnsStripe(i) && OwnsStripe(j);
        StripesOrdered(i + 1, j, nThreads, height);
      }
    }

    /** usm_pool_set_per_frame. */
    method SetPerFrame(dst: array<Byte>, dstStride: nat, src: array<Byte>, srcStride: nat, amount: nat, ghost t: Target)
      requires Ordered() && FrameArgs(dst, dstStride, src, srcStride, amount, t)
      requires Shows(src, Geom(srcStride, width, height), t.source)
      modifies workers, scratch
      ensures Ordered()
      ensures forall i: nat | i < |workers| ::
              workers[i].yStart == old(workers[i].yStart) && workers[i].yEnd == old(workers[i].yEnd)
      ensures forall i: nat | i < nThreads :: Told(i, dst, dstStride, src, srcStride, amount) && CanRun(i, t)
    {
      for i := 0 to nThreads
        invariant Shows(src, Geom(srcStride, width, height), t.source)
        invariant forall k: nat | k < |workers| ::
                    workers[k].yStart == old(workers[k].yStart) && workers[k].yEnd == old(workers[k].yEnd)
        invariant forall k: nat | k < i :: Told(k, dst, dstStride, src, srcStride, amount) && CanRun(k, t)
      {
        PrepareNext(i, dst, dstStride, src, srcStride, amount, t);
      }
    }

    /** Preparing worker i leaves the workers before it ready. */
    method PrepareNext(i: nat, dst: array<Byte>, dstStride: nat, src: array<Byte>, srcStride: nat, amount: nat,
                       ghost t: Target)
      requires Shape() && i < |workers| && workers[i].yStart < workers[i].yEnd <= height
      requires FrameArgs(dst, dstStride, src, srcStride, amount, t)
      requires Shows(src, Geom(srcStride, width, height), t.source)
      requires forall k: nat | k < i :: Told(k, dst, dstStride, src, srcStride, amount) && CanRun(k, t)
      modifies workers[i], scratch
      ensures workers[i].yStart == old(workers[i].yStart) && workers[i].yEnd == old(workers[i].yEnd)
      ensures forall k: nat | k < i + 1 :: Told(k, dst, dstStride, src, srcStride, amount) && CanRun(k, t)
    {
      PrepareWorker(i, dst, dstStride, src, srcStride, amount, t);
      forall k: nat | k < i ensures Told(k, dst, dstStride, src, srcStride, amount) && CanRun(k, t) {
        var w := workers[k];
        assert w != workers[i];
        SlotsApart(k, i);
        assert old(CanRun(k, t));
        forall y: nat | (if w.yStart > 0 then w.yStart - 1 else 0) <= y <= w.yEnd && y < height
          ensures Holds(w.SrcRow(y).buffer, w.SrcRow(y).offset, t.source[y])
        {
          assert old(Holds(w.SrcRow(y).buffer, w.SrcRow(y).offset, t.source[y]));
        }
      }
    }

    /** The workers in `done` have finished their stripe of the frame, the others can run. */
    ghost predicate Progress(done: set<nat>, dst: array<Byte>, dstStride: nat, src: array<Byte>, srcStride: nat,
                             amount: nat, t: Target)
      reads this, workers, scratch, dst, src
    {
      && Ordered() && FrameArgs(dst, dstStride, src, srcStride, amount, t)
      && forall i: nat | i < nThreads ::
           && Told(i, dst, dstStride, src, srcStride, amount)
           && if i in done then HasRun(i, t) else CanRun(i, t)
    }

    /** Running worker j finishes its stripe and keeps every row outside it. */
    method RunStripe(j: nat, ghost t: Target)
      requires Shape() && j < |workers| && CanRun(j, t)
      modifies workers[j].scratch, workers[j].dst
      ensures HasRun(j, t)
      ensures forall off: nat, row: seq<Byte> | |row| == width && old(Holds(workers[j].scratch, off, row))
                && (off + width <= workers[j].base || workers[j].base + 3 * width <= off) ::
                Holds(workers[j].scratch, off, row)
      ensures forall z: nat, row: seq<Byte> | !(workers[j].yStart <= z < workers[j].yEnd) && |row| == width
                && old(Holds(workers[j].dst, RowStart(workers[j].dstStride, z), row)) ::
                Holds(workers[j].dst, RowStart(workers[j].dstStride, z), row)
      ensures forall k | 0 <= k < workers[j].dst.Length
              && !Visible(Geom(workers[j].dstStride, width, height), 0, height, k) ::
                workers[j].dst[k] == old(workers[j].dst[k])
    {
      var w := workers[j];
      ghost var g := Geom(w.dstStride, width, height);
      w.Run(t);
      forall z: nat, row: seq<Byte> | !(w.yStart <= z < w.yEnd) && |row| == width
        && old(Holds(w.dst, RowStart(w.dstStride, z), row))
        ensures Holds(w.dst, RowStart(w.dstStride, z), row)
      {
        RowUntouched(g, w.yStart, w.yEnd, z);
      }
      VisibleMono(g, w.yStart, w.yEnd, height);
    }

    /** One worker runs to completion while the others wait or have finished. */
    method RunOne(j: nat, ghost done: set<nat>, dst: array<Byte>, dstStride: nat, src: array<Byte>, srcStride: nat,
                  amount: nat, ghost t: Target)
      requires Progress(done, dst, dstStride, src, srcStride, amount, t)
      requires j < nThreads && j !in done
      modifies scratch, dst
      ensures Progress(done + {j}, dst, dstStride, src, srcStride, amount, t)
      ensures forall k | 0 <= k < dst.Length && !Visible(Geom(dstStride, width, height), 0, height, k) ::
              dst[k] == old(dst[k])
    {
      assert Told(j, dst, dstStride, src, srcStride, amount) && CanRun(j, t);
      RunStripe(j, t);
      forall i: nat | i < nThreads && i != j && i in done ensures HasRun(i, t) {
        assert old(Told(i, dst, dstStride, src, srcStride, amount) && HasRun(i, t));
        forall z: nat | workers[i].yStart <= z < workers[i].yEnd
          ensures Holds(dst, RowStart(dstStride, z), t.masked[z]) {
          assert old(Holds(dst, RowStart(dstStride, z), t.masked[z]));
        }
      }
      forall i: nat | i < nThreads && i != j && i !in done ensures CanRun(i, t) {
        var w := workers[i];
        assert old(Told(i, dst, dstStride, src, srcStride, amount) && CanRun(i, t));
        SlotsApart(i, j);
        forall y: nat | (if w.yStart > 0 then w.yStart - 1 else 0) <= y <= w.yEnd && y < height
          ensures Holds(w.SrcRow(y).buffer, w.SrcRow(y).offset, t.source[y])
        {
          assert old(Holds(w.SrcRow(y).buffer, w.SrcRow(y).offset, t.source[y]));
        }
      }
    }

    /** `order` names each of the n workers exactly once. */
    ghost predicate IsOrder(order: seq<nat>)
      reads this
    {
      && (forall i: nat | i < nThreads :: i in order)
      && (forall k | 0 <= k < |order| :: order[k] < nThreads)
      && (forall j, k | 0 <= j < k < |order| :: order[j] != order[k])
    }

    /** No worker twice. */
    ghost predicate Distinct(order: seq<nat>)
      reads this
    {
      && (forall k | 0 <= k < |order| :: order[k] < nThreads)
      && (forall j, k | 0 <= j < k < |order| :: order[j] != order[k])
    }

    ghost function Ran(order: seq<nat>): set<nat> {
      set k | 0 <= k < |order| :: order[k]
    }

    /** The callbacks of these workers run to completion, one after the other. */
    method RunInOrder(order: seq<nat>, dst: array<Byte>, dstStride: nat, src: array<Byte>, srcStride: nat,
                      amount: nat, ghost t: Target)
      requires Distinct(order) && Progress({}, dst, dstStride, src, srcStride, amount, t)
      modifies scratch, dst
      ensures Progress(Ran(order), dst, dstStride, src, srcStride, amount, t)
      ensures forall k | 0 <= k < dst.Length && !Visible(Geom(dstStride, width, height), 0, height, k) ::
                dst[k] == old(dst[k])
    {
      ghost var done: set<nat> := {};
      for k := 0 to |order|
        invariant done == set j | 0 <= j < k :: order[j]
        invariant Progress(done, dst, dstStride, src, srcStride, amount, t)
        invariant forall i | 0 <= i < dst.Length && !Visible(Geom(dstStride, width, height), 0, height, i) ::
                    dst[i] == old(dst[i])
      {
        RunOne(order[k], done, dst, dstStride, src, srcStride, amount, t);
        done := done + {order[k]};
      }
      assert done == Ran(order);
    }

    /** One dispatch, the workers completing in whatever order. A gate that reports success
        has run them all; after a failure the callbacks that ran are as many as `order` says. */
    method Dispatch(order: seq<nat>, gateOk: bool, dst: array<Byte>, dstStride: nat, src: array<Byte>, srcStride: nat,
                    amount: nat, ghost t: Target)
      requires Partitioned() && Distinct(order) && (gateOk ==> IsOrder(order))
      requires Progress({}, dst, dstStride, src, srcStride, amount, t)
      modifies scratch, dst
      ensures gateOk ==> Shows(dst, Geom(dstStride, width, height), t.masked)
      ensures Progress(Ran(order), dst, dstStride, src, srcStride, amount, t)
      ensures forall k | 0 <= k < dst.Length && !Visible(Geom(dstStride, width, height), 0, height, k) ::
                dst[k] == old(dst[k])
    {
      RunInOrder(order, dst, dstStride, src, srcStride, amount, t);
      if gateOk {
        forall i: nat | i < nThreads ensures i in Ran(order) {
          assert i in order;
        }
        AllRowsMasked(Ran(order), dst, dstStride, src, srcStride, amount, t);
      }
    }

    /** The stripes leave no row out. */
    lemma AllRowsMasked(done: set<nat>, dst: array<Byte>, dstStride: nat, src: array<Byte>, srcStride: nat,
                        amount: nat, t: Target)
      requires Partitioned() && Progress(done, dst, dstStride, src, srcStride, amount, t)
      requires forall i: nat | i < nThreads :: i in done
      ensures Shows(dst, Geom(dstStride, width, height), t.masked)
    {
      forall y: nat | y < height ensures Holds(dst, RowStart(dstStride, y), t.masked[y]) {
        StripeEnds(nThreads, height);
        var i := StripeOfRow(y, nThreads, nThreads, height);
        assert OwnsStripe(i);
        assert Told(i, dst, dstStride, src, srcStride, amount) && HasRun(i, t);
      }
    }

    /** What up_usm_pool_apply checks before it touches a buffer. */
    predicate ArgsOk(dst: array?<Byte>, dstStride: int, src: array?<Byte>, srcStride: int) {
      && dst != null && src != null && width <= dstStride && width <= srcStride
      && (dst == src ==> dstStride == srcStride)
    }

    /** What becomes of a call, given whether the pool is broken, comes up and completes. */
    function StatusOf(argsOk: bool, broken: bool, started: bool, gateOk: bool, amountQ8: int): Status {
      if !argsOk || broken then FailedUnchanged
      else if amountQ8 <= 0 then Ok
      else if !started then FailedUnchanged
      else if gateOk then Ok else OutputUncertain
    }

    /** The mask the call asks for, of the source as it is now. */
    ghost function Wanted(src: array<Byte>, srcStride: nat, amountQ8: int): Picture
      requires Geom(srcStride, width, height).Fits(src.Length)
      reads src
    {
      var pic := PictureOf(src[..], Geom(srcStride, width, height));
      if amountQ8 <= 0 then pic else Mask(pic, ClampAmount(amountQ8))
    }

    /** The stripes of these workers show their rows of pic. */
    ghost predicate StripesShow(dst: array<Byte>, dstStride: nat, pic: Picture, order: seq<nat>)
      reads this, workers, dst
    {
      forall i: nat, y: nat | i in order && i < |workers| && workers[i].yStart <= y < workers[i].yEnd && y < |pic| ::
        Holds(dst, RowStart(dstStride, y), pic[y])
    }

    /** up_usm_pool_apply. `broken`, `started` and `gateOk` are the pool's poison flag, the
        outcome of its lazy start, and the gate's verdict; `order` are the callbacks that ran.
        Whatever the worker count and the order of completion, in place or not, a call that
        succeeds leaves the whole-picture mask of the source as it was before the call. A
        call that fails says whether it has left the destination alone; if not, the stripes
        that did run are final. Padding is never touched. */
    method Apply(dst: array?<Byte>, dstStride: int, src: array?<Byte>, srcStride: int, amountQ8: int,
                 broken: bool, started: bool, gateOk: bool, order: seq<nat>)
      returns (status: Status)
      requires Partitioned() && Distinct(order) && (gateOk ==> IsOrder(order))
      requires dst != scratch && src != scratch
      requires ArgsOk(dst, dstStride, src, srcStride) ==>
                 Geom(srcStride, width, height).Fits(src.Length) && Geom(dstStride, width, height).Fits(dst.Length)
      modifies workers, scratch, dst
      ensures status == StatusOf(ArgsOk(dst, dstStride, src, srcStride), broken, started, gateOk, amountQ8)
      ensures dst != null && src != null && width <= dstStride && width <= srcStride
              && (dst == src ==> dstStride == srcStride) && !broken ==>
                && (status == Ok <==> amountQ8 <= 0 || (started && gateOk))
                && (status == OutputUncertain <==> amountQ8 > 0 && started && !gateOk)
      ensures status == FailedUnchanged && dst != null ==> unchanged(dst)
      ensures status == Ok ==>
                PictureOf(dst[..], Geom(dstStride, width, height)) == old(Wanted(src, srcStride, amountQ8))
      ensures status == OutputUncertain ==> StripesShow(dst, dstStride, old(Wanted(src, srcStride, amountQ8)), order)
      ensures status != FailedUnchanged ==>
                forall k | 0 <= k < dst.Length && !Visible(Geom(dstStride, width, height), 0, height, k) ::
                  dst[k] == old(dst[k])
      ensures src != null && src != dst ==> unchanged(src)
    {
      if !ArgsOk(dst, dstStride, src, srcStride) { return FailedUnchanged; }
      if broken { return FailedUnchanged; }
      ghost var pic := PictureOf(src[..], Geom(srcStride, width, height));
      ShowsPictureOf(src, Geom(srcStride, width, height));
      var amount := ClampAmount(amountQ8);
      if amount == 0 {
        ApplyIdentity(dst, dstStride, src, srcStride, width, height, pic);
        return Ok;
      }
      if !started { return FailedUnchanged; }
      Sharpen(dst, dstStride, src, srcStride, amount, gateOk, order, pic);
      return if gateOk then Ok else OutputUncertain;
    }

    /** The threaded part of up_usm_pool_apply. */
    method Sharpen(dst: array<Byte>, dstStride: nat, src: array<Byte>, srcStride: nat, amount: nat, gateOk: bool,
                   order: seq<nat>, ghost pic: Picture)
      requires Partitioned() && Distinct(order) && (gateOk ==> IsOrder(order))
      requires dst != scratch && src != scratch && (dst == src ==>
               dstStride == srcStride) && 0 < amount <= AMOUNT_Q8_MAX
      requires Geom(srcStride, width, height).Fits(src.Length) && Geom(dstStride, width, height).Fits(dst.Length)
      requires Shows(src, Geom(srcStride, width, height), pic)
      modifies workers, scratch, dst
      ensures gateOk ==> PictureOf(dst[..], Geom(dstStride, width, height)) == Mask(pic, amount)
      ensures StripesShow(dst, dstStride, Mask(pic, amount), order)
      ensures forall k | 0 <= k < dst.Length && !Visible(Geom(dstStride, width, height), 0, height, k) ::
                dst[k] == old(dst[k])
    {
      ghost var t := TargetOf(pic, amount);
      PartitionedIsOrdered();
      SetPerFrame(dst, dstStride, src, srcStride, amount, t);
      assert Partitioned() by {
        forall i: nat | i < nThreads ensures OwnsStripe(i) { assert old(OwnsStripe(i)); }
      }
      Dispatch(order, gateOk, dst, dstStride, src, srcStride, amount, t);
      if gateOk {
        ShowsIsPictureOf(dst, Geom(dstStride, width, height), t.masked);
      }
      RanStripesShow(dst, dstStride, src, srcStride, amount, t, order);
    }

    lemma RanStripesShow(dst: array<Byte>, dstStride: nat, src: array<Byte>, srcStride: nat, amount: nat, t: Target,
                         order: seq<nat>)
      requires Distinct(order) && Progress(Ran(order), dst, dstStride, src, srcStride, amount, t)
      ensures StripesShow(dst, dstStride, t.masked, order)
    {
      forall i: nat, y: nat | i in order && i < |workers| && workers[i].yStart <= y < workers[i].yEnd && y < |t.masked|
        ensures Holds(dst, RowStart(dstStride, y), t.masked[y])
      {
        var k :| 0 <= k < |order| && order[k] == i;
        assert i in Ran(order) && Told(i, dst, dstStride, src, srcStride, amount) && HasRun(i, t);
      }
    }

    lemma SlotsApart(i: nat, j: nat)
      requires i != j
      ensures || RowStart(5 * width, i) + 5 * width <= RowStart(5 * width, j)
              || RowStart(5 * width, j) + 5 * width <= RowStart(5 * width, i)
    {
      if i < j {
        RowsApart(5 * width, i, j);
      } else {
        RowsApart(5 * width, j, i);
      }
    }
  }

  lemma {:induction false} StripeOfRow(y: nat, k: nat, n: nat, height: nat) returns (i: nat)
    requires 0 < n && y < StripeStart(k, n, height) && StripeStart(0, n, height) == 0
    ensures i < k && StripeStart(i, n, height) <= y < StripeStart(i + 1, n, height)
  {
    if y < StripeStart(k - 1, n, height) {
      i := StripeOfRow(y, k - 1, n, height);
    } else {
      i := k - 1;
    }
  }

  lemma VisibleMono(g: Geom, lo: nat, hi: nat, height: nat)
    requires hi <= height
    ensures forall k | Visible(g, lo, hi, k) :: Visible(g, 0, height, k)
  {
  }

  /** A row outside lo..hi has no byte in a row of lo..hi. */
  lemma RowUntouched(g: Geom, lo: nat, hi: nat, z: nat)
    requires 0 < g.width <= g.stride && !(lo <= z < hi)
    ensures forall k | RowStart(g.stride, z) <= k < RowStart(g.stride, z) + g.width :: !Visible(g, lo, hi, k)
  {
    forall k | RowStart(g.stride, z) <= k < RowStart(g.stride, z) + g.width ensures !Visible(g, lo, hi, k) {
      forall y | lo <= y < hi ensures !(RowStart(g.stride, y) <= k < RowStart(g.stride, y) + g.width) {
        if y < z {
          RowsApart(g.stride, y, z);
        } else {
          RowsApart(g.stride, z, y);
        }
      }
    }
  }
}
