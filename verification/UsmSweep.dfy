/** One worker of the threaded unsharp mask (usm_pool.c): a fused sweep over a row
    stripe with three rotating blur rows and two snapshotted halo rows. */
module UsmSweep {
  import opened Planes
  import opened UsmKernel

  /** A C pointer into a byte buffer. */
  datatype Pointer = At(buffer: array<Byte>, offset: nat)

  /** usm_worker_t. `base` is where this worker's five rows start in the pool's shared
      scratch block; a halo flag stands for the corresponding non-null pointer. */
  class Worker {
    const width: nat
    const height: nat
    const scratch: array<Byte>
    const base: nat
    var yStart: nat
    var yEnd: nat
    var src: array<Byte>
    var dst: array<Byte>
    var srcStride: nat
    var dstStride: nat
    var amountQ8: nat
    var biased: bool
    var haloTop: bool
    var haloBot: bool

    constructor (scratch: array<Byte>, base: nat, width: nat, height: nat)
      ensures this.scratch == scratch && this.base == base && this.width == width && this.height == height
      ensures !haloTop && !haloBot
    {
      this.scratch, this.base, this.width, this.height := scratch, base, width, height;
      yStart, yEnd := 0, 0;
      src, dst, srcStride, dstStride := scratch, scratch, 0, 0;
      amountQ8, biased, haloTop, haloBot := 0, false, false, false;
    }

    ghost predicate Valid()
      reads this
    {
      && base + 5 * width <= scratch.Length
      && yStart < yEnd <= height
      && Geom(srcStride, width, height).Fits(src.Length)
      && Geom(dstStride, width, height).Fits(dst.Length)
      && scratch != src && scratch != dst
      && (src == dst ==> srcStride == dstStride)
      && amountQ8 <= AMOUNT_Q8_MAX
    }

    /** Where the blur of row y reads: the halo snapshot for the two rows a neighbour
        may be overwriting, the plane itself for every other row. */
    function SrcRow(y: nat): (p: Pointer)
      reads this
    {
      if haloTop && y == yStart - 1 then At(scratch, base + 3 * width)
      else if haloBot && y == yEnd then At(scratch, base + 4 * width)
      else At(src, RowStart(srcStride, y))
    }

    /** Every source row from `from` on that the sweep still reads is a row of the frame. */
    ghost predicate Ready(t: Target, from: nat)
      requires IsTarget(t, width, height, amountQ8)
      reads this, src, scratch
    {
      forall y: nat | from <= y <= yEnd && y < height :: Holds(SrcRow(y).buffer, SrcRow(y).offset, t.source[y])
    }

    /** Rows yStart..y of the destination are finished. */
    ghost predicate RowsDone(t: Target, y: nat)
      requires IsTarget(t, width, height, amountQ8) && y <= height
      reads this, dst
    {
      forall z: nat | yStart <= z < y :: Holds(dst, RowStart(dstStride, z), t.masked[z])
    }

    /** The three rolling rows are a rotation of the first three scratch rows. */
    ghost predicate Slots(up: nat, mid: nat, dn: nat) {
      || (up == base && mid == base + width && dn == base + 2 * width)
      || (up == base + width && mid == base + 2 * width && dn == base)
      || (up == base + 2 * width && mid == base && dn == base + width)
    }

    /** Nothing outside the three rolling rows changed in the scratch block. */
    twostate predicate OnlyRolled()
      reads scratch
    {
      forall k | 0 <= k < scratch.Length && !(base <= k < base + 3 * width) :: scratch[k] == old(scratch[k])
    }

    method BlurInto(slot: nat, y: nat, ghost t: Target)
      requires Valid() && IsTarget(t, width, height, amountQ8) && y < height
      requires slot == base || slot == base + width || slot == base + 2 * width
      requires Holds(SrcRow(y).buffer, SrcRow(y).offset, t.source[y])
      modifies scratch
      ensures Holds(scratch, slot, t.blurred[y])
      ensures forall k | 0 <= k < scratch.Length && !(slot <= k < slot + width) :: scratch[k] == old(scratch[k])
    {
      assert TargetRow(t, amountQ8, y);
      var row := SrcRow(y);
      HBlurRow(scratch, slot, row.buffer, row.offset, width, t.source[y], t.blurred[y]);
    }

    /** Before the loop: the blurs of the row above the stripe and of its first row. */
    method Prime(ghost t: Target)
      requires Valid() && IsTarget(t, width, height, amountQ8)
      requires Ready(t, if yStart > 0 then yStart - 1 else 0)
      modifies scratch
      ensures Sweeping(t, yStart, base, base + width, base + 2 * width)
      ensures OnlyRolled()
    {
      var above := if yStart > 0 then yStart - 1 else 0;
      ghost var blurred := t.blurred[above];
      var mid := base + width;
      BlurInto(base, above, t);
      assert Holds(src, RowStart(srcStride, yStart), t.source[yStart]);
      BlurInto(mid, yStart, t);
      assert Holds(scratch, base, blurred);
    }

    /** First half of an iteration: blur the row below into the free slot. */
    method BlurBelow(y: nat, up: nat, mid: nat, dn: nat, ghost t: Target)
      requires Valid() && IsTarget(t, width, height, amountQ8) && yStart <= y < yEnd
      requires Slots(up, mid, dn) && Ready(t, y)
      requires Holds(scratch, up, t.blurred[Clamped(y - 1, height)])
      requires Holds(scratch, mid, t.blurred[y])
      modifies scratch
      ensures Holds(scratch, up, t.blurred[Clamped(y - 1, height)])
      ensures Holds(scratch, mid, t.blurred[y])
      ensures Holds(scratch, dn, t.blurred[Clamped(y + 1, height)])
      ensures OnlyRolled()
    {
      var below := if y < height - 1 then y + 1 else height - 1;
      BlurInto(dn, below, t);
    }

    /** Second half: write destination row y. */
    method WriteRow(y: nat, up: nat, mid: nat, dn: nat, ghost t: Target)
      requires Valid() && IsTarget(t, width, height, amountQ8) && yStart <= y < yEnd
      requires Holds(src, RowStart(srcStride, y), t.source[y])
      requires Holds(scratch, up, t.blurred[Clamped(y - 1, height)])
      requires Holds(scratch, mid, t.blurred[y])
      requires Holds(scratch, dn, t.blurred[Clamped(y + 1, height)])
      requires RowsDone(t, y)
      modifies dst
      ensures RowsDone(t, y + 1)
      ensures OnlyRow(y)
    {
      RowInPlane(Geom(dstStride, width, height), dst.Length, y);
      assert TargetRow(t, amountQ8, y);
      CombineRow(dst, RowStart(dstStride, y), src, RowStart(srcStride, y), scratch, up, mid, dn, width, amountQ8,
                 biased,
                 t.source[y], t.blurred[Clamped(y - 1, height)], t.blurred[y], t.blurred[Clamped(y + 1, height)],
                 t.masked[y]);
      forall z: nat | yStart <= z < y
        ensures Holds(dst, RowStart(dstStride, z), t.masked[z])
      {
        assert old(Holds(dst, RowStart(dstStride, z), t.masked[z]));
        RowsApart(dstStride, z, y);
      }
    }

    /** Nothing outside row y changed in the destination. */
    twostate predicate OnlyRow(y: nat)
      requires unchanged(this)
      reads this, dst
    {
      forall k | 0 <= k < dst.Length && !(RowStart(dstStride, y) <= k < RowStart(dstStride, y) + width) ::
        dst[k] == old(dst[k])
    }

    /** The state at the head of the sweep loop. */
    ghost predicate Sweeping(t: Target, y: nat, up: nat, mid: nat, dn: nat)
      requires IsTarget(t, width, height, amountQ8)
      reads this, scratch, src, dst
    {
      && yStart <= y <= yEnd <= height && 0 < height && Slots(up, mid, dn)
      && Holds(scratch, up, t.blurred[Clamped(y - 1, height)])
      && Holds(scratch, mid, t.blurred[Clamped(y, height)])
      && Ready(t, y) && RowsDone(t, y)
    }

    /** One iteration of the sweep. */
    method SweepRow(y: nat, up: nat, mid: nat, dn: nat, ghost t: Target)
      requires Valid() && IsTarget(t, width, height, amountQ8) && y < yEnd
      requires Sweeping(t, y, up, mid, dn)
      modifies scratch, dst
      ensures Sweeping(t, y + 1, mid, dn, up)
      ensures OnlyRolled() && OnlyRow(y)
    {
      BlurBelow(y, up, mid, dn, t);
      assert Holds(src, RowStart(srcStride, y), t.source[y]);
      WriteRow(y, up, mid, dn, t);
      forall z: nat | y + 1 <= z <= yEnd && z < height
        ensures Holds(SrcRow(z).buffer, SrcRow(z).offset, t.source[z])
      {
        assert old(Holds(SrcRow(z).buffer, SrcRow(z).offset, t.source[z]));
        RowsApart(srcStride, y, z);
      }
    }

    /** The worker's whole stripe. t.source is the frame before anybody touched it: the plane
        itself only has to agree with it on the rows this worker reads. */
    method Run(ghost t: Target)
      requires Valid() && IsTarget(t, width, height, amountQ8)
      requires Ready(t, if yStart > 0 then yStart - 1 else 0)
      modifies scratch, dst
      ensures RowsDone(t, yEnd)
      ensures OnlyRolled()
      ensures forall k | 0 <= k < dst.Length && !Visible(Geom(dstStride, width, height), yStart, yEnd, k) ::
                dst[k] == old(dst[k])
    {
      var up: nat, mid: nat, dn: nat := base, base + width, base + 2 * width;
      var y := yStart;
      Prime(t);
      while y < yEnd
        invariant yStart <= y && Sweeping(t, y, up, mid, dn) && OnlyRolled()
        invariant forall k | 0 <= k < dst.Length && !Visible(Geom(dstStride, width, height), yStart, y, k) ::
                    dst[k] == old(dst[k])
      {
        SweepRow(y, up, mid, dn, t);
        forall k | 0 <= k < dst.Length && !Visible(Geom(dstStride, width, height), yStart, y + 1, k)
          ensures dst[k] == old(dst[k])
        {
          VisibleGrows(Geom(dstStride, width, height), yStart, y, k);
        }
        up, mid, dn := mid, dn, up;
        y := y + 1;
      }
    }
  }
}
