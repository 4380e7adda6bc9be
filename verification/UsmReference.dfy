/** The single-threaded two-pass unsharp mask that the pool promises to equal byte for
    byte (tests/usm_reference.h): blur the whole plane into a workspace, then combine. */
module UsmReference {
  import opened PlaneCopy
  import opened Planes
  import opened UsmKernel

  method Pass1(workspace: array<Byte>, src: array<Byte>, srcStride: nat, width: nat, height: nat, amount: nat,
               ghost t: Target)
    requires workspace != src && IsTarget(t, width, height, amount)
    requires Geom(srcStride, width, height).Fits(src.Length) && Geom(width, width, height).Fits(workspace.Length)
    requires Shows(src, Geom(srcStride, width, height), t.source)
    modifies workspace
    ensures Shows(workspace, Geom(width, width, height), t.blurred)
  {
    for y := 0 to height
      invariant forall z: nat | z < y :: Holds(workspace, RowStart(width, z), t.blurred[z])
    {
      BlurRow(workspace, src, srcStride, width, height, amount, y, t);
    }
  }

  method BlurRow(workspace: array<Byte>, src: array<Byte>, srcStride: nat, width: nat, height: nat, amount: nat, y: nat,
                 ghost t: Target)
    requires workspace != src && IsTarget(t, width, height, amount) && y < height
    requires Geom(srcStride, width, height).Fits(src.Length) && Geom(width, width, height).Fits(workspace.Length)
    requires Shows(src, Geom(srcStride, width, height), t.source)
    requires forall z: nat | z < y :: Holds(workspace, RowStart(width, z), t.blurred[z])
    modifies workspace
    ensures forall z: nat | z < y + 1 :: Holds(workspace, RowStart(width, z), t.blurred[z])
  {
    assert TargetRow(t, amount, y);
    assert Holds(src, RowStart(srcStride, y), t.source[y]);
    RowInPlane(Geom(width, width, height), workspace.Length, y);
    HBlurRow(workspace, RowStart(width, y), src, RowStart(srcStride, y), width, t.source[y], t.blurred[y]);
    forall z: nat | z < y ensures Holds(workspace, RowStart(width, z), t.blurred[z]) {
      assert old(Holds(workspace, RowStart(width, z), t.blurred[z]));
      RowsApart(width, z, y);
    }
  }

  /** In one buffer a destination row never reaches a source row that is still to be read. */
  predicate WritesBehind(dstStride: int, srcStride: int, height: int) {
    dstStride <= srcStride || height == 1
  }

  lemma {:induction false} StrideMono(a: nat, b: nat, y: nat)
    requires a <= b || y == 0
    ensures RowStart(a, y) <= RowStart(b, y)
  {
    if y > 0 {
      StrideMono(a, b, y - 1);
    }
  }

  method Pass2(dst: array<Byte>, dstStride: nat, src: array<Byte>, srcStride: nat, width: nat, height: nat,
               workspace: array<Byte>, amount: nat, ghost t: Target)
    requires workspace != dst && workspace != src && (dst == src ==> WritesBehind(dstStride, srcStride, height))
    requires amount <= AMOUNT_Q8_MAX && IsTarget(t, width, height, amount)
    requires Geom(srcStride, width, height).Fits(src.Length) && Geom(dstStride, width, height).Fits(dst.Length)
    requires Geom(width, width, height).Fits(workspace.Length)
    requires Shows(src, Geom(srcStride, width, height), t.source)
    requires Shows(workspace, Geom(width, width, height), t.blurred)
    modifies dst
    ensures Shows(dst, Geom(dstStride, width, height), t.masked)
  {
    for y := 0 to height
      invariant forall z: nat | z < y :: Holds(dst, RowStart(dstStride, z), t.masked[z])
      invariant forall z: nat | y <= z < height :: Holds(src, RowStart(srcStride, z), t.source[z])
    {
      assert Shows(workspace, Geom(width, width, height), t.blurred);
      CombineOne(dst, dstStride, src, srcStride, width, height, workspace, amount, y, t);
    }
  }

  method CombineOne(dst: array<Byte>, dstStride: nat, src: array<Byte>, srcStride: nat, width: nat, height: nat,
                    workspace: array<Byte>, amount: nat, y: nat, ghost t: Target)
    requires workspace != dst && workspace != src && (dst == src ==> WritesBehind(dstStride, srcStride, height))
    requires y < height
    requires amount <= AMOUNT_Q8_MAX && IsTarget(t, width, height, amount)
    requires Geom(srcStride, width, height).Fits(src.Length) && Geom(dstStride, width, height).Fits(dst.Length)
    requires Geom(width, width, height).Fits(workspace.Length)
    requires Shows(workspace, Geom(width, width, height), t.blurred)
    requires forall z: nat | z < y :: Holds(dst, RowStart(dstStride, z), t.masked[z])
    requires forall z: nat | y <= z < height :: Holds(src, RowStart(srcStride, z), t.source[z])
    modifies dst
    ensures forall z: nat | z < y + 1 :: Holds(dst, RowStart(dstStride, z), t.masked[z])
    ensures forall z: nat | y < z < height :: Holds(src, RowStart(srcStride, z), t.source[z])
  {
    var yu := if y > 0 then y - 1 else 0;
    var yd := if y < height - 1 then y + 1 else height - 1;
    assert TargetRow(t, amount, y);
    assert Holds(workspace, RowStart(width, yu), t.blurred[yu]);
    assert Holds(workspace, RowStart(width, yd), t.blurred[yd]);
    RowInPlane(Geom(dstStride, width, height), dst.Length, y);
    if dst == src {
      StrideMono(dstStride, srcStride, y);
    }
    CombineRow(dst, RowStart(dstStride, y), src, RowStart(srcStride, y), workspace,
               RowStart(width, yu), RowStart(width, y), RowStart(width, yd), width, amount, false,
               t.source[y], t.blurred[yu], t.blurred[y], t.blurred[yd], t.masked[y]);
    forall z: nat | z < y ensures Holds(dst, RowStart(dstStride, z), t.masked[z]) {
      assert old(Holds(dst, RowStart(dstStride, z), t.masked[z]));
      RowsApart(dstStride, z, y);
    }
    forall z: nat | y < z < height ensures Holds(src, RowStart(srcStride, z), t.source[z]) {
      assert old(Holds(src, RowStart(srcStride, z), t.source[z]));
      RowsApart(srcStride, y, z);
    }
  }

  /** What the oracle checks first: a non-empty plane, both buffers, wide enough strides. */
  predicate ArgsValid(dst: array?<Byte>, dstStride: int, src: array?<Byte>, srcStride: int, width: int, height: int) {
    && 0 < width && 0 < height && dst != null && src != null && width <= dstStride && width <= srcStride
  }

  /** The oracle says whether it could do its work; if so it has computed Mask, or copied
      the picture for an amount of nothing, in place or not. (A copy from one buffer to
      itself with another stride is a memcpy of overlapping bytes.) */
  method ReferenceApply(dst: array?<Byte>, dstStride: int, src: array?<Byte>, srcStride: int, width: int, height: int,
                        amountQ8: int, workspace: array?<Byte>) returns (ok: bool)
    requires ArgsValid(dst, dstStride, src, srcStride, width, height) ==>
               && (dst == src ==>
                     if amountQ8 <= 0 then dstStride == srcStride else WritesBehind(dstStride, srcStride, height))
               && workspace != dst && workspace != src
               && Geom(srcStride, width, height).Fits(src.Length) && Geom(dstStride, width, height).Fits(dst.Length)
               && (workspace != null ==> Geom(width, width, height).Fits(workspace.Length))
    modifies dst, workspace
    ensures ok == (ArgsValid(dst, dstStride, src, srcStride, width, height) && (amountQ8 <= 0 || workspace != null))
    ensures !ok && dst != null ==> unchanged(dst)
    ensures ok ==>
              PictureOf(dst[..], Geom(dstStride, width, height))
              == if amountQ8 <= 0 then old(PictureOf(src[..], Geom(srcStride, width, height)))
                 else Mask(old(PictureOf(src[..], Geom(srcStride, width, height))), ClampAmount(amountQ8))
  {
    if !ArgsValid(dst, dstStride, src, srcStride, width, height) {
      return false;
    }
    ghost var pic := PictureOf(src[..], Geom(srcStride, width, height));
    ShowsPictureOf(src, Geom(srcStride, width, height));
    var amount := ClampAmount(amountQ8);
    if amount == 0 {
      ApplyIdentity(dst, dstStride, src, srcStride, width, height, pic);
      return true;
    }
    if workspace == null {
      return false;
    }
    TwoPasses(dst, dstStride, src, srcStride, width, height, amount, workspace, TargetOf(pic, amount));
    return true;
  }

  method TwoPasses(dst: array<Byte>, dstStride: nat, src: array<Byte>, srcStride: nat, width: nat, height: nat,
                   amount: nat, workspace: array<Byte>, ghost t: Target)
    requires workspace != dst && workspace != src && (dst == src ==> WritesBehind(dstStride, srcStride, height))
    requires amount <= AMOUNT_Q8_MAX && IsTarget(t, width, height, amount)
    requires Geom(srcStride, width, height).Fits(src.Length) && Geom(dstStride, width, height).Fits(dst.Length)
    requires Geom(width, width, height).Fits(workspace.Length) && Shows(src, Geom(srcStride, width, height), t.source)
    modifies dst, workspace
    ensures PictureOf(dst[..], Geom(dstStride, width, height)) == t.masked
  {
    Pass1(workspace, src, srcStride, width, height, amount, t);
    assert Shows(src, Geom(srcStride, width, height), t.source);
    Pass2(dst, dstStride, src, srcStride, width, height, workspace, amount, t);
    ShowsIsPictureOf(dst, Geom(dstStride, width, height), t.masked);
  }
}
