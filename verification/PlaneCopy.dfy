/** up_copy_plane (plane_utils.h): a stride-aware copy of a rectangle of bytes. */
module PlaneCopy {
  import opened Planes

  /** The rectangle of `rows` rows of `width` bytes at `base` shows `pic`. */
  ghost predicate RectHolds(a: array<Byte>, base: nat, stride: nat, pic: Picture)
    reads a
  {
    forall r: nat | r < |pic| :: Holds(a, base + RowStart(stride, r), pic[r])
  }

  /** memcpy between two buffers. */
  method CopyBytes(dst: array<Byte>, d: nat, src: array<Byte>, s: nat, n: nat)
    requires dst != src && d + n <= dst.Length && s + n <= src.Length
    modifies dst
    ensures forall k | d <= k < d + n :: dst[k] == src[k - d + s]
    ensures forall k | 0 <= k < dst.Length && !(d <= k < d + n) :: dst[k] == old(dst[k])
  {
    forall k | d <= k < d + n {
      dst[k] := src[k - d + s];
    }
  }

  /** Both the one-block path and the row loop copy the rectangle and nothing else;
      non-positive sizes and strides below the row width copy nothing. */
  method CopyPlane(dst: array<Byte>, d: nat, dstStride: int, src: array<Byte>, s: nat, srcStride: int,
                   rowBytes: int, rows: int, ghost pic: Picture)
    requires dst != src
    requires 0 < rows && 0 < rowBytes && rowBytes <= dstStride && rowBytes <= srcStride ==>
               && Sized(pic, rowBytes, rows) && RectHolds(src, s, srcStride, pic)
               && d + RowStart(dstStride, rows - 1) + rowBytes <= dst.Length
    modifies dst
    ensures 0 < rows && 0 < rowBytes && rowBytes <= dstStride && rowBytes <= srcStride ==>
              && RectHolds(dst, d, dstStride, pic)
              && forall k | 0 <= k < dst.Length && !Visible(Geom(dstStride, rowBytes, rows), 0, rows, k - d) ::
                   dst[k] == old(dst[k])
    ensures rows <= 0 || rowBytes <= 0 || dstStride < rowBytes || srcStride < rowBytes ==> unchanged(dst)
  {
    if rows <= 0 || rowBytes <= 0 { return; }
    if dstStride < rowBytes || srcStride < rowBytes { return; }
    if dstStride == srcStride && rowBytes == srcStride {
      CopyBlock(dst, d, src, s, rowBytes, rows, pic);
      return;
    }
    for r := 0 to rows
      invariant forall q: nat | q < r :: Holds(dst, d + RowStart(dstStride, q), pic[q])
      invariant forall k | 0 <= k < dst.Length && !Visible(Geom(dstStride, rowBytes, rows), 0, r, k - d) ::
                  dst[k] == old(dst[k])
    {
      CopyRow(dst, d, dstStride, src, s, srcStride, rowBytes, rows, r, pic);
    }
  }

  /** Row r of the row loop. */
  method CopyRow(dst: array<Byte>, d: nat, dstStride: nat, src: array<Byte>, s: nat, srcStride: nat,
                 rowBytes: nat, rows: nat, r: nat, ghost pic: Picture)
    requires dst != src && r < rows && 0 < rowBytes <= dstStride
    requires Sized(pic, rowBytes, rows) && RectHolds(src, s, srcStride, pic)
    requires d + RowStart(dstStride, rows - 1) + rowBytes <= dst.Length
    requires forall q: nat | q < r :: Holds(dst, d + RowStart(dstStride, q), pic[q])
    modifies dst
    ensures forall q: nat | q < r + 1 :: Holds(dst, d + RowStart(dstStride, q), pic[q])
    ensures forall k | 0 <= k < dst.Length && !Visible(Geom(dstStride, rowBytes, rows), 0, r + 1, k - d) ::
              dst[k] == old(dst[k])
    ensures forall k | 0 <= k < dst.Length && !Visible(Geom(dstStride, rowBytes, rows), r, r + 1, k - d) ::
              dst[k] == old(dst[k])
  {
    RowInPlane(Geom(dstStride, rowBytes, rows), dst.Length - d, r);
    assert Holds(src, s + RowStart(srcStride, r), pic[r]);
    CopyBytes(dst, d + RowStart(dstStride, r), src, s + RowStart(srcStride, r), rowBytes);
    forall q: nat | q < r ensures Holds(dst, d + RowStart(dstStride, q), pic[q]) {
      RowsApart(dstStride, q, r);
    }
  }

  /** The contiguous case: one memcpy of rows * rowBytes bytes. */
  method CopyBlock(dst: array<Byte>, d: nat, src: array<Byte>, s: nat, rowBytes: nat, rows: nat, ghost pic: Picture)
    requires dst != src && 0 < rows && 0 < rowBytes
    requires Sized(pic, rowBytes, rows) && RectHolds(src, s, rowBytes, pic)
    requires d + RowStart(rowBytes, rows - 1) + rowBytes <= dst.Length
    modifies dst
    ensures RectHolds(dst, d, rowBytes, pic)
    ensures forall k | 0 <= k < dst.Length && !Visible(Geom(rowBytes, rowBytes, rows), 0, rows, k - d) ::
              dst[k] == old(dst[k])
  {
    RowStartIsProduct(rowBytes, rows);
    assert Holds(src, s + RowStart(rowBytes, rows - 1), pic[rows - 1]);
    CopyBytes(dst, d, src, s, rows * rowBytes);
    forall r: nat | r < rows ensures Holds(dst, d + RowStart(rowBytes, r), pic[r]) {
      RowInPlane(Geom(rowBytes, rowBytes, rows), rows * rowBytes, r);
      assert Holds(src, s + RowStart(rowBytes, r), pic[r]);
    }
    forall k | 0 <= k < dst.Length && !Visible(Geom(rowBytes, rowBytes, rows), 0, rows, k - d)
      ensures dst[k] == old(dst[k])
    {
      if d <= k < d + rows * rowBytes {
        DenseRows(rowBytes, rows, k - d);
      }
    }
  }

  /** Without padding every byte of the block is visible. */
  lemma {:induction false} DenseRows(width: nat, rows: nat, i: int)
    requires 0 <= i < RowStart(width, rows)
    ensures Visible(Geom(width, width, rows), 0, rows, i)
  {
    if i < RowStart(width, rows - 1) {
      DenseRows(width, rows - 1, i);
      var y :| 0 <= y < rows - 1 && RowStart(width, y) <= i < RowStart(width, y) + width;
    } else {
      assert RowStart(width, rows - 1) <= i;
    }
  }

  /** up_usm__apply_identity: the picture is copied unless source and destination are the
      same plane. */
  method ApplyIdentity(dst: array<Byte>, dstStride: nat, src: array<Byte>, srcStride: nat, width: nat, height: nat,
                       ghost pic: Picture)
    requires dst == src ==> dstStride == srcStride
    requires Geom(srcStride, width, height).Fits(src.Length) && Geom(dstStride, width, height).Fits(dst.Length)
    requires Shows(src, Geom(srcStride, width, height), pic)
    modifies dst
    ensures PictureOf(dst[..], Geom(dstStride, width, height)) == pic
    ensures forall k | 0 <= k < dst.Length && !Visible(Geom(dstStride, width, height), 0, height, k) ::
              dst[k] == old(dst[k])
  {
    if dst != src {
      CopyPlane(dst, 0, dstStride, src, 0, srcStride, width, height, pic);
    }
    ShowsIsPictureOf(dst, Geom(dstStride, width, height), pic);
  }
}
