/** Flat byte planes: row y starts `stride` bytes after row y - 1, and the bytes between
    `width` and `stride` of a row are padding. */
module Planes {

  type Byte = b: int | 0 <= b < 256 witness 0

  /** Where row y starts: what `base + (size_t)y * (size_t)stride` computes. */
  function RowStart(stride: nat, y: nat): nat {
    if y == 0 then 0 else RowStart(stride, y - 1) + stride
  }

  lemma {:induction false} RowStartIsProduct(stride: nat, y: nat)
    ensures RowStart(stride, y) == y * stride
  {
    if y > 0 {
      RowStartIsProduct(stride, y - 1);
      assert (y - 1) * stride + stride == y * stride;
    }
  }

  lemma {:induction false} RowStartAdds(stride: nat, y: nat, r: nat)
    ensures RowStart(stride, y + r) == RowStart(stride, y) + RowStart(stride, r)
  {
    if r > 0 {
      RowStartAdds(stride, y, r - 1);
    }
  }

  /** A plane as the filter sees it: `height` rows of `width` visible bytes. The last row
      needs no padding. */
  datatype Geom = Geom(stride: nat, width: nat, height: nat) {
    ghost predicate Fits(length: nat) {
      && 0 < width <= stride
      && 0 < height
      && RowStart(stride, height - 1) + width <= length
    }
  }

  /** Rows never share a byte: row y and its padding end before row z > y starts. */
  lemma {:induction false} RowsApart(stride: nat, y: nat, z: nat)
    requires y < z
    ensures RowStart(stride, y) + stride <= RowStart(stride, z)
  {
    if y + 1 < z {
      RowsApart(stride, y, z - 1);
    }
  }

  lemma RowInPlane(g: Geom, length: nat, y: nat)
    requires g.Fits(length) && y < g.height
    ensures RowStart(g.stride, y) + g.width <= length
  {
    if y < g.height - 1 {
      RowsApart(g.stride, y, g.height - 1);
    }
  }

  /** The visible part of a plane: rows of equal width. */
  type Picture = seq<seq<Byte>>

  ghost predicate Sized(pic: Picture, width: nat, height: nat) {
    |pic| == height && forall y | 0 <= y < height :: |pic[y]| == width
  }

  function RowOf(p: seq<Byte>, g: Geom, y: nat): (row: seq<Byte>)
    requires g.Fits(|p|) && y < g.height
    ensures RowStart(g.stride, y) + g.width <= |p| && |row| == g.width
  {
    RowInPlane(g, |p|, y);
    p[RowStart(g.stride, y)..RowStart(g.stride, y) + g.width]
  }

  function PictureOf(p: seq<Byte>, g: Geom): (pic: Picture)
    requires g.Fits(|p|)
    ensures Sized(pic, g.width, g.height)
  {
    seq(g.height, y requires 0 <= y < g.height => RowOf(p, g, y))
  }

  /** Byte i is a visible byte of one of the rows lo..hi. */
  ghost predicate Visible(g: Geom, lo: nat, hi: nat, i: int) {
    exists y | lo <= y < hi :: RowStart(g.stride, y) <= i < RowStart(g.stride, y) + g.width
  }

  lemma VisibleGrows(g: Geom, lo: nat, hi: nat, i: int)
    requires lo <= hi && !Visible(g, lo, hi + 1, i)
    ensures !Visible(g, lo, hi, i)
    ensures !(RowStart(g.stride, hi) <= i < RowStart(g.stride, hi) + g.width)
  {
  }

  /** A visible byte belongs to exactly one pixel. */
  lemma PixelsApart(g: Geom, y: nat, x: nat, y': nat, x': nat)
    requires x < g.width <= g.stride && x' < g.width
    requires RowStart(g.stride, y) + x == RowStart(g.stride, y') + x'
    ensures y == y' && x == x'
  {
    if y < y' {
      RowsApart(g.stride, y, y');
    } else if y' < y {
      RowsApart(g.stride, y', y);
    }
  }

  /** The bytes of `a` from `off` on are exactly `row`. */
  ghost predicate Holds(a: array<Byte>, off: nat, row: seq<Byte>)
    reads a
  {
    && off + |row| <= a.Length
    && forall j | off <= j < off + |row| :: a[j] == row[j - off]
  }

  /** The plane laid out by g in `a` shows `pic`. */
  ghost predicate Shows(a: array<Byte>, g: Geom, pic: Picture)
    requires g.Fits(a.Length)
    reads a
  {
    Sized(pic, g.width, g.height) && forall y: nat | y < g.height :: Holds(a, RowStart(g.stride, y), pic[y])
  }

  lemma ShowsPictureOf(a: array<Byte>, g: Geom)
    requires g.Fits(a.Length)
    ensures Shows(a, g, PictureOf(a[..], g))
  {
    forall y: nat | y < g.height ensures Holds(a, RowStart(g.stride, y), PictureOf(a[..], g)[y]) {
      RowInPlane(g, a.Length, y);
      assert PictureOf(a[..], g)[y] == RowOf(a[..], g, y);
    }
  }

  lemma ShowsIsPictureOf(a: array<Byte>, g: Geom, pic: Picture)
    requires g.Fits(a.Length) && Shows(a, g, pic)
    ensures PictureOf(a[..], g) == pic
  {
    forall y | 0 <= y < g.height ensures PictureOf(a[..], g)[y] == pic[y] {
      assert Holds(a, RowStart(g.stride, y), pic[y]);
      assert PictureOf(a[..], g)[y] == RowOf(a[..], g, y);
    }
  }
}
