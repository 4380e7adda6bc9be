/** What the unsharp mask does to a picture, said in the weights of the 3x3 binomial kernel
    and without the rounding steps of the filter. */
module UsmLaws {
  import opened Arith
  import opened Planes
  import opened UsmKernel

  /** The picture continued beyond its border by its border pixels. */
  function Near(pic: Picture, y: int, x: int): int
    requires 0 < |pic| && 0 < |pic[0]| && Sized(pic, |pic[0]|, |pic|)
  {
    var row := if y < 0 then pic[0] else if y < |pic| then pic[y] else pic[|pic| - 1];
    if x < 0 then row[0] else if x < |row| then row[x] else row[|row| - 1]
  }

  /** One row of the kernel, and the kernel 1 2 1 / 2 4 2 / 1 2 1. */
  function RowWeight(pic: Picture, y: int, x: int): int
    requires 0 < |pic| && 0 < |pic[0]| && Sized(pic, |pic[0]|, |pic|)
  {
    Near(pic, y, x - 1) + 2 * Near(pic, y, x) + Near(pic, y, x + 1)
  }

  function Weight(pic: Picture, y: int, x: int): int
    requires 0 < |pic| && 0 < |pic[0]| && Sized(pic, |pic[0]|, |pic|)
  {
    RowWeight(pic, y - 1, x) + 2 * RowWeight(pic, y, x) + RowWeight(pic, y + 1, x)
  }

  /** A pixel of a non-empty picture. */
  ghost predicate PixelOf(pic: Picture, y: nat, x: nat) {
    y < |pic| && Sized(pic, |pic[0]|, |pic|) && x < |pic[0]|
  }

  /** A tap is the quotient by 4 rounded to the nearest, ties up. */
  lemma TapRounds(a: Byte, b: Byte, c: Byte)
    ensures -2 <= a + 2 * b + c - 4 * Tap(a, b, c) <= 1
  {
  }

  function Blurred(pic: Picture, y: nat, x: nat): Byte
    requires PixelOf(pic, y, x)
  {
    Tap(HBlurAt(pic[Clamped(y - 1, |pic|)], x), HBlurAt(pic[y], x), HBlurAt(pic[Clamped(y + 1, |pic|)], x))
  }

  lemma MaskAt(pic: Picture, amount: nat, y: nat, x: nat)
    requires PixelOf(pic, y, x)
    ensures Mask(pic, amount)[y][x] == Sharpen(pic[y][x], Blurred(pic, y, x), amount)
  {
    var up, dn := Clamped(y - 1, |pic|), Clamped(y + 1, |pic|);
    assert BlurPixel(BlurOne(pic[up]), pic[up], x) && BlurPixel(BlurOne(pic[y]), pic[y], x);
    assert BlurPixel(BlurOne(pic[dn]), pic[dn], x);
    assert Mask(pic, amount)[y] == MaskRow(pic, amount, y);
    assert SharpPixel(MaskRow(pic, amount, y), pic[y], BlurOne(pic[up]), BlurOne(pic[y]), BlurOne(pic[dn]), amount, x);
  }

  lemma RowRounds(pic: Picture, y: int, x: nat)
    requires 0 < |pic| && 0 < |pic[0]| && Sized(pic, |pic[0]|, |pic|) && x < |pic[0]|
    ensures -2 <= RowWeight(pic, y, x) - 4 * HBlurAt(pic[Clamped(y, |pic|)], x) <= 1
  {
    var row := pic[Clamped(y, |pic|)];
    TapRounds(row[Clamped(x - 1, |row|)], row[x], row[Clamped(x + 1, |row|)]);
  }

  /** Rounding twice keeps the blur within one step of the weighted sum. */
  lemma BlurRounds(pic: Picture, y: nat, x: nat)
    requires PixelOf(pic, y, x)
    ensures -16 <= Weight(pic, y, x) - 16 * Blurred(pic, y, x) <= 8
  {
    RowRounds(pic, y - 1, x);
    RowRounds(pic, y, x);
    RowRounds(pic, y + 1, x);
    TapRounds(HBlurAt(pic[Clamped(y - 1, |pic|)], x), HBlurAt(pic[y], x), HBlurAt(pic[Clamped(y + 1, |pic|)], x));
  }

  lemma ScaledError(amount: nat, error: int)
    requires -16 <= error <= 8
    ensures -16 * amount <= amount * error <= 8 * amount
  {
  }

  lemma SharpenRounds(p: Byte, b: Byte, amount: nat)
    ensures var m := Sharpen(p, b, amount) as int;
            && (m < 255 ==> 256 * (m - p) > amount * (p - b) - 256)
            && (m > 0 ==> 256 * (m - p) <= amount * (p - b))
  {
  }

  lemma SplitProduct(amount: nat, p: int, b: int, s: int)
    ensures 16 * (amount * (p - b)) == amount * (16 * p - s) + amount * (s - 16 * b)
  {
    assert 16 * (p - b) == (16 * p - s) + (s - 16 * b);
    assert 16 * (amount * (p - b)) == amount * (16 * (p - b));
  }

  /** Every pixel p becomes p + amount/256 * (p - S/16), S the weighted sum around it, up to
      the rounding of the blur and of the product. A pixel is at a bound only if that value
      is at or beyond it; short of a bound both inequalities hold. */
  lemma MaskSharpens(pic: Picture, amount: nat, y: nat, x: nat)
    requires PixelOf(pic, y, x)
    ensures var p, m, s := pic[y][x] as int, Mask(pic, amount)[y][x] as int, Weight(pic, y, x);
            && (m < 255 ==> 4096 * (m - p) > amount * (16 * p - s) - 16 * amount - 4096)
            && (m > 0 ==> 4096 * (m - p) <= amount * (16 * p - s) + 8 * amount)
  {
    MaskAt(pic, amount, y, x);
    BlurRounds(pic, y, x);
    var s, b := Weight(pic, y, x), Blurred(pic, y, x) as int;
    ScaledError(amount, s - 16 * b);
    SharpenRounds(pic[y][x], Blurred(pic, y, x), amount);
    SplitProduct(amount, pic[y][x] as int, b, s);
  }

  /** An amount of nothing gives the picture back. */
  lemma NothingToSharpen(pic: Picture)
    requires 0 < |pic| && Sized(pic, |pic[0]|, |pic|)
    ensures Mask(pic, 0) == pic
  {
    var m := Mask(pic, 0);
    forall y | 0 <= y < |pic| ensures m[y] == pic[y] {
      forall x | 0 <= x < |pic[0]| ensures m[y][x] == pic[y][x] {
        MaskAt(pic, 0, y, x);
      }
    }
  }

  /** No pixel around (y, x) is above, or below, the pixel itself. */
  ghost predicate Peak(pic: Picture, y: nat, x: nat)
    requires PixelOf(pic, y, x)
  {
    forall v: int, u: int | y - 1 <= v <= y + 1 && x - 1 <= u <= x + 1 :: Near(pic, v, u) <= pic[y][x]
  }

  ghost predicate Dip(pic: Picture, y: nat, x: nat)
    requires PixelOf(pic, y, x)
  {
    forall v: int, u: int | y - 1 <= v <= y + 1 && x - 1 <= u <= x + 1 :: Near(pic, v, u) >= pic[y][x]
  }

  lemma RowNearby(pic: Picture, v: int, x: nat)
    requires 0 < |pic| && 0 < |pic[0]| && Sized(pic, |pic[0]|, |pic|) && x < |pic[0]|
    ensures HBlurAt(pic[Clamped(v, |pic|)], x)
            == (Near(pic, v, x - 1) + 2 * Near(pic, v, x) + Near(pic, v, x + 1) + 2) / 4
  {
  }

  lemma BlurredNearby(pic: Picture, y: nat, x: nat)
    requires PixelOf(pic, y, x)
    ensures Peak(pic, y, x) ==> Blurred(pic, y, x) <= pic[y][x]
    ensures Dip(pic, y, x) ==> Blurred(pic, y, x) >= pic[y][x]
  {
    RowNearby(pic, y - 1, x);
    RowNearby(pic, y, x);
    RowNearby(pic, y + 1, x);
  }

  lemma SharpenSide(p: Byte, b: Byte, amount: nat)
    ensures b <= p ==> Sharpen(p, b, amount) >= p
    ensures b >= p ==> Sharpen(p, b, amount) <= p
  {
    var d: int := p as int - b as int;
    if d >= 0 {
      assert amount * d >= 0;
    } else {
      assert amount * -d >= 0 && amount * d == -(amount * -d);
    }
  }

  /** Sharpening never works backwards: a local maximum does not get darker, a local minimum
      does not get brighter. */
  lemma ExtremaStay(pic: Picture, amount: nat, y: nat, x: nat)
    requires PixelOf(pic, y, x)
    ensures Peak(pic, y, x) ==> Mask(pic, amount)[y][x] >= pic[y][x]
    ensures Dip(pic, y, x) ==> Mask(pic, amount)[y][x] <= pic[y][x]
  {
    MaskAt(pic, amount, y, x);
    BlurredNearby(pic, y, x);
    SharpenSide(pic[y][x], Blurred(pic, y, x), amount);
  }
}
