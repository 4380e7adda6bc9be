/** Row kernels of the 3x3 unsharp mask (usm.h) and the closed form they compute. */
module UsmKernel {
  import opened Planes

  const AMOUNT_Q8_MAX := 4096

  // ---------------------------------------------------------------- closed form

  /** One tap of the [1 2 1]/4 kernel with its neighbours already resolved. */
  function Tap(before: Byte, here: Byte, after: Byte): Byte {
    (before + 2 * here + after + 2) / 4
  }

  /** Index i with the border replicated: [0, n) maps to itself, outside to the edge. */
  function Clamped(i: int, n: nat): (k: nat)
    requires 0 < n
    ensures k < n
  {
    if i < 0 then 0 else if i >= n then n - 1 else i
  }

  function HBlurAt(row: seq<Byte>, x: nat): Byte
    requires x < |row|
  {
    Tap(row[Clamped(x - 1, |row|)], row[x], row[Clamped(x + 1, |row|)])
  }

  function FloorQ8(value: int): int { value / 256 }

  function ClampByte(v: int): Byte {
    if v < 0 then 0 else if v > 255 then 255 else v
  }

  function Sharpen(s: Byte, blur: Byte, amount: nat): Byte {
    ClampByte(s + FloorQ8(amount * (s - blur)))
  }

  function SharpenAt(row: seq<Byte>, up: seq<Byte>, mid: seq<Byte>, dn: seq<Byte>, amount: nat, x: nat): Byte
    requires |row| == |up| == |mid| == |dn| && x < |row|
  {
    Sharpen(row[x], Tap(up[x], mid[x], dn[x]), amount)
  }

  // One pixel of a row relation; the relations below quantify over these.

  ghost predicate BlurPixel(blurred: seq<Byte>, row: seq<Byte>, x: nat)
    requires |blurred| == |row| && x < |row|
  {
    blurred[x] == HBlurAt(row, x)
  }

  ghost predicate SharpPixel(sharp: seq<Byte>, row: seq<Byte>, up: seq<Byte>, mid: seq<Byte>, dn: seq<Byte>,
                             amount: nat, x: nat)
    requires |sharp| == |row| == |up| == |mid| == |dn| && x < |row|
  {
    sharp[x] == SharpenAt(row, up, mid, dn, amount, x)
  }

  ghost predicate IsBlur(blurred: seq<Byte>, row: seq<Byte>) {
    && |blurred| == |row|
    && forall x: nat | x < |row| :: BlurPixel(blurred, row, x)
  }

  ghost predicate IsSharp(sharp: seq<Byte>, row: seq<Byte>, up: seq<Byte>, mid: seq<Byte>, dn: seq<Byte>, amount: nat) {
    && |sharp| == |row| == |up| == |mid| == |dn|
    && forall x: nat | x < |row| :: SharpPixel(sharp, row, up, mid, dn, amount, x)
  }

  /** A frame together with what the two passes of the filter make of it. */
  datatype Target = Target(source: Picture, blurred: Picture, masked: Picture)

  ghost predicate TargetRow(t: Target, amount: nat, y: nat)
    requires y < |t.source| == |t.blurred| == |t.masked|
  {
    && IsBlur(t.blurred[y], t.source[y])
    && IsSharp(t.masked[y], t.source[y], t.blurred[Clamped(y - 1, |t.source|)], t.blurred[y],
               t.blurred[Clamped(y + 1, |t.source|)], amount)
  }

  /** `blurred` is the horizontal pass over the whole picture and `masked` the combining
      pass over that, border rows replicated. */
  ghost predicate IsTarget(t: Target, width: nat, height: nat, amount: nat) {
    && Sized(t.source, width, height) && Sized(t.blurred, width, height) && Sized(t.masked, width, height)
    && forall y: nat | y < height :: TargetRow(t, amount, y)
  }

  function BlurOne(row: seq<Byte>): (r: seq<Byte>)
    ensures IsBlur(r, row)
  {
    seq(|row|, x requires 0 <= x < |row| => HBlurAt(row, x))
  }

  function SharpenOne(row: seq<Byte>, up: seq<Byte>, mid: seq<Byte>, dn: seq<Byte>, amount: nat): (r: seq<Byte>)
    requires |row| == |up| == |mid| == |dn|
    ensures IsSharp(r, row, up, mid, dn, amount)
  {
    seq(|row|, x requires 0 <= x < |row| => SharpenAt(row, up, mid, dn, amount, x))
  }

  /** Row y of the mask; rows outside the picture are its border rows. */
  function MaskRow(pic: Picture, amount: nat, y: nat): (r: seq<Byte>)
    requires y < |pic| && Sized(pic, |pic[0]|, |pic|)
    ensures |r| == |pic[0]|
  {
    SharpenOne(pic[y], BlurOne(pic[Clamped(y - 1, |pic|)]), BlurOne(pic[y]), BlurOne(pic[Clamped(y + 1, |pic|)]),
               amount)
  }

  /** The whole-picture two-pass unsharp mask. */
  function Mask(pic: Picture, amount: nat): (r: Picture)
    requires |pic| > 0 && Sized(pic, |pic[0]|, |pic|)
    ensures Sized(r, |pic[0]|, |pic|)
  {
    seq(|pic|, y requires 0 <= y < |pic| => MaskRow(pic, amount, y))
  }

  function TargetOf(pic: Picture, amount: nat): (t: Target)
    requires |pic| > 0 && Sized(pic, |pic[0]|, |pic|)
    ensures t.source == pic && t.masked == Mask(pic, amount)
    ensures IsTarget(t, |pic[0]|, |pic|, amount)
  {
    var t := Target(pic, seq(|pic|, y requires 0 <= y < |pic| => BlurOne(pic[y])), Mask(pic, amount));
    assert forall y: nat | y < |pic| :: TargetRow(t, amount, y) by {
      forall y: nat | y < |pic| ensures TargetRow(t, amount, y) {
        assert t.masked[y] == MaskRow(pic, amount, y);
      }
    }
    t
  }

  lemma TargetIsUnique(t: Target, u: Target, width: nat, height: nat, amount: nat)
    requires t.source == u.source && IsTarget(t, width, height, amount) && IsTarget(u, width, height, amount)
    ensures t == u
  {
    forall y | 0 <= y < height ensures t.blurred[y] == u.blurred[y] {
      assert TargetRow(t, amount, y) && TargetRow(u, amount, y);
      forall x: nat | x < width ensures t.blurred[y][x] == u.blurred[y][x] {
        assert BlurPixel(t.blurred[y], t.source[y], x) && BlurPixel(u.blurred[y], u.source[y], x);
      }
    }
    assert t.blurred == u.blurred;
    forall y | 0 <= y < height ensures t.masked[y] == u.masked[y] {
      assert TargetRow(t, amount, y) && TargetRow(u, amount, y);
      SharpIsUnique(t.masked[y], u.masked[y], t.source[y], t.blurred[Clamped(y - 1, height)], t.blurred[y],
                    t.blurred[Clamped(y + 1, height)], amount);
    }
  }

  lemma SharpIsUnique(a: seq<Byte>, b: seq<Byte>, row: seq<Byte>, up: seq<Byte>, mid: seq<Byte>, dn: seq<Byte>,
                      amount: nat)
    requires IsSharp(a, row, up, mid, dn, amount) && IsSharp(b, row, up, mid, dn, amount)
    ensures a == b
  {
    forall x: nat | x < |row| ensures a[x] == b[x] {
      assert SharpPixel(a, row, up, mid, dn, amount, x) && SharpPixel(b, row, up, mid, dn, amount, x);
    }
  }

  // ------------------------------------------------------------- Q8 division

  /** C's `/` and `%` by 256: truncation toward zero. */
  function TruncDiv256(value: int): int {
    if value < 0 then -((-value) / 256) else value / 256
  }

  function TruncMod256(value: int): int {
    value - 256 * TruncDiv256(value)
  }

  function FloorDivTruncating(value: int): int {
    var quotient := TruncDiv256(value);
    if value < 0 && TruncMod256(value) != 0 then quotient - 1 else quotient
  }

  /** The shift is a division by 256 as long as its operand is not negative. */
  function FloorDivBiased(value: int): int
    requires value >= -AMOUNT_Q8_MAX * 256
  {
    (value + AMOUNT_Q8_MAX * 256) / 256 - AMOUNT_Q8_MAX
  }

  /** Both rounding forms are floor division on every product a clamped amount and a
      byte detail can reach, and the biased operand stays far inside 32 bits. */
  lemma RoundingFormsAgree(amount: nat, s: Byte, blur: Byte)
    requires amount <= AMOUNT_Q8_MAX
    ensures -1044480 <= amount * (s - blur) <= 1044480
    ensures 0 <= amount * (s - blur) + AMOUNT_Q8_MAX * 256 < 0x8000_0000
    ensures FloorDivTruncating(amount * (s - blur)) == FloorQ8(amount * (s - blur))
    ensures FloorDivBiased(amount * (s - blur)) == FloorQ8(amount * (s - blur))
    ensures 256 * FloorQ8(amount * (s - blur)) <= amount * (s - blur) < 256 * FloorQ8(amount * (s - blur)) + 256
  {
    ProductRange(amount, s - blur);
    var v := amount * (s - blur);
    TruncatingIsFloor(v);
  }

  lemma ProductRange(amount: nat, d: int)
    requires amount <= AMOUNT_Q8_MAX && -255 <= d <= 255
    ensures -1044480 <= amount * d <= 1044480
  {
    if d >= 0 {
      assert amount * d <= AMOUNT_Q8_MAX * d;
    } else {
      assert amount * (-d) <= AMOUNT_Q8_MAX * (-d);
      assert amount * d == -(amount * (-d));
    }
  }

  lemma TruncatingIsFloor(v: int)
    ensures FloorDivTruncating(v) == FloorQ8(v)
  {
  }

  /** The user's percentage after conversion never reaches the internal ceiling. */
  function ClampAmount(amount: int): (r: nat)
    ensures r <= AMOUNT_Q8_MAX
    ensures 0 <= amount <= AMOUNT_Q8_MAX ==> r == amount
    ensures amount <= 0 <==> r == 0
    ensures amount >= AMOUNT_Q8_MAX <==> r == AMOUNT_Q8_MAX
  {
    if amount < 0 then 0 else if amount > AMOUNT_Q8_MAX then AMOUNT_Q8_MAX else amount
  }

  // ------------------------------------------------------------------ kernels

  /** Horizontal blur of one row. `output` and `input` may be one allocation (a pool's
      scratch block) but the two rows may not overlap. */
  method HBlurRow(output: array<Byte>, o: nat, input: array<Byte>, i: nat, width: int,
                  ghost row: seq<Byte>, ghost blurred: seq<Byte>)
    requires width > 0 ==> |row| == width && Holds(input, i, row) && IsBlur(blurred, row) && o + width <= output.Length
    requires output != input || o + width <= i || i + width <= o
    modifies output
    ensures width > 0 ==> Holds(output, o, blurred)
    ensures forall k | 0 <= k < output.Length && !(o <= k < o + width) :: output[k] == old(output[k])
  {
    if width <= 0 { return; }
    assert BlurPixel(blurred, row, 0);
    if width == 1 {
      output[o] := input[i];
      return;
    }
    var edge := LeftEdge(input[i], input[i + 1]);
    output[o] := edge;
    for x := 1 to width - 1
      invariant forall k | 0 <= k < output.Length && !(o <= k < o + x) :: output[k] == old(output[k])
      invariant forall j | o <= j < o + x :: output[j] == blurred[j - o]
      invariant Holds(input, i, row)
    {
      var tap := Tap(input[i + x - 1], input[i + x], input[i + x + 1]);
      assert BlurPixel(blurred, row, x);
      output[o + x] := tap;
    }
    edge := RightEdge(input[i + width - 2], input[i + width - 1]);
    assert BlurPixel(blurred, row, width - 1);
    output[o + width - 1] := edge;
  }

  /** The border columns: the missing neighbour is the edge pixel itself. */
  function LeftEdge(first: Byte, second: Byte): (b: Byte)
    ensures b == Tap(first, first, second)
  {
    var f: int := first;
    (f * 3 + second + 2) / 4
  }

  function RightEdge(nextToLast: Byte, last: Byte): (b: Byte)
    ensures b == Tap(nextToLast, last, last)
  {
    var l: int := last;
    (nextToLast + l * 3 + 2) / 4
  }

  /** The signed correction of one pixel, by whichever division the worker was given. */
  method Detail(amount: nat, here: Byte, blur: Byte, biased: bool) returns (detail: int)
    requires amount <= AMOUNT_Q8_MAX
    ensures detail == FloorQ8(amount * (here - blur))
  {
    RoundingFormsAgree(amount, here, blur);
    var product := amount * (here - blur);
    detail := if biased then FloorDivBiased(product) else FloorDivTruncating(product);
  }

  method ClampPixel(value: int) returns (b: Byte)
    ensures b == ClampByte(value)
  {
    var sharpened := value;
    if sharpened < 0 {
      sharpened := 0;
    } else if sharpened > 255 {
      sharpened := 255;
    }
    b := sharpened;
  }

  method Correct(here: Byte, blur: Byte, amount: nat, biased: bool) returns (out: Byte)
    requires amount <= AMOUNT_Q8_MAX
    ensures out == Sharpen(here, blur, amount)
  {
    var detail := Detail(amount, here, blur, biased);
    out := ClampPixel(here + detail);
  }

  /** One pixel: vertical blur, correction, clamp to a byte. */
  method CombinePixel(here: Byte, up: Byte, mid: Byte, dn: Byte, amount: nat, biased: bool) returns (out: Byte)
    requires amount <= AMOUNT_Q8_MAX
    ensures out == Sharpen(here, Tap(up, mid, dn), amount)
  {
    out := Correct(here, Tap(up, mid, dn), amount, biased);
  }

  /** The loop body of CombineRow: pixel x of the row. */
  method WritePixel(dst: array<Byte>, d: nat, src: array<Byte>, s: nat,
                    scratch: array<Byte>, up: nat, mid: nat, dn: nat, x: nat, amount: nat, biased: bool,
                    ghost row: seq<Byte>, ghost upRow: seq<Byte>, ghost midRow: seq<Byte>, ghost dnRow: seq<Byte>,
                    ghost sharp: seq<Byte>)
    requires x < |row| && d + x < dst.Length && IsSharp(sharp, row, upRow, midRow, dnRow, amount)
    requires s + x < src.Length && src[s + x] == row[x]
    requires Holds(scratch, up, upRow) && Holds(scratch, mid, midRow) && Holds(scratch, dn, dnRow)
    requires amount <= AMOUNT_Q8_MAX
    modifies dst
    ensures dst[d + x] == sharp[x]
    ensures forall k | 0 <= k < dst.Length && k != d + x :: dst[k] == old(dst[k])
  {
    var out := CombinePixel(src[s + x], scratch[up + x], scratch[mid + x], scratch[dn + x], amount, biased);
    assert SharpPixel(sharp, row, upRow, midRow, dnRow, amount, x);
    dst[d + x] := out;
  }

  /** Combine one row's blur and source bytes. dst and src may be the very same bytes
      (in-place), or dst may lie before src in one buffer; the blur rows are scratch of
      their own. */
  method CombineRow(dst: array<Byte>, d: nat, src: array<Byte>, s: nat,
                    scratch: array<Byte>, up: nat, mid: nat, dn: nat,
                    width: nat, amount: nat, biased: bool,
                    ghost row: seq<Byte>, ghost upRow: seq<Byte>, ghost midRow: seq<Byte>, ghost dnRow: seq<Byte>,
                    ghost sharp: seq<Byte>)
    requires |row| == width && d + width <= dst.Length && IsSharp(sharp, row, upRow, midRow, dnRow, amount)
    requires Holds(src, s, row) && Holds(scratch, up, upRow) && Holds(scratch, mid, midRow) && Holds(scratch, dn, dnRow)
    requires scratch != dst && (dst == src ==> d <= s)
    requires amount <= AMOUNT_Q8_MAX
    modifies dst
    ensures Holds(dst, d, sharp)
    ensures forall k | 0 <= k < dst.Length && !(d <= k < d + width) :: dst[k] == old(dst[k])
  {
    for x := 0 to width
      invariant forall j | d <= j < d + x :: dst[j] == sharp[j - d]
      invariant forall j | s + x <= j < s + width :: src[j] == row[j - s]
      invariant forall k | 0 <= k < dst.Length && !(d <= k < d + x) :: dst[k] == old(dst[k])
    {
      WritePixel(dst, d, src, s, scratch, up, mid, dn, x, amount, biased, row, upRow, midRow, dnRow, sharp);
    }
  }
}
