/** The cells of a worker grid tile the frame (scaler_zimg.c, cell construction): every
    sample of every plane belongs to exactly one cell. */
module TileCover {
  import opened Arith
  import opened Tiling

  /** n + 1 cuts of [0, extent): strictly rising, even in the interior. */
  ghost predicate Cuts(s: seq<nat>, n: nat, extent: nat) {
    && 0 < n && |s| == n + 1 && s[0] == 0 && s[n] == extent
    && (forall j | 0 <= j < n :: s[j] < s[j + 1])
    && (forall j | 0 <= j < n :: s[j] % 2 == 0)
  }

  function DstCuts(n: nat, dst: nat): (s: seq<nat>)
    requires 0 < n
    ensures |s| == n + 1 && forall j: nat | j <= n :: s[j] == DstCut(j, n, dst)
  {
    seq(n + 1, j requires 0 <= j <= n => DstCut(j, n, dst))
  }

  function SrcCuts(n: nat, src: nat, dst: nat): (s: seq<nat>)
    requires 0 < n && 0 < dst
    ensures |s| == n + 1 && forall j: nat | j <= n :: s[j] == SrcCut(j, n, src, dst)
  {
    seq(n + 1, j requires 0 <= j <= n => SrcCut(j, n, src, dst))
  }

  /** A valid axis split cuts both frames into non-empty even-aligned stripes. */
  lemma AxisCuts(n: nat, src: nat, dst: nat, minimum: int)
    requires 0 < n && 0 < src && 0 < dst && AxisOk(n, src, dst, minimum)
    ensures Cuts(DstCuts(n, dst), n, dst) && Cuts(SrcCuts(n, src, dst), n, src)
  {
    forall j: nat | j < n
      ensures DstCut(j, n, dst) < DstCut(j + 1, n, dst) && SrcCut(j, n, src, dst) < SrcCut(j + 1, n, src, dst)
    {
      assert StripeFits(j, n, src, dst, minimum);
      StripesMeet(j, n, src, dst);
    }
    forall j: nat | j < n ensures DstCut(j, n, dst) % 2 == 0 && SrcCut(j, n, src, dst) % 2 == 0 {
    }
  }

  // ------------------------------------------------------------- one axis

  ghost predicate Rising(s: seq<nat>) {
    |s| > 0 && forall j | 0 <= j < |s| - 1 :: s[j] <= s[j + 1]
  }

  lemma {:induction false} RisingAcross(s: seq<nat>, j: nat, k: nat)
    requires Rising(s) && j <= k < |s|
    ensures s[j] <= s[k]
  {
    if j < k {
      RisingAcross(s, j, k - 1);
    }
  }

  /** The stripe that holds coordinate x. */
  function StripeOf(s: seq<nat>, x: nat): (j: nat)
    requires |s| >= 2 && s[0] <= x < s[|s| - 1]
    ensures j < |s| - 1 && s[j] <= x < s[j + 1]
  {
    if s[|s| - 2] <= x then |s| - 2 else StripeOf(s[..|s| - 1], x)
  }

  lemma OneStripeHolds(s: seq<nat>, x: nat, j: nat)
    requires |s| >= 2 && Rising(s) && s[0] <= x < s[|s| - 1]
    requires j < |s| - 1 && s[j] <= x < s[j + 1]
    ensures j == StripeOf(s, x)
  {
    var k := StripeOf(s, x);
    if j < k {
      RisingAcross(s, j + 1, k);
    } else if k < j {
      RisingAcross(s, k + 1, j);
    }
  }

  // ------------------------------------------------------------- planes

  /** x >> k. */
  function Shr(x: nat, k: nat): (r: nat)
  {
    if k == 0 then x else Shr(x / 2, k - 1)
  }

  /** Halved k times, rounding up. */
  function Halved(x: nat, k: nat): (r: nat)
  {
    if k == 0 then x else Halved((x + 1) / 2, k - 1)
  }

  /** up_chroma_dim. */
  function ChromaDim(v: int, sub: int): nat {
    if v <= 0 || sub < 0 then 0 else Halved(v, if sub > 16 then 16 else sub)
  }

  function Pow2(k: nat): (p: nat)
    ensures p > 0
  {
    if k == 0 then 1 else 2 * Pow2(k - 1)
  }

  /** Rounding up at every halving is one division rounded up: v / 2^s + (v % 2^s != 0). */
  lemma {:induction false} HalvedIsCeiling(v: nat, k: nat)
    ensures var r := Halved(v, k); r * Pow2(k) >= v && (r == 0 || (r - 1) * Pow2(k) < v)
  {
    if k > 0 {
      HalvedIsCeiling((v + 1) / 2, k - 1);
      var r := Halved(v, k);
      DoubleProduct(r, Pow2(k - 1));
      if r > 0 {
        DoubleProduct(r - 1, Pow2(k - 1));
      }
    }
  }

  lemma DoubleProduct(r: nat, p: nat)
    ensures r * (2 * p) == 2 * (r * p)
  {
  }

  lemma AtOne(v: nat)
    ensures Shr(v, 1) == v / 2 && Halved(v, 1) == (v + 1) / 2
  {
    assert Shr(v / 2, 0) == v / 2 && Halved((v + 1) / 2, 0) == (v + 1) / 2;
  }

  lemma ChromaDimIsCeiling(v: nat, sub: nat)
    requires 0 < v && sub <= 16
    ensures var d := Pow2(sub); ChromaDim(v, sub) == v / d + (if v % d != 0 then 1 else 0)
  {
    HalvedIsCeiling(v, sub);
    var d, r := Pow2(sub), ChromaDim(v, sub);
    CeilingIsQuotient(v, d, r);
  }

  lemma CeilingIsQuotient(v: nat, d: nat, r: nat)
    requires 0 < v && 0 < d && r * d >= v && (r == 0 || (r - 1) * d < v)
    ensures r == v / d + (if v % d != 0 then 1 else 0)
  {
    DivBounds(v, d);
    var q := v / d;
    if v % d == 0 {
      assert v == q * d;
      if r < q { MulMonoStrict(r, q, d); }
      if r > q { MulMono(q, r - 1, d); }
    } else {
      assert (q + 1) * d == q * d + d;
      if r < q + 1 { MulMono(r, q, d); }
      if r > q + 1 { MulMono(q + 1, r - 1, d); }
    }
  }

  /** The cuts of one axis as they fall in a plane subsampled by 2^sub: each start shifted
      down, the end given. */
  function Shifted(s: seq<nat>, sub: nat, end: nat): (t: seq<nat>)
    requires |s| > 0
    ensures |t| == |s| && t[|s| - 1] == end
    ensures forall j | 0 <= j < |s| - 1 :: t[j] == Shr(s[j], sub)
  {
    seq(|s|, j requires 0 <= j < |s| => if j == |s| - 1 then end else Shr(s[j], sub))
  }

  /** Columns end at the plane's rounded-up width whatever the parity. */
  lemma ShiftedColumns(s: seq<nat>, n: nat, extent: nat, sub: nat)
    requires Cuts(s, n, extent) && sub <= 1
    ensures Rising(Shifted(s, sub, ChromaDim(extent, sub)))
    ensures var t := Shifted(s, sub, ChromaDim(extent, sub));
            forall j | 0 <= j < n :: ChromaDim(s[j + 1] as int - s[j], sub) == t[j + 1] - t[j]
  {
    var t := Shifted(s, sub, ChromaDim(extent, sub));
    AtOne(extent);
    forall j | 0 <= j < n ensures t[j] <= t[j + 1] && ChromaDim(s[j + 1] as int - s[j], sub) == t[j + 1] - t[j] {
      assert s[j] < s[j + 1];
      AtOne(s[j]);
      AtOne(s[j + 1]);
      AtOne(s[j + 1] - s[j]);
    }
  }

  /** Rows end at the shifted height: the plane's height, or one less if that was rounded up. */
  lemma ShiftedRows(s: seq<nat>, n: nat, extent: nat, sub: nat)
    requires Cuts(s, n, extent) && sub <= 1
    ensures Shr(extent, sub) == ChromaDim(extent, sub) - (if sub == 1 && extent % 2 == 1 then 1 else 0)
    ensures Rising(Shifted(s, sub, Shr(extent, sub)))
  {
    var t := Shifted(s, sub, Shr(extent, sub));
    AtOne(extent);
    forall j | 0 <= j < n ensures t[j] <= t[j + 1] {
      assert s[j] < s[j + 1];
      AtOne(s[j]);
      AtOne(s[j + 1]);
    }
  }

  // ------------------------------------------------------------- the cells

  /** The rows and columns of cell i: row i / cols, column i % cols. */
  datatype Cell = Cell(rows: Bounds, cols: Bounds)

  datatype MaybeCell = NoCell | SomeCell(c: Cell)

  /** The geometry zimg_pool_construct gives worker i. */
  function CellOf(f: Frame, rows: nat, cols: nat, i: nat): MaybeCell
    requires 0 < cols
  {
    var r := StripeBounds(i / cols, rows, f.srcH, f.dstH);
    var c := StripeBounds(i % cols, cols, f.srcW, f.dstW);
    if r.Ok() && c.Ok() then SomeCell(Cell(r.b, c.b)) else NoCell
  }

  datatype Rect = Rect(x: nat, y: nat, w: nat, h: int) {
    predicate Has(px: int, py: int) {
      x <= px < x + w && y <= py < y + h
    }
  }

  /** The picture a worker reads from, or the one it writes to. */
  datatype Side = Source | Destination

  function Width(side: Side, f: Frame): int {
    if side == Source then f.srcW else f.dstW
  }

  function Height(side: Side, f: Frame): int {
    if side == Source then f.srcH else f.dstH
  }

  /** Where cell c lies in a plane subsampled by 2^subW and 2^subH, as the copy functions
      compute it; the luma plane has both exponents 0. */
  function RectIn(side: Side, c: Cell, subW: nat, subH: nat): Rect {
    if side == Source then RectOf(c.cols.srcStart, c.cols.srcEnd, c.rows.srcStart, c.rows.srcEnd, subW, subH)
    else RectOf(c.cols.dstStart, c.cols.dstEnd, c.rows.dstStart, c.rows.dstEnd, subW, subH)
  }

  function RectOf(x0: nat, x1: nat, y0: nat, y1: nat, subW: nat, subH: nat): Rect {
    var y := Shr(y0, subH);
    Rect(Shr(x0, subW), y, ChromaDim(x1 as int - x0, subW), Shr(y1, subH) as int - y)
  }

  ghost predicate GridOk(f: Frame, stripeMin: int, colMin: int, rows: nat, cols: nat) {
    && 0 < f.srcW && 0 < f.srcH && 0 < f.dstW && 0 < f.dstH && 0 < rows && 0 < cols
    && AxisOk(rows, f.srcH, f.dstH, stripeMin) && AxisOk(cols, f.srcW, f.dstW, colMin)
  }

  /** Any plan for positive geometry is such a grid. */
  lemma PlansAreGrids(q: Request, p: Plan)
    requires 0 < q.frame.srcW && 0 < q.frame.srcH && 0 < q.frame.dstW && 0 < q.frame.dstH && Resolves(q, p)
    ensures GridOk(q.frame, q.stripeMin, ColMin(q), p.rows, p.cols)
  {
  }

  lemma CellIndex(i: nat, rows: nat, cols: nat)
    requires 0 < cols && i < rows * cols
    ensures i / cols < rows && i % cols < cols && (i / cols) * cols + i % cols == i
  {
    DivBelow(i, cols, rows);
  }

  lemma IndexOf(r: nat, c: nat, rows: nat, cols: nat)
    requires r < rows && c < cols
    ensures r * cols + c < rows * cols && (r * cols + c) / cols == r && (r * cols + c) % cols == c
  {
    MulMonoStrict(r, rows, cols);
    DivUnique(r * cols + c, cols, r);
    DivBounds(r * cols + c, cols);
  }

  lemma StripeIsCuts(j: nat, n: nat, src: nat, dst: nat, minimum: int)
    requires j < n && 0 < src && 0 < dst && AxisOk(n, src, dst, minimum)
    ensures var s := StripeBounds(j, n, src, dst);
            && s.Ok()
            && s.b == Bounds(SrcCuts(n, src, dst)[j], SrcCuts(n, src, dst)[j + 1],
                             DstCuts(n, dst)[j], DstCuts(n, dst)[j + 1])
  {
    assert StripeFits(j, n, src, dst, minimum);
    StripesMeet(j, n, src, dst);
  }

  /** The stripes of row r and column c. */
  function CellAt(f: Frame, rows: nat, cols: nat, r: nat, c: nat): Cell
    requires 0 < f.srcW && 0 < f.srcH && 0 < f.dstW && 0 < f.dstH && r < rows && c < cols
  {
    Cell(Bounds(SrcCuts(rows, f.srcH, f.dstH)[r], SrcCuts(rows, f.srcH, f.dstH)[r + 1],
                DstCuts(rows, f.dstH)[r], DstCuts(rows, f.dstH)[r + 1]),
         Bounds(SrcCuts(cols, f.srcW, f.dstW)[c], SrcCuts(cols, f.srcW, f.dstW)[c + 1],
                DstCuts(cols, f.dstW)[c], DstCuts(cols, f.dstW)[c + 1]))
  }

  /** No cell of a planned grid is rejected, and each is non-empty in both frames. */
  lemma CellsExist(f: Frame, stripeMin: int, colMin: int, rows: nat, cols: nat, i: nat) returns (r: nat, c: nat)
    requires GridOk(f, stripeMin, colMin, rows, cols) && i < rows * cols
    ensures r < rows && c < cols && r == i / cols && c == i % cols
    ensures CellOf(f, rows, cols, i) == SomeCell(CellAt(f, rows, cols, r, c))
    ensures CellAt(f, rows, cols, r, c).rows.NonEmpty() && CellAt(f, rows, cols, r, c).cols.NonEmpty()
  {
    r, c := i / cols, i % cols;
    CellIndex(i, rows, cols);
    StripeIsCuts(r, rows, f.srcH, f.dstH, stripeMin);
    StripeIsCuts(c, cols, f.srcW, f.dstW, colMin);
  }

  // ------------------------------------------------------------- the tiling

  function XCuts(side: Side, f: Frame, cols: nat): seq<nat>
    requires 0 < f.srcW && 0 < f.dstW && 0 < cols
  {
    if side == Source then SrcCuts(cols, f.srcW, f.dstW) else DstCuts(cols, f.dstW)
  }

  function YCuts(side: Side, f: Frame, rows: nat): seq<nat>
    requires 0 < f.srcH && 0 < f.dstH && 0 < rows
  {
    if side == Source then SrcCuts(rows, f.srcH, f.dstH) else DstCuts(rows, f.dstH)
  }

  lemma GridCuts(side: Side, f: Frame, stripeMin: int, colMin: int, rows: nat, cols: nat)
    requires GridOk(f, stripeMin, colMin, rows, cols)
    ensures Cuts(XCuts(side, f, cols), cols, Width(side, f)) && Cuts(YCuts(side, f, rows), rows, Height(side, f))
  {
    AxisCuts(rows, f.srcH, f.dstH, stripeMin);
    AxisCuts(cols, f.srcW, f.dstW, colMin);
  }

  /** The cell in row r and column c of the grid with the given cuts, in one plane. */
  function GridRect(xs: seq<nat>, ys: seq<nat>, r: nat, c: nat, subW: nat, subH: nat): Rect
    requires c + 1 < |xs| && r + 1 < |ys|
  {
    RectOf(xs[c], xs[c + 1], ys[r], ys[r + 1], subW, subH)
  }

  lemma CellIsGridRect(side: Side, f: Frame, stripeMin: int, colMin: int, rows: nat, cols: nat, i: nat,
                       subW: nat, subH: nat)
      returns (r: nat, c: nat)
    requires GridOk(f, stripeMin, colMin, rows, cols) && i < rows * cols
    ensures r < rows && c < cols && i == r * cols + c && CellOf(f, rows, cols, i).SomeCell?
    ensures |XCuts(side, f, cols)| == cols + 1 && |YCuts(side, f, rows)| == rows + 1
    ensures RectIn(side, CellOf(f, rows, cols, i).c, subW, subH)
            == GridRect(XCuts(side, f, cols), YCuts(side, f, rows), r, c, subW, subH)
  {
    r, c := CellsExist(f, stripeMin, colMin, rows, cols, i);
    CellIndex(i, rows, cols);
  }

  /** Sample (x, y) of a plane is in the cell of row r and column c and in no other. */
  ghost predicate OnlyIn(xs: seq<nat>, ys: seq<nat>, subW: nat, subH: nat, x: nat, y: nat, r: nat, c: nat) {
    && r + 1 < |ys| && c + 1 < |xs|
    && forall r': nat, c': nat | r' + 1 < |ys| && c' + 1 < |xs| ::
         GridRect(xs, ys, r', c', subW, subH).Has(x, y) <==> r' == r && c' == c
  }

  lemma RectOfShifted(xs: seq<nat>, ys: seq<nat>, rows: nat, cols: nat, w: nat, h: nat, subW: nat, subH: nat,
                      r: nat, c: nat)
    requires Cuts(xs, cols, w) && Cuts(ys, rows, h) && subW <= 1 && r < rows && c < cols
    ensures var xs' := Shifted(xs, subW, ChromaDim(w, subW));
            var ys' := Shifted(ys, subH, Shr(h, subH));
            var g := GridRect(xs, ys, r, c, subW, subH);
            g.x == xs'[c] && g.y == ys'[r] && g.x + g.w == xs'[c + 1] && g.y + g.h == ys'[r + 1]
  {
    ShiftedColumns(xs, cols, w, subW);
  }

  lemma GridTiles(xs: seq<nat>, ys: seq<nat>, rows: nat, cols: nat, w: nat, h: nat, subW: nat, subH: nat,
                  x: nat, y: nat)
      returns (r: nat, c: nat)
    requires Cuts(xs, cols, w) && Cuts(ys, rows, h) && subW <= 1 && subH <= 1
    requires x < ChromaDim(w, subW) && y < Shr(h, subH)
    ensures OnlyIn(xs, ys, subW, subH, x, y, r, c)
  {
    ShiftedColumns(xs, cols, w, subW);
    ShiftedRows(ys, rows, h, subH);
    var xs' := Shifted(xs, subW, ChromaDim(w, subW));
    var ys' := Shifted(ys, subH, Shr(h, subH));
    c, r := StripeOf(xs', x), StripeOf(ys', y);
    forall r': nat, c': nat | r' + 1 < |ys| && c' + 1 < |xs|
      ensures GridRect(xs, ys, r', c', subW, subH).Has(x, y) <==> r' == r && c' == c
    {
      RectOfShifted(xs, ys, rows, cols, w, h, subW, subH, r', c');
      if GridRect(xs, ys, r', c', subW, subH).Has(x, y) {
        OneStripeHolds(xs', x, c');
        OneStripeHolds(ys', y, r');
      }
    }
  }

  /** Each cell lies inside the plane. */
  lemma CellInside(side: Side, f: Frame, stripeMin: int, colMin: int, rows: nat, cols: nat, i: nat, subW: nat,
                   subH: nat)
    requires GridOk(f, stripeMin, colMin, rows, cols) && i < rows * cols && subW <= 1 && subH <= 1
    ensures CellOf(f, rows, cols, i).SomeCell?
    ensures var rect := RectIn(side, CellOf(f, rows, cols, i).c, subW, subH);
            && rect.x + rect.w <= ChromaDim(Width(side, f), subW)
            && 0 <= rect.h && rect.y + rect.h <= Shr(Height(side, f), subH)
  {
    GridCuts(side, f, stripeMin, colMin, rows, cols);
    var xs, ys, w, h := XCuts(side, f, cols), YCuts(side, f, rows), Width(side, f), Height(side, f);
    var r, c := CellIsGridRect(side, f, stripeMin, colMin, rows, cols, i, subW, subH);
    RectOfShifted(xs, ys, rows, cols, w, h, subW, subH, r, c);
    ShiftedColumns(xs, cols, w, subW);
    ShiftedRows(ys, rows, h, subH);
    RisingAcross(Shifted(xs, subW, ChromaDim(w, subW)), c + 1, cols);
    RisingAcross(Shifted(ys, subH, Shr(h, subH)), r, r + 1);
    RisingAcross(Shifted(ys, subH, Shr(h, subH)), r + 1, rows);
  }

  /** Cell i has sample (x, y) of a plane. */
  predicate CellHas(side: Side, f: Frame, rows: nat, cols: nat, subW: nat, subH: nat, i: nat, x: int, y: int)
    requires 0 < cols
  {
    var c := CellOf(f, rows, cols, i);
    c.SomeCell? && RectIn(side, c.c, subW, subH).Has(x, y)
  }

  /** Sample (x, y) of a plane is in cell i and in no other. */
  ghost predicate OwnedBy(side: Side, f: Frame, rows: nat, cols: nat, subW: nat, subH: nat, x: nat, y: nat, i: nat)
    requires 0 < cols
  {
    i < rows * cols && forall k: nat | k < rows * cols :: CellHas(side, f, rows, cols, subW, subH, k, x, y) <==> k == i
  }

  /** Every sample of a plane of either picture belongs to exactly one cell; with an odd
      height and subsampled rows, every sample above the last row. */
  lemma CellsTile(side: Side, f: Frame, stripeMin: int, colMin: int, rows: nat, cols: nat, subW: nat, subH: nat,
                  x: nat, y: nat)
      returns (i: nat)
    requires GridOk(f, stripeMin, colMin, rows, cols) && subW <= 1 && subH <= 1
    requires x < ChromaDim(Width(side, f), subW) && y < Shr(Height(side, f), subH)
    ensures OwnedBy(side, f, rows, cols, subW, subH, x, y, i)
  {
    GridCuts(side, f, stripeMin, colMin, rows, cols);
    var r, c := GridTiles(XCuts(side, f, cols), YCuts(side, f, rows), rows, cols, Width(side, f), Height(side, f),
                          subW, subH, x, y);
    i := r * cols + c;
    IndexOf(r, c, rows, cols);
    forall k: nat | k < rows * cols ensures CellHas(side, f, rows, cols, subW, subH, k, x, y) <==> k == i {
      var r', c' := CellIsGridRect(side, f, stripeMin, colMin, rows, cols, k, subW, subH);
      IndexOf(r', c', rows, cols);
    }
  }

  /** Two cells share no sample of any plane. */
  lemma CellsApart(side: Side, f: Frame, stripeMin: int, colMin: int, rows: nat, cols: nat, i: nat, k: nat,
                   subW: nat, subH: nat, x: nat, y: nat)
    requires GridOk(f, stripeMin, colMin, rows, cols) && subW <= 1 && subH <= 1
    requires i < rows * cols && k < rows * cols && i != k
    ensures !(CellHas(side, f, rows, cols, subW, subH, i, x, y) && CellHas(side, f, rows, cols, subW, subH, k, x, y))
  {
    CellInside(side, f, stripeMin, colMin, rows, cols, i, subW, subH);
    if CellHas(side, f, rows, cols, subW, subH, i, x, y) && CellHas(side, f, rows, cols, subW, subH, k, x, y) {
      var owner := CellsTile(side, f, stripeMin, colMin, rows, cols, subW, subH, x, y);
    }
  }

  // ------------------------------------------------------------- odd heights

  /** With an odd height and subsampled rows the last row of the chroma planes belongs to
      no cell at all: the copies round the end of the last stripe down. */
  lemma OddHeightLosesLastChromaRow(side: Side, f: Frame, stripeMin: int, colMin: int, rows: nat, cols: nat,
                                    subW: nat, x: nat, k: nat)
    requires GridOk(f, stripeMin, colMin, rows, cols) && subW <= 1 && k < rows * cols && Height(side, f) % 2 == 1
    ensures !CellHas(side, f, rows, cols, subW, 1, k, x, ChromaDim(Height(side, f), 1) - 1)
  {
    CellInside(side, f, stripeMin, colMin, rows, cols, k, subW, 1);
    AtOne(Height(side, f));
  }

  ghost predicate Owned(side: Side, f: Frame, rows: nat, cols: nat, subW: nat, subH: nat, x: nat, y: nat)
    requires 0 < cols
  {
    exists i: nat :: OwnedBy(side, f, rows, cols, subW, subH, x, y, i)
  }

  /** So the cells tile the row-subsampled planes of a picture exactly if its height is
      even. */
  lemma ChromaTiledIffEvenHeight(side: Side, f: Frame, stripeMin: int, colMin: int, rows: nat, cols: nat, subW: nat)
    requires GridOk(f, stripeMin, colMin, rows, cols) && subW <= 1
    ensures (forall x: nat, y: nat | x < ChromaDim(Width(side, f), subW) && y < ChromaDim(Height(side, f), 1) ::
               Owned(side, f, rows, cols, subW, 1, x, y))
            <==> Height(side, f) % 2 == 0
  {
    var w, h := Width(side, f), Height(side, f);
    AtOne(h);
    AtOne(w);
    if h % 2 == 0 {
      forall x: nat, y: nat | x < ChromaDim(w, subW) && y < ChromaDim(h, 1)
        ensures Owned(side, f, rows, cols, subW, 1, x, y)
      {
        var i := CellsTile(side, f, stripeMin, colMin, rows, cols, subW, 1, x, y);
      }
    } else {
      LastChromaRowUnowned(side, f, stripeMin, colMin, rows, cols, subW);
    }
  }

  lemma LastChromaRowUnowned(side: Side, f: Frame, stripeMin: int, colMin: int, rows: nat, cols: nat, subW: nat)
    requires GridOk(f, stripeMin, colMin, rows, cols) && subW <= 1
    requires Height(side, f) % 2 == 1 && ChromaDim(Height(side, f), 1) > 0
    ensures !Owned(side, f, rows, cols, subW, 1, 0, ChromaDim(Height(side, f), 1) - 1)
  {
    var y: nat := ChromaDim(Height(side, f), 1) - 1;
    if Owned(side, f, rows, cols, subW, 1, 0, y) {
      var i: nat :| OwnedBy(side, f, rows, cols, subW, 1, 0, y, i);
      OddHeightLosesLastChromaRow(side, f, stripeMin, colMin, rows, cols, subW, 0, i);
    }
  }

  /** For instance the single cell of a 2 x 3 frame misses row 1 of its 1 x 2 chroma planes. */
  lemma OddHeightWitness()
    ensures var f := Frame(2, 2, 2, 3);
            GridOk(f, 1, 1, 1, 1) && ChromaDim(3, 1) == 2 && !Owned(Destination, f, 1, 1, 1, 1, 0, 1)
  {
    var f := Frame(2, 2, 2, 3);
    OneIsOk(f.srcH, f.dstH, 1);
    OneIsOk(f.srcW, f.dstW, 1);
    AtOne(3);
    LastChromaRowUnowned(Destination, f, 1, 1, 1, 1, 1);
  }
}
