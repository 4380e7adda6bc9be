/** The content probe (content_probe.h): both sharpness and blockiness in one sweep over
    the luma plane, against the three separate sweeps of content_probe_reference.h. */
module ContentProbe {
  import opened Arith
  import opened Planes

  const GRID_STEP := 4
  const BLOCK_SIZE := 8
  const WINDOW_FRAMES := 60

  // ------------------------------------------------------------- what is summed

  function Pixel(p: seq<Byte>, stride: nat, y: int, x: int): int {
    if 0 <= y && 0 <= x && RowStart(stride, y) + x < |p| then p[RowStart(stride, y) + x] as int else 0
  }

  function Abs(d: int): nat {
    if d < 0 then -d else d
  }

  /** Squared Laplacian, or the step across a vertical or a horizontal block edge. */
  datatype Kind = Laplacian | Vertical | Horizontal

  function Term(kind: Kind, p: seq<Byte>, stride: nat, y: int, x: int): nat {
    match kind
    case Laplacian =>
      Square(4 * Pixel(p, stride, y, x)
             - (Pixel(p, stride, y - 1, x) + Pixel(p, stride, y + 1, x)
                + Pixel(p, stride, y, x - 1) + Pixel(p, stride, y, x + 1)))
    case Vertical => Abs(Pixel(p, stride, y, x) - Pixel(p, stride, y, x - 1))
    case Horizontal => Abs(Pixel(p, stride, y, x) - Pixel(p, stride, y - 1, x))
  }

  function Square(d: int): nat {
    d * d
  }

  /** The grids have pitch 4 or 8. */
  predicate OnGrid(v: int, step: int) {
    if step == BLOCK_SIZE then v % 8 == 0 else v % 4 == 0
  }

  /** The terms of row y at all grid columns lo <= x < hi. */
  function RowSum(kind: Kind, p: seq<Byte>, stride: nat, y: int, step: int, lo: int, hi: int): nat
    decreases hi - lo
  {
    if hi <= lo then 0
    else RowSum(kind, p, stride, y, step, lo, hi - 1)
         + if OnGrid(hi - 1, step) then Term(kind, p, stride, y, hi - 1) else 0
  }

  function RowCount(step: int, lo: int, hi: int): nat
    decreases hi - lo
  {
    if hi <= lo then 0 else RowCount(step, lo, hi - 1) + if OnGrid(hi - 1, step) then 1 else 0
  }

  /** Which samples a metric takes: grid rows and columns within bounds. */
  datatype Grid = Grid(kind: Kind, stepY: int, loY: int, stepX: int, loX: int, hiX: int)

  /** The terms of all grid rows up to row hi. */
  function PlaneSum(g: Grid, p: seq<Byte>, stride: nat, hi: int): nat
    decreases hi - g.loY
  {
    if hi <= g.loY then 0
    else PlaneSum(g, p, stride, hi - 1)
         + if OnGrid(hi - 1, g.stepY) then RowSum(g.kind, p, stride, hi - 1, g.stepX, g.loX, g.hiX) else 0
  }

  function PlaneCount(g: Grid, hi: int): nat
    decreases hi - g.loY
  {
    if hi <= g.loY then 0
    else PlaneCount(g, hi - 1) + if OnGrid(hi - 1, g.stepY) then RowCount(g.stepX, g.loX, g.hiX) else 0
  }

  function LapGrid(w: int): Grid {
    Grid(Laplacian, GRID_STEP, GRID_STEP, GRID_STEP, GRID_STEP, w - 1)
  }

  function VerticalGrid(w: int): Grid {
    Grid(Vertical, GRID_STEP, 0, BLOCK_SIZE, BLOCK_SIZE, w)
  }

  function HorizontalGrid(w: int): Grid {
    Grid(Horizontal, BLOCK_SIZE, BLOCK_SIZE, GRID_STEP, 0, w)
  }

  lemma OffGrid(x: int, step: int, k: int)
    requires step in {GRID_STEP, BLOCK_SIZE} && OnGrid(x, step) && x < k < x + step
    ensures !OnGrid(k, step)
  {
    if step == BLOCK_SIZE {
      assert k == 8 * (x / 8) + (k - x);
    } else {
      assert k == 4 * (x / 4) + (k - x);
    }
  }

  lemma NextOnGrid(x: int, step: int)
    requires step in {GRID_STEP, BLOCK_SIZE} && OnGrid(x, step)
    ensures OnGrid(x + step, step)
  {
  }

  lemma {:induction false} RowAdvance(kind: Kind, p: seq<Byte>, stride: nat, y: int, step: int, lo: int, x: int,
                                      next: int)
    requires step in {GRID_STEP, BLOCK_SIZE} && OnGrid(x, step) && lo <= x < next <= x + step
    ensures RowSum(kind, p, stride, y, step, lo, next)
            == RowSum(kind, p, stride, y, step, lo, x) + Term(kind, p, stride, y, x)
    ensures RowCount(step, lo, next) == RowCount(step, lo, x) + 1
    decreases next - x
  {
    if next > x + 1 {
      RowAdvance(kind, p, stride, y, step, lo, x, next - 1);
      OffGrid(x, step, next - 1);
    }
  }

  /** From row y to row `next` only row y itself can be on the grid. */
  lemma {:induction false} PlaneAdvance(g: Grid, p: seq<Byte>, stride: nat, y: int, next: int)
    requires y <= next && (forall k | y < k < next :: !OnGrid(k, g.stepY)) && (g.loY <= y || next <= g.loY)
    ensures PlaneSum(g, p, stride, next) == PlaneSum(g, p, stride, y)
              + (if g.loY <= y < next && OnGrid(y, g.stepY)
                 then RowSum(g.kind, p, stride, y, g.stepX, g.loX, g.hiX) else 0)
    ensures PlaneCount(g, next) == PlaneCount(g, y)
              + (if g.loY <= y < next && OnGrid(y, g.stepY) then RowCount(g.stepX, g.loX, g.hiX) else 0)
    decreases next - y
  {
    if next > y + 1 && next > g.loY {
      PlaneAdvance(g, p, stride, y, next - 1);
    }
  }

  // ------------------------------------------------------------- the fused sweep

  datatype Metrics = Metrics(lapSum: nat, lapN: nat, edgeSum: nat, edgeN: nat)

  /** The plane holds w x h readable bytes. */
  ghost predicate Readable(plane: array<Byte>, stride: int, w: int, h: int) {
    w <= stride && 0 < stride && (0 < w && 0 < h ==> RowStart(stride, h - 1) + w <= plane.Length)
  }

  lemma InBounds(plane: array<Byte>, stride: int, w: int, h: int, y: int, x: int)
    requires Readable(plane, stride, w, h) && 0 <= y < h && 0 <= x < w
    ensures RowStart(stride, y) + x < plane.Length
            && Pixel(plane[..], stride, y, x) == plane[RowStart(stride, y) + x] as int
  {
    RowInPlane(Geom(stride, w, h), plane.Length, y);
  }

  /** One byte of the plane; its precondition is that the read is in bounds. */
  method Read(plane: array<Byte>, stride: int, w: int, h: int, y: int, x: int) returns (v: int)
    requires Readable(plane, stride, w, h) && 0 <= y < h && 0 <= x < w
    ensures v == Pixel(plane[..], stride, y, x)
  {
    InBounds(plane, stride, w, h, y, x);
    v := plane[RowStart(stride, y) + x] as int;
  }

  /** up_probe__lap_row. */
  method LapRow(plane: array<Byte>, stride: int, w: int, h: int, y: int, m: Metrics) returns (m': Metrics)
    requires Readable(plane, stride, w, h) && 0 <= y < h
    ensures m' == if y < GRID_STEP || y + 1 >= h then m
                  else m.(lapSum := m.lapSum + RowSum(Laplacian, plane[..], stride, y, GRID_STEP, GRID_STEP, w - 1),
                          lapN := m.lapN + RowCount(GRID_STEP, GRID_STEP, w - 1))
  {
    m' := m;
    if y < GRID_STEP || y + 1 >= h {
      return;
    }
    var x := GRID_STEP;
    ghost var end := if w - 1 < GRID_STEP then w - 1 else GRID_STEP;
    while x < w - 1
      invariant GRID_STEP <= x && OnGrid(x, GRID_STEP) && end == if x < w - 1 then x else w - 1
      invariant m'.lapSum == m.lapSum + RowSum(Laplacian, plane[..], stride, y, GRID_STEP, GRID_STEP, end)
      invariant m'.lapN == m.lapN + RowCount(GRID_STEP, GRID_STEP, end)
      invariant m'.edgeSum == m.edgeSum && m'.edgeN == m.edgeN
    {
      var c := Read(plane, stride, w, h, y, x);
      var u := Read(plane, stride, w, h, y - 1, x);
      var d := Read(plane, stride, w, h, y + 1, x);
      var l := Read(plane, stride, w, h, y, x - 1);
      var r := Read(plane, stride, w, h, y, x + 1);
      var lap := 4 * c - (u + d + l + r);
      end := if x + GRID_STEP < w - 1 then x + GRID_STEP else w - 1;
      RowAdvance(Laplacian, plane[..], stride, y, GRID_STEP, GRID_STEP, x, end);
      m' := m'.(lapSum := m'.lapSum + Square(lap), lapN := m'.lapN + 1);
      NextOnGrid(x, GRID_STEP);
      x := x + GRID_STEP;
    }
  }

  /** The two loops of up_probe__edge_rows, which differ in kind, pitch and first column. */
  method EdgeRow(kind: Kind, plane: array<Byte>, stride: int, w: int, h: int, y: int, step: int, lo: int, m: Metrics)
      returns (m': Metrics)
    requires Readable(plane, stride, w, h) && 0 <= y < h && step in {GRID_STEP, BLOCK_SIZE}
    requires lo in {0, BLOCK_SIZE} && lo < w
    requires (kind == Vertical && lo > 0) || (kind == Horizontal && y > 0)
    ensures m' == m.(edgeSum := m.edgeSum + RowSum(kind, plane[..], stride, y, step, lo, w),
                     edgeN := m.edgeN + RowCount(step, lo, w))
  {
    m' := m;
    var x := lo;
    ghost var end := x;
    while x < w
      invariant lo <= x && OnGrid(x, step) && end == if x < w then x else w
      invariant m'.edgeSum == m.edgeSum + RowSum(kind, plane[..], stride, y, step, lo, end)
      invariant m'.edgeN == m.edgeN + RowCount(step, lo, end)
      invariant m'.lapSum == m.lapSum && m'.lapN == m.lapN
    {
      var c := Read(plane, stride, w, h, y, x);
      var o;
      if kind == Vertical {
        o := Read(plane, stride, w, h, y, x - 1);
      } else {
        o := Read(plane, stride, w, h, y - 1, x);
      }
      var diff := c - o;
      end := if x + step < w then x + step else w;
      RowAdvance(kind, plane[..], stride, y, step, lo, x, end);
      m' := m'.(edgeSum := m'.edgeSum + Abs(diff), edgeN := m'.edgeN + 1);
      NextOnGrid(x, step);
      x := x + step;
    }
  }

  /** up_probe__edge_rows. */
  method EdgeRows(plane: array<Byte>, stride: int, w: int, h: int, y: int, m: Metrics) returns (m': Metrics)
    requires Readable(plane, stride, w, h) && 0 <= y < h
    ensures w <= BLOCK_SIZE || h <= BLOCK_SIZE ==> m' == m
    ensures w > BLOCK_SIZE && h > BLOCK_SIZE ==>
              var both := y >= BLOCK_SIZE && y % BLOCK_SIZE == 0;
              m' == m.(edgeSum := m.edgeSum + RowSum(Vertical, plane[..], stride, y, BLOCK_SIZE, BLOCK_SIZE, w)
                                  + (if both then RowSum(Horizontal, plane[..], stride, y, GRID_STEP, 0, w) else 0),
                       edgeN := m.edgeN + RowCount(BLOCK_SIZE, BLOCK_SIZE, w)
                                + (if both then RowCount(GRID_STEP, 0, w) else 0))
  {
    m' := m;
    if w <= BLOCK_SIZE || h <= BLOCK_SIZE {
      return;
    }
    m' := EdgeRow(Vertical, plane, stride, w, h, y, BLOCK_SIZE, BLOCK_SIZE, m');
    if y < BLOCK_SIZE || y % BLOCK_SIZE != 0 {
      return;
    }
    m' := EdgeRow(Horizontal, plane, stride, w, h, y, GRID_STEP, 0, m');
  }

  /** What the separate sweeps of the reference add up. */
  ghost function Reference(p: seq<Byte>, stride: int, w: int, h: int): Metrics
    requires 0 < stride
  {
    var lap := w > 2 && h > 2;
    var edge := w > BLOCK_SIZE && h > BLOCK_SIZE;
    Metrics(if lap then PlaneSum(LapGrid(w), p, stride, h - 1) else 0,
            if lap then PlaneCount(LapGrid(w), h - 1) else 0,
            if edge then PlaneSum(VerticalGrid(w), p, stride, h) + PlaneSum(HorizontalGrid(w), p, stride, h) else 0,
            if edge then PlaneCount(VerticalGrid(w), h) + PlaneCount(HorizontalGrid(w), h) else 0)
  }

  /** How far the fused sweep has got when it reaches row y. */
  ghost predicate SweptTo(m: Metrics, p: seq<Byte>, stride: int, w: int, h: int, y: int)
    requires 0 < stride
  {
    var a, b := Least(y, h - 1), Least(y, h);
    var edge := w > BLOCK_SIZE && h > BLOCK_SIZE;
    && m.lapSum == PlaneSum(LapGrid(w), p, stride, a) && m.lapN == PlaneCount(LapGrid(w), a)
    && m.edgeSum == (if edge
                     then PlaneSum(VerticalGrid(w), p, stride, b) + PlaneSum(HorizontalGrid(w), p, stride, b) else 0)
    && m.edgeN == (if edge then PlaneCount(VerticalGrid(w), b) + PlaneCount(HorizontalGrid(w), b) else 0)
  }

  function Least(a: int, b: int): int {
    if a < b then a else b
  }

  /** One row of the fused sweep does one row of each of the three separate ones. */
  lemma SweepRow(p: seq<Byte>, stride: int, w: int, h: int, y: int)
    requires 0 < stride && 0 <= y < h && y % 4 == 0
    ensures var a, a' := Least(y, h - 1), Least(y + GRID_STEP, h - 1);
            var lap := GRID_STEP <= y && y + 1 < h;
            && PlaneSum(LapGrid(w), p, stride, a') == PlaneSum(LapGrid(w), p, stride, a)
                 + (if lap then RowSum(Laplacian, p, stride, y, GRID_STEP, GRID_STEP, w - 1) else 0)
            && PlaneCount(LapGrid(w), a')
               == PlaneCount(LapGrid(w), a) + (if lap then RowCount(GRID_STEP, GRID_STEP, w - 1) else 0)
  {
    var a, a' := Least(y, h - 1), Least(y + GRID_STEP, h - 1);
    PlaneAdvance(LapGrid(w), p, stride, a, a');
  }

  lemma SweepEdges(p: seq<Byte>, stride: int, w: int, h: int, y: int)
    requires 0 < stride && 0 <= y < h && y % 4 == 0
    ensures var b' := Least(y + GRID_STEP, h);
            var both := y >= BLOCK_SIZE && y % BLOCK_SIZE == 0;
            && PlaneSum(VerticalGrid(w), p, stride, b') == PlaneSum(VerticalGrid(w), p, stride, y)
                 + RowSum(Vertical, p, stride, y, BLOCK_SIZE, BLOCK_SIZE, w)
            && PlaneCount(VerticalGrid(w), b') == PlaneCount(VerticalGrid(w), y) + RowCount(BLOCK_SIZE, BLOCK_SIZE, w)
            && PlaneSum(HorizontalGrid(w), p, stride, b') == PlaneSum(HorizontalGrid(w), p, stride, y)
                 + (if both then RowSum(Horizontal, p, stride, y, GRID_STEP, 0, w) else 0)
            && PlaneCount(HorizontalGrid(w), b')
               == PlaneCount(HorizontalGrid(w), y) + (if both then RowCount(GRID_STEP, 0, w) else 0)
  {
    var b' := Least(y + GRID_STEP, h);
    PlaneAdvance(VerticalGrid(w), p, stride, y, b');
    PlaneAdvance(HorizontalGrid(w), p, stride, y, b');
  }

  /** Nothing to sum: too small for either metric. */
  lemma {:induction false} EmptyRows(g: Grid, p: seq<Byte>, stride: nat, hi: int)
    requires g.hiX <= g.loX || hi <= g.loY
    ensures PlaneSum(g, p, stride, hi) == 0 && PlaneCount(g, hi) == 0
    decreases hi - g.loY
  {
    if hi > g.loY {
      EmptyRows(g, p, stride, hi - 1);
    }
  }

  lemma SweepStart(p: seq<Byte>, stride: int, w: int, h: int)
    requires 0 < stride
    ensures SweptTo(Metrics(0, 0, 0, 0), p, stride, w, h, 0)
  {
    EmptyRows(LapGrid(w), p, stride, Least(0, h - 1));
    EmptyRows(VerticalGrid(w), p, stride, 0);
    EmptyRows(HorizontalGrid(w), p, stride, 0);
  }

  lemma SweepEnd(m: Metrics, p: seq<Byte>, stride: int, w: int, h: int, y: int)
    requires 0 < stride && h <= y && 0 <= y && SweptTo(m, p, stride, w, h, y)
    ensures m == Reference(p, stride, w, h)
  {
    if w <= 2 || h <= 2 {
      EmptyRows(LapGrid(w), p, stride, h - 1);
    }
  }

  /** up_probe_metrics: the fused sweep returns exactly the sums and sample counts of the
      separate sweeps, for every shape, and reads only bytes of the plane. */
  method FusedMetrics(plane: array?<Byte>, stride: int, w: int, h: int) returns (m: Metrics)
    requires plane != null && stride > 0 && stride >= w ==> Readable(plane, stride, w, h)
    ensures m == if plane == null || stride <= 0 || stride < w then Metrics(0, 0, 0, 0)
                 else Reference(plane[..], stride, w, h)
  {
    m := Metrics(0, 0, 0, 0);
    if plane == null || stride <= 0 || stride < w {
      return;
    }
    var y := 0;
    SweepStart(plane[..], stride, w, h);
    while y < h
      invariant 0 <= y && y % 4 == 0 && SweptTo(m, plane[..], stride, w, h, y)
      decreases h - y
    {
      m := SweepOnce(plane, stride, w, h, y, m);
      y := y + GRID_STEP;
    }
    SweepEnd(m, plane[..], stride, w, h, y);
  }

  method SweepOnce(plane: array<Byte>, stride: int, w: int, h: int, y: int, m: Metrics) returns (m': Metrics)
    requires Readable(plane, stride, w, h) && 0 <= y < h && y % 4 == 0 && SweptTo(m, plane[..], stride, w, h, y)
    ensures SweptTo(m', plane[..], stride, w, h, y + GRID_STEP)
  {
    SweepRow(plane[..], stride, w, h, y);
    SweepEdges(plane[..], stride, w, h, y);
    m' := LapRow(plane, stride, w, h, y, m);
    m' := EdgeRows(plane, stride, w, h, y, m');
  }

  // ------------------------------------------------------------- the reference sweeps

  /** up_laplacian_variance. */
  method LaplacianSweep(plane: array<Byte>, stride: int, w: int, h: int) returns (sum: nat, n: nat)
    requires stride > 0 && stride >= w ==> Readable(plane, stride, w, h)
    ensures if stride <= 0 || stride < w then sum == 0 && n == 0
            else sum == Reference(plane[..], stride, w, h).lapSum && n == Reference(plane[..], stride, w, h).lapN
  {
    sum, n := 0, 0;
    if stride <= 0 || stride < w || w <= 2 || h <= 2 {
      return;
    }
    var y := GRID_STEP;
    EmptyRows(LapGrid(w), plane[..], stride, Least(y, h - 1));
    while y < h - 1
      invariant GRID_STEP <= y && y % 4 == 0
      invariant sum == PlaneSum(LapGrid(w), plane[..], stride, Least(y, h - 1))
                && n == PlaneCount(LapGrid(w), Least(y, h - 1))
    {
      var m := LapRow(plane, stride, w, h, y, Metrics(sum, n, 0, 0));
      SweepRow(plane[..], stride, w, h, y);
      sum, n := m.lapSum, m.lapN;
      y := y + GRID_STEP;
    }
  }

  lemma GridAdvance(g: Grid, p: seq<Byte>, stride: nat, y: int, next: int)
    requires g.stepY in {GRID_STEP, BLOCK_SIZE} && OnGrid(y, g.stepY) && g.loY <= y < next <= y + g.stepY
    ensures PlaneSum(g, p, stride, next)
            == PlaneSum(g, p, stride, y) + RowSum(g.kind, p, stride, y, g.stepX, g.loX, g.hiX)
    ensures PlaneCount(g, next) == PlaneCount(g, y) + RowCount(g.stepX, g.loX, g.hiX)
    ensures OnGrid(y + g.stepY, g.stepY)
  {
    forall k | y < k < next ensures !OnGrid(k, g.stepY) {
      OffGrid(y, g.stepY, k);
    }
    PlaneAdvance(g, p, stride, y, next);
    NextOnGrid(y, g.stepY);
  }

  /** up_block_edge_vertical and up_block_edge_horizontal. */
  method EdgeSweep(g: Grid, plane: array<Byte>, stride: int, w: int, h: int) returns (sum: nat, n: nat)
    requires Readable(plane, stride, w, h) && w > BLOCK_SIZE && h > BLOCK_SIZE
             && g in {VerticalGrid(w), HorizontalGrid(w)}
    ensures sum == PlaneSum(g, plane[..], stride, h) && n == PlaneCount(g, h)
  {
    var y := g.loY;
    sum, n := 0, 0;
    while y < h
      invariant g.loY <= y && OnGrid(y, g.stepY)
      invariant sum == PlaneSum(g, plane[..], stride, Least(y, h)) && n == PlaneCount(g, Least(y, h))
      decreases h - y
    {
      var m := EdgeRow(g.kind, plane, stride, w, h, y, g.stepX, g.loX, Metrics(0, 0, sum, n));
      GridAdvance(g, plane[..], stride, y, Least(y + g.stepY, h));
      sum, n := m.edgeSum, m.edgeN;
      y := y + g.stepY;
    }
  }

  /** up_block_edge_strength. */
  method BlockEdgeStrength(plane: array<Byte>, stride: int, w: int, h: int) returns (sum: nat, n: nat)
    requires stride > 0 && stride >= w ==> Readable(plane, stride, w, h)
    ensures if stride <= 0 || stride < w then sum == 0 && n == 0
            else sum == Reference(plane[..], stride, w, h).edgeSum && n == Reference(plane[..], stride, w, h).edgeN
  {
    sum, n := 0, 0;
    if stride <= 0 || stride < w || w <= BLOCK_SIZE || h <= BLOCK_SIZE {
      return;
    }
    sum, n := EdgeSweep(VerticalGrid(w), plane, stride, w, h);
    var sumH, nH := EdgeSweep(HorizontalGrid(w), plane, stride, w, h);
    sum, n := sum + sumH, n + nH;
  }

  // ------------------------------------------------------------- 64 bits suffice

  const TERM_MAX := 1020 * 1020

  lemma TermBound(kind: Kind, p: seq<Byte>, stride: nat, y: int, x: int)
    ensures Term(kind, p, stride, y, x) <= TERM_MAX
  {
    if kind == Laplacian {
      var d := 4 * Pixel(p, stride, y, x)
               - (Pixel(p, stride, y - 1, x) + Pixel(p, stride, y + 1, x)
                  + Pixel(p, stride, y, x - 1) + Pixel(p, stride, y, x + 1));
      SquareBound(d);
    }
  }

  lemma SquareBound(d: int)
    requires -1020 <= d <= 1020
    ensures Square(d) <= TERM_MAX
  {
    assert d * d == Abs(d) * Abs(d);
    MulMono(Abs(d), 1020, Abs(d));
    MulMono(Abs(d), 1020, 1020);
  }

  lemma {:induction false} RowBound(kind: Kind, p: seq<Byte>, stride: nat, y: int, step: int, lo: int, hi: int)
    ensures RowSum(kind, p, stride, y, step, lo, hi) <= TERM_MAX * RowCount(step, lo, hi)
    decreases hi - lo
  {
    if hi > lo {
      RowBound(kind, p, stride, y, step, lo, hi - 1);
      TermBound(kind, p, stride, y, hi - 1);
    }
  }

  lemma {:induction false} RowCountBound(step: int, lo: int, hi: int)
    ensures RowCount(step, lo, hi) <= if hi > lo then hi - lo else 0
    decreases hi - lo
  {
    if hi > lo {
      RowCountBound(step, lo, hi - 1);
    }
  }

  lemma {:induction false} PlaneBound(g: Grid, p: seq<Byte>, stride: nat, hi: int)
    ensures PlaneSum(g, p, stride, hi) <= TERM_MAX * PlaneCount(g, hi)
    decreases hi - g.loY
  {
    if hi > g.loY {
      PlaneBound(g, p, stride, hi - 1);
      RowBound(g.kind, p, stride, hi - 1, g.stepX, g.loX, g.hiX);
    }
  }

  lemma {:induction false} PlaneCountBound(g: Grid, hi: int, width: nat)
    requires g.hiX - g.loX <= width
    ensures PlaneCount(g, hi) <= if hi > g.loY then width * (hi - g.loY) else 0
    decreases hi - g.loY
  {
    if hi > g.loY {
      PlaneCountBound(g, hi - 1, width);
      RowCountBound(g.stepX, g.loX, g.hiX);
      assert width * (hi - g.loY) == width * (hi - 1 - g.loY) + width;
    }
  }

  /** One frame of up to 32768 x 32768 pixels. */
  const FRAME_MAX := TERM_MAX * 2 * 32768 * 32768

  predicate Small(m: Metrics) {
    m.lapSum <= FRAME_MAX && m.lapN <= FRAME_MAX && m.edgeSum <= FRAME_MAX && m.edgeN <= FRAME_MAX
  }

  lemma FrameBound(p: seq<Byte>, stride: int, w: int, h: int)
    requires 0 < stride && w <= 32768 && h <= 32768
    ensures Small(Reference(p, stride, w, h))
  {
    GridBound(LapGrid(w), p, stride, h - 1);
    GridBound(VerticalGrid(w), p, stride, h);
    GridBound(HorizontalGrid(w), p, stride, h);
  }

  lemma GridBound(g: Grid, p: seq<Byte>, stride: nat, hi: int)
    requires g.hiX - g.loX <= 32768 && hi <= 32768 && 0 <= g.loY
    ensures PlaneSum(g, p, stride, hi) <= TERM_MAX * 32768 * 32768 && PlaneCount(g, hi) <= 32768 * 32768
  {
    PlaneBound(g, p, stride, hi);
    PlaneCountBound(g, hi, 32768);
  }

  /** up_probe_observe over a run of frames. */
  function Accumulate(frames: seq<Metrics>): Metrics {
    if frames == [] then Metrics(0, 0, 0, 0)
    else
      var a, m := Accumulate(frames[..|frames| - 1]), frames[|frames| - 1];
      Metrics(a.lapSum + m.lapSum, a.lapN + m.lapN, a.edgeSum + m.edgeSum, a.edgeN + m.edgeN)
  }

  lemma {:induction false} AccumulateBound(frames: seq<Metrics>)
    requires forall k | 0 <= k < |frames| :: Small(frames[k])
    ensures var a := Accumulate(frames);
            && a.lapSum <= |frames| * FRAME_MAX && a.lapN <= |frames| * FRAME_MAX
            && a.edgeSum <= |frames| * FRAME_MAX && a.edgeN <= |frames| * FRAME_MAX
  {
    if frames != [] {
      AccumulateBound(frames[..|frames| - 1]);
      assert Small(frames[|frames| - 1]);
    }
  }

  /** Over the whole 60-frame window no 64-bit accumulator can wrap. */
  lemma WindowFitsIn64Bits(frames: seq<Metrics>)
    requires |frames| <= WINDOW_FRAMES && forall k | 0 <= k < |frames| :: Small(frames[k])
    ensures var a := Accumulate(frames);
            a.lapSum < 0x1_0000_0000_0000_0000 && a.lapN < 0x1_0000_0000_0000_0000
            && a.edgeSum < 0x1_0000_0000_0000_0000 && a.edgeN < 0x1_0000_0000_0000_0000
  {
    AccumulateBound(frames);
    assert |frames| * FRAME_MAX <= WINDOW_FRAMES * FRAME_MAX;
  }
}
