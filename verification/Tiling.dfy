/** Splitting a frame into a grid of worker cells (plane_utils.h): the even-aligned
    partition of one axis and the search for the grid with the most cells. */
module Tiling {
  import opened Arith
  import ThreadPolicy

  const TILE_THREADS_MAX := ThreadPolicy.THREADS_MAX

  /** UP_ALIGN_DOWN_2. */
  function Even(x: nat): nat {
    x - x % 2
  }

  datatype Bounds = Bounds(srcStart: nat, srcEnd: nat, dstStart: nat, dstEnd: nat) {
    predicate NonEmpty() {
      dstEnd > dstStart && srcEnd > srcStart
    }
  }

  /** What up_compute_stripe_bounds leaves behind: nothing for bad arguments. */
  datatype Stripe = BadArgs | Stripe(b: Bounds) {
    /** Its return value. */
    predicate Ok() {
      Stripe? && b.NonEmpty()
    }
  }

  /** up_compute_stripe_bounds for stripe i of n along one axis. */
  function StripeBounds(i: int, n: int, src: int, dst: int): Stripe {
    if n <= 0 || src <= 0 || dst <= 0 || i < 0 || i >= n then BadArgs
    else
      var dstStart := if i == 0 then 0 else Even(Share(i, dst, n));
      var dstEnd := if i == n - 1 then dst else Even(Share(i + 1, dst, n));
      var srcStart := if i == 0 then 0 else Even(Share(src, dstStart, dst));
      var srcEnd := if i == n - 1 then src else Even(Share(src, dstEnd, dst));
      Stripe(Bounds(srcStart, srcEnd, dstStart, dstEnd))
  }

  /** Cut i of the n + 1 cuts that bound the n destination stripes. */
  function DstCut(i: nat, n: nat, dst: nat): nat
    requires 0 < n
  {
    if i == 0 then 0 else if i == n then dst else Even(Share(i, dst, n))
  }

  function SrcCut(i: nat, n: nat, src: nat, dst: nat): nat
    requires 0 < n && 0 < dst
  {
    if i == 0 then 0 else if i == n then src else Even(Share(src, DstCut(i, n, dst), dst))
  }

  /** Neighbours share their boundary, in both frames: where one stripe ends the next
      begins, the first begins at 0 and the last ends at the edge. */
  lemma StripesMeet(i: nat, n: nat, src: nat, dst: nat)
    requires i < n && 0 < src && 0 < dst
    ensures StripeBounds(i, n, src, dst)
            == Stripe(Bounds(SrcCut(i, n, src, dst), SrcCut(i + 1, n, src, dst),
                             DstCut(i, n, dst), DstCut(i + 1, n, dst)))
  {
  }

  /** Every cut lies in the frame, so the 64-bit product narrowed to int is exact. */
  lemma CutsInside(i: nat, n: nat, src: nat, dst: nat)
    requires i <= n && 0 < n && 0 < src && 0 < dst
    ensures DstCut(i, n, dst) <= dst && SrcCut(i, n, src, dst) <= src
  {
    if 0 < i < n {
      QuotientInside(i, dst, n);
      QuotientInside(DstCut(i, n, dst), src, dst);
      assert src * DstCut(i, n, dst) == DstCut(i, n, dst) * src;
      assert Share(src, DstCut(i, n, dst), dst) == Share(DstCut(i, n, dst), src, dst);
    }
  }

  lemma QuotientInside(i: nat, a: nat, n: nat)
    requires 0 < n && i <= n
    ensures Share(i, a, n) <= a
  {
    MulMono(i, n, a);
    assert n * a == a * n;
    assert i * a < a * n + n;
    DivBelow(i * a, n, a + 1);
  }

  /** cut is the largest even number not above a * b / n. */
  predicate LargestEvenBelow(cut: int, a: nat, b: nat, n: nat) {
    cut % 2 == 0 && 0 <= cut && cut * n <= a * b < (cut + 2) * n
  }

  lemma EvenShare(a: nat, b: nat, n: nat)
    requires 0 < n
    ensures LargestEvenBelow(Even(Share(a, b, n)), a, b, n)
  {
    DivBounds(a * b, n);
    var q, e := Share(a, b, n), Even(Share(a, b, n));
    MulMono(e, q, n);
    MulMono(q + 1, e + 2, n);
    assert (q + 1) * n == q * n + n;
  }

  /** Where the cuts lie: an interior cut of the destination is the even number at or just
      below its proportional share, and the source is cut at the even number at or just below
      the same fraction of its length. */
  lemma CutsAreProportional(i: nat, n: nat, src: nat, dst: nat)
    requires i < n && 0 < src && 0 < dst
    ensures var b := StripeBounds(i, n, src, dst).b;
            && (i == 0 ==> b.dstStart == 0 && b.srcStart == 0)
            && (i > 0 ==> LargestEvenBelow(b.dstStart, i, dst, n) && LargestEvenBelow(b.srcStart, src, b.dstStart, dst))
            && (i == n - 1 ==> b.dstEnd == dst && b.srcEnd == src)
            && (i < n - 1 ==>
                  LargestEvenBelow(b.dstEnd, i + 1, dst, n) && LargestEvenBelow(b.srcEnd, src, b.dstEnd, dst))
  {
    EvenShare(i, dst, n);
    EvenShare(i + 1, dst, n);
    EvenShare(src, DstCut(i, n, dst), dst);
    EvenShare(src, DstCut(i + 1, n, dst), dst);
  }

  /** Any split into one stripe is the whole axis. */
  lemma OneStripe(src: nat, dst: nat)
    requires 0 < src && 0 < dst
    ensures StripeBounds(0, 1, src, dst) == Stripe(Bounds(0, src, 0, dst))
  {
  }

  // ------------------------------------------------------------- one axis

  predicate StripeFits(i: nat, n: int, src: int, dst: int, minimum: int) {
    var s := StripeBounds(i, n, src, dst);
    s.Ok() && (n > 1 ==> s.b.dstEnd - s.b.dstStart >= minimum)
  }

  /** No stripe of the split is degenerate or below the minimum. */
  predicate AxisOk(n: int, src: int, dst: int, minimum: int) {
    src > 0 && dst > 0 ==> forall i: nat | i < n :: StripeFits(i, n, src, dst, minimum)
  }

  lemma OneIsOk(src: int, dst: int, minimum: int)
    ensures AxisOk(1, src, dst, minimum)
  {
    if src > 0 && dst > 0 {
      OneStripe(src, dst);
    }
  }

  /** up__axis_partition_ok. */
  method AxisPartitionOk(n: int, src: int, dst: int, minimum: int) returns (ok: bool)
    ensures ok == AxisOk(n, src, dst, minimum)
  {
    if src <= 0 || dst <= 0 {
      return true;
    }
    var i: nat := 0;
    while i < n
      invariant forall k: nat | k < i :: StripeFits(k, n, src, dst, minimum)
    {
      var s := StripeBounds(i, n, src, dst);
      if !s.Ok() || (n > 1 && s.b.dstEnd - s.b.dstStart < minimum) {
        assert !StripeFits(i, n, src, dst, minimum);
        return false;
      }
      i := i + 1;
    }
    return true;
  }

  /** up__largest_valid_split. */
  method LargestValidSplit(start: int, src: int, dst: int, minimum: int) returns (n: int)
    ensures 1 <= n && (n <= start || n == 1) && AxisOk(n, src, dst, minimum)
    ensures forall k | n < k <= start :: !AxisOk(k, src, dst, minimum)
  {
    n := start;
    while n > 1
      invariant n <= start
      invariant forall k | n < k <= start :: !AxisOk(k, src, dst, minimum)
      decreases n
    {
      var ok := AxisPartitionOk(n, src, dst, minimum);
      if ok {
        return;
      }
      n := n - 1;
    }
    OneIsOk(src, dst, minimum);
    if start < 1 {
      return 1;
    }
  }

  // ------------------------------------------------------------- the grid

  datatype Frame = Frame(srcW: int, srcH: int, dstW: int, dstH: int)

  /** The thread budget a grid may use. */
  function Budget(nThreads: int): (b: int)
    ensures 1 <= b <= TILE_THREADS_MAX
  {
    Clamp(nThreads, 1, TILE_THREADS_MAX)
  }

  /** up__tile_axis_limit. A negative extent ends at 1 however the quotient is rounded. */
  function AxisLimit(extent: int, minimum: int, fallback: int, budget: int): int
    requires 1 <= budget
  {
    Clamp(if minimum > 0 then extent / minimum else fallback, 1, budget)
  }

  /** A grid of r rows and c columns that the search may choose. */
  predicate Feasible(f: Frame, stripeMin: int, colMin: int, budget: int, r: int, c: int)
    requires 1 <= budget
  {
    && 1 <= r <= AxisLimit(f.dstH, stripeMin, budget, budget)
    && 1 <= c <= AxisLimit(f.dstW, colMin, 1, budget)
    && r * c <= budget
    && AxisOk(r, f.srcH, f.dstH, stripeMin) && AxisOk(c, f.srcW, f.dstW, colMin)
  }

  /** Grid (r, c) has more cells than (r', c'), or as many and at least as many rows. */
  predicate NotWorse(r: int, c: int, r': int, c': int) {
    r * c > r' * c' || (r * c == r' * c' && r >= r')
  }

  /** (r, c) is the grid with the most cells, and among those the one with the most rows. */
  ghost predicate BestGrid(f: Frame, stripeMin: int, colMin: int, budget: int, r: int, c: int)
    requires 1 <= budget
  {
    && Feasible(f, stripeMin, colMin, budget, r, c)
    && forall r', c' | Feasible(f, stripeMin, colMin, budget, r', c') :: NotWorse(r, c, r', c')
  }

  lemma OneByOneFits(f: Frame, stripeMin: int, colMin: int, budget: int)
    requires 1 <= budget
    ensures Feasible(f, stripeMin, colMin, budget, 1, 1)
  {
    OneIsOk(f.srcH, f.dstH, stripeMin);
    OneIsOk(f.srcW, f.dstW, colMin);
  }

  /** With r rows, c columns fit the budget exactly if c <= budget / r. */
  lemma ColumnsFit(r: nat, c: nat, budget: nat)
    requires 1 <= r
    ensures r * c <= budget <==> c <= budget / r
  {
    assert r * c == c * r;
    if c * r <= budget {
      DivAtLeast(budget, r, c);
    } else {
      DivBelow(budget, r, c);
    }
  }

  /** up_decide_tile_grid. */
  method DecideTileGrid(nThreads: int, f: Frame, stripeMin: int, colMin: int) returns (rows: int, cols: int)
    ensures BestGrid(f, stripeMin, colMin, Budget(nThreads), rows, cols)
  {
    var budget := nThreads;
    if budget < 1 { budget := 1; }
    if budget > TILE_THREADS_MAX { budget := TILE_THREADS_MAX; }

    var rowLimit := LargestValidSplit(AxisLimit(f.dstH, stripeMin, budget, budget), f.srcH, f.dstH, stripeMin);
    var colLimit := LargestValidSplit(AxisLimit(f.dstW, colMin, 1, budget), f.srcW, f.dstW, colMin);

    rows, cols := 1, 1;
    var bestCells := 1;
    OneByOneFits(f, stripeMin, colMin, budget);
    var r := 1;
    while r <= rowLimit
      invariant 1 <= r <= rowLimit + 1 && bestCells == rows * cols && rows <= r
      invariant Feasible(f, stripeMin, colMin, budget, rows, cols)
      invariant forall r', c' | r' < r && Feasible(f, stripeMin, colMin, budget, r', c') :: NotWorse(rows, cols, r', c')
    {
      var ok := AxisPartitionOk(r, f.srcH, f.dstH, stripeMin);
      if ok {
        var c := budget / r;
        if c > colLimit { c := colLimit; }
        c := LargestValidSplit(c, f.srcW, f.dstW, colMin);
        WidestRow(f, stripeMin, colMin, budget, r, c, colLimit);
        var cells := r * c;
        if cells >= bestCells {
          rows, cols, bestCells := r, c, cells;
        }
      }
      r := r + 1;
    }
  }

  /** The columns found for r rows are the most that fit. */
  lemma WidestRow(f: Frame, stripeMin: int, colMin: int, budget: int, r: int, c: int, colLimit: int)
    requires 1 <= budget
    requires 1 <= r <= AxisLimit(f.dstH, stripeMin, budget, budget) && AxisOk(r, f.srcH, f.dstH, stripeMin)
    requires 1 <= colLimit <= AxisLimit(f.dstW, colMin, 1, budget)
    requires forall k | colLimit < k <= AxisLimit(f.dstW, colMin, 1, budget) :: !AxisOk(k, f.srcW, f.dstW, colMin)
    requires var start := if budget / r > colLimit then colLimit else budget / r;
             && 1 <= c && (c <= start || c == 1) && AxisOk(c, f.srcW, f.dstW, colMin)
             && forall k | c < k <= start :: !AxisOk(k, f.srcW, f.dstW, colMin)
    ensures Feasible(f, stripeMin, colMin, budget, r, c)
    ensures forall c' | Feasible(f, stripeMin, colMin, budget, r, c') :: c' <= c && r * c' <= r * c
  {
    ColumnsFit(r, 1, budget);
    ColumnsFit(r, c, budget);
    forall c' | Feasible(f, stripeMin, colMin, budget, r, c') ensures c' <= c && r * c' <= r * c {
      ColumnsFit(r, c', budget);
      MulMono(c', c, r);
      assert r * c' == c' * r && r * c == c * r;
    }
  }

  // ------------------------------------------------------------- what "best" means

  /** There is only one best grid. */
  lemma BestGridIsUnique(f: Frame, stripeMin: int, colMin: int, budget: int, r: int, c: int, r': int, c': int)
    requires 1 <= budget
    requires BestGrid(f, stripeMin, colMin, budget, r, c) && BestGrid(f, stripeMin, colMin, budget, r', c')
    ensures r == r' && c == c'
  {
    assert NotWorse(r, c, r', c') && NotWorse(r', c', r, c);
    assert r == r';
    if c < c' {
      MulMonoStrict(c, c', r);
    } else if c' < c {
      MulMonoStrict(c', c, r);
    }
  }

  /** Columns are used only if the height cannot host a row of its own for every thread. */
  lemma ColumnsOnlyIfNeeded(f: Frame, stripeMin: int, colMin: int, budget: int, r: int, c: int)
    requires 1 <= budget && BestGrid(f, stripeMin, colMin, budget, r, c)
    requires Feasible(f, stripeMin, colMin, budget, budget, 1)
    ensures r == budget && c == 1
  {
    assert NotWorse(r, c, budget, 1);
    assert c * r == r * c;
    MulMono(1, c, r);
    if c > 1 {
      MulMonoStrict(1, c, r);
    }
  }

  /** A bigger budget never gives fewer cells. */
  lemma MoreThreadsMoreCells(f: Frame, stripeMin: int, colMin: int, n: int, n': int, r: int, c: int, r': int, c': int)
    requires n <= n'
    requires BestGrid(f, stripeMin, colMin, Budget(n), r, c) && BestGrid(f, stripeMin, colMin, Budget(n'), r', c')
    ensures r * c <= r' * c'
  {
    assert Feasible(f, stripeMin, colMin, Budget(n'), r, c);
  }

  /** A valid split into several stripes of at least `minimum` lines has no more stripes
      than fit, so the limits of the search exclude nothing. */
  lemma SplitWithinLimit(n: int, src: int, dst: int, minimum: int)
    requires 0 < src && 0 < dst && 0 < minimum && 1 < n && AxisOk(n, src, dst, minimum)
    ensures n <= dst / minimum
  {
    CutsSpread(n, n, src, dst, minimum);
    DivAtLeast(dst, minimum, n);
  }

  lemma {:induction false} CutsSpread(k: nat, n: nat, src: nat, dst: nat, minimum: nat)
    requires 0 < src && 0 < dst && 1 < n && k <= n && AxisOk(n, src, dst, minimum)
    ensures k * minimum <= DstCut(k, n, dst)
  {
    if k > 0 {
      CutsSpread(k - 1, n, src, dst, minimum);
      assert StripeFits(k - 1, n, src, dst, minimum);
      StripesMeet(k - 1, n, src, dst);
      assert k * minimum == (k - 1) * minimum + minimum;
    }
  }

  /** All grids whose two axis splits are valid and whose cells the threads can man. */
  ghost predicate Allowed(f: Frame, stripeMin: int, colMin: int, budget: int, r: int, c: int) {
    1 <= r && 1 <= c && r * c <= budget && AxisOk(r, f.srcH, f.dstH, stripeMin) && AxisOk(c, f.srcW, f.dstW, colMin)
  }

  lemma AllowedIsFeasible(f: Frame, stripeMin: int, colMin: int, budget: int, r: int, c: int)
    requires 0 < f.srcW && 0 < f.srcH && 0 < f.dstW && 0 < f.dstH && 0 < stripeMin && 0 < colMin && 1 <= budget
    ensures Allowed(f, stripeMin, colMin, budget, r, c) <==> Feasible(f, stripeMin, colMin, budget, r, c)
  {
    if Allowed(f, stripeMin, colMin, budget, r, c) {
      if r > 1 {
        SplitWithinLimit(r, f.srcH, f.dstH, stripeMin);
      }
      if c > 1 {
        SplitWithinLimit(c, f.srcW, f.dstW, colMin);
      }
      MulMono(1, c, r);
      MulMono(1, r, c);
      assert c * r == r * c;
    }
  }

  /** On positive geometry with positive minima the best grid is optimal among all allowed
      grids, not only among those the limits let the search see. */
  lemma BestGridIsOptimal(f: Frame, stripeMin: int, colMin: int, nThreads: int, r: int, c: int)
    requires 0 < f.srcW && 0 < f.srcH && 0 < f.dstW && 0 < f.dstH && 0 < stripeMin && 0 < colMin
    requires BestGrid(f, stripeMin, colMin, Budget(nThreads), r, c)
    ensures Allowed(f, stripeMin, colMin, Budget(nThreads), r, c)
    ensures forall r', c' | Allowed(f, stripeMin, colMin, Budget(nThreads), r', c') :: NotWorse(r, c, r', c')
  {
    forall r', c' | Allowed(f, stripeMin, colMin, Budget(nThreads), r', c') ensures NotWorse(r, c, r', c') {
      AllowedIsFeasible(f, stripeMin, colMin, Budget(nThreads), r', c');
    }
  }

  // ------------------------------------------------------------- room for every thread

  /** Space for n stripes of `minimum` lines plus the two a cut may lose to evenness, with at
      least two source lines for each. */
  predicate Roomy(n: nat, src: nat, dst: nat, minimum: int) {
    n * (minimum + 2) <= dst && 2 * n * (src + dst) <= src * dst
  }

  /** Two neighbouring cuts are more than dst / n - 2 apart. */
  lemma GapOf(i: nat, n: nat, dst: nat)
    requires i < n && 0 < dst
    ensures (DstCut(i + 1, n, dst) - DstCut(i, n, dst)) * n > dst - 2 * n
  {
    var a, b := DstCut(i, n, dst), DstCut(i + 1, n, dst);
    Distribute(b, a, n);
    Distribute(b, -2, n);
    Distribute(i + 1, i, dst);
    if i > 0 {
      EvenShare(i, dst, n);
    }
    if i + 1 < n {
      EvenShare(i + 1, dst, n);
    } else {
      Commute(b, n);
    }
  }

  lemma Distribute(b: int, a: int, n: int)
    ensures (b - a) * n == b * n - a * n
  {
  }

  lemma Commute(a: int, b: int)
    ensures a * b == b * a
  {
  }

  lemma Cancel(a: int, b: int, n: nat)
    requires 0 < n && a * n > b * n
    ensures a > b
  {
    Distribute(b, a, n);
    if b >= a {
      MulMono(0, b - a, n);
    }
  }

  lemma GapHolds(gap: int, n: nat, dst: nat, minimum: int)
    requires 0 < n && gap * n > dst - 2 * n && n * (minimum + 2) <= dst
    ensures gap > minimum
  {
    Distribute(minimum, -2, n);
    Commute(n, minimum + 2);
    Cancel(gap, minimum, n);
  }

  /** The source lines of a gap. */
  lemma GapInSource(gap: int, n: nat, src: nat, dst: nat)
    requires 0 < n && 0 < src && gap * n > dst - 2 * n && 2 * n * (src + dst) <= src * dst
    ensures src * gap >= 2 * dst
  {
    var d := gap * n - (dst - 2 * n);
    MulMono(1, d, src);
    Commute(src, d);
    assert src * d == src * (gap * n) - src * (dst - 2 * n);
    assert src * (dst - 2 * n) == src * dst - 2 * n * src;
    assert 2 * n * (src + dst) == 2 * n * src + 2 * n * dst;
    assert (src * gap) * n == src * (gap * n) && (2 * dst) * n == 2 * n * dst;
    Cancel(src * gap, 2 * dst, n);
  }

  lemma SourceRises(i: nat, n: nat, src: nat, dst: nat)
    requires i < n && 0 < src && 0 < dst && src * (DstCut(i + 1, n, dst) - DstCut(i, n, dst)) >= 2 * dst
    ensures SrcCut(i, n, src, dst) < SrcCut(i + 1, n, src, dst)
  {
    var a, b := DstCut(i, n, dst), DstCut(i + 1, n, dst);
    SourceCut(i, n, src, dst);
    SourceCut(i + 1, n, src, dst);
    Spread(SrcCut(i, n, src, dst), SrcCut(i + 1, n, src, dst), src, a, b, dst);
  }

  lemma SourceCut(i: nat, n: nat, src: nat, dst: nat)
    requires i <= n && 0 < n && 0 < src && 0 < dst
    ensures SrcCut(i, n, src, dst) * dst <= src * DstCut(i, n, dst) < (SrcCut(i, n, src, dst) + 2) * dst
  {
    if i == 0 || i == n {
      Distribute(src, -2, dst);
    } else {
      EvenShare(src, DstCut(i, n, dst), dst);
    }
  }

  lemma Spread(c: nat, d: nat, src: nat, a: nat, b: nat, dst: nat)
    requires 0 < dst && c * dst <= src * a && src * b < (d + 2) * dst && src * (b - a) >= 2 * dst
    ensures c < d
  {
    Distribute(d, -2, dst);
    Commute(src, b - a);
    Commute(src, b);
    Commute(src, a);
    Distribute(b, a, src);
    Cancel(d, c, dst);
  }

  /** A roomy axis can be split into n stripes. */
  lemma RoomySplits(n: nat, src: nat, dst: nat, minimum: int)
    requires 0 < n && 0 < src && 0 < dst && 0 <= minimum && Roomy(n, src, dst, minimum)
    ensures AxisOk(n, src, dst, minimum)
  {
    forall i: nat | i < n ensures StripeFits(i, n, src, dst, minimum) {
      var gap := DstCut(i + 1, n, dst) - DstCut(i, n, dst);
      StripesMeet(i, n, src, dst);
      GapOf(i, n, dst);
      GapHolds(gap, n, dst, minimum);
      GapInSource(gap, n, src, dst);
      SourceRises(i, n, src, dst);
    }
  }

  lemma RoomyLimit(n: nat, src: nat, dst: nat, minimum: int)
    requires 0 < n && 0 < dst && 0 < minimum && Roomy(n, src, dst, minimum)
    ensures n <= dst / minimum
  {
    MulMono(minimum, minimum + 2, n);
    assert n * minimum == minimum * n && n * (minimum + 2) == (minimum + 2) * n;
    DivAtLeast(dst, minimum, n);
  }

  /** If the frame has room for one row per thread, the grid is one row per thread; the best
      grid never has fewer cells than any roomy one within the budget. */
  lemma RoomForEveryThread(f: Frame, stripeMin: int, colMin: int, n: int, r: int, c: int)
    requires 0 < f.srcH && 0 < f.dstH && 1 <= n <= 64 && 0 < stripeMin && Roomy(n, f.srcH, f.dstH, stripeMin)
    requires BestGrid(f, stripeMin, colMin, Budget(n), r, c)
    ensures r == n && c == 1
  {
    RoomySplits(n, f.srcH, f.dstH, stripeMin);
    RoomyLimit(n, f.srcH, f.dstH, stripeMin);
    OneIsOk(f.srcW, f.dstW, colMin);
    ColumnsOnlyIfNeeded(f, stripeMin, colMin, n, r, c);
  }

  lemma RoomyGridIsALowerBound(f: Frame, stripeMin: int, colMin: int, n: int, r: int, c: int, r': nat, c': nat)
    requires 0 < f.srcW && 0 < f.srcH && 0 < f.dstW && 0 < f.dstH && 0 < stripeMin && 0 < colMin
    requires BestGrid(f, stripeMin, colMin, Budget(n), r, c)
    requires 0 < r' && 0 < c' && r' * c' <= n && r' * c' <= 64
    requires Roomy(r', f.srcH, f.dstH, stripeMin) && Roomy(c', f.srcW, f.dstW, colMin)
    ensures r' * c' <= r * c
  {
    RoomySplits(r', f.srcH, f.dstH, stripeMin);
    RoomySplits(c', f.srcW, f.dstW, colMin);
    BestGridIsOptimal(f, stripeMin, colMin, n, r, c);
    assert Allowed(f, stripeMin, colMin, Budget(n), r', c');
  }

  /** For instance 540 rows scaled to 1080 are split over 16 threads. */
  lemma SixteenRows(colMin: int, w: int, w': int, r: int, c: int)
    requires BestGrid(Frame(w, 540, w', 1080), 16, colMin, Budget(16), r, c)
    ensures r == 16 && c == 1
  {
    SixteenFit();
    RoomForEveryThread(Frame(w, 540, w', 1080), 16, colMin, 16, r, c);
  }

  lemma SixteenFit()
    ensures Roomy(16, 540, 1080, 16)
  {
    var n, src, dst := 16, 540, 1080;
    assert n * (16 + 2) == 288 && 2 * n * (src + dst) == 51840 && src * dst == 583200;
  }

  // ------------------------------------------------------------- the I/O plan

  datatype Request = Request(budget: int, frame: Frame, stripeMin: int, colMin: int, srcZerocopy: bool,
      dstZerocopy: bool)

  datatype Plan = Plan(rows: int, cols: int, threads: int, colTiled: bool, srcZerocopy: bool, dstZerocopy: bool)

  /** Column tiles are searched for only if workers read the source picture directly. */
  function ColMin(q: Request): int {
    if q.srcZerocopy then q.colMin else 0
  }

  ghost predicate Resolves(q: Request, p: Plan)
  {
    && BestGrid(q.frame, q.stripeMin, ColMin(q), Budget(q.budget), p.rows, p.cols)
    && p.threads == p.rows * p.cols && p.colTiled == (p.cols > 1)
    && p.srcZerocopy == q.srcZerocopy && p.dstZerocopy == (q.dstZerocopy && p.cols <= 1)
  }

  /** up_zimg_resolve_io_plan. */
  method ResolveIoPlan(q: Request) returns (p: Plan)
    ensures Resolves(q, p)
  {
    var rows, cols := DecideTileGrid(q.budget, q.frame, q.stripeMin, if q.srcZerocopy then q.colMin else 0);
    p := Plan(rows, cols, rows * cols, cols > 1, q.srcZerocopy, q.dstZerocopy && cols <= 1);
  }

  /** Columns need a source that is read in place, and never write the destination in
      place; apart from that a plan gives what was asked for. */
  lemma PlanChain(q: Request, p: Plan)
    requires Resolves(q, p)
    ensures p.colTiled <==> p.cols > 1
    ensures p.colTiled ==> p.srcZerocopy && !p.dstZerocopy
    ensures (p.srcZerocopy <==> q.srcZerocopy) && (q.dstZerocopy && !p.dstZerocopy ==> p.colTiled)
    ensures p.dstZerocopy <==> q.dstZerocopy && !p.colTiled
    ensures 1 <= p.rows && 1 <= p.cols && 1 <= p.threads <= TILE_THREADS_MAX
  {
    MulMono(1, p.rows, p.cols);
  }

  /** Resolving a plan's own flags again gives the plan. */
  lemma ResolvingTwice(q: Request, p: Plan, p': Plan)
    requires Resolves(q, p)
    requires Resolves(q.(srcZerocopy := p.srcZerocopy, dstZerocopy := p.dstZerocopy), p')
    ensures p' == p
  {
    BestGridIsUnique(q.frame, q.stripeMin, ColMin(q), Budget(q.budget), p.rows, p.cols, p'.rows, p'.cols);
  }
}
