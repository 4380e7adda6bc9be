/** What the content probe measures: how many samples it takes of a plane of any size, and what
    it finds on planes whose brightness is a polynomial of the position. */
module ProbeLaws {
  import opened Arith
  import opened Planes
  import opened ContentProbe

  // ------------------------------------------------------------- how many samples

  lemma {:induction false} EveryFourth(lo: int, hi: int)
    requires 0 <= lo <= hi
    ensures RowCount(4, lo, hi) == (hi + 3) / 4 - (lo + 3) / 4
    decreases hi - lo
  {
    if lo < hi {
      EveryFourth(lo, hi - 1);
    }
  }

  lemma {:induction false} EveryEighth(lo: int, hi: int)
    requires 0 <= lo <= hi
    ensures RowCount(8, lo, hi) == (hi + 7) / 8 - (lo + 7) / 8
    decreases hi - lo
  {
    if lo < hi {
      EveryEighth(lo, hi - 1);
    }
  }

  lemma {:induction false} RowsTimesColumns(g: Grid, hi: int)
    ensures PlaneCount(g, hi) == RowCount(g.stepY, g.loY, hi) * RowCount(g.stepX, g.loX, g.hiX)
    decreases hi - g.loY
  {
    if g.loY < hi {
      RowsTimesColumns(g, hi - 1);
      var n := RowCount(g.stepX, g.loX, g.hiX);
      assert (RowCount(g.stepY, g.loY, hi - 1) + 1) * n == RowCount(g.stepY, g.loY, hi - 1) * n + n;
    }
  }

  lemma LapCount(w: int, h: int)
    requires w > 2 && h > 2
    ensures PlaneCount(LapGrid(w), h - 1) == ((h - 2) / 4) * ((w - 2) / 4)
  {
    RowsTimesColumns(LapGrid(w), h - 1);
    if h - 1 >= 4 { EveryFourth(4, h - 1); }
    if w - 1 >= 4 { EveryFourth(4, w - 1); }
  }

  lemma VerticalCount(w: int, h: int)
    requires w > 8 && h > 8
    ensures PlaneCount(VerticalGrid(w), h) == ((h + 3) / 4) * ((w - 1) / 8)
  {
    RowsTimesColumns(VerticalGrid(w), h);
    EveryFourth(0, h);
    EveryEighth(8, w);
    BoundariesInside(w);
  }

  lemma HorizontalCount(w: int, h: int)
    requires w > 8 && h > 8
    ensures PlaneCount(HorizontalGrid(w), h) == ((h - 1) / 8) * ((w + 3) / 4)
  {
    RowsTimesColumns(HorizontalGrid(w), h);
    EveryEighth(8, h);
    EveryFourth(0, w);
    BoundariesInside(h);
  }

  lemma BoundariesInside(n: int)
    ensures (n + 7) / 8 - (8 + 7) / 8 == (n - 1) / 8 && (0 + 3) / 4 == 0
  {
  }

  // ------------------------------------------------------------- what is measured

  lemma {:induction false} EvenRow(kind: Kind, p: seq<Byte>, stride: nat, y: int, step: int, lo: int, hi: int, c: nat)
    requires forall x | lo <= x < hi :: Term(kind, p, stride, y, x) == c
    ensures RowSum(kind, p, stride, y, step, lo, hi) == RowCount(step, lo, hi) * c
    decreases hi - lo
  {
    if lo < hi {
      EvenRow(kind, p, stride, y, step, lo, hi - 1, c);
      assert (RowCount(step, lo, hi - 1) + 1) * c == RowCount(step, lo, hi - 1) * c + c;
    }
  }

  lemma {:induction false} EvenPlane(g: Grid, p: seq<Byte>, stride: nat, hi: int, c: nat)
    requires forall y, x | g.loY <= y < hi && g.loX <= x < g.hiX :: Term(g.kind, p, stride, y, x) == c
    ensures PlaneSum(g, p, stride, hi) == PlaneCount(g, hi) * c
    decreases hi - g.loY
  {
    if g.loY < hi {
      EvenPlane(g, p, stride, hi - 1, c);
      EvenRow(g.kind, p, stride, hi - 1, g.stepX, g.loX, g.hiX, c);
      var n := RowCount(g.stepX, g.loX, g.hiX);
      assert (PlaneCount(g, hi - 1) + n) * c == PlaneCount(g, hi - 1) * c + n * c;
    }
  }

  /** base + slope to the right and downwards + curvature in both directions. */
  datatype Surface = Surface(base: int, right: int, down: int, curveX: int, curveY: int) {
    function At(y: int, x: int): int {
      base + right * x + down * y + curveX * (x * x) + curveY * (y * y)
    }
  }

  ghost predicate Shows(p: seq<Byte>, stride: nat, w: int, h: int, s: Surface) {
    forall y, x | 0 <= y < h && 0 <= x < w :: Pixel(p, stride, y, x) == s.At(y, x)
  }

  lemma Steps(s: Surface, y: int, x: int)
    ensures s.At(y, x + 1) == s.At(y, x) + s.right + s.curveX * (2 * x + 1)
    ensures s.At(y, x - 1) == s.At(y, x) - s.right - s.curveX * (2 * x - 1)
    ensures s.At(y + 1, x) == s.At(y, x) + s.down + s.curveY * (2 * y + 1)
    ensures s.At(y - 1, x) == s.At(y, x) - s.down - s.curveY * (2 * y - 1)
  {
    Next(s.right, s.curveX, x);
    Next(s.down, s.curveY, y);
  }

  lemma Next(a: int, c: int, x: int)
    ensures a * (x + 1) == a * x + a && a * (x - 1) == a * x - a
    ensures c * ((x + 1) * (x + 1)) == c * (x * x) + c * (2 * x + 1)
    ensures c * ((x - 1) * (x - 1)) == c * (x * x) - c * (2 * x - 1)
  {
    assert (x + 1) * (x + 1) == x * x + (2 * x + 1);
    assert (x - 1) * (x - 1) == x * x - (2 * x - 1);
  }

  lemma Doubled(c: int, x: int)
    ensures c * (2 * x + 1) - c * (2 * x - 1) == 2 * c
  {
  }

  lemma Curvature(s: Surface, y: int, x: int)
    ensures 4 * s.At(y, x) - (s.At(y - 1, x) + s.At(y + 1, x) + s.At(y, x - 1) + s.At(y, x + 1))
            == -(2 * s.curveX + 2 * s.curveY)
  {
    Steps(s, y, x);
    Doubled(s.curveX, x);
    Doubled(s.curveY, y);
  }

  lemma SquareOfNegative(d: int)
    ensures Square(-d) == Square(d)
  {
  }

  lemma FourTimes(k: int)
    ensures Square(2 * k) == 4 * k * k
  {
  }

  lemma LapTerm(p: seq<Byte>, stride: nat, w: int, h: int, s: Surface, y: int, x: int)
    requires Shows(p, stride, w, h, s) && 0 < y < h - 1 && 0 < x < w - 1
    ensures Term(Laplacian, p, stride, y, x) == Square(2 * s.curveX + 2 * s.curveY)
  {
    Curvature(s, y, x);
    SquareOfNegative(2 * s.curveX + 2 * s.curveY);
    LapOfSurface(p, stride, w, h, s, y, x);
  }

  lemma LapOfSurface(p: seq<Byte>, stride: nat, w: int, h: int, s: Surface, y: int, x: int)
    requires Shows(p, stride, w, h, s) && 0 < y < h - 1 && 0 < x < w - 1
    ensures Term(Laplacian, p, stride, y, x)
            == Square(4 * s.At(y, x) - (s.At(y - 1, x) + s.At(y + 1, x) + s.At(y, x - 1) + s.At(y, x + 1)))
  {
    assert Pixel(p, stride, y, x) == s.At(y, x);
    assert Pixel(p, stride, y - 1, x) == s.At(y - 1, x) && Pixel(p, stride, y + 1, x) == s.At(y + 1, x);
    assert Pixel(p, stride, y, x - 1) == s.At(y, x - 1) && Pixel(p, stride, y, x + 1) == s.At(y, x + 1);
  }

  lemma EdgeTerms(p: seq<Byte>, stride: nat, w: int, h: int, s: Surface, y: int, x: int)
    requires Shows(p, stride, w, h, s) && 0 <= y < h && 0 <= x < w && s.curveX == s.curveY == 0
    ensures 0 < x ==> Term(Vertical, p, stride, y, x) == Abs(s.right)
    ensures 0 < y ==> Term(Horizontal, p, stride, y, x) == Abs(s.down)
  {
    Steps(s, y, x);
    assert Pixel(p, stride, y, x) == s.At(y, x);
    if 0 < x {
      assert Pixel(p, stride, y, x - 1) == s.At(y, x - 1);
    }
    if 0 < y {
      assert Pixel(p, stride, y - 1, x) == s.At(y - 1, x);
    }
  }

  /** The sharpness metric is blind to brightness and slope and finds exactly the curvature:
      on a surface of second degree every sample is the square of its Laplacian. */
  lemma SharpnessIsCurvature(p: seq<Byte>, stride: int, w: int, h: int, s: Surface)
    requires 0 < stride && w > 2 && h > 2 && Shows(p, stride, w, h, s)
    ensures var m := Reference(p, stride, w, h);
            && m.lapN == ((h - 2) / 4) * ((w - 2) / 4)
            && m.lapSum == m.lapN * (4 * (s.curveX + s.curveY) * (s.curveX + s.curveY))
  {
    LapCount(w, h);
    forall y, x | 4 <= y < h - 1 && 4 <= x < w - 1
      ensures Term(Laplacian, p, stride, y, x) == Square(2 * s.curveX + 2 * s.curveY)
    {
      LapTerm(p, stride, w, h, s, y, x);
    }
    EvenPlane(LapGrid(w), p, stride, h - 1, Square(2 * s.curveX + 2 * s.curveY));
    FourTimes(s.curveX + s.curveY);
  }

  /** The blockiness metric takes every fourth pixel of every eighth row and column boundary
      and finds exactly the step across it: on a tilted plane, the slope across the boundary. */
  lemma BlockinessIsSlope(p: seq<Byte>, stride: int, w: int, h: int, s: Surface)
    requires 0 < stride && w > 8 && h > 8 && Shows(p, stride, w, h, s) && s.curveX == s.curveY == 0
    ensures var m := Reference(p, stride, w, h);
            var across, along := ((h + 3) / 4) * ((w - 1) / 8), ((h - 1) / 8) * ((w + 3) / 4);
            && m.edgeN == across + along
            && m.edgeSum == across * (if s.right < 0 then -s.right else s.right)
                            + along * (if s.down < 0 then -s.down else s.down)
  {
    VerticalCount(w, h);
    HorizontalCount(w, h);
    forall y, x | 0 <= y < h && 8 <= x < w ensures Term(Vertical, p, stride, y, x) == Abs(s.right) {
      EdgeTerms(p, stride, w, h, s, y, x);
    }
    forall y, x | 8 <= y < h && 0 <= x < w ensures Term(Horizontal, p, stride, y, x) == Abs(s.down) {
      EdgeTerms(p, stride, w, h, s, y, x);
    }
    EvenPlane(VerticalGrid(w), p, stride, h, Abs(s.right));
    EvenPlane(HorizontalGrid(w), p, stride, h, Abs(s.down));
  }
}
