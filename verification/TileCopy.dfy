/** Assembling the frame (scaler_zimg.c, copy-out): each worker copies the output of its
    cell into the three planes of the destination picture. */
module TileCopy {
  import opened Planes
  import opened PlaneCopy
  import opened Tiling
  import opened TileCover

  /** Byte k lies in row y of the rectangle. */
  predicate InRow(pitch: nat, rect: Rect, y: nat, k: int) {
    rect.y <= y < rect.y + rect.h && RowStart(pitch, y) + rect.x <= k < RowStart(pitch, y) + rect.x + rect.w
  }

  /** Byte k is a sample of the rectangle. */
  ghost predicate Window(pitch: nat, rect: Rect, k: int) {
    exists y: nat :: InRow(pitch, rect, y, k)
  }

  /** The rectangle of the plane shows pic. */
  ghost predicate CellShown(a: array<Byte>, pitch: nat, rect: Rect, pic: Picture)
    reads a
  {
    forall r: nat | r < |pic| :: Holds(a, RowStart(pitch, rect.y + r) + rect.x, pic[r])
  }

  /** A byte in row y of one rectangle and row y' of another is a sample they share. */
  lemma SharedByte(pitch: nat, p: Rect, q: Rect, y: nat, y': nat, k: nat)
    requires p.x + p.w <= pitch && q.x + q.w <= pitch && InRow(pitch, p, y, k) && InRow(pitch, q, y', k)
    ensures y == y' && RowStart(pitch, y) <= k && p.Has(k - RowStart(pitch, y), y) && q.Has(k - RowStart(pitch, y), y)
  {
    if y < y' {
      RowsApart(pitch, y, y');
    } else if y' < y {
      RowsApart(pitch, y', y);
    }
  }

  /** The rectangles have no sample in common. */
  ghost predicate Apart(p: Rect, q: Rect) {
    forall x: nat, y: nat :: !(p.Has(x, y) && q.Has(x, y))
  }

  lemma WindowsApart(pitch: nat, p: Rect, q: Rect, k: nat)
    requires p.x + p.w <= pitch && q.x + q.w <= pitch && Apart(p, q)
    ensures !(Window(pitch, p, k) && Window(pitch, q, k))
  {
    if Window(pitch, p, k) && Window(pitch, q, k) {
      var y: nat :| InRow(pitch, p, y, k);
      var y': nat :| InRow(pitch, q, y', k);
      SharedByte(pitch, p, q, y, y', k);
    }
  }

  /** One plane of the destination picture. */
  datatype Plane = Plane(data: array<Byte>, pitch: nat, w: nat, h: nat) {
    ghost predicate Valid() {
      Geom(pitch, w, h).Fits(data.Length)
    }

    predicate Contains(r: Rect) {
      r.x + r.w <= w && 0 <= r.h && r.y + r.h <= h
    }
  }

  /** Where a worker's own output of one plane starts: at 0 in the scratch of a tile, at the
      stripe's first row in the scratch shared by row stripes. */
  datatype Output = Output(data: array<Byte>, off: nat, pitch: nat)

  ghost predicate Produced(o: Output, rect: Rect, pic: Picture)
    reads o.data
  {
    0 <= rect.h && rect.w <= o.pitch && Sized(pic, rect.w, rect.h) && RectHolds(o.data, o.off, o.pitch, pic)
  }

  /** up_copy_plane as worker_copy_out_tile and worker_copy_out_stripe call it for one plane:
      it fills the rectangle and touches nothing else. */
  method CopyOutPlane(dst: Plane, rect: Rect, o: Output, ghost pic: Picture)
    requires dst.Valid() && dst.Contains(rect) && o.data != dst.data && Produced(o, rect, pic)
    modifies dst.data
    ensures CellShown(dst.data, dst.pitch, rect, pic)
    ensures forall k | 0 <= k < dst.data.Length && !Window(dst.pitch, rect, k) :: dst.data[k] == old(dst.data[k])
  {
    var d := RowStart(dst.pitch, rect.y) + rect.x;
    if rect.h > 0 && rect.w > 0 {
      RectInPlane(dst, rect);
    }
    CopyPlane(dst.data, d, dst.pitch, o.data, o.off, o.pitch, rect.w, rect.h, pic);
    if rect.h > 0 && rect.w > 0 {
      ShownFromRect(dst.data, dst.pitch, rect, pic);
      forall k | 0 <= k < dst.data.Length && !Window(dst.pitch, rect, k) ensures dst.data[k] == old(dst.data[k]) {
        OutsideWindow(dst.pitch, rect, k);
      }
    } else {
      EmptyShown(dst, rect, pic);
    }
  }

  lemma RectInPlane(dst: Plane, rect: Rect)
    requires dst.Valid() && dst.Contains(rect) && rect.h > 0
    ensures RowStart(dst.pitch, rect.y) + rect.x + RowStart(dst.pitch, rect.h - 1) + rect.w <= dst.data.Length
  {
    RowStartAdds(dst.pitch, rect.y, rect.h - 1);
    RowInPlane(Geom(dst.pitch, dst.w, dst.h), dst.data.Length, rect.y + rect.h - 1);
  }

  lemma ShownFromRect(a: array<Byte>, pitch: nat, rect: Rect, pic: Picture)
    requires RectHolds(a, RowStart(pitch, rect.y) + rect.x, pitch, pic)
    ensures CellShown(a, pitch, rect, pic)
  {
    forall r: nat | r < |pic| ensures Holds(a, RowStart(pitch, rect.y + r) + rect.x, pic[r]) {
      RowStartAdds(pitch, rect.y, r);
    }
  }

  /** An empty rectangle needs no bytes. */
  lemma EmptyShown(dst: Plane, rect: Rect, pic: Picture)
    requires dst.Valid() && dst.Contains(rect) && (rect.h == 0 || rect.w == 0) && Sized(pic, rect.w, rect.h)
    ensures CellShown(dst.data, dst.pitch, rect, pic)
  {
    forall r: nat | r < |pic| ensures Holds(dst.data, RowStart(dst.pitch, rect.y + r) + rect.x, pic[r]) {
      RowInPlane(Geom(dst.pitch, dst.w, dst.h), dst.data.Length, rect.y + r);
    }
  }

  lemma OutsideWindow(pitch: nat, rect: Rect, k: int)
    requires 0 <= rect.h && !Window(pitch, rect, k)
    ensures !Visible(Geom(pitch, rect.w, rect.h), 0, rect.h, k - (RowStart(pitch, rect.y) + rect.x))
  {
    var d := RowStart(pitch, rect.y) + rect.x;
    if Visible(Geom(pitch, rect.w, rect.h), 0, rect.h, k - d) {
      var r :| 0 <= r < rect.h && RowStart(pitch, r) <= k - d < RowStart(pitch, r) + rect.w;
      RowStartAdds(pitch, rect.y, r);
      assert InRow(pitch, rect, rect.y + r, k);
    }
  }

  // ------------------------------------------------------------- all cells

  /** One plane of a whole dispatch: where it goes, and the rectangle and output of every
      worker. */
  datatype Job = Job(dst: Plane, rects: seq<Rect>, outputs: seq<Output>)

  ghost predicate JobOk(j: Job, pics: seq<Picture>, n: nat)
    reads set i | 0 <= i < |j.outputs| :: j.outputs[i].data
  {
    && j.dst.Valid() && |j.rects| == |j.outputs| == |pics| == n
    && (forall i | 0 <= i < n :: j.dst.Contains(j.rects[i]) && j.outputs[i].data != j.dst.data)
    && (forall i | 0 <= i < n :: Produced(j.outputs[i], j.rects[i], pics[i]))
    && (forall i, k | 0 <= i < n && 0 <= k < n && i != k :: Apart(j.rects[i], j.rects[k]))
  }

  /** The cells in `done`, and nothing else, have been written over `was`. */
  ghost predicate Emitted(j: Job, pics: seq<Picture>, was: seq<Byte>, done: set<nat>)
    reads j.dst.data
  {
    && |j.rects| == |pics| && |was| == j.dst.data.Length
    && (forall i: nat | i in done && i < |pics| :: CellShown(j.dst.data, j.dst.pitch, j.rects[i], pics[i]))
    && (forall k | 0 <= k < |was| && Untouched(j, done, k) :: j.dst.data[k] == was[k])
  }

  ghost predicate Untouched(j: Job, done: set<nat>, k: int) {
    forall i: nat | i in done && i < |j.rects| :: !Window(j.dst.pitch, j.rects[i], k)
  }

  /** Worker i's copy of one plane adds its cell and disturbs no cell already written. */
  method EmitPlane(j: Job, i: nat, ghost pics: seq<Picture>, ghost was: seq<Byte>, ghost done: set<nat>)
    requires JobOk(j, pics, |pics|) && i < |pics| && i !in done && Emitted(j, pics, was, done)
    modifies j.dst.data
    ensures Emitted(j, pics, was, done + {i})
  {
    label before:
    CopyOutPlane(j.dst, j.rects[i], j.outputs[i], pics[i]);
    forall m: nat | m in done && m < |pics| ensures CellShown(j.dst.data, j.dst.pitch, j.rects[m], pics[m]) {
      assert Apart(j.rects[m], j.rects[i]);
      assert old@before(CellShown(j.dst.data, j.dst.pitch, j.rects[m], pics[m]));
      forall r: nat | r < |pics[m]|
        ensures Holds(j.dst.data, RowStart(j.dst.pitch, j.rects[m].y + r) + j.rects[m].x, pics[m][r]) {
        var off := RowStart(j.dst.pitch, j.rects[m].y + r) + j.rects[m].x;
        assert old@before(Holds(j.dst.data, off, pics[m][r]));
        assert Produced(j.outputs[m], j.rects[m], pics[m]);
        forall k | off <= k < off + |pics[m][r]| ensures j.dst.data[k] == pics[m][r][k - off] {
          assert InRow(j.dst.pitch, j.rects[m], j.rects[m].y + r, k);
          WindowsApart(j.dst.pitch, j.rects[m], j.rects[i], k);
        }
      }
    }
    forall k | 0 <= k < |was| && Untouched(j, done + {i}, k) ensures j.dst.data[k] == was[k] {
      assert i in done + {i};
      assert Untouched(j, done, k);
    }
  }

  ghost predicate Separate(j: Job, a: array<Byte>) {
    a != j.dst.data && forall i | 0 <= i < |j.outputs| :: j.outputs[i].data != a
  }

  /** worker_emit_output: a worker whose resample failed emits nothing; otherwise it copies
      its three planes unless its graph already wrote the destination picture. */
  method EmitOutput(jy: Job, ju: Job, jv: Job, i: nat, result: int, colTiled: bool, copyOut: bool,
                    ghost py: seq<Picture>, ghost pu: seq<Picture>, ghost pv: seq<Picture>,
                    ghost wy: seq<Byte>, ghost wu: seq<Byte>, ghost wv: seq<Byte>, ghost done: set<nat>)
    requires |py| == |pu| == |pv| && JobOk(jy, py, |py|) && JobOk(ju, pu, |py|) && JobOk(jv, pv, |py|)
    requires Separate(jy, ju.dst.data) && Separate(jy, jv.dst.data) && Separate(ju, jy.dst.data)
    requires Separate(ju, jv.dst.data) && Separate(jv, jy.dst.data) && Separate(jv, ju.dst.data)
    requires i < |py| && i !in done
    requires Emitted(jy, py, wy, done) && Emitted(ju, pu, wu, done) && Emitted(jv, pv, wv, done)
    modifies jy.dst.data, ju.dst.data, jv.dst.data
    ensures var now := if result == 0 && (colTiled || copyOut) then done + {i} else done;
            Emitted(jy, py, wy, now) && Emitted(ju, pu, wu, now) && Emitted(jv, pv, wv, now)
  {
    if result != 0 { return; }
    if colTiled || copyOut {
      EmitPlane(jy, i, py, wy, done);
      EmitPlane(ju, i, pu, wu, done);
      EmitPlane(jv, i, pv, wv, done);
    }
  }

  /** The workers that emitted. */
  ghost function EmittedBy(results: seq<int>, order: seq<nat>): set<nat> {
    set k | 0 <= k < |order| && order[k] < |results| && results[order[k]] == 0 :: order[k]
  }

  /** All workers' copy-outs, one after the other in any order: the cells of the workers
      that succeeded are in the picture, and no other byte of it has changed. */
  method EmitAll(jy: Job, ju: Job, jv: Job, results: seq<int>, order: seq<nat>, colTiled: bool, copyOut: bool,
                 ghost py: seq<Picture>, ghost pu: seq<Picture>, ghost pv: seq<Picture>)
    requires |py| == |pu| == |pv| == |results|
    requires JobOk(jy, py, |py|) && JobOk(ju, pu, |py|) && JobOk(jv, pv, |py|)
    requires Separate(jy, ju.dst.data) && Separate(jy, jv.dst.data) && Separate(ju, jy.dst.data)
    requires Separate(ju, jv.dst.data) && Separate(jv, jy.dst.data) && Separate(jv, ju.dst.data)
    requires forall k | 0 <= k < |order| :: order[k] < |results|
    requires forall k, m | 0 <= k < m < |order| :: order[k] != order[m]
    modifies jy.dst.data, ju.dst.data, jv.dst.data
    ensures var done := if colTiled || copyOut then EmittedBy(results, order) else {};
            && Emitted(jy, py, old(jy.dst.data[..]), done) && Emitted(ju, pu, old(ju.dst.data[..]), done)
            && Emitted(jv, pv, old(jv.dst.data[..]), done)
  {
    ghost var wy, wu, wv := jy.dst.data[..], ju.dst.data[..], jv.dst.data[..];
    ghost var done: set<nat> := {};
    for k := 0 to |order|
      invariant done == if colTiled || copyOut then EmittedBy(results, order[..k]) else {}
      invariant Emitted(jy, py, wy, done) && Emitted(ju, pu, wu, done) && Emitted(jv, pv, wv, done)
    {
      EmitOutput(jy, ju, jv, order[k], results[order[k]], colTiled, copyOut, py, pu, pv, wy, wu, wv, done);
      EmittedByNext(results, order, k);
      if results[order[k]] == 0 && (colTiled || copyOut) {
        done := done + {order[k]};
      }
    }
    assert order[..|order|] == order;
  }

  lemma EmittedByNext(results: seq<int>, order: seq<nat>, k: nat)
    requires k < |order| && order[k] < |results| && forall i, m | 0 <= i < m < |order| :: order[i] != order[m]
    ensures order[k] !in EmittedBy(results, order[..k])
    ensures EmittedBy(results, order[..k + 1])
            == EmittedBy(results, order[..k]) + (if results[order[k]] == 0 then {order[k]} else {})
  {
    var a, b := order[..k], order[..k + 1];
    assert forall i | 0 <= i < k :: a[i] == b[i] == order[i];
    assert b[k] == order[k];
    forall x | x in EmittedBy(results, a) ensures x in EmittedBy(results, b) {
      var i :| 0 <= i < |a| && a[i] < |results| && results[a[i]] == 0 && a[i] == x;
      assert b[i] == x;
    }
  }

  // ------------------------------------------------------------- the whole frame

  /** The rectangles of a job are the cells of the planned grid in its plane. */
  ghost predicate GridJob(j: Job, f: Frame, rows: nat, cols: nat, subW: nat, subH: nat)
    requires 0 < cols
  {
    && j.dst.w == ChromaDim(f.dstW, subW) && j.dst.h == ChromaDim(f.dstH, subH) && |j.rects| == rows * cols
    && forall i: nat | i < rows * cols ::
         CellOf(f, rows, cols, i).SomeCell? && j.rects[i] == RectIn(Destination, CellOf(f, rows, cols, i).c, subW, subH)
  }

  /** The rectangles of a planned grid lie in their plane and have no sample in common, as
      the copies need. */
  lemma GridJobIsSound(j: Job, f: Frame, stripeMin: int, colMin: int, rows: nat, cols: nat, subW: nat, subH: nat)
    requires GridOk(f, stripeMin, colMin, rows, cols) && subW <= 1 && subH <= 1 && GridJob(j, f, rows, cols, subW, subH)
    ensures forall i | 0 <= i < |j.rects| :: j.dst.Contains(j.rects[i])
    ensures forall i, k | 0 <= i < |j.rects| && 0 <= k < |j.rects| && i != k :: Apart(j.rects[i], j.rects[k])
  {
    AtOne(f.dstH);
    forall i | 0 <= i < |j.rects| ensures j.dst.Contains(j.rects[i]) {
      CellInside(Destination, f, stripeMin, colMin, rows, cols, i, subW, subH);
    }
    forall i, k | 0 <= i < |j.rects| && 0 <= k < |j.rects| && i != k ensures Apart(j.rects[i], j.rects[k]) {
      forall x: nat, y: nat ensures !(j.rects[i].Has(x, y) && j.rects[k].Has(x, y)) {
        CellsApart(Destination, f, stripeMin, colMin, rows, cols, i, k, subW, subH, x, y);
      }
    }
  }

  /** If every worker succeeded and had its turn, everybody has emitted. */
  lemma EveryoneEmitted(results: seq<int>, order: seq<nat>, i: nat)
    requires i in order && i < |results| && results[i] == 0
    ensures i in EmittedBy(results, order)
  {
    var k :| 0 <= k < |order| && order[k] == i;
  }

  /** Sample (x, y) of the plane is the sample its one owner produced for it. */
  ghost predicate FromItsCell(j: Job, pics: seq<Picture>, f: Frame, rows: nat, cols: nat, subW: nat, subH: nat, x: nat,
                              y: nat)
    requires 0 < cols && |j.rects| == |pics| == rows * cols
    reads j.dst.data
  {
    exists i: nat ::
      && OwnedBy(Destination, f, rows, cols, subW, subH, x, y, i) && i < |pics| && j.rects[i].Has(x, y)
      && y - j.rects[i].y < |pics[i]| && x - j.rects[i].x < |pics[i][y - j.rects[i].y]|
      && RowStart(j.dst.pitch, y) + x < j.dst.data.Length
      && j.dst.data[RowStart(j.dst.pitch, y) + x] == pics[i][y - j.rects[i].y][x - j.rects[i].x]
  }

  lemma SampleIsAssembled(j: Job, pics: seq<Picture>, was: seq<Byte>, f: Frame, stripeMin: int, colMin: int,
                          rows: nat, cols: nat, subW: nat, subH: nat, done: set<nat>, x: nat, y: nat)
    requires GridOk(f, stripeMin, colMin, rows, cols) && subW <= 1 && subH <= 1 && GridJob(j, f, rows, cols, subW, subH)
    requires JobOk(j, pics, rows * cols) && Emitted(j, pics, was, done)
    requires forall i: nat | i < rows * cols :: i in done
    requires x < j.dst.w && y < Shr(f.dstH, subH)
    ensures FromItsCell(j, pics, f, rows, cols, subW, subH, x, y)
  {
    var i := CellsTile(Destination, f, stripeMin, colMin, rows, cols, subW, subH, x, y);
    var rect := j.rects[i];
    assert CellHas(Destination, f, rows, cols, subW, subH, i, x, y);
    assert Produced(j.outputs[i], rect, pics[i]);
    assert CellShown(j.dst.data, j.dst.pitch, rect, pics[i]);
    assert Holds(j.dst.data, RowStart(j.dst.pitch, rect.y + (y - rect.y)) + rect.x, pics[i][y - rect.y]);
  }

  /** Once all workers have emitted, every sample of the plane comes from the one cell that
      owns it (with subsampled rows: every sample above the last row of an odd height), and
      no byte outside the visible window has been written. */
  lemma FrameIsAssembled(j: Job, pics: seq<Picture>, was: seq<Byte>, f: Frame, stripeMin: int, colMin: int,
                         rows: nat, cols: nat, subW: nat, subH: nat, done: set<nat>)
    requires GridOk(f, stripeMin, colMin, rows, cols) && subW <= 1 && subH <= 1 && GridJob(j, f, rows, cols, subW, subH)
    requires JobOk(j, pics, rows * cols) && Emitted(j, pics, was, done)
    requires forall i: nat | i < rows * cols :: i in done
    ensures forall x: nat, y: nat | x < j.dst.w && y < Shr(f.dstH, subH) ::
              FromItsCell(j, pics, f, rows, cols, subW, subH, x, y)
    ensures forall k | 0 <= k < |was| && !Visible(Geom(j.dst.pitch, j.dst.w, j.dst.h), 0, j.dst.h, k) ::
              j.dst.data[k] == was[k]
  {
    forall x: nat, y: nat | x < j.dst.w && y < Shr(f.dstH, subH)
      ensures FromItsCell(j, pics, f, rows, cols, subW, subH, x, y)
    {
      SampleIsAssembled(j, pics, was, f, stripeMin, colMin, rows, cols, subW, subH, done, x, y);
    }
    forall k | 0 <= k < |was| && !Visible(Geom(j.dst.pitch, j.dst.w, j.dst.h), 0, j.dst.h, k)
      ensures j.dst.data[k] == was[k]
    {
      forall i: nat | i < |j.rects| ensures !Window(j.dst.pitch, j.rects[i], k) {
        WindowIsVisible(j.dst, j.rects[i], k);
      }
      assert Untouched(j, done, k);
    }
  }

  lemma WindowIsVisible(p: Plane, rect: Rect, k: int)
    requires p.Contains(rect)
    ensures Window(p.pitch, rect, k) ==> Visible(Geom(p.pitch, p.w, p.h), 0, p.h, k)
  {
    if Window(p.pitch, rect, k) {
      var y: nat :| InRow(p.pitch, rect, y, k);
    }
  }

  /** Every worker has produced its cell of this plane in a buffer of its own side. */
  ghost predicate AllProduced(j: Job, pics: seq<Picture>, n: nat)
    reads set i | 0 <= i < |j.outputs| :: j.outputs[i].data
  {
    && j.dst.Valid() && |j.rects| == |j.outputs| == |pics| == n
    && forall i | 0 <= i < n :: j.outputs[i].data != j.dst.data && Produced(j.outputs[i], j.rects[i], pics[i])
  }

  lemma PlannedJobIsOk(j: Job, pics: seq<Picture>, q: Request, p: Plan, subW: nat, subH: nat)
    requires 0 < q.frame.srcW && 0 < q.frame.srcH && 0 < q.frame.dstW && 0 < q.frame.dstH && Resolves(q, p)
    requires subW <= 1 && subH <= 1 && GridJob(j, q.frame, p.rows, p.cols, subW, subH)
    requires AllProduced(j, pics, |j.rects|)
    ensures JobOk(j, pics, |j.rects|) && |j.rects| == p.threads
  {
    PlansAreGrids(q, p);
    GridJobIsSound(j, q.frame, q.stripeMin, ColMin(q), p.rows, p.cols, subW, subH);
  }

  /** The plane is assembled: every sample (with subsampled rows, every sample above the
      last row of an odd height) comes from the one cell that owns it, and no byte outside
      the visible window has changed. */
  ghost predicate Assembled(j: Job, pics: seq<Picture>, was: seq<Byte>, f: Frame, rows: nat, cols: nat, subW: nat,
                            subH: nat)
    requires 0 <= f.dstH && 0 < cols && |j.rects| == |pics| == rows * cols
    reads j.dst.data
  {
    && |was| == j.dst.data.Length
    && (forall x: nat, y: nat | x < j.dst.w && y < Shr(f.dstH, subH) ::
          FromItsCell(j, pics, f, rows, cols, subW, subH, x, y))
    && (forall k | 0 <= k < |was| && !Visible(Geom(j.dst.pitch, j.dst.w, j.dst.h), 0, j.dst.h, k) ::
          j.dst.data[k] == was[k])
  }

  lemma EmittedIsAssembled(j: Job, pics: seq<Picture>, was: seq<Byte>, q: Request, p: Plan, subW: nat, subH: nat,
                           done: set<nat>)
    requires 0 < q.frame.srcW && 0 < q.frame.srcH && 0 < q.frame.dstW && 0 < q.frame.dstH && Resolves(q, p)
    requires subW <= 1 && subH <= 1 && GridJob(j, q.frame, p.rows, p.cols, subW, subH)
    requires AllProduced(j, pics, |j.rects|)
    requires Emitted(j, pics, was, done) && forall i: nat | i < |j.rects| :: i in done
    ensures Assembled(j, pics, was, q.frame, p.rows, p.cols, subW, subH)
  {
    PlansAreGrids(q, p);
    PlannedJobIsOk(j, pics, q, p, subW, subH);
    FrameIsAssembled(j, pics, was, q.frame, q.stripeMin, ColMin(q), p.rows, p.cols, subW, subH, done);
  }

  /** A whole frame of a resolved plan whose workers copy out: when every cell's resample
      has succeeded, running the copy-outs of all workers in any order assembles all three
      planes. */
  method EmitFrame(q: Request, p: Plan, jy: Job, ju: Job, jv: Job, subW: nat, subH: nat, results: seq<int>,
                   order: seq<nat>,
                   ghost py: seq<Picture>, ghost pu: seq<Picture>, ghost pv: seq<Picture>)
    requires 0 < q.frame.srcW && 0 < q.frame.srcH && 0 < q.frame.dstW && 0 < q.frame.dstH && Resolves(q, p)
    requires !p.dstZerocopy && subW <= 1 && subH <= 1
    requires GridJob(jy, q.frame, p.rows, p.cols, 0, 0) && AllProduced(jy, py, |results|)
    requires GridJob(ju, q.frame, p.rows, p.cols, subW, subH) && AllProduced(ju, pu, |results|)
    requires GridJob(jv, q.frame, p.rows, p.cols, subW, subH) && AllProduced(jv, pv, |results|)
    requires Separate(jy, ju.dst.data) && Separate(jy, jv.dst.data) && Separate(ju, jy.dst.data)
    requires Separate(ju, jv.dst.data) && Separate(jv, jy.dst.data) && Separate(jv, ju.dst.data)
    requires |results| == p.threads && forall i | 0 <= i < |results| :: results[i] == 0
    requires forall i: nat | i < p.threads :: i in order
    requires forall k | 0 <= k < |order| :: order[k] < p.threads
    requires forall k, m | 0 <= k < m < |order| :: order[k] != order[m]
    modifies jy.dst.data, ju.dst.data, jv.dst.data
    ensures Assembled(jy, py, old(jy.dst.data[..]), q.frame, p.rows, p.cols, 0, 0)
    ensures Assembled(ju, pu, old(ju.dst.data[..]), q.frame, p.rows, p.cols, subW, subH)
    ensures Assembled(jv, pv, old(jv.dst.data[..]), q.frame, p.rows, p.cols, subW, subH)
  {
    PlannedJobIsOk(jy, py, q, p, 0, 0);
    PlannedJobIsOk(ju, pu, q, p, subW, subH);
    PlannedJobIsOk(jv, pv, q, p, subW, subH);
    EmitAll(jy, ju, jv, results, order, p.colTiled, !p.dstZerocopy, py, pu, pv);
    ghost var done := EmittedBy(results, order);
    forall i: nat | i < p.threads ensures i in done {
      EveryoneEmitted(results, order, i);
    }
    EmittedIsAssembled(jy, py, old(jy.dst.data[..]), q, p, 0, 0, done);
    EmittedIsAssembled(ju, pu, old(ju.dst.data[..]), q, p, subW, subH, done);
    EmittedIsAssembled(jv, pv, old(jv.dst.data[..]), q, p, subW, subH, done);
  }
}
