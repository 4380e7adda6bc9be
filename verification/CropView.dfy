/** From a picture to plane windows: the chroma table and the even crop
    (chroma_classify.h), and the plane extents and bounds checks (picture_view.h). */
module CropView {
  import opened Arith
  import P = Planes
  import opened TileCover

  const UINT_MAX := 0xFFFF_FFFF
  const INT_MAX := 0x7FFF_FFFF
  const SIZE_MAX := 0xFFFF_FFFF_FFFF_FFFF

  // ------------------------------------------------------------- the chroma table

  datatype Group = Group(xPixels: nat, xBytes: nat, yPixels: nat, pixelPitch: nat)

  datatype Descriptor = Descriptor(fourcc: string, hasY: bool, subW: nat, subH: nat, swapped: bool, planes: seq<Group>)

  const LUMA := Group(1, 1, 1, 1)
  const HALF_BOTH := Group(2, 1, 2, 1)
  const HALF_WIDE := Group(2, 1, 1, 1)

  const DESCRIPTORS := [
    Descriptor("I420", true, 1, 1, false, [LUMA, HALF_BOTH, HALF_BOTH]),
    Descriptor("YV12", true, 1, 1, true, [LUMA, HALF_BOTH, HALF_BOTH]),
    Descriptor("I422", true, 1, 0, false, [LUMA, HALF_WIDE, HALF_WIDE]),
    Descriptor("I444", true, 0, 0, false, [LUMA, LUMA, LUMA]),
    Descriptor("NV12", true, 1, 1, false, [LUMA, Group(2, 2, 2, 1)]),
    Descriptor("NV21", true, 1, 1, false, [LUMA, Group(2, 2, 2, 1)]),
    Descriptor("RV24", false, 0, 0, false, [Group(1, 3, 1, 3)]),
    Descriptor("RGBA", false, 0, 0, false, [Group(1, 4, 1, 4)]),
    Descriptor("BGRA", false, 0, 0, false, [Group(1, 4, 1, 4)])
  ]

  datatype Lookup = Unknown | Known(d: Descriptor)

  function LookupFrom(i: nat, chroma: string): Lookup
    decreases |DESCRIPTORS| - i
  {
    if i >= |DESCRIPTORS| then Unknown
    else if DESCRIPTORS[i].fourcc == chroma then Known(DESCRIPTORS[i])
    else LookupFrom(i + 1, chroma)
  }

  /** up_chroma_descriptor. */
  function Describe(chroma: string): Lookup {
    LookupFrom(0, chroma)
  }

  /** A layout the plane extents make sense for; for a format with a luma plane the groups
      of every other plane are the subsampling factors. */
  predicate Sound(d: Descriptor) {
    && 0 < |d.planes| <= 3 && d.subW <= 1 && d.subH <= 1
    && (forall i | 0 <= i < |d.planes| ::
          var g := d.planes[i];
          0 < g.xPixels <= 2 && 0 < g.xBytes <= 4 && 0 < g.yPixels <= 2 && 0 < g.pixelPitch
              && g.xBytes % g.pixelPitch == 0)
    && (d.hasY ==> d.planes[0] == LUMA
                   && forall i | 1 <= i < |d.planes| ::
                      d.planes[i].xPixels == 1 + d.subW && d.planes[i].yPixels == 1 + d.subH)
  }

  lemma {:induction false} TableIsSound(i: nat, chroma: string)
    ensures LookupFrom(i, chroma).Known? ==> Sound(LookupFrom(i, chroma).d) && LookupFrom(i, chroma).d.fourcc == chroma
    decreases |DESCRIPTORS| - i
  {
    if i < |DESCRIPTORS| && DESCRIPTORS[i].fourcc != chroma {
      TableIsSound(i + 1, chroma);
    }
  }

  // ------------------------------------------------------------- the even crop

  /** A pointer argument that may be NULL. */
  datatype Arg<T> = Null | Ref(v: T)

  /** up_chroma_align_axis_even. */
  function AlignAxis(dim: Arg<int>, off: Arg<nat>): (r: (Arg<int>, Arg<nat>)) {
    match (dim, off)
    case (Ref(d), Ref(o)) =>
      if d <= 0 then (Ref(0), off)
      else
        var end := o + d;
        var alignedStart := o + o % 2;
        var alignedEnd := end - end % 2;
        if alignedStart > UINT_MAX then (Ref(0), off)
        else (Ref(if alignedEnd > alignedStart then alignedEnd - alignedStart else 0), Ref(alignedStart))
    case (Ref(d), Null) => (Ref(d - d % 2), Null)
    case (Null, Ref(o)) => (Null, Ref(o - o % 2))
    case (Null, Null) => (Null, Null)
  }

  /** up_chroma_align_crop_even. */
  function AlignCrop(chroma: string, w: Arg<int>, h: Arg<int>, x: Arg<nat>, y: Arg<nat>)
    : (r: (Arg<int>, Arg<int>, Arg<nat>, Arg<nat>))
  {
    match Describe(chroma)
    case Known(d) =>
      if !d.hasY then (w, h, x, y)
      else
        var cols := if d.subW > 0 then AlignAxis(w, x) else (w, x);
        var rows := if d.subH > 0 then AlignAxis(h, y) else (h, y);
        (cols.0, rows.0, cols.1, rows.1)
    case Unknown => (w, h, x, y)
  }

  /** [a, b) lies in [off, off + dim) and has even ends. */
  predicate EvenInside(a: int, b: int, off: nat, dim: int) {
    off <= a <= b <= off + dim && a % 2 == 0 && b % 2 == 0
  }

  /** The aligned window is the largest even one inside the window given: it lies inside, and
      every even window inside lies within it. It is empty exactly if there is none but
      empty ones, or none an unsigned offset can express. */
  lemma AlignIsLargestEven(dim: int, off: nat)
    requires off <= UINT_MAX
    ensures var (d, o) := AlignAxis(Ref(dim), Ref(off));
            && d.Ref? && o.Ref? && d.v >= 0 && d.v % 2 == 0 && o.v <= UINT_MAX
            && (d.v > 0 ==> EvenInside(o.v, o.v + d.v, off, dim))
            && (forall a: nat, b: nat | EvenInside(a, b, off, dim) && a < b && a <= UINT_MAX ::
               d.v > 0 && o.v <= a && b <= o.v + d.v)
  {
  }

  // ------------------------------------------------------------- plane extents

  datatype Extent = Extent(x: nat, y: nat, width: nat, height: nat, xBytes: nat, rowBytes: nat)

  function Groups(end: nat, group: nat): nat
    requires 0 < group
  {
    (end + group - 1) / group
  }

  /** How many groups of `group` samples the window [off, off + len) touches. */
  function GroupCount(off: nat, len: nat, group: nat): (n: nat)
    requires 0 < group
  {
    GroupsAfter(off, len, group);
    Groups(off + len, group) - off / group
  }

  lemma GroupsAfter(off: nat, len: nat, group: nat)
    requires 0 < group
    ensures off / group <= Groups(off + len, group)
  {
    DivMono(off, off + len + group - 1, group);
  }

  /** up_picture_plane_extent; a layout with a zero group has the zero extent. */
  function PlaneExtent(g: Group, x: nat, y: nat, w: nat, h: nat): Extent {
    if g.xPixels == 0 || g.xBytes == 0 || g.yPixels == 0 || g.pixelPitch == 0 || g.xBytes % g.pixelPitch != 0
    then Extent(0, 0, 0, 0, 0, 0)
    else
      var xGroups := GroupCount(x, w, g.xPixels);
      Extent(x / g.xPixels, y / g.yPixels, xGroups * g.xBytes / g.pixelPitch, GroupCount(y, h, g.yPixels),
             x / g.xPixels * g.xBytes, xGroups * g.xBytes)
  }

  /** A window's extent is made of exactly the groups that hold one of its samples. */
  lemma ExtentIsTight(off: nat, len: nat, group: nat, k: nat)
    requires 0 < group && 0 < len
    ensures off / group <= k < off / group + GroupCount(off, len, group)
            <==> k * group < off + len && off < k * group + group
  {
    DivBounds(off, group);
    DivBounds(off + len + group - 1, group);
    var first, end := off / group, Groups(off + len, group);
    assert (k + 1) * group == k * group + group;
    if first <= k { MulMono(first, k, group); } else { MulMono(k + 1, first, group); }
    if k < end { MulMono(k + 1, end, group); } else { MulMono(end, k, group); }
    assert (first + 1) * group == first * group + group;
    if first < k { MulMono(first + 1, k, group); }
    if k < first { MulMono(k + 1, first, group); }
  }

  lemma SingleGroups(off: nat, len: nat)
    ensures off / 1 == off && GroupCount(off, len, 1) == len
  {
  }

  lemma PairedGroups(off: nat, len: nat)
    requires off % 2 == 0 && len % 2 == 0
    ensures (off / 2) * 2 == off && GroupCount(off, len, 2) == len / 2
  {
  }

  /** With an even crop the halved window is exact: it starts and ends where the luma window
      does, and has up_chroma_dim samples. */
  lemma EvenWindowIsExact(off: nat, len: nat, sub: nat)
    requires sub <= 1 && 0 < len && (sub == 1 ==> off % 2 == 0 && len % 2 == 0)
    ensures (off / (1 + sub)) * (1 + sub) == off
    ensures GroupCount(off, len, 1 + sub) * (1 + sub) == len
    ensures off / (1 + sub) == Shr(off, sub) && GroupCount(off, len, 1 + sub) == ChromaDim(len, sub)
  {
    if sub == 0 {
      SingleGroups(off, len);
    } else {
      PairedGroups(off, len);
      AtOne(off);
      AtOne(len);
    }
  }

  /** Bytes from..from + n are the bytes of groups first..first + count. */
  lemma GroupBytes(b: nat, bytes: nat, first: nat, count: nat)
    requires 0 < bytes
    ensures first * bytes <= b < first * bytes + count * bytes <==> first <= b / bytes < first + count
  {
    DivBounds(b, bytes);
    var k := b / bytes;
    assert (first + count) * bytes == first * bytes + count * bytes;
    assert (k + 1) * bytes == k * bytes + bytes;
    if first <= k { MulMono(first, k, bytes); } else { MulMono(k + 1, first, bytes); }
    if k < first + count { MulMono(k + 1, first + count, bytes); } else { MulMono(first + count, k, bytes); }
  }

  /** A byte of a plane is in the window's extent exactly if its group holds a column of the
      window, and a row of the plane exactly if it holds one of its rows. */
  lemma ExtentBytes(g: Group, x: nat, y: nat, w: nat, h: nat, b: nat, row: nat)
    requires 0 < g.xPixels && 0 < g.xBytes && 0 < g.yPixels && 0 < g.pixelPitch && g.xBytes % g.pixelPitch == 0
    requires 0 < w && 0 < h
    ensures var e, k := PlaneExtent(g, x, y, w, h), b / g.xBytes;
            && (e.xBytes <= b < e.xBytes + e.rowBytes <==> k * g.xPixels < x + w && x < k * g.xPixels + g.xPixels)
            && (e.y <= row < e.y + e.height <==> row * g.yPixels < y + h && y < row * g.yPixels + g.yPixels)
  {
    ExtentIsTight(x, w, g.xPixels, b / g.xBytes);
    ExtentIsTight(y, h, g.yPixels, row);
    GroupBytes(b, g.xBytes, x / g.xPixels, GroupCount(x, w, g.xPixels));
  }

  /** What the format names stand for: the luma formats' subsampling, and packed RGB. */
  lemma FormatsAsNamed(chroma: string)
    ensures chroma in {"I420", "YV12", "NV12", "NV21", "I422", "I444", "RV24", "RGBA", "BGRA"} ==>
              Describe(chroma).Known?
    ensures Describe(chroma).Known? ==>
              chroma in {"I420", "YV12", "NV12", "NV21", "I422", "I444", "RV24", "RGBA", "BGRA"}
    ensures Describe(chroma).Known? ==>
              var d := Describe(chroma).d;
              && (d.hasY <==> chroma !in {"RV24", "RGBA", "BGRA"}) && (d.swapped <==> chroma == "YV12")
              && d.subW == (if chroma in {"I420", "YV12", "NV12", "NV21", "I422"} then 1 else 0)
              && d.subH == (if chroma in {"I420", "YV12", "NV12", "NV21"} then 1 else 0)
  {
    var k := LookupFinds(0, chroma);
  }

  /** The lookup finds the first entry of that name. */
  lemma {:induction false} LookupFinds(i: nat, chroma: string) returns (k: nat)
    requires i <= |DESCRIPTORS|
    ensures i <= k <= |DESCRIPTORS| && forall m: nat | i <= m < k :: DESCRIPTORS[m].fourcc != chroma
    ensures if k < |DESCRIPTORS| then DESCRIPTORS[k].fourcc == chroma && LookupFrom(i, chroma) == Known(DESCRIPTORS[k])
            else LookupFrom(i, chroma) == Unknown
    decreases |DESCRIPTORS| - i
  {
    if i < |DESCRIPTORS| && DESCRIPTORS[i].fourcc != chroma {
      k := LookupFinds(i + 1, chroma);
    } else {
      k := i;
    }
  }

  function PlaneBytes(g: Group, w: nat, h: nat): nat {
    PlaneExtent(g, 0, 0, w, h).rowBytes * PlaneExtent(g, 0, 0, w, h).height
  }

  function FrameBytes(planes: seq<Group>, w: nat, h: nat): nat {
    if planes == [] then 0 else PlaneBytes(planes[0], w, h) + FrameBytes(planes[1..], w, h)
  }

  lemma EvenPlaneBytes(g: Group, a: nat, b: nat)
    requires 1 <= g.xPixels <= 2 && 1 <= g.yPixels <= 2 && 0 < g.pixelPitch && 0 < g.xBytes
    requires g.xBytes % g.pixelPitch == 0
    ensures PlaneBytes(g, 2 * a, 2 * b)
            == (if g.xPixels == 1 then 2 * a else a) * g.xBytes * if g.yPixels == 1 then 2 * b else b
  {
    SingleGroups(0, 2 * a);
    PairedGroups(0, 2 * a);
    SingleGroups(0, 2 * b);
    PairedGroups(0, 2 * b);
  }

  /** Bytes of four pixels, by the format's name: 12, 16 or 24 bits a pixel, 32 with alpha. */
  function FourPixels(chroma: string): nat {
    if chroma in {"I420", "YV12", "NV12", "NV21"} then 6
    else if chroma == "I422" then 8
    else if chroma == "RGBA" || chroma == "BGRA" then 16
    else 12
  }

  /** The planes of an even-sized frame together have the size the format is known for. */
  lemma FrameSize(chroma: string, a: nat, b: nat)
    requires Describe(chroma).Known?
    ensures FrameBytes(Describe(chroma).d.planes, 2 * a, 2 * b) == FourPixels(chroma) * (a * b)
  {
    var k := LookupFinds(0, chroma);
    TableIsSound(0, chroma);
    var ps := Describe(chroma).d.planes;
    forall i | 0 <= i < |ps|
      ensures PlaneBytes(ps[i], 2 * a, 2 * b)
              == (if ps[i].xPixels == 1 then 2 * a else a) * ps[i].xBytes * if ps[i].yPixels == 1 then 2 * b else b
    {
      EvenPlaneBytes(ps[i], a, b);
    }
    Unrolled(ps, 2 * a, 2 * b);
    Products(a, b);
  }

  lemma Unrolled(ps: seq<Group>, w: nat, h: nat)
    requires 1 <= |ps| <= 3
    ensures FrameBytes(ps, w, h) == PlaneBytes(ps[0], w, h) + (if |ps| > 1 then PlaneBytes(ps[1], w, h) else 0)
              + (if |ps| > 2 then PlaneBytes(ps[2], w, h) else 0)
  {
    if |ps| > 1 {
      assert ps[1..][0] == ps[1];
      if |ps| > 2 {
        assert ps[1..][1..][0] == ps[2];
      }
    }
  }

  lemma Products(a: nat, b: nat)
    ensures 2 * a * 1 * (2 * b) == 4 * (a * b) && a * 1 * b == a * b && a * 2 * b == 2 * (a * b)
    ensures a * 1 * (2 * b) == 2 * (a * b) && 2 * a * 3 * (2 * b) == 12 * (a * b) && 2 * a * 4 * (2 * b) == 16 * (a * b)
  {
  }

  // ------------------------------------------------------------- views

  /** One plane_t: storage of `lines` lines of `pitch` bytes. */
  datatype PlaneStore = PlaneStore(hasPixels: bool, pitch: int, lines: int, pixelPitch: int)

  datatype Picture = Picture(chroma: string, width: nat, height: nat, visibleWidth: nat, visibleHeight: nat,
      planes: seq<PlaneStore>)

  datatype Region = Region(codedWidth: nat, codedHeight: nat, x: nat, y: nat, width: int, height: int)

  /** Where a plane's window starts in its storage, and its pitch. */
  datatype PlaneView = PlaneView(offset: nat, pitch: nat)

  datatype View = NoView | View(planes: seq<PlaneView>)

  predicate StorageOk(p: PlaneStore, pixelPitch: nat) {
    p.hasPixels && p.pitch > 0 && p.lines > 0 && p.pixelPitch == pixelPitch
  }

  predicate ExtentOk(p: PlaneStore, e: Extent)
    requires p.pitch > 0 && p.lines > 0
  {
    && e.xBytes <= p.pitch && e.rowBytes <= p.pitch - e.xBytes
    && e.y <= p.lines && e.height <= p.lines - e.y
    && e.width <= INT_MAX && e.height <= INT_MAX && e.rowBytes <= INT_MAX
  }

  datatype MaybePlane = NoPlane | SomePlane(v: PlaneView)

  /** up_picture_plane_view_init. */
  function PlaneViewOf(p: PlaneStore, g: Group, r: Region): MaybePlane
    requires 0 < r.width && 0 < r.height
  {
    if !StorageOk(p, g.pixelPitch) then NoPlane
    else
      var e := PlaneExtent(g, r.x, r.y, r.width, r.height);
      if !ExtentOk(p, e) || P.RowStart(p.pitch, e.y) > SIZE_MAX - e.xBytes then NoPlane
      else SomePlane(PlaneView(P.RowStart(p.pitch, e.y) + e.xBytes, p.pitch))
  }

  predicate DeclaredCropOk(pic: Picture, r: Region) {
    && r.x + r.width <= r.codedWidth && r.y + r.height <= r.codedHeight
    && pic.width >= r.codedWidth && pic.height >= r.codedHeight
    && (pic.visibleWidth != 0 ==> r.width <= pic.visibleWidth)
    && (pic.visibleHeight != 0 ==> r.height <= pic.visibleHeight)
  }

  predicate ViewArgsOk(pic: Picture, chroma: string, r: Region) {
    && r.width > 0 && r.height > 0 && pic.chroma == chroma && r.x <= INT_MAX && r.y <= INT_MAX
    && DeclaredCropOk(pic, r)
  }

  /** Row k of the window lies inside the plane's storage. */
  predicate RowInside(v: PlaneView, p: PlaneStore, e: Extent, k: nat)
    requires p.pitch > 0 && p.lines > 0
  {
    v.offset + P.RowStart(p.pitch, k) + e.rowBytes <= P.RowStart(p.pitch, p.lines)
  }

  ghost predicate WindowInside(v: PlaneView, p: PlaneStore, e: Extent)
    requires p.pitch > 0 && p.lines > 0
  {
    v.pitch == p.pitch && v.offset == P.RowStart(p.pitch, e.y) + e.xBytes
    && forall k: nat | k < e.height :: RowInside(v, p, e, k)
  }

  /** The bounds checks are enough: every byte of every row of an accepted window is in the
      plane. */
  lemma AcceptedWindowIsInside(p: PlaneStore, g: Group, r: Region)
    requires 0 < r.width && 0 < r.height && PlaneViewOf(p, g, r).SomePlane?
    ensures WindowInside(PlaneViewOf(p, g, r).v, p, PlaneExtent(g, r.x, r.y, r.width, r.height))
  {
    var e := PlaneExtent(g, r.x, r.y, r.width, r.height);
    var v := PlaneViewOf(p, g, r).v;
    forall k: nat | k < e.height ensures RowInside(v, p, e, k) {
      P.RowStartAdds(p.pitch, e.y, k);
      P.RowsApart(p.pitch, e.y + k, p.lines);
    }
  }

  /** No window that fits is refused: with storage of the right kind, a window is accepted
      exactly if its last column and its last row are in the storage. */
  lemma AcceptedExactly(p: PlaneStore, g: Group, r: Region)
    requires 0 < g.xPixels && 0 < g.xBytes && 0 < g.yPixels && 0 < g.pixelPitch && g.xBytes % g.pixelPitch == 0
    requires 0 < r.width && 0 < r.height && p.pitch <= INT_MAX && p.lines <= INT_MAX
    ensures var e := PlaneExtent(g, r.x, r.y, r.width, r.height);
            PlaneViewOf(p, g, r).SomePlane? <==>
              && p.hasPixels && 0 < p.pitch && 0 < p.lines && p.pixelPitch == g.pixelPitch
              && e.xBytes + e.rowBytes <= p.pitch && e.y + e.height <= p.lines
  {
    var e := PlaneExtent(g, r.x, r.y, r.width, r.height);
    DivBounds(e.rowBytes, g.pixelPitch);
    MulMono(1, g.pixelPitch, e.width);
    if p.pitch > 0 && e.y <= p.lines {
      P.RowStartIsProduct(p.pitch, e.y);
      MulMono(e.y, INT_MAX, p.pitch);
      MulMono(p.pitch, INT_MAX, INT_MAX);
    }
  }

  /** A crop is declared correctly if it lies in the coded area, the coded area in the picture,
      and it is no larger than what the picture says is visible; its pixels are then pixels
      of the picture. The whole of a picture is always a correct crop. */
  lemma DeclaredCrops(pic: Picture, chroma: string, r: Region, u: nat, v: nat)
    ensures ViewArgsOk(pic, chroma, r) ==>
              && pic.chroma == chroma && 0 < r.width && 0 < r.height
              && (r.x <= u < r.x + r.width ==> u < r.codedWidth <= pic.width)
              && (r.y <= v < r.y + r.height ==> v < r.codedHeight <= pic.height)
    ensures pic.chroma == chroma && 0 < pic.width && 0 < pic.height
            && (pic.visibleWidth == 0 || pic.visibleWidth == pic.width)
            && (pic.visibleHeight == 0 || pic.visibleHeight == pic.height) ==>
              ViewArgsOk(pic, chroma, Region(pic.width, pic.height, 0, 0, pic.width, pic.height))
    ensures ViewArgsOk(pic, chroma, r) && 0 < pic.visibleWidth ==> r.width <= pic.visibleWidth
    ensures ViewArgsOk(pic, chroma, r) && 0 < pic.visibleHeight ==> r.height <= pic.visibleHeight
  {
  }

  /** up_picture_view_init: all planes of the layout, or none; and only windows inside
      their planes. */
  method ViewInit(pic: Picture, chroma: string, r: Region) returns (view: View)
    ensures view.View? <==>
              && ViewArgsOk(pic, chroma, r) && Describe(chroma).Known? && |pic.planes| >= |Describe(chroma).d.planes|
              && forall i | 0 <= i < |Describe(chroma).d.planes| ::
                   PlaneViewOf(pic.planes[i], Describe(chroma).d.planes[i], r).SomePlane?
    ensures view.View? ==> |view.planes| == |Describe(chroma).d.planes|
    ensures view.View? ==> forall i | 0 <= i < |view.planes| ::
              && pic.planes[i].pitch > 0 && pic.planes[i].lines > 0
              && WindowInside(view.planes[i], pic.planes[i],
                              PlaneExtent(Describe(chroma).d.planes[i], r.x, r.y, r.width, r.height))
  {
    view := NoView;
    if !ViewArgsOk(pic, chroma, r) {
      return;
    }
    var layout := Describe(chroma);
    if layout.Unknown? || |pic.planes| < |layout.d.planes| {
      return;
    }
    var planes: seq<PlaneView> := [];
    for i := 0 to |layout.d.planes|
      invariant |planes| == i
      invariant forall k | 0 <= k < i :: PlaneViewOf(pic.planes[k], layout.d.planes[k], r) == SomePlane(planes[k])
    {
      var p := PlaneViewOf(pic.planes[i], layout.d.planes[i], r);
      if p.NoPlane? {
        return;
      }
      planes := planes + [p.v];
    }
    forall i | 0 <= i < |planes|
      ensures pic.planes[i].pitch > 0 && pic.planes[i].lines > 0
      ensures WindowInside(planes[i], pic.planes[i], PlaneExtent(layout.d.planes[i], r.x, r.y, r.width, r.height))
    {
      AcceptedWindowIsInside(pic.planes[i], layout.d.planes[i], r);
    }
    view := View(planes);
  }

  /** A crop aligned to even on the subsampled axes has exact windows in every plane of a
      format with a luma plane: no chroma sample is shifted against luma. */
  lemma AlignedCropIsExact(chroma: string, i: nat, r: Region)
    requires Describe(chroma).Known? && Describe(chroma).d.hasY && i < |Describe(chroma).d.planes|
    requires 0 < r.width && 0 < r.height
    requires Describe(chroma).d.subW == 1 ==> r.x % 2 == 0 && r.width % 2 == 0
    requires Describe(chroma).d.subH == 1 ==> r.y % 2 == 0 && r.height % 2 == 0
    ensures var d := Describe(chroma).d;
            var g := d.planes[i];
            var e := PlaneExtent(g, r.x, r.y, r.width, r.height);
            && e.x * g.xPixels == r.x && e.y * g.yPixels == r.y && e.height * g.yPixels == r.height
            && e.x == Shr(r.x, if i == 0 then 0 else d.subW) && e.y == Shr(r.y, if i == 0 then 0 else d.subH)
            && e.height == ChromaDim(r.height, if i == 0 then 0 else d.subH)
            && e.rowBytes == ChromaDim(r.width, if i == 0 then 0 else d.subW) * g.xBytes
  {
    TableIsSound(0, chroma);
    var d := Describe(chroma).d;
    EvenWindowIsExact(r.x, r.width, if i == 0 then 0 else d.subW);
    EvenWindowIsExact(r.y, r.height, if i == 0 then 0 else d.subH);
  }

  /** The region a crop leaves after alignment. */
  function Aligned(chroma: string, r: Region): (t: Region)
  {
    match AlignCrop(chroma, Ref(r.width), Ref(r.height), Ref(r.x), Ref(r.y))
    case (Ref(w), Ref(h), Ref(x), Ref(y)) => r.(width := w, height := h, x := x, y := y)
    case _ => r
  }

  /** Only subsampled axes are aligned; a lone length or offset becomes the largest even number
      not above it. */
  lemma AlignsOnlyWhereNeeded(chroma: string, r: Region, v: nat)
    requires Describe(chroma).Known?
    ensures var d, t := Describe(chroma).d, Aligned(chroma, r);
            && (!d.hasY || d.subW == 0 ==> t.x == r.x && t.width == r.width)
            && (!d.hasY || d.subH == 0 ==> t.y == r.y && t.height == r.height)
    ensures AlignAxis(Ref(v), Null).0.Ref? && EvenBelow(AlignAxis(Ref(v), Null).0.v, v)
    ensures AlignAxis(Null, Ref(v)).1.Ref? && EvenBelow(AlignAxis(Null, Ref(v)).1.v, v)
  {
  }

  predicate EvenBelow(e: int, v: int) {
    e % 2 == 0 && e <= v < e + 2
  }

  /** Whatever the crop: after alignment it lies inside the crop asked for, and if anything
      is left of it, luma and chroma windows coincide in every plane. */
  lemma CropThenWindow(chroma: string, i: nat, r: Region)
    requires Describe(chroma).Known? && Describe(chroma).d.hasY && i < |Describe(chroma).d.planes|
    requires 0 < r.width && 0 < r.height && r.x <= UINT_MAX && r.y <= UINT_MAX
    requires Aligned(chroma, r).width > 0 && Aligned(chroma, r).height > 0
    ensures var t := Aligned(chroma, r);
            && r.x <= t.x && t.x + t.width <= r.x + r.width && r.y <= t.y && t.y + t.height <= r.y + r.height
            && var d := Describe(chroma).d;
               var e := PlaneExtent(d.planes[i], t.x, t.y, t.width, t.height);
               && e.x * d.planes[i].xPixels == t.x && e.y * d.planes[i].yPixels == t.y
               && e.height * d.planes[i].yPixels == t.height
               && e.rowBytes * d.planes[i].xPixels == t.width * d.planes[i].xBytes
  {
    TableIsSound(0, chroma);
    AlignIsLargestEven(r.width, r.x);
    AlignIsLargestEven(r.height, r.y);
    var t, d := Aligned(chroma, r), Describe(chroma).d;
    AlignedCropIsExact(chroma, i, t);
    EvenWindowIsExact(t.x, t.width, if i == 0 then 0 else d.subW);
    var n, g := ChromaDim(t.width, if i == 0 then 0 else d.subW), d.planes[i];
    assert n * g.xPixels == t.width;
    assert n * g.xBytes * g.xPixels == n * g.xPixels * g.xBytes;
  }
}
