/** Rasterising detected text into a mask, filtering by it, and the conversion it inverts. */
module TextMask {
  import opened Prelude

  /** A page's size in points. */
  datatype Media = Media(width: real, height: real)

  /** A detected region; one without a usable box is skipped. */
  datatype Region = Region(bbox: Option<Box>)

  datatype Page = Page(media: Option<Media>, regions: Option<seq<Region>>)

  /** Python's `round`: to the nearest integer, ties to even. */
  function Round(x: real): int {
    var lo := x.Floor;
    var d := x - lo as real;
    if d < 0.5 || (d == 0.5 && lo % 2 == 0) then lo else lo + 1
  }

  /** A pixel rectangle, half open: columns x0 to x1, rows y0 to y1. */
  datatype Rect = Rect(x0: int, y0: int, x1: int, y1: int)

  predicate Nonempty(r: Rect) {
    r.x0 < r.x1 && r.y0 < r.y1
  }

  predicate Covers(r: Rect, row: int, col: int) {
    r.x0 <= col < r.x1 && r.y0 <= row < r.y1
  }

  datatype Grid = Grid(width: nat, height: nat)

  /** Points as pixels at a resolution. */
  function PixelsOf(points: real, dpi: int): real {
    points * dpi as real / 72.0
  }

  function GridOf(m: Media, dpi: int): (g: Grid)
    ensures g.width >= 1 && g.height >= 1
  {
    Grid(MaxI(1, Round(PixelsOf(m.width, dpi))), MaxI(1, Round(PixelsOf(m.height, dpi))))
  }

  /** A coordinate out of `size` as the same share of `to`. */
  function Scaled(t: real, to: real, size: real): real
    requires size != 0.0
  {
    t * (to / size)
  }

  /** A box in points, origin bottom left, as the clipped and dilated pixel rectangle, origin top left. */
  function RectOf(m: Media, g: Grid, dilation: int, b: Box): Rect
    requires m.width > 0.0 && m.height > 0.0
  {
    var w, h := g.width as real, g.height as real;
    Rect(
      MaxI(0, Trunc(Scaled(b.x0, w, m.width)) - dilation),
      MaxI(0, Trunc(Scaled(m.height - b.y1, h, m.height)) - dilation),
      MinI(g.width, Trunc(Scaled(b.x1, w, m.width)) + dilation),
      MinI(g.height, Trunc(Scaled(m.height - b.y0, h, m.height)) + dilation))
  }

  /** The rectangles of the regions that mark anything, in order. */
  function Rects(m: Media, g: Grid, dilation: int, regions: seq<Region>): seq<Rect>
    requires m.width > 0.0 && m.height > 0.0
  {
    if regions == [] then []
    else
      var last := regions[|regions| - 1];
      Rects(m, g, dilation, regions[..|regions| - 1]) +
        (if last.bbox.Some? && Nonempty(RectOf(m, g, dilation, last.bbox.value))
         then [RectOf(m, g, dilation, last.bbox.value)] else [])
  }

  ghost predicate Marked(rects: seq<Rect>, row: int, col: int) {
    exists r :: r in rects && Covers(r, row, col)
  }

  /** The page can be masked: it has regions and a media box of positive size. */
  predicate Maskable(page: Page) {
    page.regions.Some? && page.regions.value != [] &&
    page.media.Some? && page.media.value.width > 0.0 && page.media.value.height > 0.0
  }

  function PageRects(page: Page, dpi: int, dilation: int): seq<Rect>
    requires Maskable(page)
  {
    Rects(page.media.value, GridOf(page.media.value, dpi), dilation, page.regions.value)
  }

  /** The mask holds 255 exactly on the marked cells and 0 elsewhere. */
  ghost predicate Shows(mask: array2<int>, rects: seq<Rect>)
    reads mask
  {
    forall row, col :: 0 <= row < mask.Length0 && 0 <= col < mask.Length1 ==>
      mask[row, col] == if Marked(rects, row, col) then 255 else 0
  }

  method FillRect(mask: array2<int>, r: Rect, ghost rects: seq<Rect>)
    requires 0 <= r.x0 <= r.x1 <= mask.Length1 && 0 <= r.y0 <= r.y1 <= mask.Length0
    requires Shows(mask, rects)
    modifies mask
    ensures Shows(mask, rects + [r])
  {
    forall row, col | r.y0 <= row < r.y1 && r.x0 <= col < r.x1 {
      mask[row, col] := 255;
    }
    forall row, col | 0 <= row < mask.Length0 && 0 <= col < mask.Length1
      ensures Marked(rects + [r], row, col) <==> Marked(rects, row, col) || Covers(r, row, col)
    {
      MarkedSnoc(rects, r, row, col);
    }
  }

  lemma MarkedSnoc(rects: seq<Rect>, r: Rect, row: int, col: int)
    ensures Marked(rects + [r], row, col) <==> Marked(rects, row, col) || Covers(r, row, col)
  {
    if Covers(r, row, col) {
      assert r in rects + [r];
    }
    if Marked(rects, row, col) {
      var q :| q in rects && Covers(q, row, col);
      assert q in rects + [r];
    }
  }

  /** The mask of a page, or None when there is nothing to mask with. */
  method BuildTextMask(page: Page, dpi: int, dilation: int) returns (mask: array2?<int>)
    ensures mask != null ==> fresh(mask)
    ensures mask != null <==> Maskable(page) && PageRects(page, dpi, dilation) != []
    ensures mask != null ==>
      var g := GridOf(page.media.value, dpi);
      mask.Length0 == g.height && mask.Length1 == g.width && Shows(mask, PageRects(page, dpi, dilation))
  {
    if page.regions.None? || page.regions.value == [] || page.media.None? {
      return null;
    }
    var m := page.media.value;
    if m.width <= 0.0 || m.height <= 0.0 {
      return null;
    }
    var g := GridOf(m, dpi);
    var grid := new int[g.height, g.width]((_, _) => 0);
    var anyMarked := false;
    var regions := page.regions.value;
    for k := 0 to |regions|
      invariant fresh(grid) && grid.Length0 == g.height && grid.Length1 == g.width
      invariant Shows(grid, Rects(m, g, dilation, regions[..k]))
      invariant anyMarked <==> Rects(m, g, dilation, regions[..k]) != []
    {
      assert regions[..k + 1][..k] == regions[..k];
      var bbox := regions[k].bbox;
      if bbox.None? {
        assert Rects(m, g, dilation, regions[..k + 1]) == Rects(m, g, dilation, regions[..k]) + [];
        continue;
      }
      var r := RectOf(m, g, dilation, bbox.value);
      if r.x0 >= r.x1 || r.y0 >= r.y1 {
        assert Rects(m, g, dilation, regions[..k + 1]) == Rects(m, g, dilation, regions[..k]) + [];
        continue;
      }
      FillRect(grid, r, Rects(m, g, dilation, regions[..k]));
      anyMarked := true;
    }
    assert regions[..|regions|] == regions;
    return if anyMarked then grid else null;
  }

  // ---- Coverage -------------------------------------------------------------------------

  /** The cell of a scaled coordinate among `to` cells, the far edge counted with the last one. */
  function Cell(t: real, to: nat): int {
    MaxI(0, MinI(to - 1, t.Floor))
  }

  /** The cell a point of the page falls in. */
  function CellCol(m: Media, g: Grid, x: real): int
    requires m.width > 0.0
  {
    Cell(Scaled(x, g.width as real, m.width), g.width)
  }

  function CellRow(m: Media, g: Grid, y: real): int
    requires m.height > 0.0
  {
    Cell(Scaled(m.height - y, g.height as real, m.height), g.height)
  }

  lemma ScaledOrder(u: real, v: real, to: real, size: real)
    requires u <= v && to > 0.0 && size > 0.0
    ensures Scaled(u, to, size) <= Scaled(v, to, size)
    ensures u < v ==> Scaled(u, to, size) < Scaled(v, to, size)
  {
    var s := to / size;
    if u < v {
      assert (v - u) * s > 0.0;
      assert v * s - u * s == (v - u) * s;
    }
  }

  lemma ScaledEnds(to: real, size: real)
    requires to > 0.0 && size > 0.0
    ensures Scaled(0.0, to, size) == 0.0 && Scaled(size, to, size) == to
  {
    assert size * (to / size) == (size * to) / size;
  }

  lemma ScaledBack(t: real, to: real, size: real)
    requires to > 0.0 && size > 0.0
    ensures Scaled(Scaled(t, to, size), size, to) == t
  {
    var p, q := to / size, size / to;
    assert (to / size) * q == (to * q) / size;
    assert t * p * q == t * (p * q);
  }

  lemma FloorKeepsOrder(u: real, v: real)
    requires u <= v
    ensures u.Floor <= v.Floor
  {
  }

  /** One axis: a coordinate t of the interval, scaled, falls inside the dilated, clipped pixel interval. */
  lemma AxisCovered(lo: real, hi: real, t: real, to: nat, size: real, dilation: int)
    requires size > 0.0 && to >= 1 && lo <= t <= hi && 0.0 <= t <= size && dilation >= 1
    ensures MaxI(0, Trunc(Scaled(lo, to as real, size)) - dilation) <= Cell(Scaled(t, to as real, size), to)
    ensures Cell(Scaled(t, to as real, size), to) < MinI(to, Trunc(Scaled(hi, to as real, size)) + dilation)
  {
    hide Scaled;
    var w := to as real;
    ScaledOrder(lo, t, w, size);
    ScaledOrder(t, hi, w, size);
    ScaledOrder(0.0, t, w, size);
    ScaledOrder(t, size, w, size);
    ScaledEnds(w, size);
    FloorKeepsOrder(Scaled(t, w, size), Scaled(hi, w, size));
    FloorKeepsOrder(0.0, Scaled(t, w, size));
    if Scaled(lo, w, size) >= 0.0 {
      FloorKeepsOrder(Scaled(lo, w, size), Scaled(t, w, size));
    }
  }

  /** The rectangle of a box holds the cell of every point of the box that is on the page. */
  ghost predicate CoversBox(m: Media, g: Grid, dilation: int, b: Box, x: real, y: real)
    requires m.width > 0.0 && m.height > 0.0
  {
    b.x0 <= x <= b.x1 && b.y0 <= y <= b.y1 && 0.0 <= x <= m.width && 0.0 <= y <= m.height ==>
    Covers(RectOf(m, g, dilation, b), CellRow(m, g, y), CellCol(m, g, x))
  }

  lemma DilatedBoxCovers(m: Media, g: Grid, dilation: int, b: Box, x: real, y: real)
    requires m.width > 0.0 && m.height > 0.0 && g.width >= 1 && g.height >= 1 && dilation >= 1
    ensures CoversBox(m, g, dilation, b, x, y)
  {
    hide Scaled, Trunc;
    if b.x0 <= x <= b.x1 && b.y0 <= y <= b.y1 && 0.0 <= x <= m.width && 0.0 <= y <= m.height {
      AxisCovered(b.x0, b.x1, x, g.width, m.width, dilation);
      AxisCovered(m.height - b.y1, m.height - b.y0, m.height - y, g.height, m.height, dilation);
    }
  }

  ghost predicate CoversAlways(dilation: int) {
    forall m: Media, g: Grid, b: Box, x: real, y: real ::
      m.width > 0.0 && m.height > 0.0 && g.width >= 1 && g.height >= 1 ==> CoversBox(m, g, dilation, b, x, y)
  }

  /** Without dilation the right-hand edge of a box is missed. */
  lemma EdgeIsMissed(dilation: int)
    requires dilation < 1
    ensures !CoversBox(Media(72.0, 72.0), Grid(72, 72), dilation, Box(10.0, 10.0, 20.0, 20.0), 20.0, 15.0)
  {
    var m, g := Media(72.0, 72.0), Grid(72, 72);
    assert Scaled(20.0, 72.0, 72.0) == 20.0;
    assert CellCol(m, g, 20.0) == 20;
    assert RectOf(m, g, dilation, Box(10.0, 10.0, 20.0, 20.0)).x1 <= 20;
  }

  /** Every on-page point of every box lands on its rectangle exactly when the dilation is at least a pixel. */
  lemma CoverageIff(dilation: int)
    ensures CoversAlways(dilation) <==> dilation >= 1
  {
    if dilation >= 1 {
      forall m: Media, g: Grid, b: Box, x: real, y: real
        | m.width > 0.0 && m.height > 0.0 && g.width >= 1 && g.height >= 1
        ensures CoversBox(m, g, dilation, b, x, y)
      {
        DilatedBoxCovers(m, g, dilation, b, x, y);
      }
    } else {
      EdgeIsMissed(dilation);
    }
  }

  lemma {:induction false} RectOfRegionListed(m: Media, g: Grid, dilation: int, regions: seq<Region>, k: nat)
    requires m.width > 0.0 && m.height > 0.0 && k < |regions| && regions[k].bbox.Some?
    requires Nonempty(RectOf(m, g, dilation, regions[k].bbox.value))
    ensures RectOf(m, g, dilation, regions[k].bbox.value) in Rects(m, g, dilation, regions)
  {
    hide RectOf;
    if k < |regions| - 1 {
      RectOfRegionListed(m, g, dilation, regions[..|regions| - 1], k);
    }
  }

  /** So in the mask of a page every on-page point of every detected box is marked. */
  lemma DetectedTextIsMarked(page: Page, dpi: int, dilation: int, k: nat, x: real, y: real)
    requires Maskable(page) && dilation >= 1
    requires k < |page.regions.value| && page.regions.value[k].bbox.Some?
    requires var b := page.regions.value[k].bbox.value; b.x0 <= x <= b.x1 && b.y0 <= y <= b.y1
    requires 0.0 <= x <= page.media.value.width && 0.0 <= y <= page.media.value.height
    ensures var m := page.media.value; var g := GridOf(m, dpi);
            Marked(PageRects(page, dpi, dilation), CellRow(m, g, y), CellCol(m, g, x))
  {
    hide RectOf, CellRow, CellCol;
    var m := page.media.value;
    var g := GridOf(m, dpi);
    DilatedBoxCovers(m, g, dilation, page.regions.value[k].bbox.value, x, y);
    RectOfRegionListed(m, g, dilation, page.regions.value, k);
  }

  // ---- The conversion that wrote the boxes ----------------------------------------------

  /** A pixel-space box as the detector reports it; absent corners take the defaults of the source. */
  datatype PixelBox = PixelBox(x1: Option<real>, y1: Option<real>, x2: Option<real>, y2: Option<real>)

  function OrElse(o: Option<real>, d: real): real {
    if o.Some? then o.value else d
  }

  function Corners(b: PixelBox): Box {
    var x0, y0 := OrElse(b.x1, 0.0), OrElse(b.y1, 0.0);
    Box(x0, y0, OrElse(b.x2, x0), OrElse(b.y2, y0))
  }

  /** Pixels to points, with a sliver added to a degenerate box. */
  function ScaleBox(b: PixelBox, imageWidth: real, imageHeight: real, m: Media): Box {
    var p := Corners(b);
    var x0, x1 := Shrunk(p.x0, m.width, imageWidth), Shrunk(p.x1, m.width, imageWidth);
    var y0, y1 := m.height - Shrunk(p.y1, m.height, imageHeight), m.height - Shrunk(p.y0, m.height, imageHeight);
    Box(x0, y0, if x1 <= x0 then x0 + 0.001 else x1, if y1 <= y0 then y0 + 0.001 else y1)
  }

  function Shrunk(t: real, to: real, size: real): real {
    if size != 0.0 then Scaled(t, to, size) else t
  }

  lemma TruncOfInt(k: int)
    ensures Trunc(k as real) == k
  {
  }

  /** With matching image size the mask inverts the conversion: a box on pixel boundaries rasterises to the
      same pixels, grown by the dilation and clipped to the image. */
  lemma RasterInvertsScale(x0: int, y0: int, x1: int, y1: int, m: Media, g: Grid, b: PixelBox, dilation: int)
    requires m.width > 0.0 && m.height > 0.0 && x0 < x1 && y0 < y1 && g.width >= 1 && g.height >= 1
    requires Corners(b) == Box(x0 as real, y0 as real, x1 as real, y1 as real)
    ensures RectOf(m, g, dilation, ScaleBox(b, g.width as real, g.height as real, m)) ==
      Rect(MaxI(0, x0 - dilation), MaxI(0, y0 - dilation), MinI(g.width, x1 + dilation), MinI(g.height, y1 + dilation))
  {
    hide Scaled, Trunc, Corners;
    var w, h := g.width as real, g.height as real;
    ScaledOrder(x0 as real, x1 as real, m.width, w);
    ScaledOrder(y0 as real, y1 as real, m.height, h);
    ScaledBack(x0 as real, m.width, w);
    ScaledBack(x1 as real, m.width, w);
    ScaledBack(y0 as real, m.height, h);
    ScaledBack(y1 as real, m.height, h);
    TruncOfInt(x0);
    TruncOfInt(x1);
    TruncOfInt(y0);
    TruncOfInt(y1);
    var s := ScaleBox(b, w, h, m);
    assert s.x0 == Scaled(x0 as real, m.width, w) && s.x1 == Scaled(x1 as real, m.width, w);
    assert m.height - s.y1 == Scaled(y0 as real, m.height, h);
    assert m.height - s.y0 == Scaled(y1 as real, m.height, h);
  }

  /** The page point of an image point. */
  function PagePoint(m: Media, g: Grid, u: real, v: real): (real, real)
    requires g.width >= 1 && g.height >= 1
  {
    (Scaled(u, m.width, g.width as real), m.height - Scaled(v, m.height, g.height as real))
  }

  lemma PagePointIsOnPage(m: Media, g: Grid, u: real, v: real)
    requires m.width > 0.0 && m.height > 0.0 && g.width >= 1 && g.height >= 1
    requires 0.0 <= u <= g.width as real && 0.0 <= v <= g.height as real
    ensures var (x, y) := PagePoint(m, g, u, v);
            && 0.0 <= x <= m.width && 0.0 <= y <= m.height
            && CellCol(m, g, x) == Cell(u, g.width) && CellRow(m, g, y) == Cell(v, g.height)
  {
    hide Scaled;
    var w, h := g.width as real, g.height as real;
    ScaledEnds(m.width, w);
    ScaledEnds(m.height, h);
    ScaledOrder(0.0, u, m.width, w);
    ScaledOrder(u, w, m.width, w);
    ScaledOrder(0.0, v, m.height, h);
    ScaledOrder(v, h, m.height, h);
    ScaledBack(u, m.width, w);
    ScaledBack(v, m.height, h);
  }

  /** For any pixel box, the pixel of every image point inside it is covered when the dilation is at least one. */
  lemma RasterCoversScaled(b: PixelBox, m: Media, g: Grid, dilation: int, u: real, v: real)
    requires m.width > 0.0 && m.height > 0.0 && g.width >= 1 && g.height >= 1 && dilation >= 1
    requires var p := Corners(b); p.x0 <= u <= p.x1 && p.y0 <= v <= p.y1
    requires 0.0 <= u <= g.width as real && 0.0 <= v <= g.height as real
    ensures Covers(RectOf(m, g, dilation, ScaleBox(b, g.width as real, g.height as real, m)),
                   Cell(v, g.height), Cell(u, g.width))
  {
    hide RectOf, Covers, Scaled, CellRow, CellCol, Corners;
    var p, w, h := Corners(b), g.width as real, g.height as real;
    ScaledOrder(p.x0, u, m.width, w);
    ScaledOrder(u, p.x1, m.width, w);
    ScaledOrder(p.y0, v, m.height, h);
    ScaledOrder(v, p.y1, m.height, h);
    var (x, y) := PagePoint(m, g, u, v);
    PagePointIsOnPage(m, g, u, v);
    DilatedBoxCovers(m, g, dilation, ScaleBox(b, w, h, m), x, y);
  }

  // ---- Filtering ------------------------------------------------------------------------

  const DEFAULT_DILATION := 10

  /** A region reported by another analyzer, in pixels; None where its box is unusable. */
  datatype Candidate = Candidate(id: int, bbox: Option<Box>)

  function CentreCol(b: Box, g: Grid): int {
    MaxI(0, MinI(g.width - 1, Trunc((b.x0 + b.x1) / 2.0)))
  }

  function CentreRow(b: Box, g: Grid): int {
    MaxI(0, MinI(g.height - 1, Trunc((b.y0 + b.y1) / 2.0)))
  }

  /** The candidate's centre, clamped into the image, falls on masked text. */
  ghost predicate OnText(page: Page, dpi: int, c: Candidate) {
    && Maskable(page) && c.bbox.Some?
    && var g := GridOf(page.media.value, dpi);
       Marked(PageRects(page, dpi, DEFAULT_DILATION), CentreRow(c.bbox.value, g), CentreCol(c.bbox.value, g))
  }

  /** The candidates off the text, in order. */
  ghost function OffText(page: Page, dpi: int, cs: seq<Candidate>): seq<Candidate> {
    if cs == [] then []
    else
      var last := cs[|cs| - 1];
      OffText(page, dpi, cs[..|cs| - 1]) + (if OnText(page, dpi, last) then [] else [last])
  }

  lemma {:induction false} NothingOnText(page: Page, dpi: int, cs: seq<Candidate>)
    requires !Maskable(page) || PageRects(page, dpi, DEFAULT_DILATION) == []
    ensures OffText(page, dpi, cs) == cs
  {
    if cs != [] {
      NothingOnText(page, dpi, cs[..|cs| - 1]);
    }
  }

  /** Keeps exactly the candidates off the text, in order, and counts the rest. */
  method FilterByTextMask(cs: seq<Candidate>, page: Page, dpi: int) returns (kept: seq<Candidate>, dropped: nat)
    ensures kept == OffText(page, dpi, cs)
    ensures |kept| + dropped == |cs|
  {
    if cs == [] {
      return [], 0;
    }
    var mask := BuildTextMask(page, dpi, DEFAULT_DILATION);
    if mask == null {
      NothingOnText(page, dpi, cs);
      return cs, 0;
    }
    kept, dropped := [], 0;
    for k := 0 to |cs|
      invariant kept == OffText(page, dpi, cs[..k])
      invariant |kept| + dropped == k
      invariant Shows(mask, PageRects(page, dpi, DEFAULT_DILATION))
    {
      assert cs[..k + 1][..k] == cs[..k];
      var c := cs[k];
      if c.bbox.None? {
        kept := kept + [c];
        continue;
      }
      var cx := MaxI(0, MinI(mask.Length1 - 1, Trunc((c.bbox.value.x0 + c.bbox.value.x1) / 2.0)));
      var cy := MaxI(0, MinI(mask.Length0 - 1, Trunc((c.bbox.value.y0 + c.bbox.value.y1) / 2.0)));
      if mask[cy, cx] == 255 {
        dropped := dropped + 1;
        continue;
      }
      kept := kept + [c];
    }
    assert cs[..|cs|] == cs;
  }

  /** The nearest coordinate of the closed image. */
  function Held(t: real, to: nat): real {
    MaxR(0.0, MinR(to as real, t))
  }

  lemma HeldCell(t: real, to: nat)
    requires to >= 1
    ensures 0.0 <= Held(t, to) <= to as real
    ensures Cell(Held(t, to), to) == MaxI(0, MinI(to - 1, Trunc(t)))
  {
  }

  /** A candidate is dropped when its centre, brought into the image if it lies outside, is a point that the page
      puts inside a detected box. */
  lemma CentreOnTextIsDropped(page: Page, dpi: int, c: Candidate, k: nat)
    requires Maskable(page) && c.bbox.Some?
    requires k < |page.regions.value| && page.regions.value[k].bbox.Some?
    requires var m := page.media.value;
             var g := GridOf(m, dpi);
             var cb, b := c.bbox.value, page.regions.value[k].bbox.value;
             var (x, y) := PagePoint(m, g, Held((cb.x0 + cb.x1) / 2.0, g.width), Held((cb.y0 + cb.y1) / 2.0, g.height));
             b.x0 <= x <= b.x1 && b.y0 <= y <= b.y1
    ensures OnText(page, dpi, c)
  {
    hide PageRects, Marked, PagePoint, CellRow, CellCol, Held, Cell;
    var m := page.media.value;
    var g := GridOf(m, dpi);
    var u, v := (c.bbox.value.x0 + c.bbox.value.x1) / 2.0, (c.bbox.value.y0 + c.bbox.value.y1) / 2.0;
    HeldCell(u, g.width);
    HeldCell(v, g.height);
    PagePointIsOnPage(m, g, Held(u, g.width), Held(v, g.height));
    var (x, y) := PagePoint(m, g, Held(u, g.width), Held(v, g.height));
    DetectedTextIsMarked(page, dpi, DEFAULT_DILATION, k, x, y);
  }
}
