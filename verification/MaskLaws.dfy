/** The text mask in plain numbers: its size, the margin around text, and the degenerate boxes. */
module MaskLaws {
  import opened Prelude
  import opened TextMask

  /** Python's rounding: no integer is nearer, and of two equally near ones the even one is taken. */
  lemma RoundIsNearest(x: real)
    ensures -0.5 <= Round(x) as real - x <= 0.5
    ensures Round(x) as real - x == 0.5 || Round(x) as real - x == -0.5 ==> Round(x) % 2 == 0
  {
  }

  /** The image is as large as the page at the resolution, to the nearest pixel, and at least one pixel each way. */
  lemma GridIsNearest(m: Media, dpi: int)
    ensures var g := GridOf(m, dpi);
            && (g.width == 1 || -0.5 <= g.width as real - PixelsOf(m.width, dpi) <= 0.5)
            && (g.width == 1 ==> PixelsOf(m.width, dpi) <= 1.5)
            && (g.height == 1 || -0.5 <= g.height as real - PixelsOf(m.height, dpi) <= 0.5)
            && (g.height == 1 ==> PixelsOf(m.height, dpi) <= 1.5)
  {
    hide Round, PixelsOf;
    NearestPixels(PixelsOf(m.width, dpi));
    NearestPixels(PixelsOf(m.height, dpi));
  }

  lemma NearestPixels(x: real)
    ensures var n := MaxI(1, Round(x));
            (n == 1 || -0.5 <= n as real - x <= 0.5) && (n == 1 ==> x <= 1.5)
  {
    RoundIsNearest(x);
  }

  /** Seventy-two points to the inch. */
  lemma PixelsPerInch(inches: real, dpi: int)
    ensures PixelsOf(inches * 72.0, dpi) == inches * dpi as real
  {
    assert inches * 72.0 * dpi as real == (inches * dpi as real) * 72.0;
  }

  /** A letter page at 150 dots per inch. */
  lemma LetterPage()
    ensures GridOf(Media(612.0, 792.0), 150) == Grid(1275, 1650)
  {
  }

  /** On a page with one detected box, given in pixels, a candidate is on text exactly when the pixel of its centre is
      no more than ten pixels outside that box. */
  lemma MarginIsTenPixels(m: Media, dpi: int, b: PixelBox, x0: int, y0: int, x1: int, y1: int, c: Candidate)
    requires m.width > 0.0 && m.height > 0.0 && x0 < x1 && y0 < y1 && c.bbox.Some?
    requires Corners(b) == Box(x0 as real, y0 as real, x1 as real, y1 as real)
    ensures var g := GridOf(m, dpi);
            var page := Page(Some(m), Some([Region(Some(ScaleBox(b, g.width as real, g.height as real, m)))]));
            var col, row := CentreCol(c.bbox.value, g), CentreRow(c.bbox.value, g);
            OnText(page, dpi, c) <==> x0 - 10 <= col < x1 + 10 && y0 - 10 <= row < y1 + 10
  {
    hide RectOf, ScaleBox, GridOf, Corners, CentreCol, CentreRow;
    var g := GridOf(m, dpi);
    var s := ScaleBox(b, g.width as real, g.height as real, m);
    var page := Page(Some(m), Some([Region(Some(s))]));
    var col, row := CentreCol(c.bbox.value, g), CentreRow(c.bbox.value, g);
    RasterInvertsScale(x0, y0, x1, y1, m, g, b, 10);
    CentreIsInside(c.bbox.value, g);
    var r := RectOf(m, g, 10, s);
    OneRegion(m, g, s);
    assert Covers(r, row, col) <==> x0 - 10 <= col < x1 + 10 && y0 - 10 <= row < y1 + 10;
  }

  lemma CentreIsInside(b: Box, g: Grid)
    requires g.width >= 1 && g.height >= 1
    ensures 0 <= CentreCol(b, g) < g.width && 0 <= CentreRow(b, g) < g.height
  {
  }

  lemma OneRegion(m: Media, g: Grid, b: Box)
    requires m.width > 0.0 && m.height > 0.0
    ensures forall row, col ::
      Marked(Rects(m, g, 10, [Region(Some(b))]), row, col) <==> Covers(RectOf(m, g, 10, b), row, col)
  {
    hide RectOf;
    var r := RectOf(m, g, 10, b);
    assert [Region(Some(b))][..0] == [] && Rects(m, g, 10, []) == [];
    if Nonempty(r) {
      assert Rects(m, g, 10, [Region(Some(b))]) == [] + [r];
      assert r in [r];
    } else {
      assert Rects(m, g, 10, [Region(Some(b))]) == [];
    }
  }

  /** A box without width or height is given a thousandth of a point; one without an image size keeps its numbers. */
  lemma DegenerateBoxes(b: PixelBox, w: real, h: real, m: Media)
    requires w > 0.0 && h > 0.0 && m.width > 0.0 && m.height > 0.0
    ensures var s, p := ScaleBox(b, w, h, m), Corners(b);
            && (p.x1 <= p.x0 ==> s.x1 - s.x0 == 0.001) && (p.y1 <= p.y0 ==> s.y1 - s.y0 == 0.001)
    ensures var s, p := ScaleBox(b, 0.0, 0.0, m), Corners(b);
            s.x0 == p.x0 && (p.x0 < p.x1 ==> s.x1 == p.x1)
            && (p.y0 < p.y1 ==> s.y0 == m.height - p.y1 && s.y1 == m.height - p.y0)
  {
    hide Scaled, Corners;
    var p := Corners(b);
    if p.x1 <= p.x0 {
      ScaledOrder(p.x1, p.x0, m.width, w);
    }
    if p.y1 <= p.y0 {
      ScaledOrder(p.y1, p.y0, m.height, h);
    }
  }

  /** Absent near corners are at zero, absent far ones at the near ones. */
  lemma AbsentCorners(x: real, y: real, u: real, v: real)
    ensures Corners(PixelBox(Some(x), Some(y), Some(u), Some(v))) == Box(x, y, u, v)
    ensures Corners(PixelBox(Some(x), Some(y), None, None)) == Box(x, y, x, y)
    ensures Corners(PixelBox(None, None, None, None)) == Box(0.0, 0.0, 0.0, 0.0)
  {
  }

  /** A candidate without a usable box is kept, and so is any candidate of a page without regions. */
  lemma NothingToCompare(page: Page, dpi: int, c: Candidate)
    requires c.bbox.None? || page.regions.None? || page.media.None?
    ensures OffText(page, dpi, [c]) == [c]
  {
    assert [c][..0] == [] && OffText(page, dpi, []) == [];
  }
}
