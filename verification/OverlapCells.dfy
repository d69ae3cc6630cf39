/** What the overlap measure is: common cells over all cells, where boxes lie on a grid, and how far a box may move and
    still match. */
module OverlapCells {
  import opened Prelude
  import opened Overlap
  import opened AuditReplay

  /** A unit cell, by its lower left corner. */
  datatype Cell = Cell(x: int, y: int)

  /** A box with integer corners. */
  datatype GridBox = GridBox(x0: int, y0: int, x1: int, y1: int)

  function ToBox(b: GridBox): Box {
    Box(b.x0 as real, b.y0 as real, b.x1 as real, b.y1 as real)
  }

  function Cells(b: GridBox): set<Cell> {
    set x, y | b.x0 <= x < b.x1 && b.y0 <= y < b.y1 :: Cell(x, y)
  }

  function Row(b: GridBox, y: int): set<Cell> {
    set x | b.x0 <= x < b.x1 :: Cell(x, y)
  }

  lemma {:induction false} RowSize(b: GridBox, y: int)
    ensures |Row(b, y)| == MaxI(0, b.x1 - b.x0)
    decreases b.x1 - b.x0
  {
    if b.x0 < b.x1 {
      var shorter := b.(x1 := b.x1 - 1);
      RowSize(shorter, y);
      assert Row(b, y) == Row(shorter, y) + {Cell(b.x1 - 1, y)};
      assert Cell(b.x1 - 1, y) !in Row(shorter, y);
    } else {
      assert Row(b, y) == {};
    }
  }

  lemma TopRow(b: GridBox)
    requires b.y0 < b.y1
    ensures var lower := b.(y1 := b.y1 - 1);
            Cells(b) == Cells(lower) + Row(b, b.y1 - 1) && Cells(lower) !! Row(b, b.y1 - 1)
  {
  }

  lemma NoRows(b: GridBox)
    requires b.y0 >= b.y1
    ensures Cells(b) == {}
  {
  }

  lemma OneMore(w: int, h: int)
    ensures w * (h + 1) == w * h + w
  {
  }

  /** As many cells as width times height. */
  lemma {:induction false} CellCount(b: GridBox)
    ensures |Cells(b)| == MaxI(0, b.x1 - b.x0) * MaxI(0, b.y1 - b.y0)
    decreases b.y1 - b.y0
  {
    hide Cells, Row;
    if b.y0 < b.y1 {
      CellCount(b.(y1 := b.y1 - 1));
      RowSize(b, b.y1 - 1);
      TopRow(b);
      OneMore(MaxI(0, b.x1 - b.x0), b.y1 - 1 - b.y0);
    } else {
      NoRows(b);
    }
  }

  lemma RealProduct(m: int, n: int)
    ensures (m * n) as real == m as real * n as real
  {
  }

  lemma AreaIsCells(b: GridBox)
    ensures Area(ToBox(b)) == |Cells(b)| as real
  {
    hide Cells;
    CellCount(b);
    SideIs(b.x0, b.x1);
    SideIs(b.y0, b.y1);
    RealProduct(MaxI(0, b.x1 - b.x0), MaxI(0, b.y1 - b.y0));
  }

  lemma SideIs(lo: int, hi: int)
    ensures Side(lo as real, hi as real) == MaxI(0, hi - lo) as real
  {
  }

  function Shared(a: GridBox, b: GridBox): GridBox {
    GridBox(MaxI(a.x0, b.x0), MaxI(a.y0, b.y0), MinI(a.x1, b.x1), MinI(a.y1, b.y1))
  }

  lemma SharedCells(a: GridBox, b: GridBox)
    ensures Cells(Shared(a, b)) == Cells(a) * Cells(b)
    ensures ToBox(Shared(a, b)) == Common(ToBox(a), ToBox(b))
  {
  }

  lemma Quotient(inter: real, union: real)
    requires union > 0.0
    ensures inter / union * union == inter
  {
  }

  /** For boxes on the grid, neither inside the other: the overlap is the share that the common cells have of all the
      cells of the two boxes. */
  lemma OverlapIsShareOfCells(a: GridBox, b: GridBox)
    requires !Within(ToBox(a), ToBox(b)) && !Within(ToBox(b), ToBox(a)) && a != b
    ensures Iou(ToBox(a), ToBox(b)) * |Cells(a) + Cells(b)| as real == |Cells(a) * Cells(b)| as real
  {
    hide Cells, Area, Within, Common, Shared;
    AreaIsCells(a);
    AreaIsCells(b);
    AreaIsCells(Shared(a, b));
    SharedCells(a, b);
    var inter, union := |Cells(a) * Cells(b)|, |Cells(a) + Cells(b)|;
    assert union + inter == |Cells(a)| + |Cells(b)|;
    assert Cells(a) * Cells(b) <= Cells(a) + Cells(b);
    FewerCells(Cells(a) * Cells(b), Cells(a) + Cells(b));
    if union > 0 {
      Quotient(inter as real, union as real);
    }
  }

  lemma {:induction false} FewerCells(p: set<Cell>, q: set<Cell>)
    requires p <= q
    ensures |p| <= |q|
  {
    assert q == p + (q - p);
  }

  /** One box inside another, give or take half a unit, overlaps it perfectly. */
  lemma InsideIsPerfect(a: Box, b: Box)
    requires b.x0 - 0.5 <= a.x0 <= a.x1 <= b.x1 + 0.5 && b.y0 - 0.5 <= a.y0 <= a.y1 <= b.y1 + 0.5
    ensures Iou(a, b) == 1.0 == Iou(b, a)
  {
    hide Area;
  }

  /** A box and the same box moved sideways: the common part is what the move leaves of the width. */
  lemma MovedOverlap(x: real, y: real, w: real, h: real, d: real)
    requires 0.5 < d < w && h > 0.0
    ensures var a, b := Box(x, y, x + w, y + h), Box(x + d, y, x + d + w, y + h);
            Iou(a, b) == (w - d) / (w + d)
  {
    var a, b := Box(x, y, x + w, y + h), Box(x + d, y, x + d + w, y + h);
    assert !Within(a, b) && !Within(b, a);
    assert Area(a) == w * h == Area(b);
    assert Area(Common(a, b)) == (w - d) * h;
    assert w * h + w * h - (w - d) * h == (w + d) * h;
    Cancel(w - d, w + d, h);
  }

  lemma Cancel(p: real, q: real, h: real)
    requires q > 0.0 && h > 0.0
    ensures q * h > 0.0 && (p * h) / (q * h) == p / q
  {
    var r := p / q;
    assert p == r * q;
    assert p * h == r * (q * h);
  }

  lemma HalfIff(w: real, d: real)
    requires 0.0 < d < w
    ensures (w - d) / (w + d) >= 0.5 <==> 3.0 * d <= w
  {
    var r := (w - d) / (w + d);
    assert r * (w + d) == w - d;
    if r >= 0.5 {
      assert (r - 0.5) * (w + d) >= 0.0;
    } else {
      assert (0.5 - r) * (w + d) > 0.0;
    }
  }

  /** A fresh finding whose box has moved sideways by d, more than half a unit, is matched to its old self exactly when
      three times the move fit into the width. */
  lemma MovedMatchesIff(key: Key, v: Verdict, x: real, y: real, w: real, h: real, d: real)
    requires 0.5 < d < w && h > 0.0
    ensures var base := [Finding(key, Some(Box(x, y, x + w, y + h)), v)];
            var f := Finding(key, Some(Box(x + d, y, x + d + w, y + h)), v);
            Match(base, {}, f) == if 3.0 * d <= w then Some(0) else None
  {
    hide Iou, Match;
    var a, b := Box(x, y, x + w, y + h), Box(x + d, y, x + d + w, y + h);
    MovedOverlap(x, y, w, h, d);
    IouLaws(a, b);
    HalfIff(w, d);
    MatchIsUnique([Finding(key, Some(a), v)], {}, Finding(key, Some(b), v), if 3.0 * d <= w then Some(0) else None);
  }
}
