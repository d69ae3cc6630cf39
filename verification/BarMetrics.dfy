/** Bars in terms of what a page paints, and the quality metrics in plain numbers. */
module BarMetrics {
  import opened Prelude
  import opened Affine
  import opened ContentStream
  import opened OperatorGroups
  import opened Barcode

  /** A painted stroke is a bar exactly when its line is thinner than the limit, filled or not. */
  lemma StrokesAreBars(e: Event, narrow: real)
    requires e.PathPainted? && e.stroke
    ensures BarOf(e, narrow) == if 0.0 < e.lineWidth < narrow then Some(Bar(e.lineWidth, e.bbox)) else None
  {
  }

  /** The width and height of a number's span. */
  function Span(x: real): real {
    if x < 0.0 then -x else x
  }

  function Rectangle(x: real, y: real, w: real, h: real): Instr {
    Instr(Op_re, [Float(x), Float(y), Float(w), Float(h)])
  }

  lemma BoxOfFour(p: Point, q: Point, r: Point, s: Point)
    ensures BoxOf([p, q, r, s]) == Some(Box(
      MinR(MinR(MinR(p.x, q.x), r.x), s.x), MinR(MinR(MinR(p.y, q.y), r.y), s.y),
      MaxR(MaxR(MaxR(p.x, q.x), r.x), s.x), MaxR(MaxR(MaxR(p.y, q.y), r.y), s.y)))
  {
    hide MinR, MaxR;
    assert [p, q, r, s][..3] == [p, q, r] && [p, q, r][..2] == [p, q] && [p, q][..1] == [p] && [p][..0] == [];
    assert BoxOf([p]) == Some(Box(p.x, p.y, p.x, p.y));
    assert BoxOf([p, q]) == Some(Box(MinR(p.x, q.x), MinR(p.y, q.y), MaxR(p.x, q.x), MaxR(p.y, q.y)));
  }

  lemma DeviceIdentity(ps: seq<Point>)
    ensures Device(IDENTITY, ps) == ps
  {
    forall k | 0 <= k < |ps| ensures Apply(IDENTITY, ps[k]) == ps[k] {}
  }

  /** The box of a rectangle, whichever corner it is given from. */
  lemma RectangleBox(x: real, y: real, w: real, h: real)
    ensures var pts := Built(IDENTITY, EMPTY_PATH, Rectangle(x, y, w, h)).pts;
            BoxOf(pts) == Some(Box(MinR(x, x + w), MinR(y, y + h), MaxR(x, x + w), MaxR(y, y + h)))
  {
    hide Apply;
    var i := Rectangle(x, y, w, h);
    var user := [Point(x, y), Point(x + w, y), Point(x + w, y + h), Point(x, y + h)];
    assert Recorded(None, i) == user;
    DeviceIdentity(user);
    assert [] + user == user;
    BoxOfFour(user[0], user[1], user[2], user[3]);
  }

  /** The page `x y w h re f`: one event, and a bar exactly when the rectangle is narrower than the limit and more than
      three times as high as it is wide. */
  lemma FilledRectangles(page: Page, x: real, y: real, w: real, h: real, narrow: real)
    ensures var es := Run(page, INITIAL, [Rectangle(x, y, w, h), Instr(Op_f, [])], 0).events;
            && |es| == 1
            && (BarOf(es[0], narrow).Some? <==> 0.0 < Span(w) < narrow && Span(h) > 3.0 * Span(w))
            && (BarOf(es[0], narrow).Some? ==> BarOf(es[0], narrow).value.width == Span(w))
  {
    hide Step, Built, BoxOf, Run;
    var re, f := Rectangle(x, y, w, h), Instr(Op_f, []);
    var s := INITIAL.(path := Built(IDENTITY, EMPTY_PATH, re));
    TwoSteps(page, re, f);
    PathStep(page, INITIAL, re, 0);
    PaintStep(page, s, f, 1);
    RectangleBox(x, y, w, h);
    FilledEvent(page, s.gs, Built(IDENTITY, s.path, f), 1);
    NothingBuilt(s.path, f);
  }

  lemma TwoSteps(page: Page, a: Instr, b: Instr)
    ensures Run(page, INITIAL, [a, b], 0) == Step(page, Step(page, INITIAL, a, 0), b, 1)
  {
    hide Step;
    assert [a, b][..1] == [a] && [a][..0] == [];
    assert Run(page, INITIAL, [], 0) == INITIAL;
    assert Run(page, INITIAL, [a], 0) == Step(page, INITIAL, a, 0);
  }

  lemma NothingBuilt(path: Path, f: Instr)
    requires f.op.Op_f?
    ensures Built(IDENTITY, path, f) == path
  {
    assert Device(IDENTITY, []) == [];
    assert path.pts + [] == path.pts;
  }

  lemma FilledEvent(page: Page, gs: GState, path: Path, index: int)
    ensures var e := PaintEvent(page, gs, path, Op_f, index);
            e.PathPainted? && e.fill && !e.stroke && e.bbox == BoxOf(path.pts)
  {
    hide BoxOf;
  }

  // ---- Metrics --------------------------------------------------------------------------

  /** Modulation by the number of strokes. */
  lemma ModulationByCount(n: nat)
    ensures Modulation(n) == 0.0 <==> n < 10
    ensures Modulation(n) == 1.0 <==> 10 <= n < 20
    ensures Modulation(n) == 2.0 <==> 20 <= n < 40
    ensures Modulation(n) == 3.0 <==> 40 <= n < 60
    ensures Modulation(n) == 4.0 <==> 60 <= n
  {
  }

  lemma GradesByScore(s: real)
    ensures GradeOf(s) == A <==> 3.5 <= s
    ensures GradeOf(s) == B <==> 2.5 <= s < 3.5
    ensures GradeOf(s) == C <==> 1.5 <= s < 2.5
    ensures GradeOf(s) == D <==> 0.5 <= s < 1.5
    ensures GradeOf(s) == F <==> s < 0.5
  {
  }

  lemma SumOfTwo(a: real, b: real, mean: real)
    ensures SumR([a, b]) == a + b
    ensures SquaredDeviations([a, b], mean) == (a - mean) * (a - mean) + (b - mean) * (b - mean)
  {
    assert [a, b][..1] == [a] && [a][..0] == [];
    assert SumR([a]) == a && SquaredDeviations([a], mean) == (a - mean) * (a - mean);
  }

  /** The root of a square is the number without its sign. */
  lemma RootOfSquare(r: real, x: real)
    requires r >= 0.0 && r * r == x * x
    ensures r == Span(x)
  {
    assert (r - x) * (r + x) == 0.0;
    if r != x {
      assert r + x == 0.0 by {
        NoZeroFactors(r - x, r + x);
      }
    }
  }

  lemma NoZeroFactors(p: real, q: real)
    requires p * q == 0.0 && p != 0.0
    ensures q == 0.0
  {
    assert q == (p * q) / p;
  }

  lemma HalfDeviations(a: real, b: real)
    ensures var mean, x := (a + b) / 2.0, (a - b) / 2.0;
            ((a - mean) * (a - mean) + (b - mean) * (b - mean)) / 2.0 == x * x
  {
    var mean, x := (a + b) / 2.0, (a - b) / 2.0;
    assert a - mean == x && b - mean == -x;
    assert (-x) * (-x) == x * x;
  }

  lemma Ratio(p: real, q: real)
    requires q > 0.0
    ensures (p / 2.0) / (q / 2.0) == p / q
  {
    var r := p / q;
    assert r * q == p;
    assert r * (q / 2.0) == p / 2.0;
  }

  /** Two bars of positive widths have contrast four less four times their difference over their sum, and not below
      zero. */
  lemma ContrastOfTwo(sqrt: real -> real, a: real, b: real)
    requires forall x :: x >= 0.0 ==> sqrt(x) >= 0.0 && sqrt(x) * sqrt(x) == x
    requires a > 0.0 && b > 0.0
    ensures Contrast(sqrt, [a, b]) == MaxR(0.0, 4.0 * (1.0 - Span(a - b) / (a + b)))
  {
    hide SumR, SquaredDeviations;
    var mean, x := (a + b) / 2.0, (a - b) / 2.0;
    SumOfTwo(a, b, mean);
    HalfDeviations(a, b);
    assert x * x >= 0.0;
    RootOfSquare(sqrt(x * x), x);
    assert Span(x) == Span(a - b) / 2.0;
    Ratio(Span(a - b), a + b);
    ShareIsPositive(Span(a - b), a + b);
    ghost var ws := [a, b];
    assert |ws| as real == 2.0 && SumR(ws) / 2.0 == mean > 0.0;
    assert SquaredDeviations(ws, mean) / 2.0 == x * x;
    var cv := sqrt(x * x) / mean;
    assert cv == Span(a - b) / (a + b);
    assert Contrast(sqrt, ws) == MaxR(0.0, MinR(4.0, 4.0 * (1.0 - cv)));
  }

  lemma ShareIsPositive(p: real, q: real)
    requires p >= 0.0 && q > 0.0
    ensures p / q >= 0.0
  {
  }

  /** Decodability lies halfway between contrast and modulation. */
  lemma DecodabilityIsHalfway(sqrt: real -> real, ws: seq<real>)
    ensures Decodability(sqrt, ws) - Contrast(sqrt, ws) == Modulation(|ws|) - Decodability(sqrt, ws)
  {
    hide Contrast;
  }
}
