/** The geometry a painted path covers: device-space lines and cubic Bezier curves built as section
    8.5.2 of ISO 32000-2 describes, and their containment in the bounding box of the paint event. */
module PathGeometry {
  import opened Prelude
  import opened Affine
  import opened ContentStream
  import opened OperatorGroups

  // ---- Segments -------------------------------------------------------------------------

  datatype Segment =
    | Line(p0: Point, p1: Point)
    | Curve(p0: Point, p1: Point, p2: Point, p3: Point)

  function Mix(u: real, v: real, t: real): real {
    u + t * (v - u)
  }

  function Between(p: Point, q: Point, t: real): Point {
    Point(Mix(p.x, q.x, t), Mix(p.y, q.y, t))
  }

  /** The point of a segment at parameter t; a curve is evaluated by de Casteljau's construction. */
  function At(s: Segment, t: real): Point {
    match s
    case Line(p0, p1) => Between(p0, p1, t)
    case Curve(p0, p1, p2, p3) =>
      var q0, q1, q2 := Between(p0, p1, t), Between(p1, p2, t), Between(p2, p3, t);
      Between(Between(q0, q1, t), Between(q1, q2, t), t)
  }

  function Controls(s: Segment): set<Point> {
    match s
    case Line(p0, p1) => {p0, p1}
    case Curve(p0, p1, p2, p3) => {p0, p1, p2, p3}
  }

  predicate Inside(b: Box, p: Point) {
    b.x0 <= p.x <= b.x1 && b.y0 <= p.y <= b.y1
  }

  // ---- The path as the standard describes it --------------------------------------------

  /** Current point, start of the current subpath, and the segments so far, all in device space. */
  datatype Outline = Outline(current: Option<Point>, start: Option<Point>, segments: seq<Segment>)

  const NO_OUTLINE := Outline(None, None, [])

  function LineFrom(o: Outline, p: Point): Outline {
    Outline(Some(p), o.start, o.segments + (if o.current.Some? then [Line(o.current.value, p)] else []))
  }

  function CurveFrom(o: Outline, p1: Point, p2: Point, p3: Point): Outline {
    Outline(Some(p3), o.start,
      o.segments + (if o.current.Some? then [Curve(o.current.value, p1, p2, p3)] else []))
  }

  /** A segment back to the start of the subpath, which becomes the current point. */
  function Closed(o: Outline): Outline {
    if o.start.None? then o else LineFrom(o, o.start.value)
  }

  function RectOutline(o: Outline, a: Point, b: Point, c: Point, d: Point): Outline {
    Outline(Some(a), Some(a), o.segments + [Line(a, b), Line(b, c), Line(c, d), Line(d, a)])
  }

  /** The outline after a construction operator, or after the closing step of `s`, `b` and `b*`. */
  function Drawn(ctm: Matrix, o: Outline, i: Instr): Outline {
    var n := |i.args|;
    if i.op.Op_m? && n >= 2 then
      var p := Apply(ctm, PointAt(i.args, 0));
      Outline(Some(p), Some(p), o.segments)
    else if i.op.Op_l? && n >= 2 then LineFrom(o, Apply(ctm, PointAt(i.args, 0)))
    else if i.op.Op_c? && n >= 6 then
      CurveFrom(o, Apply(ctm, PointAt(i.args, 0)), Apply(ctm, PointAt(i.args, 2)), Apply(ctm, PointAt(i.args, 4)))
    else if i.op.Op_v? && n >= 4 then
      var p3 := Apply(ctm, PointAt(i.args, 2));
      CurveFrom(o, if o.current.Some? then o.current.value else p3, Apply(ctm, PointAt(i.args, 0)), p3)
    else if i.op.Op_y? && n >= 4 then
      var p3 := Apply(ctm, PointAt(i.args, 2));
      CurveFrom(o, Apply(ctm, PointAt(i.args, 0)), p3, p3)
    else if i.op.Op_re? && n >= 4 then
      var p, w, h := PointAt(i.args, 0), Num(i.args[2]), Num(i.args[3]);
      RectOutline(o, Apply(ctm, p), Apply(ctm, Point(p.x + w, p.y)),
        Apply(ctm, Point(p.x + w, p.y + h)), Apply(ctm, Point(p.x, p.y + h)))
    else if i.op.Op_h? || Closes(i.op) then Closed(o)
    else o
  }

  function NextOutline(ctm: Matrix, o: Outline, i: Instr): Outline {
    if Paints(i.op) || i.op.Op_n? then NO_OUTLINE else Drawn(ctm, o, i)
  }

  /** The outline built since the latest painting operator or `n`. */
  function OutlineOf(page: Page, prog: seq<Instr>, first: int): Outline {
    if prog == [] then NO_OUTLINE
    else
      var n := |prog| - 1;
      NextOutline(Run(page, INITIAL, prog[..n], first).gs.ctm, OutlineOf(page, prog[..n], first), prog[n])
  }

  // ---- The walker records every control point -------------------------------------------

  ghost predicate Records(pts: seq<Point>, o: Outline) {
    && (forall s :: s in o.segments ==> forall p :: p in Controls(s) ==> p in pts)
    && (o.current.Some? ==> o.current.value in pts)
    && (o.start.Some? ==> o.start.value in pts)
  }

  lemma RecordsMore(pts: seq<Point>, more: seq<Point>, o: Outline)
    requires Records(pts, o)
    ensures Records(pts + more, o)
  {
  }

  lemma RecordsLine(pts: seq<Point>, o: Outline, p: Point)
    requires Records(pts, o) && p in pts
    ensures Records(pts, LineFrom(o, p))
  {
  }

  lemma RecordsCurve(pts: seq<Point>, o: Outline, p1: Point, p2: Point, p3: Point)
    requires Records(pts, o) && p1 in pts && p2 in pts && p3 in pts
    ensures Records(pts, CurveFrom(o, p1, p2, p3))
  {
  }

  lemma RecordsRect(pts: seq<Point>, o: Outline, a: Point, b: Point, c: Point, d: Point)
    requires Records(pts, o) && a in pts && b in pts && c in pts && d in pts
    ensures Records(pts, RectOutline(o, a, b, c, d))
  {
  }

  lemma BuiltRecordsDrawn(ctm: Matrix, path: Path, o: Outline, i: Instr)
    requires Records(path.pts, o)
    ensures Records(Built(ctm, path, i).pts, Drawn(ctm, o, i))
  {
    hide Apply, Records, LineFrom, CurveFrom, RectOutline;
    var user := Recorded(path.start, i);
    var more := Device(ctm, user);
    var pts := path.pts + more;
    RecordsMore(path.pts, more, o);
    forall k | 0 <= k < |user| ensures Apply(ctm, user[k]) in pts {
      assert pts[|path.pts| + k] == Apply(ctm, user[k]);
    }
    DrawnIsRecorded(ctm, path, o, i, pts);
  }

  lemma DrawnIsRecorded(ctm: Matrix, path: Path, o: Outline, i: Instr, pts: seq<Point>)
    requires Records(pts, o)
    requires var user := Recorded(path.start, i); forall k :: 0 <= k < |user| ==> Apply(ctm, user[k]) in pts
    ensures Records(pts, Drawn(ctm, o, i))
  {
    hide Apply, LineFrom, CurveFrom, RectOutline;
    var user := Recorded(path.start, i);
    if i.op.Op_m? || i.op.Op_l? {
      if |i.args| >= 2 {
        assert Apply(ctm, user[0]) in pts;
        RecordsLine(pts, o, Apply(ctm, user[0]));
      }
    } else if i.op.Op_c? {
      if |i.args| >= 6 {
        assert Apply(ctm, user[0]) in pts && Apply(ctm, user[1]) in pts && Apply(ctm, user[2]) in pts;
        RecordsCurve(pts, o, Apply(ctm, user[0]), Apply(ctm, user[1]), Apply(ctm, user[2]));
      }
    } else if i.op.Op_v? || i.op.Op_y? {
      if |i.args| >= 4 {
        var p, q := Apply(ctm, user[0]), Apply(ctm, user[1]);
        assert p in pts && q in pts;
        RecordsCurve(pts, o, if o.current.Some? then o.current.value else q, p, q);
        RecordsCurve(pts, o, p, q, q);
      }
    } else if i.op.Op_re? {
      if |i.args| >= 4 {
        assert Apply(ctm, user[0]) in pts && Apply(ctm, user[1]) in pts;
        assert Apply(ctm, user[2]) in pts && Apply(ctm, user[3]) in pts;
        RecordsRect(pts, o, Apply(ctm, user[0]), Apply(ctm, user[1]), Apply(ctm, user[2]), Apply(ctm, user[3]));
      }
    } else if o.start.Some? {
      RecordsLine(pts, o, o.start.value);
    }
  }

  /** At every point of every operator sequence the recorded points include every control point of the
      outline built since the last paint. */
  lemma {:induction false} WalkerRecordsOutline(page: Page, prog: seq<Instr>, first: int)
    ensures Records(Run(page, INITIAL, prog, first).path.pts, OutlineOf(page, prog, first))
  {
    hide NextGs, NextText, Emitted, Built, Drawn, Records;
    if prog == [] {
      assert Records([], NO_OUTLINE) by { NothingRecorded(); }
    } else {
      var n := |prog| - 1;
      WalkerRecordsOutline(page, prog[..n], first);
      var s := Run(page, INITIAL, prog[..n], first);
      BuiltRecordsDrawn(s.gs.ctm, s.path, OutlineOf(page, prog[..n], first), prog[n]);
      NothingRecorded();
    }
  }

  lemma NothingRecorded()
    ensures Records([], NO_OUTLINE)
  {
  }

  // ---- Boxes ----------------------------------------------------------------------------

  /** b is the least box around the points: it holds them all and each side touches one. */
  ghost predicate Tight(b: Box, ps: seq<Point>) {
    && (forall p :: p in ps ==> Inside(b, p))
    && (exists p :: p in ps && p.x == b.x0) && (exists p :: p in ps && p.x == b.x1)
    && (exists p :: p in ps && p.y == b.y0) && (exists p :: p in ps && p.y == b.y1)
  }

  lemma {:induction false} BoxIsTight(ps: seq<Point>)
    ensures BoxOf(ps).None? <==> ps == []
    ensures ps != [] ==> Tight(BoxOf(ps).value, ps)
  {
    if |ps| == 1 {
      assert ps[..0] == [];
      assert ps[0] in ps;
    } else if |ps| > 1 {
      var n := |ps| - 1;
      BoxIsTight(ps[..n]);
      assert ps == ps[..n] + [ps[n]];
      assert ps[n] in ps;
    }
  }

  lemma MixBetween(u: real, v: real, t: real, lo: real, hi: real)
    requires lo <= u <= hi && lo <= v <= hi && 0.0 <= t <= 1.0
    ensures lo <= Mix(u, v, t) <= hi
  {
    var d := v - u;
    assert Mix(u, v, t) == u + t * d;
    if d >= 0.0 {
      PartOf(t, d);
    } else {
      PartOf(t, -d);
      assert t * -d == -(t * d);
    }
  }

  lemma PartOf(t: real, d: real)
    requires 0.0 <= t <= 1.0 && 0.0 <= d
    ensures 0.0 <= t * d <= d
  {
    assert d - t * d == (1.0 - t) * d;
  }

  lemma BetweenInside(b: Box, p: Point, q: Point, t: real)
    requires Inside(b, p) && Inside(b, q) && 0.0 <= t <= 1.0
    ensures Inside(b, Between(p, q, t))
  {
    MixBetween(p.x, q.x, t, b.x0, b.x1);
    MixBetween(p.y, q.y, t, b.y0, b.y1);
  }

  /** Lines and cubic curves stay in any box that holds their control points. */
  lemma SegmentInsideBox(b: Box, s: Segment, t: real)
    requires 0.0 <= t <= 1.0
    requires forall p :: p in Controls(s) ==> Inside(b, p)
    ensures Inside(b, At(s, t))
  {
    hide Between, Inside;
    match s
    case Line(p0, p1) =>
      assert p0 in Controls(s) && p1 in Controls(s);
      BetweenInside(b, p0, p1, t);
    case Curve(p0, p1, p2, p3) =>
      assert p0 in Controls(s) && p1 in Controls(s) && p2 in Controls(s) && p3 in Controls(s);
      var q0, q1, q2 := Between(p0, p1, t), Between(p1, p2, t), Between(p2, p3, t);
      BetweenInside(b, p0, p1, t);
      BetweenInside(b, p1, p2, t);
      BetweenInside(b, p2, p3, t);
      BetweenInside(b, q0, q1, t);
      BetweenInside(b, q1, q2, t);
      BetweenInside(b, Between(q0, q1, t), Between(q1, q2, t), t);
  }

  // ---- The paint events -----------------------------------------------------------------

  ghost predicate HoldsPointOf(b: Option<Box>, g: Segment, t: real) {
    b.Some? && Inside(b.value, At(g, t))
  }

  /** The paint event of a painting operator that ends a run: its box is the tight box of the recorded
      points, their number is the point count, and it holds every point of every line and curve drawn
      since the previous paint, the closing line of `s`, `b` and `b*` included. */
  lemma PaintBoxHoldsOutline(page: Page, prog: seq<Instr>, i: Instr, first: int)
    requires Paints(i.op)
    ensures var s := Run(page, INITIAL, prog, first);
            var built := Built(s.gs.ctm, s.path, i);
            var drawn := Drawn(s.gs.ctm, OutlineOf(page, prog, first), i);
            var e := PaintEvent(page, s.gs, built, i.op, first + |prog|);
            && Run(page, INITIAL, prog + [i], first).events == s.events + [e]
            && e.pointCount == |built.pts|
            && (e.bbox.Some? <==> e.pointCount > 0)
            && (e.bbox.Some? ==> Tight(e.bbox.value, built.pts))
            && forall g, t :: g in drawn.segments && 0.0 <= t <= 1.0 ==> HoldsPointOf(e.bbox, g, t)
  {
    hide Step, Run, Built, Drawn, At, Inside, PaintedWith, HoldsPointOf, Records, Tight, BoxOf;
    var s := Run(page, INITIAL, prog, first);
    var built := Built(s.gs.ctm, s.path, i);
    var drawn := Drawn(s.gs.ctm, OutlineOf(page, prog, first), i);
    PaintOfRun(page, prog, i, first);
    WalkerRecordsOutline(page, prog, first);
    BuiltRecordsDrawn(s.gs.ctm, s.path, OutlineOf(page, prog, first), i);
    BoxIsTight(built.pts);
    PaintedFields(page, s.gs, built, i.op, first + |prog|);
    BoxHoldsRecorded(built.pts, drawn);
  }

  /** The box of some points holds every point of an outline whose controls are among them. */
  lemma BoxHoldsRecorded(pts: seq<Point>, o: Outline)
    requires Records(pts, o)
    ensures forall g, t :: g in o.segments && 0.0 <= t <= 1.0 ==> HoldsPointOf(BoxOf(pts), g, t)
  {
    hide At, Inside, BoxOf;
    BoxIsTight(pts);
    forall g, t | g in o.segments && 0.0 <= t <= 1.0 ensures HoldsPointOf(BoxOf(pts), g, t) {
      assert g.p0 in Controls(g);
      assert pts != [];
      SegmentInsideBox(BoxOf(pts).value, g, t);
    }
  }

  lemma PaintedFields(page: Page, gs: GState, built: Path, op: Operator, index: int)
    ensures var e := PaintEvent(page, gs, built, op, index);
            e.PathPainted? && e.pointCount == |built.pts| && e.bbox == BoxOf(built.pts)
  {
  }

  lemma PaintOfRun(page: Page, prog: seq<Instr>, i: Instr, first: int)
    requires Paints(i.op)
    ensures var s := Run(page, INITIAL, prog, first);
            Run(page, INITIAL, prog + [i], first).events
              == s.events + [PaintEvent(page, s.gs, Built(s.gs.ctm, s.path, i), i.op, first + |prog|)]
  {
    hide Step;
    assert (prog + [i])[..|prog|] == prog;
    PaintStep(page, Run(page, INITIAL, prog, first), i, first + |prog|);
  }
}
