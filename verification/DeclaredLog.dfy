/** The event log of a page written down from its operators alone: no state is carried along, every field of every event
    is looked up among the operators before it. */
module DeclaredLog {
  import opened Prelude
  import opened Affine
  import opened ContentStream
  import opened GraphicsStack
  import opened TextPosition
  import opened EventLog
  import opened LatestSettings

  predicate EndsPath(op: Operator) {
    op in FILLING || op in STROKING || op.Op_n?
  }

  // ---- The path -------------------------------------------------------------------------

  function At(i: Instr, k: nat): Point
    requires k + 1 < |i.args|
  {
    Point(Num(i.args[k]), Num(i.args[k + 1]))
  }

  /** Where the current subpath started, in user space: the latest `m` or `re` since the path was last painted. */
  function Start(prog: seq<Instr>): Option<Point> {
    if prog == [] then None
    else
      var i := prog[|prog| - 1];
      if EndsPath(i.op) then None
      else if (i.op.Op_m? && |i.args| >= 2) || (i.op.Op_re? && |i.args| >= 4) then Some(At(i, 0))
      else Start(prog[..|prog| - 1])
  }

  /** The user-space points of one operator; h and the closing operators go back to the start. */
  function UserPoints(start: Option<Point>, i: Instr): seq<Point> {
    if (i.op.Op_m? || i.op.Op_l?) && |i.args| >= 2 then [At(i, 0)]
    else if (i.op.Op_v? || i.op.Op_y?) && |i.args| >= 4 then [At(i, 0), At(i, 2)]
    else if i.op.Op_c? && |i.args| >= 6 then [At(i, 0), At(i, 2), At(i, 4)]
    else if i.op.Op_re? && |i.args| >= 4 then
      var x, y, w, h := Num(i.args[0]), Num(i.args[1]), Num(i.args[2]), Num(i.args[3]);
      [Point(x, y), Point(x + w, y), Point(x + w, y + h), Point(x, y + h)]
    else if (i.op.Op_h? || i.op in CLOSING) && start.Some? then [start.value]
    else []
  }

  /** The points of an operator under the `cm` matrices in force before it. */
  ghost function PointsOf(prog: seq<Instr>, i: Instr): seq<Point> {
    Device(Product(Deltas(LiveNow(prog))), UserPoints(Start(prog), i))
  }

  /** The device-space points since the path was last painted. */
  ghost function PathPoints(prog: seq<Instr>): seq<Point> {
    if prog == [] then []
    else
      var p, i := prog[..|prog| - 1], prog[|prog| - 1];
      if EndsPath(i.op) then [] else PathPoints(p) + PointsOf(p, i)
  }

  lemma DeviceIsApply(m: Matrix, ps: seq<Point>, k: nat)
    requires k < |ps|
    ensures Device(m, ps)[k] == Apply(m, ps[k])
  {
  }

  lemma RecordedAreUserPoints(start: Option<Point>, i: Instr)
    ensures Recorded(start, i) == UserPoints(start, i)
  {
    hide Num;
  }

  lemma {:induction false} PathIsDeclared(page: Page, prog: seq<Instr>, first: int)
    ensures Run(page, INITIAL, prog, first).path == Path(PathPoints(prog), Start(prog))
  {
    hide NextGs, NextText, Emitted, Declared, LiveNow, UserPoints, Recorded, Num, StepStack, Device, Product, Deltas, Paints;
    if prog != [] {
      var p, i := prog[..|prog| - 1], prog[|prog| - 1];
      PathIsDeclared(page, p, first);
      CtmIsLive(page, p, first);
      PaintingFlags(i.op);
      RecordedAreUserPoints(Start(p), i);
    }
  }

  lemma CtmIsLive(page: Page, prog: seq<Instr>, first: int)
    ensures Run(page, INITIAL, prog, first).gs.ctm == Product(Deltas(LiveNow(prog)))
  {
    hide Run, LiveNow, Product, Deltas;
    CtmIsProductOfLiveDeltas(page, prog, first, Point(0.0, 0.0));
  }

  // ---- Text -----------------------------------------------------------------------------

  function InTextSet(i: Instr): Option<bool> {
    if i.op.Op_BT? then Some(true) else if i.op.Op_ET? then Some(false) else None
  }

  function FontSet(page: Page, i: Instr): Option<string> {
    if i.op.Op_Tf? && |i.args| >= 2 then Some(StripSlashes(page.str(i.args[0]))) else None
  }

  function SizeSet(i: Instr): Option<real> {
    if i.op.Op_Tf? && |i.args| >= 2 then Some(MaxR(0.0, Num(i.args[1]))) else None
  }

  function ModeSet(i: Instr): Option<int> {
    if i.op.Op_Tr? && |i.args| >= 1 then Some(IntOf(i.args[0])) else None
  }

  function TextMatrixOf(prog: seq<Instr>): Matrix {
    Shifted(Origin(prog), Offset(prog))
  }

  /** The text state as the latest settings of the page; `q` and `Q` play no part. */
  function DeclaredText(page: Page, prog: seq<Instr>): TextState {
    TextState(Latest(prog, InTextSet, false), Latest(prog, i => FontSet(page, i), ""), Latest(prog, SizeSet, 12.0),
      TextMatrixOf(prog), TextMatrixOf(prog), Leading(prog), Latest(prog, ModeSet, 0))
  }

  lemma TextStep(page: Page, t: TextState, i: Instr)
    ensures var r := NextText(page, t, i);
            && r.inText == Or(InTextSet(i), t.inText) && r.fontName == Or(FontSet(page, i), t.fontName)
            && r.fontSize == Or(SizeSet(i), t.fontSize) && r.mode == Or(ModeSet(i), t.mode)
  {
    hide Mul, MatrixOf, Num, IntOf, MaxR, StripSlashes;
  }

  lemma {:induction false} TextIsDeclared(page: Page, prog: seq<Instr>)
    ensures TextRun(page, INITIAL_TEXT, prog) == DeclaredText(page, prog)
  {
    hide NextText, InTextSet, FontSet, SizeSet, ModeSet, Or, TextMatrixOf, Leading, Origin, Offset;
    TextRunFromInitial(page, prog);
    MatrixUnfolds(prog);
    if prog != [] {
      var p, i := prog[..|prog| - 1], prog[|prog| - 1];
      assert prog == p + [i];
      TextIsDeclared(page, p);
      TextStep(page, TextRun(page, INITIAL_TEXT, p), i);
      LatestSnoc(p, i, InTextSet, false);
      LatestSnoc(p, i, i => FontSet(page, i), "");
      LatestSnoc(p, i, SizeSet, 12.0);
      LatestSnoc(p, i, ModeSet, 0);
    }
  }

  lemma MatrixUnfolds(prog: seq<Instr>)
    ensures TextMatrixOf(prog) == Shifted(Origin(prog), Offset(prog))
  {
  }

  /** What a showing operator shows: how many glyphs, and what text. */
  datatype Showing = Nothing | Showing(glyphs: nat, text: string)

  function ShownBy(page: Page, i: Instr): Showing {
    var n := |i.args|;
    if i.op.Op_Tj? && n >= 1 then Showing(page.strLen(i.args[0]), page.strVal(i.args[0]))
    else if i.op.Op_TJ? && n >= 1 then
      if i.args[0].Array? then
        var pieces := NonNumbers(i.args[0].items);
        Showing(MaxI(TotalLen(page, pieces), 1), Joined(page, pieces))
      else Showing(1, "")
    else if i.op.Op_Quote? || i.op.Op_DoubleQuote? then
      if n == 0 then Showing(page.strLen(Text("")), page.strVal(Text("")))
      else Showing(page.strLen(i.args[n - 1]), page.strVal(i.args[n - 1]))
    else Nothing
  }

  /** One glyph, and none, is 0.55 em wide, each further one adds as much; the height is one em or one unit. */
  lemma GlyphsAreWide(size: real, glyphs: nat)
    ensures FarCorner(size, 1).x == 0.55 * size == FarCorner(size, 0).x
    ensures glyphs >= 1 ==> FarCorner(size, glyphs + 1).x == FarCorner(size, glyphs).x + 0.55 * size
    ensures FarCorner(size, glyphs).y == if size >= 1.0 then size else 1.0
  {
    if glyphs >= 1 {
      var n := glyphs as real;
      assert (n + 1.0) * size * 0.55 == n * size * 0.55 + 0.55 * size;
      assert MaxI(glyphs + 1, 1) as real == n + 1.0;
    }
  }

  /** The box of two corners, unless it has no width or no height. */
  function Spanned(o: Point, e: Point): Option<Box> {
    if o.x == e.x || o.y == e.y then None else BoxOf([o, e])
  }

  /** From the origin of the text to its far corner, through the text matrix and then the CTM. */
  function BoxOfText(ctm: Matrix, tm: Matrix, size: real, glyphs: nat): Option<Box> {
    Spanned(Apply(ctm, Apply(tm, Point(0.0, 0.0))), Apply(ctm, Apply(tm, FarCorner(size, glyphs))))
  }

  lemma TextBoxCorners(gs: GState, t: TextState, len: nat)
    ensures var m := Mul(t.matrix, gs.ctm);
            var o, e := Apply(m, Point(0.0, 0.0)), Apply(m, FarCorner(t.fontSize, len));
            var b := Box(MinR(o.x, e.x), MinR(o.y, e.y), MaxR(o.x, e.x), MaxR(o.y, e.y));
            TextBox(gs, t, len) == if b.x1 <= b.x0 || b.y1 <= b.y0 then None else Some(b)
  {
    hide Mul, Apply, MinR, MaxR, MaxI;
  }

  lemma SpannedIs(o: Point, e: Point)
    ensures var b := Box(MinR(o.x, e.x), MinR(o.y, e.y), MaxR(o.x, e.x), MaxR(o.y, e.y));
            Spanned(o, e) == if b.x1 <= b.x0 || b.y1 <= b.y0 then None else Some(b)
  {
    BoxOfTwo(o, e);
  }

  lemma TextBoxIs(gs: GState, t: TextState, len: nat)
    ensures TextBox(gs, t, len) == BoxOfText(gs.ctm, t.matrix, t.fontSize, len)
  {
    hide Mul, Apply, MinR, MaxR, FarCorner, TextBox, Spanned;
    var far := FarCorner(t.fontSize, len);
    TextBoxCorners(gs, t, len);
    ApplyMul(t.matrix, gs.ctm, Point(0.0, 0.0));
    ApplyMul(t.matrix, gs.ctm, far);
    SpannedIs(Apply(gs.ctm, Apply(t.matrix, Point(0.0, 0.0))), Apply(gs.ctm, Apply(t.matrix, far)));
  }

  lemma BoxOfTwo(p: Point, q: Point)
    ensures BoxOf([p, q]) == Some(Box(MinR(p.x, q.x), MinR(p.y, q.y), MaxR(p.x, q.x), MaxR(p.y, q.y)))
  {
    assert [p, q][..1] == [p] && [p][..0] == [];
    assert BoxOf([p]) == Some(Box(p.x, p.y, p.x, p.y));
  }

  // ---- The log --------------------------------------------------------------------------

  /** The event of the last operator of a page, field by field. */
  ghost function DeclaredEvents(page: Page, prog: seq<Instr>): seq<Event>
    requires prog != []
  {
    var n := |prog| - 1;
    var p, i := prog[..n], prog[n];
    var d, t := Declared(page, LiveNow(prog)), DeclaredText(page, prog);
    var fill, stroke := i.op in FILLING, i.op in STROKING;
    if fill || stroke then
      var pts := PathPoints(p) + PointsOf(p, i);
      [PathPainted(if !stroke then "f" else if !fill then "S" else "B", page.num, n, fill, stroke, i.op in EVEN_ODD,
         if fill then d.fillCs else "", if fill then d.fillVals else [],
         if stroke then d.strokeCs else "", if stroke then d.strokeVals else [],
         WidthOnPage(page, d), d.lineCap, d.lineJoin, d.dash, |pts|, BoxOf(pts))]
    else if FillValuesSet(i).Some? then [ColorChanged(page.num, n, i.op, d.fillCs, d.fillVals, false)]
    else if StrokeValuesSet(i).Some? then [ColorChanged(page.num, n, i.op, d.strokeCs, d.strokeVals, true)]
    else if OverprintStrokeSet(page, i).Some? || OverprintFillSet(page, i).Some? || OverprintModeSet(page, i).Some? then
      [OverprintChanged(page.num, n, d.opStroking, d.opNonStroking, d.opm)]
    else
      match ShownBy(page, i)
      case Nothing => []
      case Showing(glyphs, text) =>
        if t.inText && t.fontSize > 0.0 then
          [TextRendered(page.num, n, t.fontName, t.fontSize, d.ctm, TextMatrixOf(prog), d.fillCs, d.fillVals,
             d.fillOpacity, t.mode, BoxOfText(d.ctm, TextMatrixOf(prog), t.fontSize, glyphs), text)]
        else []
  }

  ghost function DeclaredLogOf(page: Page, prog: seq<Instr>): seq<Event> {
    if prog == [] then [] else DeclaredLogOf(page, prog[..|prog| - 1]) + DeclaredEvents(page, prog)
  }

  lemma ColourConditions(page: Page, i: Instr)
    ensures SetsFill(i) <==> FillValuesSet(i).Some?
    ensures SetsStroke(i) <==> StrokeValuesSet(i).Some?
    ensures i.op.Op_gs? && |i.args| > 0 && SetsOverprint(ExtGStateNamed(page, i.args[0])) <==>
      OverprintStrokeSet(page, i).Some? || OverprintFillSet(page, i).Some? || OverprintModeSet(page, i).Some?
  {
    hide Num, PyNums, StripSlashes, Numbers;
  }

  lemma TextEventsAre(page: Page, gs: GState, t: TextState, i: Instr, index: int)
    ensures TextEvents(page, gs, t, i, index) ==
      match ShownBy(page, i)
      case Nothing => []
      case Showing(glyphs, text) =>
        if t.inText && t.fontSize > 0.0 then
          [TextRendered(page.num, index, t.fontName, t.fontSize, gs.ctm, t.matrix, gs.fillCs, gs.fillVals,
             gs.fillOpacity, t.mode, BoxOfText(gs.ctm, t.matrix, t.fontSize, glyphs), text)]
        else []
  {
    hide TextBox, BoxOfText, NonNumbers, TotalLen, Joined;
    if ShownBy(page, i).Showing? {
      TextBoxIs(gs, t, ShownBy(page, i).glyphs);
    }
  }

  /** Every event of every page is the declared one, and there are no others. */
  lemma {:induction false} LogIsDeclared(page: Page, prog: seq<Instr>)
    ensures PageEvents(page, prog) == DeclaredLogOf(page, prog)
  {
    if prog != [] {
      hide Run, Emitted, DeclaredEvents, Built, PageEvents;
      var n := |prog| - 1;
      var p, i := prog[..n], prog[n];
      LogIsDeclared(page, p);
      LogGrows(page, prog);
      LastEventIsDeclared(page, prog);
    } else {
      NoEvents(page);
    }
  }

  lemma NoEvents(page: Page)
    ensures PageEvents(page, []) == []
  {
  }

  lemma LastEventIsDeclared(page: Page, prog: seq<Instr>)
    requires prog != []
    ensures var n := |prog| - 1;
            var s := Run(page, INITIAL, prog[..n], 0);
            var r := Step(page, s, prog[n], n);
            Emitted(page, r.gs, Built(s.gs.ctm, s.path, prog[n]), r.text, prog[n], n) == DeclaredEvents(page, prog)
  {
    hide Run, Step, NextGs, NextText, Declared, DeclaredText, LiveNow, PathPoints, PointsOf, Start, Built, PaintEvent,
      TextEvents, BoxOf, BoxOfText, WidthOnPage, TextMatrixOf, FillValuesSet, StrokeValuesSet, OverprintStrokeSet,
      OverprintFillSet, OverprintModeSet, SetsFill, SetsStroke, SetsOverprint, ExtGStateNamed, Paints;
    var n := |prog| - 1;
    var p, i := prog[..n], prog[n];
    var s := Run(page, INITIAL, p, 0);
    var r := Step(page, s, i, n);
    StepOfRun(page, prog);
    StateIsLatestSettings(page, prog, 0);
    TextIgnoresStack(page, INITIAL, prog, 0);
    TextIsDeclared(page, prog);
    DeclaredTextMatrix(page, prog);
    PathIsDeclared(page, p, 0);
    BuiltIsDeclared(page, p, i);
    PaintingFlags(i.op);
    ColourConditions(page, i);
    if Paints(i.op) {
      PaintEventIs(page, r.gs, Built(s.gs.ctm, s.path, i), i.op, n);
    }
    TextEventsAre(page, r.gs, r.text, i, n);
  }

  lemma StepOfRun(page: Page, prog: seq<Instr>)
    requires prog != []
    ensures var n := |prog| - 1;
      Run(page, INITIAL, prog, 0) == Step(page, Run(page, INITIAL, prog[..n], 0), prog[n], n)
  {
    hide Step;
  }

  lemma DeclaredTextMatrix(page: Page, prog: seq<Instr>)
    ensures DeclaredText(page, prog).matrix == TextMatrixOf(prog)
  {
  }

  lemma BuiltIsDeclared(page: Page, p: seq<Instr>, i: Instr)
    ensures var s := Run(page, INITIAL, p, 0);
            Built(s.gs.ctm, s.path, i).pts == PathPoints(p) + PointsOf(p, i)
  {
    hide Run, LiveNow, Product, Deltas, UserPoints, Recorded, Device;
    PathIsDeclared(page, p, 0);
    CtmIsLive(page, p, 0);
    RecordedAreUserPoints(Start(p), i);
  }
}
