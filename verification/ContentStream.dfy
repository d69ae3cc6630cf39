/** What a page's content stream means to the event builder: the state an operator list leaves
    behind and the events it emits, written component by component. The walker class, which is
    written operator by operator, is proved against these functions. */
module ContentStream {
  import opened Prelude
  import opened Affine

  datatype Operator =
    | Op_q | Op_Q | Op_cm | Op_w | Op_J | Op_j | Op_d | Op_gs
    | Op_g | Op_G | Op_rg | Op_RG | Op_k | Op_K | Op_cs | Op_CS | Op_sc | Op_scn | Op_SC | Op_SCN
    | Op_m | Op_l | Op_c | Op_v | Op_y | Op_re | Op_h
    | Op_S | Op_s | Op_f | Op_F | Op_fStar | Op_B | Op_BStar | Op_b | Op_bStar | Op_n
    | Op_BT | Op_ET | Op_Tf | Op_Tm | Op_Td | Op_TD | Op_TStar | Op_TL | Op_Tr
    | Op_Tj | Op_TJ | Op_Quote | Op_DoubleQuote
    | Op_Other

  /** A parsed operand. Integers and floats are Python numbers; decimals are numbers that
      `isinstance(v, (int, float))` does not recognise. */
  datatype Operand =
    | Int(n: int)
    | Float(x: real)
    | Decimal(x: real)
    | Name(name: string)
    | Text(bytes: string)
    | Array(items: seq<Operand>)

  datatype Instr = Instr(op: Operator, args: seq<Operand>)

  /** `_f`: the number in an operand, or zero. */
  function Num(v: Operand): real {
    match v
    case Int(n) => n as real
    case Float(x) => x
    case Decimal(x) => x
    case _ => 0.0
  }

  /** `_i`: the number in an operand truncated to an integer, or zero. */
  function IntOf(v: Operand): int {
    match v
    case Int(n) => n
    case Float(x) => Trunc(x)
    case Decimal(x) => Trunc(x)
    case _ => 0
  }

  predicate IsPyNumber(v: Operand) {
    v.Int? || v.Float?
  }

  function Nums(vs: seq<Operand>): (r: seq<real>)
    ensures |r| == |vs|
  {
    seq(|vs|, i requires 0 <= i < |vs| => Num(vs[i]))
  }

  /** `tuple(_f(v) for v in ops if isinstance(v, (int, float)))`. */
  function PyNums(vs: seq<Operand>): seq<real> {
    if vs == [] then []
    else (if IsPyNumber(vs[0]) then [Num(vs[0])] else []) + PyNums(vs[1..])
  }

  function MatrixOf(vs: seq<Operand>): Matrix
    requires |vs| >= 6
  {
    Matrix(Num(vs[0]), Num(vs[1]), Num(vs[2]), Num(vs[3]), Num(vs[4]), Num(vs[5]))
  }

  // ---- State ----------------------------------------------------------------------------

  /** One entry of the page's ExtGState resources; absent keys are None. */
  datatype ExtGState = ExtGState(
    lineWidth: Option<real>, lineCap: Option<int>, lineJoin: Option<int>,
    strokeAlpha: Option<real>, fillAlpha: Option<real>,
    overprintStroke: Option<bool>, overprintFill: Option<bool>, overprintMode: Option<int>)

  /** What the page supplies: its number, its resources, and the library functions used on operands. */
  datatype Page = Page(
    num: int,
    extGStates: map<string, ExtGState>,
    spots: map<string, string>,
    sqrt: real -> real,
    str: Operand -> string,
    strLen: Operand -> nat,
    strVal: Operand -> string)

  datatype Dash = Dash(array: seq<real>, phase: real)

  /** The fourteen fields that `q` saves and `Q` restores. */
  datatype GState = GState(
    ctm: Matrix,
    lineWidth: real, lineCap: int, lineJoin: int, dash: Dash,
    strokeCs: string, strokeVals: seq<real>,
    fillCs: string, fillVals: seq<real>,
    strokeOpacity: real, fillOpacity: real,
    opStroking: bool, opNonStroking: bool, opm: int)

  datatype Path = Path(pts: seq<Point>, start: Option<Point>)

  datatype TextState = TextState(
    inText: bool, fontName: string, fontSize: real,
    matrix: Matrix, lineMatrix: Matrix, leading: real, mode: int)

  datatype Event =
    | PathPainted(name: string, page: int, index: int, fill: bool, stroke: bool, evenOdd: bool,
        fillCs: string, fillVals: seq<real>, strokeCs: string, strokeVals: seq<real>,
        lineWidth: real, lineCap: int, lineJoin: int, dash: Dash,
        pointCount: nat, bbox: Option<Box>)
    | ColorChanged(page: int, index: int, op: Operator, cs: string, vals: seq<real>, stroking: bool)
    | OverprintChanged(page: int, index: int, opStroking: bool, opNonStroking: bool, opm: int)
    | TextRendered(page: int, index: int, fontName: string, fontSize: real,
        ctm: Matrix, textMatrix: Matrix, cs: string, vals: seq<real>, opacity: real, mode: int,
        bbox: Option<Box>, rawText: string)

  datatype State = State(
    gs: GState, stack: seq<GState>, path: Path, text: TextState, events: seq<Event>)

  const BLACK: seq<real> := [0.0]

  const INITIAL_GSTATE := GState(IDENTITY, 1.0, 0, 0, Dash([], 0.0),
    "DeviceGray", BLACK, "DeviceGray", BLACK, 1.0, 1.0, false, false, 0)

  const EMPTY_PATH := Path([], None)

  const INITIAL_TEXT := TextState(false, "", 12.0, IDENTITY, IDENTITY, 0.0, 0)

  const INITIAL := State(INITIAL_GSTATE, [], EMPTY_PATH, INITIAL_TEXT, [])

  // ---- Graphics state -------------------------------------------------------------------

  function NameIn(page: Page, v: Operand): string {
    StripSlashes(page.str(v))
  }

  function GetOr<T>(o: Option<T>, default: T): T {
    if o.Some? then o.value else default
  }

  function ExtGStateNamed(page: Page, v: Operand): ExtGState {
    var name := NameIn(page, v);
    if name in page.extGStates then page.extGStates[name]
    else ExtGState(None, None, None, None, None, None, None, None)
  }

  predicate SetsOverprint(e: ExtGState) {
    e.overprintStroke.Some? || e.overprintFill.Some? || e.overprintMode.Some?
  }

  function WithExtGState(gs: GState, e: ExtGState): GState {
    gs.(
      lineWidth := if e.lineWidth.Some? then MaxR(0.0, e.lineWidth.value) else gs.lineWidth,
      lineCap := GetOr(e.lineCap, gs.lineCap),
      lineJoin := GetOr(e.lineJoin, gs.lineJoin),
      strokeOpacity := GetOr(e.strokeAlpha, gs.strokeOpacity),
      fillOpacity := GetOr(e.fillAlpha, gs.fillOpacity),
      opStroking := GetOr(e.overprintStroke, gs.opStroking),
      opNonStroking := GetOr(e.overprintFill, gs.opNonStroking),
      opm := GetOr(e.overprintMode, gs.opm))
  }

  function SpaceNamed(page: Page, v: Operand): string {
    var name := NameIn(page, v);
    if name in page.spots then page.spots[name] else name
  }

  /** The graphics state after any operator but `q` and `Q`. */
  function NextGs(page: Page, gs: GState, i: Instr): GState {
    var n := |i.args|;
    match i.op
    case Op_cm => if n == 6 then gs.(ctm := Mul(gs.ctm, MatrixOf(i.args))) else gs
    case Op_w => if n > 0 then gs.(lineWidth := MaxR(0.0, Num(i.args[0]))) else gs
    case Op_J => if n > 0 then gs.(lineCap := IntOf(i.args[0])) else gs
    case Op_j => if n > 0 then gs.(lineJoin := IntOf(i.args[0])) else gs
    case Op_d =>
      if n >= 2 && i.args[0].Array? then gs.(dash := Dash(Nums(i.args[0].items), Num(i.args[1]))) else gs
    case Op_gs => if n > 0 then WithExtGState(gs, ExtGStateNamed(page, i.args[0])) else gs
    case Op_g => if n > 0 then gs.(fillCs := "DeviceGray", fillVals := Nums(i.args[..1])) else gs
    case Op_G => if n > 0 then gs.(strokeCs := "DeviceGray", strokeVals := Nums(i.args[..1])) else gs
    case Op_rg => if n >= 3 then gs.(fillCs := "DeviceRGB", fillVals := Nums(i.args[..3])) else gs
    case Op_RG => if n >= 3 then gs.(strokeCs := "DeviceRGB", strokeVals := Nums(i.args[..3])) else gs
    case Op_k => if n >= 4 then gs.(fillCs := "DeviceCMYK", fillVals := Nums(i.args[..4])) else gs
    case Op_K => if n >= 4 then gs.(strokeCs := "DeviceCMYK", strokeVals := Nums(i.args[..4])) else gs
    case Op_cs => if n > 0 then gs.(fillCs := SpaceNamed(page, i.args[0])) else gs
    case Op_CS => if n > 0 then gs.(strokeCs := SpaceNamed(page, i.args[0])) else gs
    case Op_sc => gs.(fillVals := PyNums(i.args))
    case Op_scn => gs.(fillVals := PyNums(i.args))
    case Op_SC => gs.(strokeVals := PyNums(i.args))
    case Op_SCN => gs.(strokeVals := PyNums(i.args))
    case _ => gs
  }

  // ---- Path -----------------------------------------------------------------------------

  function PointAt(args: seq<Operand>, k: nat): Point
    requires k + 1 < |args|
  {
    Point(Num(args[k]), Num(args[k + 1]))
  }

  /** The user-space points a construction operator records, in order. */
  function Recorded(start: Option<Point>, i: Instr): seq<Point> {
    var n := |i.args|;
    match i.op
    case Op_m => if n >= 2 then [PointAt(i.args, 0)] else []
    case Op_l => if n >= 2 then [PointAt(i.args, 0)] else []
    case Op_c => if n >= 6 then [PointAt(i.args, 0), PointAt(i.args, 2), PointAt(i.args, 4)] else []
    case Op_v => if n >= 4 then [PointAt(i.args, 0), PointAt(i.args, 2)] else []
    case Op_y => if n >= 4 then [PointAt(i.args, 0), PointAt(i.args, 2)] else []
    case Op_re =>
      if n >= 4 then
        var p, w, h := PointAt(i.args, 0), Num(i.args[2]), Num(i.args[3]);
        [p, Point(p.x + w, p.y), Point(p.x + w, p.y + h), Point(p.x, p.y + h)]
      else []
    case Op_h => if start.Some? then [start.value] else []
    case _ => if Closes(i.op) && start.Some? then [start.value] else []
  }

  function Device(ctm: Matrix, ps: seq<Point>): (r: seq<Point>)
    ensures |r| == |ps|
  {
    seq(|ps|, i requires 0 <= i < |ps| => Apply(ctm, ps[i]))
  }

  /** The path an operator has built before any painting clears it. */
  function Built(ctm: Matrix, p: Path, i: Instr): Path {
    var pts := p.pts + Device(ctm, Recorded(p.start, i));
    var opens := (i.op.Op_m? && |i.args| >= 2) || (i.op.Op_re? && |i.args| >= 4);
    Path(pts, if opens then Some(PointAt(i.args, 0)) else p.start)
  }

  predicate Paints(op: Operator) {
    op.Op_S? || op.Op_s? || op.Op_f? || op.Op_F? || op.Op_fStar? ||
    op.Op_B? || op.Op_BStar? || op.Op_b? || op.Op_bStar?
  }

  /** The painting operators that first close the path. */
  predicate Closes(op: Operator) {
    op.Op_s? || op.Op_b? || op.Op_bStar?
  }

  predicate Fills(op: Operator) {
    Paints(op) && !op.Op_S? && !op.Op_s?
  }

  predicate Strokes(op: Operator) {
    Paints(op) && !op.Op_f? && !op.Op_F? && !op.Op_fStar?
  }

  predicate EvenOdd(op: Operator) {
    op.Op_fStar? || op.Op_BStar? || op.Op_bStar?
  }

  function NextPath(ctm: Matrix, p: Path, i: Instr): Path {
    if Paints(i.op) || i.op.Op_n? then EMPTY_PATH else Built(ctm, p, i)
  }

  /** The min/max box of a list of points. */
  function BoxOf(ps: seq<Point>): Option<Box> {
    if ps == [] then None
    else
      var last := ps[|ps| - 1];
      match BoxOf(ps[..|ps| - 1])
      case None => Some(Box(last.x, last.y, last.x, last.y))
      case Some(b) =>
        Some(Box(MinR(b.x0, last.x), MinR(b.y0, last.y), MaxR(b.x1, last.x), MaxR(b.y1, last.y)))
  }

  // ---- Text -----------------------------------------------------------------------------

  function Moved(t: TextState, tx: real, ty: real): TextState {
    var m := Mul(t.lineMatrix, Translation(tx, ty));
    t.(lineMatrix := m, matrix := m)
  }

  function NextText(page: Page, t: TextState, i: Instr): TextState {
    var n := |i.args|;
    match i.op
    case Op_BT => t.(inText := true, matrix := IDENTITY, lineMatrix := IDENTITY)
    case Op_ET => t.(inText := false)
    case Op_Tf =>
      if n >= 2 then t.(fontName := NameIn(page, i.args[0]), fontSize := MaxR(0.0, Num(i.args[1]))) else t
    case Op_Tm => if n >= 6 then t.(matrix := MatrixOf(i.args), lineMatrix := MatrixOf(i.args)) else t
    case Op_Td => if n >= 2 then Moved(t, Num(i.args[0]), Num(i.args[1])) else t
    case Op_TD =>
      if n >= 2 then Moved(t.(leading := -Num(i.args[1])), Num(i.args[0]), Num(i.args[1])) else t
    case Op_TStar => Moved(t, 0.0, -t.leading)
    case Op_Quote => Moved(t, 0.0, -t.leading)
    case Op_DoubleQuote => Moved(t, 0.0, -t.leading)
    case Op_TL => if n > 0 then t.(leading := Num(i.args[0])) else t
    case Op_Tr => if n > 0 then t.(mode := IntOf(i.args[0])) else t
    case _ => t
  }

  // ---- Events ---------------------------------------------------------------------------

  /** `_scale_uniform`: the root mean square of the two axis scales, or one when that is zero. */
  function ScaleUniform(sqrt: real -> real, m: Matrix): real {
    var sx := sqrt(m.a * m.a + m.b * m.b);
    var sy := sqrt(m.c * m.c + m.d * m.d);
    var r := sqrt((sx * sx + sy * sy) / 2.0);
    if r == 0.0 then 1.0 else r
  }

  function EffectiveLineWidth(sqrt: real -> real, lineWidth: real, m: Matrix): real {
    lineWidth * ScaleUniform(sqrt, m)
  }

  /** The operator name a paint event carries: B for both, f for a fill, S otherwise. */
  function PaintLabel(fill: bool, stroke: bool): string {
    if fill && stroke then "B" else if fill then "f" else "S"
  }

  function PaintedWith(page: Page, gs: GState, path: Path, fill: bool, stroke: bool, evenOdd: bool,
                       index: int): Event {
    PathPainted(PaintLabel(fill, stroke), page.num, index, fill, stroke, evenOdd,
      if fill then gs.fillCs else "", if fill then gs.fillVals else [],
      if stroke then gs.strokeCs else "", if stroke then gs.strokeVals else [],
      EffectiveLineWidth(page.sqrt, gs.lineWidth, gs.ctm), gs.lineCap, gs.lineJoin, gs.dash,
      |path.pts|, BoxOf(path.pts))
  }

  function PaintEvent(page: Page, gs: GState, path: Path, op: Operator, index: int): Event {
    PaintedWith(page, gs, path, Fills(op), Strokes(op), EvenOdd(op), index)
  }

  /** The far corner of some glyphs in text space: 0.55 em wide each, and one em high but at least one unit. */
  function FarCorner(size: real, len: int): Point {
    Point(MaxI(len, 1) as real * size * 0.55, MaxR(size, 1.0))
  }

  /** `_text_bbox`: the box of the text origin and the far corner, if it has an extent. */
  function TextBox(gs: GState, t: TextState, len: int): Option<Box> {
    var m := Mul(t.matrix, gs.ctm);
    var o := Apply(m, Point(0.0, 0.0));
    var e := Apply(m, FarCorner(t.fontSize, len));
    var b := Box(MinR(o.x, e.x), MinR(o.y, e.y), MaxR(o.x, e.x), MaxR(o.y, e.y));
    if b.x1 <= b.x0 || b.y1 <= b.y0 then None else Some(b)
  }

  function Shown(page: Page, gs: GState, t: TextState, len: int, raw: string, index: int): seq<Event> {
    if !t.inText || t.fontSize <= 0.0 then []
    else [TextRendered(page.num, index, t.fontName, t.fontSize, gs.ctm, t.matrix,
            gs.fillCs, gs.fillVals, gs.fillOpacity, t.mode, TextBox(gs, t, len), raw)]
  }

  function NonNumbers(vs: seq<Operand>): seq<Operand> {
    if vs == [] then []
    else (if IsPyNumber(vs[0]) then [] else [vs[0]]) + NonNumbers(vs[1..])
  }

  function TotalLen(page: Page, vs: seq<Operand>): nat {
    if vs == [] then 0 else page.strLen(vs[0]) + TotalLen(page, vs[1..])
  }

  function Joined(page: Page, vs: seq<Operand>): string {
    if vs == [] then "" else page.strVal(vs[0]) + Joined(page, vs[1..])
  }

  /** The events of a text-showing operator. */
  function TextEvents(page: Page, gs: GState, t: TextState, i: Instr, index: int): seq<Event> {
    var n := |i.args|;
    match i.op
    case Op_Tj => if n > 0 then Shown(page, gs, t, page.strLen(i.args[0]), page.strVal(i.args[0]), index) else []
    case Op_TJ =>
      if n == 0 then []
      else if i.args[0].Array? then
        var parts := NonNumbers(i.args[0].items);
        Shown(page, gs, t, MaxI(TotalLen(page, parts), 1), Joined(page, parts), index)
      else Shown(page, gs, t, 1, "", index)
    case Op_Quote =>
      var src := if n > 0 then i.args[n - 1] else Text("");
      Shown(page, gs, t, page.strLen(src), page.strVal(src), index)
    case Op_DoubleQuote =>
      var src := if n > 0 then i.args[n - 1] else Text("");
      Shown(page, gs, t, page.strLen(src), page.strVal(src), index)
    case _ => []
  }

  predicate SetsFill(i: Instr) {
    (i.op.Op_g? && |i.args| > 0) || (i.op.Op_rg? && |i.args| >= 3) || (i.op.Op_k? && |i.args| >= 4) ||
    i.op.Op_sc? || i.op.Op_scn?
  }

  predicate SetsStroke(i: Instr) {
    (i.op.Op_G? && |i.args| > 0) || (i.op.Op_RG? && |i.args| >= 3) || (i.op.Op_K? && |i.args| >= 4) ||
    i.op.Op_SC? || i.op.Op_SCN?
  }

  /** The events an operator appends, given the graphics and text state after it and the path it built. */
  function Emitted(page: Page, gs: GState, built: Path, t: TextState, i: Instr, index: int): seq<Event> {
    if Paints(i.op) then [PaintEvent(page, gs, built, i.op, index)]
    else if SetsFill(i) then [ColorChanged(page.num, index, i.op, gs.fillCs, gs.fillVals, false)]
    else if SetsStroke(i) then [ColorChanged(page.num, index, i.op, gs.strokeCs, gs.strokeVals, true)]
    else if i.op.Op_gs? && |i.args| > 0 && SetsOverprint(ExtGStateNamed(page, i.args[0])) then
      [OverprintChanged(page.num, index, gs.opStroking, gs.opNonStroking, gs.opm)]
    else TextEvents(page, gs, t, i, index)
  }

  // ---- One step, and runs ---------------------------------------------------------------

  function StepStack(page: Page, s: State, i: Instr): (GState, seq<GState>) {
    if i.op.Op_q? then (s.gs, s.stack + [s.gs])
    else if i.op.Op_Q? then
      if s.stack == [] then (s.gs, []) else (s.stack[|s.stack| - 1], s.stack[..|s.stack| - 1])
    else (NextGs(page, s.gs, i), s.stack)
  }

  function Step(page: Page, s: State, i: Instr, index: int): State {
    var (gs, stack) := StepStack(page, s, i);
    var t := NextText(page, s.text, i);
    State(gs, stack, NextPath(s.gs.ctm, s.path, i), t,
      s.events + Emitted(page, gs, Built(s.gs.ctm, s.path, i), t, i, index))
  }

  /** Runs operators, numbered from `first` on. */
  function Run(page: Page, s: State, prog: seq<Instr>, first: int): State {
    if prog == [] then s
    else
      var n := |prog| - 1;
      Step(page, Run(page, s, prog[..n], first), prog[n], first + n)
  }

  lemma {:induction false} RunAppend(page: Page, s: State, a: seq<Instr>, b: seq<Instr>, first: int)
    ensures Run(page, s, a + b, first) == Run(page, Run(page, s, a, first), b, first + |a|)
  {
    hide Step;
    if b == [] {
      assert a + b == a;
    } else {
      var n := |b| - 1;
      RunAppend(page, s, a, b[..n], first);
      assert (a + b)[..|a| + n] == a + b[..n];
    }
  }
}
