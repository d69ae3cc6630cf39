/** Where text lands: the text and line matrices over whole operator sequences, and when they agree
    with section 9.4.2 of ISO 32000-2. */
module TextPosition {
  import opened Prelude
  import opened Affine
  import opened ContentStream
  import opened GraphicsStack

  // ---- What the last origin and the moves since add up to -------------------------------

  predicate SetsOrigin(i: Instr) {
    i.op.Op_BT? || (i.op.Op_Tm? && |i.args| >= 6)
  }

  /** The matrix given by the latest BT or Tm. */
  function Origin(prog: seq<Instr>): Matrix {
    if prog == [] then IDENTITY
    else
      var i := prog[|prog| - 1];
      if i.op.Op_BT? then IDENTITY
      else if SetsOrigin(i) then MatrixOf(i.args)
      else Origin(prog[..|prog| - 1])
  }

  /** The leading given by the latest TL or TD. */
  function Leading(prog: seq<Instr>): real {
    if prog == [] then 0.0
    else
      var i := prog[|prog| - 1];
      if i.op.Op_TL? && |i.args| > 0 then Num(i.args[0])
      else if i.op.Op_TD? && |i.args| >= 2 then -Num(i.args[1])
      else Leading(prog[..|prog| - 1])
  }

  predicate MovesLine(i: Instr) {
    ((i.op.Op_Td? || i.op.Op_TD?) && |i.args| >= 2) ||
    i.op.Op_TStar? || i.op.Op_Quote? || i.op.Op_DoubleQuote?
  }

  /** The offset of a line move when `leading` is in force. */
  function MoveVector(i: Instr, leading: real): Point
    requires MovesLine(i)
  {
    if i.op.Op_Td? || i.op.Op_TD? then PointAt(i.args, 0) else Point(0.0, -leading)
  }

  /** The summed offsets of the line moves since the latest BT or Tm. */
  function Offset(prog: seq<Instr>): Point {
    if prog == [] then Point(0.0, 0.0)
    else
      var n := |prog| - 1;
      if SetsOrigin(prog[n]) then Point(0.0, 0.0)
      else if MovesLine(prog[n]) then
        var o, v := Offset(prog[..n]), MoveVector(prog[n], Leading(prog[..n]));
        Point(o.x + v.x, o.y + v.y)
      else Offset(prog[..n])
  }

  function Shifted(m: Matrix, o: Point): Matrix {
    m.(e := m.e + o.x, f := m.f + o.y)
  }

  lemma NoShift(m: Matrix)
    ensures Shifted(m, Point(0.0, 0.0)) == m
  {
  }

  lemma ShiftTwice(m: Matrix, o: Point, v: Point)
    ensures Shifted(Shifted(m, o), v) == Shifted(m, Point(o.x + v.x, o.y + v.y))
  {
  }

  lemma MulTranslation(m: Matrix, tx: real, ty: real)
    ensures Mul(m, Translation(tx, ty)) == Shifted(m, Point(tx, ty))
    ensures Mul(Translation(tx, ty), m)
         == m.(e := tx * m.a + ty * m.c + m.e, f := tx * m.b + ty * m.d + m.f)
  {
  }

  /** In every reachable state the two text matrices are the same, and they are the latest BT or Tm
      matrix moved by the plain sum of the offsets since; no q or Q interferes. */
  lemma TextMatrixIsOriginPlusOffsets(page: Page, prog: seq<Instr>, first: int)
    ensures var t := Run(page, INITIAL, prog, first).text;
            && t.matrix == t.lineMatrix == Shifted(Origin(prog), Offset(prog))
            && t.leading == Leading(prog)
  {
    hide Run;
    TextIgnoresStack(page, INITIAL, prog, first);
    TextRunFromInitial(page, prog);
  }

  /** The leading after one operator. */
  function NextLeading(leading: real, i: Instr): real {
    if i.op.Op_TL? && |i.args| > 0 then Num(i.args[0])
    else if i.op.Op_TD? && |i.args| >= 2 then -Num(i.args[1])
    else leading
  }

  lemma OneTextStep(page: Page, t: TextState, i: Instr)
    requires t.matrix == t.lineMatrix
    ensures var r := NextText(page, t, i);
            && r.leading == NextLeading(t.leading, i)
            && r.matrix == r.lineMatrix
            && r.lineMatrix ==
                 if SetsOrigin(i) then (if i.op.Op_BT? then IDENTITY else MatrixOf(i.args))
                 else if MovesLine(i) then Shifted(t.lineMatrix, MoveVector(i, t.leading))
                 else t.lineMatrix
  {
    hide Mul, MatrixOf, Num, IntOf, MaxR, NameIn;
    if MovesLine(i) {
      var v := MoveVector(i, t.leading);
      MulTranslation(t.lineMatrix, v.x, v.y);
    }
  }

  lemma {:induction false} TextRunFromInitial(page: Page, prog: seq<Instr>)
    ensures var t := TextRun(page, INITIAL_TEXT, prog);
            && t.matrix == t.lineMatrix == Shifted(Origin(prog), Offset(prog))
            && t.leading == Leading(prog)
  {
    hide NextText, MatrixOf, Num, MoveVector, Shifted;
    if prog == [] {
      NoShift(IDENTITY);
    } else {
      var n := |prog| - 1;
      TextRunFromInitial(page, prog[..n]);
      OneTextStep(page, TextRun(page, INITIAL_TEXT, prog[..n]), prog[n]);
      if SetsOrigin(prog[n]) {
        NoShift(Origin(prog));
      } else if MovesLine(prog[n]) {
        ShiftTwice(Origin(prog[..n]), Offset(prog[..n]), MoveVector(prog[n], Leading(prog[..n])));
      }
    }
  }

  // ---- Against the standard -------------------------------------------------------------

  /** Section 9.4.2: a line move multiplies the translation on the left of the line matrix. */
  function StandardNextText(page: Page, t: TextState, i: Instr): TextState {
    if MovesLine(i) then
      var v := MoveVector(i, t.leading);
      var m := Mul(Translation(v.x, v.y), t.lineMatrix);
      t.(leading := if i.op.Op_TD? then -v.y else t.leading, lineMatrix := m, matrix := m)
    else NextText(page, t, i)
  }

  function StandardTextRun(page: Page, t: TextState, prog: seq<Instr>): TextState {
    if prog == [] then t
    else StandardNextText(page, StandardTextRun(page, t, prog[..|prog| - 1]), prog[|prog| - 1])
  }

  /** The linear part of m leaves the vector where it is. */
  predicate Fixes(m: Matrix, v: Point) {
    v.x * m.a + v.y * m.c == v.x && v.x * m.b + v.y * m.d == v.y
  }

  predicate MoveIsStandard(t: TextState, i: Instr) {
    MovesLine(i) ==> Fixes(t.lineMatrix, MoveVector(i, t.leading))
  }

  lemma SidesAgreeIff(m: Matrix, v: Point)
    ensures Mul(m, Translation(v.x, v.y)) == Mul(Translation(v.x, v.y), m) <==> Fixes(m, v)
  {
    MulTranslation(m, v.x, v.y);
  }

  /** What a line move does to the matrices and the leading. */
  lemma MoveEffect(page: Page, t: TextState, i: Instr)
    requires MovesLine(i)
    ensures var v := MoveVector(i, t.leading);
            var m := Mul(t.lineMatrix, Translation(v.x, v.y));
            NextText(page, t, i) == t.(leading := if i.op.Op_TD? then -v.y else t.leading, lineMatrix := m, matrix := m)
  {
    hide Mul, Num;
  }

  /** One operator acts as the standard says exactly when it is not a line move, or the linear part of
      the line matrix fixes its offset. */
  lemma StepIsStandardIff(page: Page, t: TextState, i: Instr)
    ensures NextText(page, t, i) == StandardNextText(page, t, i) <==> MoveIsStandard(t, i)
  {
    hide Mul, NextText, Fixes, MoveVector;
    if MovesLine(i) {
      MoveEffect(page, t, i);
      SidesAgreeIff(t.lineMatrix, MoveVector(i, t.leading));
    }
  }

  const DOUBLE := Instr(Op_Tm, [Int(2), Int(0), Int(0), Int(2), Int(0), Int(0)])
  const RIGHT := Instr(Op_Td, [Int(1), Int(0)])

  lemma TwoSteps(page: Page, t: TextState, a: Instr, b: Instr)
    ensures TextRun(page, t, [a, b]) == NextText(page, NextText(page, t, a), b)
    ensures StandardTextRun(page, t, [a, b]) == StandardNextText(page, StandardNextText(page, t, a), b)
  {
    hide NextText, StandardNextText;
    assert [a, b][..1] == [a] && [a][..0] == [];
    assert TextRun(page, t, [a]) == NextText(page, t, a);
    assert StandardTextRun(page, t, [a]) == StandardNextText(page, t, a);
  }

  /** `Tm` and then `Td`: where the code puts the line and where the standard does. */
  lemma OriginThenMove(page: Page, t: TextState, tm: Instr, td: Instr)
    requires t.matrix == t.lineMatrix
    requires tm.op.Op_Tm? && |tm.args| >= 6 && td.op.Op_Td? && |td.args| >= 2
    ensures var m, v := MatrixOf(tm.args), PointAt(td.args, 0);
            && TextRun(page, t, [tm, td]).lineMatrix == Shifted(m, v)
            && StandardTextRun(page, t, [tm, td]).lineMatrix == Mul(Translation(v.x, v.y), m)
  {
    hide Mul, NextText, TextRun, StandardTextRun, MatrixOf, PointAt;
    TwoSteps(page, t, tm, td);
    OneTextStep(page, t, tm);
    var u := NextText(page, t, tm);
    assert StandardNextText(page, t, tm) == u;
    OneTextStep(page, u, td);
    var v := PointAt(td.args, 0);
    MulTranslation(u.lineMatrix, v.x, v.y);
  }

  lemma OperandValues()
    ensures MatrixOf(DOUBLE.args) == Matrix(2.0, 0.0, 0.0, 2.0, 0.0, 0.0)
    ensures PointAt(RIGHT.args, 0) == Point(1.0, 0.0)
  {
  }

  /** A move under a scaling, with the translation on either side. */
  lemma MoveInScaled(k: real, tx: real, ty: real)
    ensures var m := Matrix(k, 0.0, 0.0, k, 0.0, 0.0);
            && Shifted(m, Point(tx, ty)) == Matrix(k, 0.0, 0.0, k, tx, ty)
            && Mul(Translation(tx, ty), m) == Matrix(k, 0.0, 0.0, k, tx * k, ty * k)
  {
    MulTranslation(Matrix(k, 0.0, 0.0, k, 0.0, 0.0), tx, ty);
  }

  /** `2 0 0 2 0 0 Tm 1 0 Td`: the code moves by one unit of the page, the standard by one of the doubled text space. */
  lemma MoveUnderScaling(page: Page)
    ensures TextRun(page, INITIAL_TEXT, [DOUBLE, RIGHT]).lineMatrix == Matrix(2.0, 0.0, 0.0, 2.0, 1.0, 0.0)
    ensures StandardTextRun(page, INITIAL_TEXT, [DOUBLE, RIGHT]).lineMatrix == Matrix(2.0, 0.0, 0.0, 2.0, 2.0, 0.0)
  {
    hide TextRun, StandardTextRun, MatrixOf, PointAt, Num, Mul, Shifted;
    OperandValues();
    MoveInScaled(2.0, 1.0, 0.0);
    OriginThenMove(page, INITIAL_TEXT, DOUBLE, RIGHT);
  }

  predicate LinearPartIsIdentity(m: Matrix) {
    m.a == 1.0 && m.b == 0.0 && m.c == 0.0 && m.d == 1.0
  }

  /** Pages whose Tm operators only translate get the standard's text matrices throughout. */
  lemma {:induction false} TranslationOnlyTextIsStandard(page: Page, t: TextState, prog: seq<Instr>)
    requires LinearPartIsIdentity(t.lineMatrix)
    requires forall k :: 0 <= k < |prog| && SetsOrigin(prog[k]) && !prog[k].op.Op_BT? ==>
      LinearPartIsIdentity(MatrixOf(prog[k].args))
    ensures TextRun(page, t, prog) == StandardTextRun(page, t, prog)
    ensures LinearPartIsIdentity(TextRun(page, t, prog).lineMatrix)
  {
    hide Mul;
    if prog != [] {
      var n := |prog| - 1;
      TranslationOnlyTextIsStandard(page, t, prog[..n]);
      var u := TextRun(page, t, prog[..n]);
      StepIsStandardIff(page, u, prog[n]);
      if MovesLine(prog[n]) {
        var v := MoveVector(prog[n], u.leading);
        MulTranslation(u.lineMatrix, v.x, v.y);
      }
    }
  }
}
