/** Whole pages against ISO 32000-2: three rules of the standard that the walker reads differently, and exactly
    which pages come out the same. */
module StandardPage {
  import opened Prelude
  import opened Affine
  import opened ContentStream
  import opened GraphicsStack
  import opened TextPosition

  /** The text parameters that section 8.4.2 saves with the graphics state and the walker does not. */
  datatype TextParams = TextParams(fontName: string, fontSize: real, leading: real, mode: int)

  function ParamsOf(t: TextState): TextParams {
    TextParams(t.fontName, t.fontSize, t.leading, t.mode)
  }

  function WithParams(t: TextState, p: TextParams): TextState {
    t.(fontName := p.fontName, fontSize := p.fontSize, leading := p.leading, mode := p.mode)
  }

  /** Which rules a reader takes from the standard rather than from the code: `cm` on the left of the CTM
      (section 8.3.4), line moves on the left of the line matrix (9.4.2), text parameters saved by `q` (8.4.2). */
  datatype Rules = Rules(matrixOnLeft: bool, moveOnLeft: bool, savesText: bool)

  const CODE := Rules(false, false, false)
  const STANDARD := Rules(true, true, true)

  /** What one `q` saves. */
  datatype Frame = Frame(gs: GState, params: TextParams)

  datatype View = View(gs: GState, text: TextState, frames: seq<Frame>)

  const START := View(INITIAL_GSTATE, INITIAL_TEXT, [])

  predicate IsMatrixOp(i: Instr) {
    i.op.Op_cm? && |i.args| == 6
  }

  function ReadGs(r: Rules, page: Page, gs: GState, i: Instr): GState {
    if r.matrixOnLeft && IsMatrixOp(i) then gs.(ctm := Mul(MatrixOf(i.args), gs.ctm)) else NextGs(page, gs, i)
  }

  function ReadText(r: Rules, page: Page, t: TextState, i: Instr): TextState {
    if r.moveOnLeft then StandardNextText(page, t, i) else NextText(page, t, i)
  }

  /** One operator under the given rules. */
  function Read(r: Rules, page: Page, v: View, i: Instr): View {
    if i.op.Op_q? then v.(frames := v.frames + [Frame(v.gs, ParamsOf(v.text))])
    else if i.op.Op_Q? then
      if v.frames == [] then v
      else
        var n := |v.frames| - 1;
        View(v.frames[n].gs, if r.savesText then WithParams(v.text, v.frames[n].params) else v.text, v.frames[..n])
    else View(ReadGs(r, page, v.gs, i), ReadText(r, page, v.text, i), v.frames)
  }

  function ReadPage(r: Rules, page: Page, v: View, prog: seq<Instr>): View {
    if prog == [] then v else Read(r, page, ReadPage(r, page, v, prog[..|prog| - 1]), prog[|prog| - 1])
  }

  /** Under the code's rules this is the walker's graphics state, stack and text state. */
  lemma {:induction false} CodeReadsAsWalker(page: Page, prog: seq<Instr>, first: int)
    ensures var v, s := ReadPage(CODE, page, START, prog), Run(page, INITIAL, prog, first);
            && v.gs == s.gs && v.text == s.text && |v.frames| == |s.stack|
            && forall k :: 0 <= k < |s.stack| ==> v.frames[k].gs == s.stack[k]
  {
    hide NextGs, NextPath, NextText, Built, Emitted;
    if prog != [] {
      var n := |prog| - 1;
      CodeReadsAsWalker(page, prog[..n], first);
      if IsStackOp(prog[n].op) {
        TextIsUntouched(page, Run(page, INITIAL, prog[..n], first).text, prog[n]);
      }
    }
  }

  lemma TextIsUntouched(page: Page, t: TextState, i: Instr)
    requires IsStackOp(i.op)
    ensures NextText(page, t, i) == t == StandardNextText(page, t, i)
  {
  }

  // ---- When the rules make no difference ------------------------------------------------

  ghost predicate MatrixConforms(v: View, i: Instr) {
    IsMatrixOp(i) ==> Commute(v.gs.ctm, MatrixOf(i.args))
  }

  /** A `Q` that pops something finds the text parameters its `q` saved. */
  predicate RestoreConforms(v: View, i: Instr) {
    i.op.Op_Q? && v.frames != [] ==> v.frames[|v.frames| - 1].params == ParamsOf(v.text)
  }

  ghost predicate Conforms(r: Rules, v: View, i: Instr) {
    && (r.matrixOnLeft ==> MatrixConforms(v, i))
    && (r.moveOnLeft ==> MoveIsStandard(v.text, i))
    && (r.savesText ==> RestoreConforms(v, i))
  }

  lemma StepConformsIff(r: Rules, page: Page, v: View, i: Instr)
    ensures Read(CODE, page, v, i) == Read(r, page, v, i) <==> Conforms(r, v, i)
  {
    hide Mul, NextText, StandardNextText, MoveIsStandard, MatrixOf;
    StepIsStandardIff(page, v.text, i);
    if IsStackOp(i.op) {
      StackOpsConform(v, i);
      RestoreIff(v.text, if v.frames == [] then ParamsOf(v.text) else v.frames[|v.frames| - 1].params);
    }
  }

  lemma StackOpsConform(v: View, i: Instr)
    requires IsStackOp(i.op)
    ensures MatrixConforms(v, i) && MoveIsStandard(v.text, i)
  {
  }

  lemma RestoreIff(t: TextState, p: TextParams)
    ensures t == WithParams(t, p) <==> p == ParamsOf(t)
  {
  }

  ghost predicate AgreesThroughout(r: Rules, page: Page, v: View, prog: seq<Instr>) {
    forall n :: 0 <= n <= |prog| ==> ReadPage(CODE, page, v, prog[..n]) == ReadPage(r, page, v, prog[..n])
  }

  ghost predicate ConformsThroughout(r: Rules, page: Page, v: View, prog: seq<Instr>) {
    forall n :: 0 <= n < |prog| ==> Conforms(r, ReadPage(CODE, page, v, prog[..n]), prog[n])
  }

  lemma AgreesSnoc(r: Rules, page: Page, v: View, prog: seq<Instr>)
    requires prog != []
    ensures AgreesThroughout(r, page, v, prog) <==>
      && AgreesThroughout(r, page, v, prog[..|prog| - 1])
      && ReadPage(CODE, page, v, prog) == ReadPage(r, page, v, prog)
  {
    hide Read;
    var p := prog[..|prog| - 1];
    assert prog[..|prog|] == prog;
    forall n | 0 <= n < |prog| ensures p[..n] == prog[..n] {}
  }

  lemma ConformsSnoc(r: Rules, page: Page, v: View, prog: seq<Instr>)
    requires prog != []
    ensures ConformsThroughout(r, page, v, prog) <==>
      && ConformsThroughout(r, page, v, prog[..|prog| - 1])
      && Conforms(r, ReadPage(CODE, page, v, prog[..|prog| - 1]), prog[|prog| - 1])
  {
    hide Read, Conforms;
    var p := prog[..|prog| - 1];
    forall n | 0 <= n < |prog| ensures p[..n] == prog[..n] {}
    forall n | 0 <= n < |p| ensures p[n] == prog[n] {}
  }

  /** For any choice of rules: the code agrees with it after every prefix exactly when each operator conforms in
      the state the code has reached. */
  lemma {:induction false} ReadingIff(r: Rules, page: Page, v: View, prog: seq<Instr>)
    ensures AgreesThroughout(r, page, v, prog) <==> ConformsThroughout(r, page, v, prog)
  {
    hide Read, Conforms;
    if prog == [] {
      assert forall n :: 0 <= n <= |prog| ==> prog[..n] == [];
    } else {
      hide ConformsThroughout;
      var p := prog[..|prog| - 1];
      ReadingIff(r, page, v, p);
      AgreesSnoc(r, page, v, prog);
      ConformsSnoc(r, page, v, prog);
      StepConformsIff(r, page, ReadPage(CODE, page, v, p), prog[|prog| - 1]);
      assert p[..|p|] == p;
    }
  }

  // ---- The three rules, and all of them -------------------------------------------------

  /** With `cm` as in section 8.3.4, graphics state and stack agree throughout a page exactly when each well-formed
      `cm` commutes with the CTM in force when it arrives. */
  lemma MatricesAreStandardIff(page: Page, prog: seq<Instr>)
    ensures AgreesThroughout(Rules(true, false, false), page, START, prog) <==>
      forall n :: 0 <= n < |prog| && IsMatrixOp(prog[n]) ==>
        Commute(Run(page, INITIAL, prog[..n], 0).gs.ctm, MatrixOf(prog[n].args))
  {
    hide Mul, MatrixOf, Run, ReadPage;
    ReadingIff(Rules(true, false, false), page, START, prog);
    forall n | 0 <= n < |prog|
      ensures Conforms(Rules(true, false, false), ReadPage(CODE, page, START, prog[..n]), prog[n]) <==>
        (IsMatrixOp(prog[n]) ==> Commute(Run(page, INITIAL, prog[..n], 0).gs.ctm, MatrixOf(prog[n].args)))
    {
      CodeReadsAsWalker(page, prog[..n], 0);
    }
  }

  /** The walker's text parameters at each `q` that is still open. */
  function SavedParams(page: Page, prog: seq<Instr>): seq<TextParams> {
    if prog == [] then []
    else
      var n := |prog| - 1;
      var saved := SavedParams(page, prog[..n]);
      if prog[n].op.Op_q? then saved + [ParamsOf(TextRun(page, INITIAL_TEXT, prog[..n]))]
      else if prog[n].op.Op_Q? && saved != [] then saved[..|saved| - 1]
      else saved
  }

  function Last<T>(xs: seq<T>): Option<T> {
    if xs == [] then None else Some(xs[|xs| - 1])
  }

  lemma {:induction false} SavedAreFrames(page: Page, prog: seq<Instr>)
    ensures var v, saved := ReadPage(CODE, page, START, prog), SavedParams(page, prog);
            |saved| == |v.frames| && forall k :: 0 <= k < |saved| ==> saved[k] == v.frames[k].params
  {
    hide NextGs, NextText, ParamsOf;
    if prog != [] {
      var n := |prog| - 1;
      SavedAreFrames(page, prog[..n]);
      CodeReadsAsWalker(page, prog[..n], 0);
      TextIgnoresStack(page, INITIAL, prog[..n], 0);
    }
  }

  /** With the text parameters saved as in section 8.4.2, a page agrees throughout exactly when each `Q` that meets
      a non-empty stack finds font, size, leading and mode as its `q` saved them. */
  lemma RestoresAreStandardIff(page: Page, prog: seq<Instr>)
    ensures forall n :: 0 <= n <= |prog| ==>
      |SavedParams(page, prog[..n])| == |Run(page, INITIAL, prog[..n], 0).stack|
    ensures AgreesThroughout(Rules(false, false, true), page, START, prog) <==>
      forall n :: 0 <= n < |prog| && prog[n].op.Op_Q? && Run(page, INITIAL, prog[..n], 0).stack != [] ==>
        Last(SavedParams(page, prog[..n])) == Some(ParamsOf(Run(page, INITIAL, prog[..n], 0).text))
  {
    hide Run, ReadPage;
    var r := Rules(false, false, true);
    ReadingIff(r, page, START, prog);
    forall n | 0 <= n <= |prog|
      ensures var s, v := Run(page, INITIAL, prog[..n], 0), ReadPage(CODE, page, START, prog[..n]);
        && |SavedParams(page, prog[..n])| == |s.stack|
        && (n < |prog| ==> (Conforms(r, v, prog[n]) <==> (prog[n].op.Op_Q? && s.stack != [] ==>
             Last(SavedParams(page, prog[..n])) == Some(ParamsOf(s.text)))))
    {
      CodeReadsAsWalker(page, prog[..n], 0);
      SavedAreFrames(page, prog[..n]);
    }
  }

  /** The standard's text state is the walker's after every prefix. */
  ghost predicate TextAgreesThroughout(page: Page, t: TextState, prog: seq<Instr>) {
    forall n :: 0 <= n <= |prog| ==> TextRun(page, t, prog[..n]) == StandardTextRun(page, t, prog[..n])
  }

  /** Every line move has an offset that the line matrix in force at that point fixes. */
  ghost predicate MovesAreStandard(page: Page, t: TextState, prog: seq<Instr>) {
    forall n :: 0 <= n < |prog| ==> MoveIsStandard(TextRun(page, t, prog[..n]), prog[n])
  }

  lemma ParamsIgnoreMoves(page: Page, t: TextState, u: TextState, i: Instr)
    requires ParamsOf(t) == ParamsOf(u)
    ensures ParamsOf(NextText(page, t, i)) == ParamsOf(StandardNextText(page, u, i))
  {
    hide Mul, MatrixOf, NameIn, Num, IntOf, MaxR;
  }

  /** With line moves alone as in section 9.4.2, only the text matrices can come out differently. */
  lemma {:induction false} OnlyTextDiffers(page: Page, v: View, prog: seq<Instr>)
    ensures var x, y := ReadPage(CODE, page, v, prog), ReadPage(Rules(false, true, false), page, v, prog);
            && x.gs == y.gs && x.frames == y.frames && ParamsOf(x.text) == ParamsOf(y.text)
            && x.text == TextRun(page, v.text, prog) && y.text == StandardTextRun(page, v.text, prog)
  {
    hide NextGs, NextText, StandardNextText, ParamsOf;
    if prog != [] {
      var n := |prog| - 1;
      OnlyTextDiffers(page, v, prog[..n]);
      var t, u := TextRun(page, v.text, prog[..n]), StandardTextRun(page, v.text, prog[..n]);
      ParamsIgnoreMoves(page, t, u, prog[n]);
      if IsStackOp(prog[n].op) {
        TextIsUntouched(page, t, prog[n]);
        TextIsUntouched(page, u, prog[n]);
      }
    }
  }

  /** A run's text agrees with the standard throughout exactly when each of its line moves does. */
  lemma RunIsStandardIff(page: Page, t: TextState, prog: seq<Instr>)
    ensures TextAgreesThroughout(page, t, prog) <==> MovesAreStandard(page, t, prog)
  {
    hide ReadPage, MoveIsStandard;
    var v := View(INITIAL_GSTATE, t, []);
    ReadingIff(Rules(false, true, false), page, v, prog);
    forall n | 0 <= n <= |prog|
      ensures var x, y := ReadPage(CODE, page, v, prog[..n]), ReadPage(Rules(false, true, false), page, v, prog[..n]);
        && x.text == TextRun(page, t, prog[..n]) && y.text == StandardTextRun(page, t, prog[..n])
        && (x == y <==> x.text == y.text)
    {
      OnlyTextDiffers(page, v, prog[..n]);
    }
  }

  /** With all three rules: the walker reads a page as the standard does exactly when every matrix commutes, every
      line move is fixed by its line matrix, and every restore finds its text parameters. */
  lemma PageIsStandardIff(page: Page, prog: seq<Instr>)
    ensures AgreesThroughout(STANDARD, page, START, prog) <==>
      forall n :: 0 <= n < |prog| ==>
        var v := ReadPage(CODE, page, START, prog[..n]);
        MatrixConforms(v, prog[n]) && MoveIsStandard(v.text, prog[n]) && RestoreConforms(v, prog[n])
  {
    hide Read, MatrixConforms, MoveIsStandard, RestoreConforms;
    ReadingIff(STANDARD, page, START, prog);
  }

  const DOUBLED := Instr(Op_cm, [Int(2), Int(0), Int(0), Int(2), Int(0), Int(0)])
  const MOVED := Instr(Op_cm, [Int(1), Int(0), Int(0), Int(1), Int(1), Int(0)])

  lemma TwoMatrixOps(r: Rules, page: Page, a: Instr, b: Instr)
    requires IsMatrixOp(a) && IsMatrixOp(b)
    ensures var m, n := MatrixOf(a.args), MatrixOf(b.args);
            ReadPage(r, page, START, [a, b]).gs.ctm == if r.matrixOnLeft then Mul(n, m) else Mul(m, n)
  {
    hide Mul, MatrixOf, NextText, StandardNextText;
    assert [a, b][..1] == [a] && [a][..0] == [];
    MulIdentity(MatrixOf(a.args));
    NextCtm(page, START.gs, a);
    assert ReadPage(r, page, START, [a]) == Read(r, page, START, a);
    NextCtm(page, Read(r, page, START, a).gs, b);
  }

  /** `2 0 0 2 0 0 cm 1 0 0 1 1 0 cm`: the code moves the page by one unit, the standard by two. */
  lemma ScaleThenMovePage(page: Page)
    ensures Run(page, INITIAL, [DOUBLED, MOVED], 0).gs.ctm == Matrix(2.0, 0.0, 0.0, 2.0, 1.0, 0.0)
    ensures ReadPage(Rules(true, false, false), page, START, [DOUBLED, MOVED]).gs.ctm
         == Matrix(2.0, 0.0, 0.0, 2.0, 2.0, 0.0)
  {
    hide Run, ReadPage, Mul, MatrixOf;
    CmValues();
    CodeReadsAsWalker(page, [DOUBLED, MOVED], 0);
    TwoMatrixOps(CODE, page, DOUBLED, MOVED);
    TwoMatrixOps(Rules(true, false, false), page, DOUBLED, MOVED);
    TwoMatrices(MatrixOf(DOUBLED.args), MatrixOf(MOVED.args));
    ScaleThenMove(2.0, 1.0, 0.0);
  }

  lemma CmValues()
    ensures MatrixOf(DOUBLED.args) == Matrix(2.0, 0.0, 0.0, 2.0, 0.0, 0.0)
    ensures MatrixOf(MOVED.args) == Translation(1.0, 0.0)
  {
  }

  const SAVE := Instr(Op_q, [])
  const RESTORE := Instr(Op_Q, [])

  function SetFont(font: Operand): Instr {
    Instr(Op_Tf, [font, Int(20)])
  }

  lemma ThreeSteps(r: Rules, page: Page, a: Instr, b: Instr, c: Instr)
    ensures ReadPage(r, page, START, [a, b, c]) == Read(r, page, Read(r, page, Read(r, page, START, a), b), c)
  {
    hide Read;
    assert [a, b, c][..2] == [a, b] && [a, b][..1] == [a] && [a][..0] == [];
    assert ReadPage(r, page, START, [a]) == Read(r, page, START, a);
    assert ReadPage(r, page, START, [a, b]) == Read(r, page, Read(r, page, START, a), b);
  }

  /** `q /F 20 Tf Q`: the code is left with size 20, the standard with the 12 from before. */
  lemma FontSurvivesRestore(page: Page, font: Operand)
    ensures var prog := [SAVE, SetFont(font), RESTORE];
            && Run(page, INITIAL, prog, 0).text.fontSize == 20.0
            && ReadPage(Rules(false, false, true), page, START, prog).text == INITIAL_TEXT
            && INITIAL_TEXT.fontSize == 12.0
  {
    hide Run, NextGs, NameIn, ReadPage;
    var t := INITIAL_TEXT.(fontName := NameIn(page, font), fontSize := 20.0);
    var f := Frame(INITIAL_GSTATE, ParamsOf(INITIAL_TEXT));
    CodeReadsAsWalker(page, [SAVE, SetFont(font), RESTORE], 0);
    forall r: Rules | !r.matrixOnLeft && !r.moveOnLeft
      ensures ReadPage(r, page, START, [SAVE, SetFont(font), RESTORE])
           == View(INITIAL_GSTATE, if r.savesText then INITIAL_TEXT else t, [])
    {
      ThreeSteps(r, page, SAVE, SetFont(font), RESTORE);
      assert Read(r, page, START, SAVE) == START.(frames := [f]);
      assert Read(r, page, START.(frames := [f]), SetFont(font)) == View(INITIAL_GSTATE, t, [f]) by {
        FontStep(page, INITIAL_GSTATE, INITIAL_TEXT, font);
      }
      assert Read(r, page, View(INITIAL_GSTATE, t, [f]), RESTORE)
          == View(INITIAL_GSTATE, if r.savesText then INITIAL_TEXT else t, []);
    }
  }

  lemma FontStep(page: Page, gs: GState, t: TextState, font: Operand)
    ensures NextGs(page, gs, SetFont(font)) == gs
    ensures NextText(page, t, SetFont(font)) == t.(fontName := NameIn(page, font), fontSize := 20.0)
  {
  }
}
