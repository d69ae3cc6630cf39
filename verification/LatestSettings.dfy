/** The graphics state read off the operators in force: each field is what the latest operator that sets it says, with
    no state carried along. */
module LatestSettings {
  import opened Prelude
  import opened Affine
  import opened ContentStream
  import opened GraphicsStack

  // ---- Operands -------------------------------------------------------------------------

  /** A number is itself whatever its type, and anything else counts as zero. */
  lemma NumberOf(n: int, x: real, name: string, items: seq<Operand>)
    ensures Num(Int(n)) == n as real && Num(Float(x)) == x && Num(Decimal(x)) == x
    ensures Num(Name(name)) == Num(Text(name)) == Num(Array(items)) == 0.0
    ensures IntOf(Int(n)) == n && IntOf(Float(x)) == IntOf(Decimal(x)) == Trunc(x)
    ensures IntOf(Name(name)) == IntOf(Text(name)) == IntOf(Array(items)) == 0
  {
  }

  /** Truncation goes toward zero, by less than one. */
  lemma TruncTowardZero(x: real)
    ensures x >= 0.0 ==> Trunc(x) as real <= x < Trunc(x) as real + 1.0
    ensures x <= 0.0 ==> Trunc(x) as real - 1.0 < x <= Trunc(x) as real
  {
  }

  /** Exactly the leading slashes are taken off. */
  lemma {:induction false} SlashesStripped(s: string)
    ensures var r := StripSlashes(s);
            && |r| <= |s| && s[|s| - |r|..] == r && (r == [] || r[0] != '/')
            && forall k :: 0 <= k < |s| - |r| ==> s[k] == '/'
  {
    if s != [] && s[0] == '/' {
      SlashesStripped(s[1..]);
      assert s == [s[0]] + s[1..];
    }
  }

  /** The dictionary a `gs` operator names, if the page has it. */
  function Entry(page: Page, i: Instr): Option<ExtGState> {
    if i.op.Op_gs? && |i.args| > 0 && StripSlashes(page.str(i.args[0])) in page.extGStates
    then Some(page.extGStates[StripSlashes(page.str(i.args[0]))]) else None
  }

  /** The colour space a `cs` operator names: a spot colour of the page by its colorant, else by its own name. */
  function Named(page: Page, v: Operand): string {
    var name := StripSlashes(page.str(v));
    if name in page.spots then page.spots[name] else name
  }

  function Numbers(vs: seq<Operand>, n: nat): seq<real>
    requires n <= |vs|
  {
    if n == 0 then [] else Numbers(vs, n - 1) + [Num(vs[n - 1])]
  }

  lemma {:induction false} NumsAreNumbers(vs: seq<Operand>, n: nat)
    requires n <= |vs|
    ensures Nums(vs[..n]) == Numbers(vs, n)
  {
    hide Num;
    if n > 0 {
      NumsAreNumbers(vs, n - 1);
      assert vs[..n] == vs[..n - 1] + [vs[n - 1]];
      assert Nums(vs[..n]) == Nums(vs[..n - 1]) + [Num(vs[n - 1])];
    }
  }

  // ---- The latest setting of each field -------------------------------------------------

  /** What one operator sets a field to, or None. */
  function LineWidthSet(page: Page, i: Instr): Option<real> {
    if i.op.Op_w? && |i.args| > 0 then Some(MaxR(0.0, Num(i.args[0])))
    else if Entry(page, i).Some? && Entry(page, i).value.lineWidth.Some? then
      Some(MaxR(0.0, Entry(page, i).value.lineWidth.value))
    else None
  }

  function LineCapSet(page: Page, i: Instr): Option<int> {
    if i.op.Op_J? && |i.args| > 0 then Some(IntOf(i.args[0]))
    else if Entry(page, i).Some? then Entry(page, i).value.lineCap
    else None
  }

  function LineJoinSet(page: Page, i: Instr): Option<int> {
    if i.op.Op_j? && |i.args| > 0 then Some(IntOf(i.args[0]))
    else if Entry(page, i).Some? then Entry(page, i).value.lineJoin
    else None
  }

  function DashSet(i: Instr): Option<Dash> {
    if i.op.Op_d? && |i.args| >= 2 && i.args[0].Array? then
      Some(Dash(Numbers(i.args[0].items, |i.args[0].items|), Num(i.args[1])))
    else None
  }

  function FillSpaceSet(page: Page, i: Instr): Option<string> {
    if i.op.Op_g? && |i.args| >= 1 then Some("DeviceGray")
    else if i.op.Op_rg? && |i.args| >= 3 then Some("DeviceRGB")
    else if i.op.Op_k? && |i.args| >= 4 then Some("DeviceCMYK")
    else if i.op.Op_cs? && |i.args| >= 1 then Some(Named(page, i.args[0]))
    else None
  }

  function StrokeSpaceSet(page: Page, i: Instr): Option<string> {
    if i.op.Op_G? && |i.args| >= 1 then Some("DeviceGray")
    else if i.op.Op_RG? && |i.args| >= 3 then Some("DeviceRGB")
    else if i.op.Op_K? && |i.args| >= 4 then Some("DeviceCMYK")
    else if i.op.Op_CS? && |i.args| >= 1 then Some(Named(page, i.args[0]))
    else None
  }

  function FillValuesSet(i: Instr): Option<seq<real>> {
    if i.op.Op_g? && |i.args| >= 1 then Some(Numbers(i.args, 1))
    else if i.op.Op_rg? && |i.args| >= 3 then Some(Numbers(i.args, 3))
    else if i.op.Op_k? && |i.args| >= 4 then Some(Numbers(i.args, 4))
    else if i.op.Op_sc? || i.op.Op_scn? then Some(PyNums(i.args))
    else None
  }

  function StrokeValuesSet(i: Instr): Option<seq<real>> {
    if i.op.Op_G? && |i.args| >= 1 then Some(Numbers(i.args, 1))
    else if i.op.Op_RG? && |i.args| >= 3 then Some(Numbers(i.args, 3))
    else if i.op.Op_K? && |i.args| >= 4 then Some(Numbers(i.args, 4))
    else if i.op.Op_SC? || i.op.Op_SCN? then Some(PyNums(i.args))
    else None
  }

  function StrokeAlphaSet(page: Page, i: Instr): Option<real> {
    if Entry(page, i).Some? then Entry(page, i).value.strokeAlpha else None
  }

  function FillAlphaSet(page: Page, i: Instr): Option<real> {
    if Entry(page, i).Some? then Entry(page, i).value.fillAlpha else None
  }

  function OverprintStrokeSet(page: Page, i: Instr): Option<bool> {
    if Entry(page, i).Some? then Entry(page, i).value.overprintStroke else None
  }

  function OverprintFillSet(page: Page, i: Instr): Option<bool> {
    if Entry(page, i).Some? then Entry(page, i).value.overprintFill else None
  }

  function OverprintModeSet(page: Page, i: Instr): Option<int> {
    if Entry(page, i).Some? then Entry(page, i).value.overprintMode else None
  }

  /** The latest of the settings that some operators make, or the initial value. */
  function Latest<T>(ops: seq<Instr>, setting: Instr -> Option<T>, initial: T): T {
    if ops == [] then initial
    else if setting(ops[|ops| - 1]).Some? then setting(ops[|ops| - 1]).value
    else Latest(ops[..|ops| - 1], setting, initial)
  }

  /** The fourteen fields as the latest settings among some operators, from black on white and width one. */
  function Declared(page: Page, ops: seq<Instr>): GState {
    GState(
      Product(Deltas(ops)),
      Latest(ops, i => LineWidthSet(page, i), 1.0),
      Latest(ops, i => LineCapSet(page, i), 0),
      Latest(ops, i => LineJoinSet(page, i), 0),
      Latest(ops, DashSet, Dash([], 0.0)),
      Latest(ops, i => StrokeSpaceSet(page, i), "DeviceGray"),
      Latest(ops, StrokeValuesSet, [0.0]),
      Latest(ops, i => FillSpaceSet(page, i), "DeviceGray"),
      Latest(ops, FillValuesSet, [0.0]),
      Latest(ops, i => StrokeAlphaSet(page, i), 1.0),
      Latest(ops, i => FillAlphaSet(page, i), 1.0),
      Latest(ops, i => OverprintStrokeSet(page, i), false),
      Latest(ops, i => OverprintFillSet(page, i), false),
      Latest(ops, i => OverprintModeSet(page, i), 0))
  }

  // ---- The state is the latest settings -------------------------------------------------

  function Or<T>(o: Option<T>, rest: T): T {
    if o.Some? then o.value else rest
  }

  /** What an operator does to each field, in any state. */
  lemma LineWidthStep(page: Page, gs: GState, i: Instr)
    ensures NextGs(page, gs, i).lineWidth == Or(LineWidthSet(page, i), gs.lineWidth)
  {
    hide Num, IntOf, MaxR, Mul, MatrixOf, PyNums, StripSlashes, Numbers, Nums;
    hide SpaceNamed;
  }

  lemma LineEndsStep(page: Page, gs: GState, i: Instr)
    ensures var r := NextGs(page, gs, i);
            && r.lineCap == Or(LineCapSet(page, i), gs.lineCap)
            && r.lineJoin == Or(LineJoinSet(page, i), gs.lineJoin)
  {
    hide Num, IntOf, MaxR, Mul, MatrixOf, PyNums, StripSlashes, Numbers, Nums;
    hide SpaceNamed;
  }

  lemma DashStep(page: Page, gs: GState, i: Instr)
    ensures NextGs(page, gs, i).dash == Or(DashSet(i), gs.dash)
  {
    hide Num, IntOf, MaxR, Mul, MatrixOf, PyNums, StripSlashes, Numbers, Nums;
    hide SpaceNamed, ExtGStateNamed;
    if i.op.Op_d? && |i.args| >= 2 && i.args[0].Array? {
      var items := i.args[0].items;
      NumsAreNumbers(items, |items|);
      assert items[..|items|] == items;
    }
  }

  lemma FillSpaceStep(page: Page, gs: GState, i: Instr)
    ensures NextGs(page, gs, i).fillCs == Or(FillSpaceSet(page, i), gs.fillCs)
  {
    hide Num, IntOf, MaxR, Mul, MatrixOf, PyNums, StripSlashes, Numbers, Nums;
    hide ExtGStateNamed;
  }

  lemma FillValuesStep(page: Page, gs: GState, i: Instr)
    ensures NextGs(page, gs, i).fillVals == Or(FillValuesSet(i), gs.fillVals)
  {
    hide Num, IntOf, MaxR, Mul, MatrixOf, PyNums, StripSlashes, Numbers, Nums;
    hide ExtGStateNamed, SpaceNamed;
    if |i.args| >= 1 { NumsAreNumbers(i.args, 1); }
    if |i.args| >= 3 { NumsAreNumbers(i.args, 3); }
    if |i.args| >= 4 { NumsAreNumbers(i.args, 4); }
  }

  lemma StrokeSpaceStep(page: Page, gs: GState, i: Instr)
    ensures NextGs(page, gs, i).strokeCs == Or(StrokeSpaceSet(page, i), gs.strokeCs)
  {
    hide Num, IntOf, MaxR, Mul, MatrixOf, PyNums, StripSlashes, Numbers, Nums;
    hide ExtGStateNamed;
  }

  lemma StrokeValuesStep(page: Page, gs: GState, i: Instr)
    ensures NextGs(page, gs, i).strokeVals == Or(StrokeValuesSet(i), gs.strokeVals)
  {
    hide Num, IntOf, MaxR, Mul, MatrixOf, PyNums, StripSlashes, Numbers, Nums;
    hide ExtGStateNamed, SpaceNamed;
    if |i.args| >= 1 { NumsAreNumbers(i.args, 1); }
    if |i.args| >= 3 { NumsAreNumbers(i.args, 3); }
    if |i.args| >= 4 { NumsAreNumbers(i.args, 4); }
  }

  lemma AlphaStep(page: Page, gs: GState, i: Instr)
    ensures var r := NextGs(page, gs, i);
            && r.strokeOpacity == Or(StrokeAlphaSet(page, i), gs.strokeOpacity)
            && r.fillOpacity == Or(FillAlphaSet(page, i), gs.fillOpacity)
  {
    hide Num, IntOf, MaxR, Mul, MatrixOf, PyNums, StripSlashes, Numbers, Nums;
    hide SpaceNamed;
  }

  lemma OverprintStep(page: Page, gs: GState, i: Instr)
    ensures var r := NextGs(page, gs, i);
            && r.opStroking == Or(OverprintStrokeSet(page, i), gs.opStroking)
            && r.opNonStroking == Or(OverprintFillSet(page, i), gs.opNonStroking)
            && r.opm == Or(OverprintModeSet(page, i), gs.opm)
  {
    hide Num, IntOf, MaxR, Mul, MatrixOf, PyNums, StripSlashes, Numbers, Nums;
    hide SpaceNamed;
  }

  lemma LatestSnoc<T>(ops: seq<Instr>, i: Instr, setting: Instr -> Option<T>, initial: T)
    ensures Latest(ops + [i], setting, initial) == Or(setting(i), Latest(ops, setting, initial))
  {
    assert (ops + [i])[..|ops|] == ops;
  }

  /** Running some operators with no stack leaves the latest settings among them. */
  lemma {:induction false} RunIsDeclared(page: Page, ops: seq<Instr>)
    ensures GsRun(page, INITIAL_GSTATE, ops) == Declared(page, ops)
  {
    hide NextGs, GsRun, Declared, Or, Product, Deltas, LineWidthSet, LineCapSet, LineJoinSet, DashSet, FillSpaceSet,
      StrokeSpaceSet, FillValuesSet, StrokeValuesSet, StrokeAlphaSet, FillAlphaSet, OverprintStrokeSet,
      OverprintFillSet, OverprintModeSet;
    if ops == [] {
      NothingDeclared(page);
    } else {
      var p, i := ops[..|ops| - 1], ops[|ops| - 1];
      assert ops == p + [i];
      RunIsDeclared(page, p);
      RunUnfolds(page, ops);
      CtmOfGsRun(page, ops);
      var gs := GsRun(page, INITIAL_GSTATE, p);
      LineWidthStep(page, gs, i);
      LineEndsStep(page, gs, i);
      DashStep(page, gs, i);
      FillSpaceStep(page, gs, i);
      FillValuesStep(page, gs, i);
      StrokeSpaceStep(page, gs, i);
      StrokeValuesStep(page, gs, i);
      AlphaStep(page, gs, i);
      OverprintStep(page, gs, i);
      DeclaredSnoc(page, p, i);
    }
  }

  lemma RunUnfolds(page: Page, ops: seq<Instr>)
    requires ops != []
    ensures GsRun(page, INITIAL_GSTATE, ops)
         == NextGs(page, GsRun(page, INITIAL_GSTATE, ops[..|ops| - 1]), ops[|ops| - 1])
  {
  }

  lemma NothingDeclared(page: Page)
    ensures Declared(page, []) == INITIAL_GSTATE == GsRun(page, INITIAL_GSTATE, [])
  {
  }

  lemma DeclaredSnoc(page: Page, ops: seq<Instr>, i: Instr)
    ensures var d, r := Declared(page, ops), Declared(page, ops + [i]);
            && r.ctm == Product(Deltas(ops + [i]))
            && r.lineWidth == Or(LineWidthSet(page, i), d.lineWidth)
            && r.lineCap == Or(LineCapSet(page, i), d.lineCap)
            && r.lineJoin == Or(LineJoinSet(page, i), d.lineJoin)
            && r.dash == Or(DashSet(i), d.dash)
            && r.fillCs == Or(FillSpaceSet(page, i), d.fillCs)
            && r.fillVals == Or(FillValuesSet(i), d.fillVals)
            && r.strokeCs == Or(StrokeSpaceSet(page, i), d.strokeCs)
            && r.strokeVals == Or(StrokeValuesSet(i), d.strokeVals)
            && r.strokeOpacity == Or(StrokeAlphaSet(page, i), d.strokeOpacity)
            && r.fillOpacity == Or(FillAlphaSet(page, i), d.fillOpacity)
            && r.opStroking == Or(OverprintStrokeSet(page, i), d.opStroking)
            && r.opNonStroking == Or(OverprintFillSet(page, i), d.opNonStroking)
            && r.opm == Or(OverprintModeSet(page, i), d.opm)
  {
    hide Latest, Product, Deltas, LineWidthSet, LineCapSet, LineJoinSet, DashSet, FillSpaceSet, StrokeSpaceSet,
      FillValuesSet, StrokeValuesSet, StrokeAlphaSet, FillAlphaSet, OverprintStrokeSet, OverprintFillSet,
      OverprintModeSet;
    LatestSnoc(ops, i, i => LineWidthSet(page, i), 1.0);
    LatestSnoc(ops, i, i => LineCapSet(page, i), 0);
    LatestSnoc(ops, i, i => LineJoinSet(page, i), 0);
    LatestSnoc(ops, i, DashSet, Dash([], 0.0));
    LatestSnoc(ops, i, i => StrokeSpaceSet(page, i), "DeviceGray");
    LatestSnoc(ops, i, StrokeValuesSet, [0.0]);
    LatestSnoc(ops, i, i => FillSpaceSet(page, i), "DeviceGray");
    LatestSnoc(ops, i, FillValuesSet, [0.0]);
    LatestSnoc(ops, i, i => StrokeAlphaSet(page, i), 1.0);
    LatestSnoc(ops, i, i => FillAlphaSet(page, i), 1.0);
    LatestSnoc(ops, i, i => OverprintStrokeSet(page, i), false);
    LatestSnoc(ops, i, i => OverprintFillSet(page, i), false);
    LatestSnoc(ops, i, i => OverprintModeSet(page, i), 0);
  }

  /** In every reachable state all fourteen fields are the latest settings among the operators in force. */
  lemma StateIsLatestSettings(page: Page, prog: seq<Instr>, first: int)
    ensures Run(page, INITIAL, prog, first).gs == Declared(page, LiveNow(prog))
  {
    hide Run, GsRun, Declared, LiveNow;
    StateIsEffectOfLiveOperators(page, prog, first);
    RunIsDeclared(page, LiveNow(prog));
  }
}
