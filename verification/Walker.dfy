/** The walker of one page's content stream: mutable fields, one method per operator group. */
module Walker {
  import opened Prelude
  import opened Affine
  import opened ContentStream
  import opened OperatorGroups

  class PageWalker {
    const page: Page
    var events: seq<Event>
    var ctm: Matrix
    var gsStack: seq<GState>
    var lineWidth: real
    var lineCap: int
    var lineJoin: int
    var dashPattern: Dash
    var strokeCs: string
    var strokeVals: seq<real>
    var fillCs: string
    var fillVals: seq<real>
    var strokeOpacity: real
    var fillOpacity: real
    var opStroking: bool
    var opNonStroking: bool
    var opm: int
    var pathPts: seq<Point>
    var pathStart: Option<Point>
    var inText: bool
    var fontName: string
    var fontSize: real
    var textMatrix: Matrix
    var textLineMatrix: Matrix
    var textLeading: real
    var renderingMode: int

    /** The fourteen fields that `Save` puts on the stack. */
    function Gs(): GState
      reads `ctm, `lineWidth, `lineCap, `lineJoin, `dashPattern, `strokeCs, `strokeVals,
        `fillCs, `fillVals, `strokeOpacity, `fillOpacity, `opStroking, `opNonStroking, `opm
    {
      GState(ctm, lineWidth, lineCap, lineJoin, dashPattern, strokeCs, strokeVals, fillCs, fillVals,
        strokeOpacity, fillOpacity, opStroking, opNonStroking, opm)
    }

    function PathState(): Path
      reads `pathPts, `pathStart
    {
      Path(pathPts, pathStart)
    }

    function TextFields(): TextState
      reads `inText, `fontName, `fontSize, `textMatrix, `textLineMatrix, `textLeading, `renderingMode
    {
      TextState(inText, fontName, fontSize, textMatrix, textLineMatrix, textLeading, renderingMode)
    }

    function Abs(): State
      reads this
    {
      State(Gs(), gsStack, PathState(), TextFields(), events)
    }

    constructor (page: Page)
      ensures this.page == page
      ensures Abs() == INITIAL
    {
      this.page := page;
      events := [];
      ctm, gsStack := IDENTITY, [];
      lineWidth, lineCap, lineJoin, dashPattern := 1.0, 0, 0, Dash([], 0.0);
      strokeCs, strokeVals := "DeviceGray", BLACK;
      fillCs, fillVals := "DeviceGray", BLACK;
      strokeOpacity, fillOpacity := 1.0, 1.0;
      opStroking, opNonStroking, opm := false, false, 0;
      pathPts, pathStart := [], None;
      inText, fontName, fontSize := false, "", 12.0;
      textMatrix, textLineMatrix, textLeading, renderingMode := IDENTITY, IDENTITY, 0.0, 0;
    }

    method Walk(prog: seq<Instr>)
      modifies this
      ensures Abs() == Run(page, old(Abs()), prog, 0)
    {
      for k := 0 to |prog|
        invariant Abs() == Run(page, old(Abs()), prog[..k], 0)
      {
        Op(prog[k], k);
        assert prog[..k + 1][..k] == prog[..k];
      }
      assert prog[..|prog|] == prog;
    }

    method Save()
      modifies `gsStack
      ensures gsStack == old(gsStack) + [Gs()]
    {
      gsStack := gsStack + [Gs()];
    }

    method Restore()
      modifies `gsStack, `ctm, `lineWidth, `lineCap, `lineJoin, `dashPattern, `strokeCs, `strokeVals,
        `fillCs, `fillVals, `strokeOpacity, `fillOpacity, `opStroking, `opNonStroking, `opm
      ensures old(gsStack) == [] ==> Gs() == old(Gs()) && gsStack == []
      ensures old(gsStack) != [] ==>
        Gs() == old(gsStack)[|old(gsStack)| - 1] && gsStack == old(gsStack)[..|old(gsStack)| - 1]
    {
      if |gsStack| == 0 {
        return;
      }
      var s := gsStack[|gsStack| - 1];
      gsStack := gsStack[..|gsStack| - 1];
      RestoreLines(s);
      RestoreColours(s);
    }

    method RestoreLines(s: GState)
      modifies `ctm, `lineWidth, `lineCap, `lineJoin, `dashPattern
      ensures ctm == s.ctm && lineWidth == s.lineWidth && lineCap == s.lineCap
      ensures lineJoin == s.lineJoin && dashPattern == s.dash
    {
      ctm := s.ctm;
      lineWidth := s.lineWidth;
      lineCap := s.lineCap;
      lineJoin := s.lineJoin;
      dashPattern := s.dash;
    }

    method RestoreColours(s: GState)
      modifies `strokeCs, `strokeVals, `fillCs, `fillVals, `strokeOpacity, `fillOpacity,
        `opStroking, `opNonStroking, `opm
      ensures strokeCs == s.strokeCs && strokeVals == s.strokeVals && fillCs == s.fillCs && fillVals == s.fillVals
      ensures strokeOpacity == s.strokeOpacity && fillOpacity == s.fillOpacity
      ensures opStroking == s.opStroking && opNonStroking == s.opNonStroking && opm == s.opm
    {
      strokeCs := s.strokeCs;
      strokeVals := s.strokeVals;
      fillCs := s.fillCs;
      fillVals := s.fillVals;
      strokeOpacity := s.strokeOpacity;
      fillOpacity := s.fillOpacity;
      opStroking := s.opStroking;
      opNonStroking := s.opNonStroking;
      opm := s.opm;
    }

    method AddPoint(p: Point)
      modifies `pathPts
      ensures pathPts == old(pathPts) + [Apply(ctm, p)]
    {
      pathPts := pathPts + [Apply(ctm, p)];
    }

    method AddPoints(ps: seq<Point>)
      modifies `pathPts
      ensures pathPts == old(pathPts) + Device(ctm, ps)
    {
      for k := 0 to |ps|
        invariant pathPts == old(pathPts) + Device(ctm, ps[..k])
      {
        AddPoint(ps[k]);
        assert Device(ctm, ps[..k + 1]) == Device(ctm, ps[..k]) + [Apply(ctm, ps[k])];
      }
      assert ps[..|ps|] == ps;
    }

    method ClosePath()
      modifies `pathPts
      ensures pathPts == old(pathPts) + (if pathStart.Some? then [Apply(ctm, pathStart.value)] else [])
    {
      if pathStart.Some? {
        AddPoint(pathStart.value);
      }
    }

    method ClearPath()
      modifies `pathPts, `pathStart
      ensures PathState() == EMPTY_PATH
    {
      pathPts := [];
      pathStart := None;
    }

    method Paint(fill: bool, stroke: bool, evenOdd: bool, index: int)
      modifies `events, `pathPts, `pathStart
      ensures PathState() == EMPTY_PATH
      ensures events == old(events) + [PaintedWith(page, Gs(), old(PathState()), fill, stroke, evenOdd, index)]
    {
      events := events + [PathPainted(PaintLabel(fill, stroke), page.num, index, fill, stroke, evenOdd,
        if fill then fillCs else "", if fill then fillVals else [],
        if stroke then strokeCs else "", if stroke then strokeVals else [],
        EffectiveLineWidth(page.sqrt, lineWidth, ctm), lineCap, lineJoin, dashPattern,
        |pathPts|, BoxOf(pathPts))];
      ClearPath();
    }

    method MoveText(tx: real, ty: real)
      modifies `textMatrix, `textLineMatrix
      ensures TextFields() == Moved(old(TextFields()), tx, ty)
    {
      textLineMatrix := Mul(textLineMatrix, Translation(tx, ty));
      textMatrix := textLineMatrix;
    }

    method EmitColor(op: Operator, index: int, stroking: bool)
      modifies `events
      ensures events == old(events) + [ColorChanged(page.num, index, op,
        if stroking then strokeCs else fillCs, if stroking then strokeVals else fillVals, stroking)]
    {
      var cs := if stroking then strokeCs else fillCs;
      var vals := if stroking then strokeVals else fillVals;
      events := events + [ColorChanged(page.num, index, op, cs, vals, stroking)];
    }

    method EmitText(len: int, index: int, raw: string)
      modifies `events
      ensures events == old(events) + Shown(page, Gs(), TextFields(), len, raw, index)
    {
      if !inText || fontSize <= 0.0 {
        return;
      }
      events := events + [TextRendered(page.num, index, fontName, fontSize, ctm, textMatrix,
        fillCs, fillVals, fillOpacity, renderingMode, TextBox(Gs(), TextFields(), len), raw)];
    }

    /** The dispatch: one operator of the stream. */
    method Op(i: Instr, index: int)
      modifies this
      ensures Abs() == Step(page, old(Abs()), i, index)
    {
      hide Step;
      if i.op.Op_q? {
        SaveOp(i, index);
      } else if i.op.Op_Q? {
        RestoreOp(i, index);
      } else if IsGraphics(i.op) || IsColour(i.op) {
        StateOp(i, index);
      } else if IsPath(i.op) || Paints(i.op) || i.op.Op_n? {
        PathOrPaintOp(i, index);
      } else if IsPlacement(i.op) || IsTextParameter(i.op) || IsShow(i.op) {
        TextOrShowOp(i, index);
      } else {
        OtherStep(page, Abs(), i, index);
      }
    }

    method SaveOp(i: Instr, index: int)
      requires i.op.Op_q?
      modifies this
      ensures Abs() == Step(page, old(Abs()), i, index)
    {
      hide Step;
      SaveStep(page, Abs(), i, index);
      Save();
    }

    method RestoreOp(i: Instr, index: int)
      requires i.op.Op_Q?
      modifies this
      ensures Abs() == Step(page, old(Abs()), i, index)
    {
      hide Step;
      RestoreStep(page, Abs(), i, index);
      Restore();
    }

    method StateOp(i: Instr, index: int)
      requires IsGraphics(i.op) || IsColour(i.op)
      modifies this
      ensures Abs() == Step(page, old(Abs()), i, index)
    {
      ghost var s := Abs();
      hide Step, NextGs, SetsFill, SetsStroke, SetsOverprint, ExtGStateNamed;
      if IsGraphics(i.op) {
        GraphicsStep(page, s, i, index);
        GraphicsOp(i, index);
      } else {
        ColourStep(page, s, i, index);
        ColourOp(i, index);
      }
    }

    method PathOrPaintOp(i: Instr, index: int)
      requires IsPath(i.op) || Paints(i.op) || i.op.Op_n?
      modifies this
      ensures Abs() == Step(page, old(Abs()), i, index)
    {
      ghost var s := Abs();
      hide Step, Built, PaintEvent;
      if IsPath(i.op) {
        PathStep(page, s, i, index);
        PathOp(i);
      } else {
        PaintStep(page, s, i, index);
        PaintOp(i, index);
      }
    }

    method TextOrShowOp(i: Instr, index: int)
      requires IsPlacement(i.op) || IsTextParameter(i.op) || IsShow(i.op)
      modifies this
      ensures Abs() == Step(page, old(Abs()), i, index)
    {
      ghost var s := Abs();
      hide Step, NextText, TextEvents;
      if IsPlacement(i.op) {
        PlacementStep(page, s, i, index);
        PlacementOp(i);
      } else if IsTextParameter(i.op) {
        TextParameterStep(page, s, i, index);
        TextParameterOp(i);
      } else {
        ShowStep(page, s, i, index);
        ShowOp(i, index);
      }
    }

    method GraphicsOp(i: Instr, index: int)
      requires IsGraphics(i.op)
      modifies `events, `ctm, `lineWidth, `lineCap, `lineJoin, `dashPattern, `strokeCs, `strokeVals,
        `fillCs, `fillVals, `strokeOpacity, `fillOpacity, `opStroking, `opNonStroking, `opm
      ensures Gs() == NextGs(page, old(Gs()), i)
      ensures events == old(events) +
        (if i.op.Op_gs? && |i.args| > 0 && SetsOverprint(ExtGStateNamed(page, i.args[0]))
         then [OverprintChanged(page.num, index, opStroking, opNonStroking, opm)] else [])
    {
      var n := |i.args|;
      match i.op {
        case Op_cm =>
          if n == 6 { ctm := Mul(ctm, MatrixOf(i.args)); }
        case Op_w =>
          if n > 0 { lineWidth := MaxR(0.0, Num(i.args[0])); }
        case Op_J =>
          if n > 0 { lineCap := IntOf(i.args[0]); }
        case Op_j =>
          if n > 0 { lineJoin := IntOf(i.args[0]); }
        case Op_d =>
          if n >= 2 && i.args[0].Array? {
            dashPattern := Dash(Nums(i.args[0].items), Num(i.args[1]));
          }
        case Op_gs =>
          if n > 0 { ApplyExtGState(ExtGStateNamed(page, i.args[0]), index); }
      }
    }

    method ApplyExtGState(e: ExtGState, index: int)
      modifies `lineWidth, `lineCap, `lineJoin, `strokeOpacity, `fillOpacity,
        `opStroking, `opNonStroking, `opm, `events
      ensures Gs() == WithExtGState(old(Gs()), e)
      ensures events == old(events) +
        (if SetsOverprint(e) then [OverprintChanged(page.num, index, opStroking, opNonStroking, opm)] else [])
    {
      ApplyLineEntries(e);
      ApplyAlphaEntries(e);
      ApplyOverprintEntries(e, index);
    }

    method ApplyLineEntries(e: ExtGState)
      modifies `lineWidth, `lineCap, `lineJoin
      ensures lineWidth == if e.lineWidth.Some? then MaxR(0.0, e.lineWidth.value) else old(lineWidth)
      ensures lineCap == GetOr(e.lineCap, old(lineCap)) && lineJoin == GetOr(e.lineJoin, old(lineJoin))
    {
      if e.lineWidth.Some? { lineWidth := MaxR(0.0, e.lineWidth.value); }
      if e.lineCap.Some? { lineCap := e.lineCap.value; }
      if e.lineJoin.Some? { lineJoin := e.lineJoin.value; }
    }

    method ApplyAlphaEntries(e: ExtGState)
      modifies `strokeOpacity, `fillOpacity
      ensures strokeOpacity == GetOr(e.strokeAlpha, old(strokeOpacity))
      ensures fillOpacity == GetOr(e.fillAlpha, old(fillOpacity))
    {
      if e.strokeAlpha.Some? { strokeOpacity := e.strokeAlpha.value; }
      if e.fillAlpha.Some? { fillOpacity := e.fillAlpha.value; }
    }

    method ApplyOverprintEntries(e: ExtGState, index: int)
      modifies `opStroking, `opNonStroking, `opm, `events
      ensures opStroking == GetOr(e.overprintStroke, old(opStroking))
      ensures opNonStroking == GetOr(e.overprintFill, old(opNonStroking))
      ensures opm == GetOr(e.overprintMode, old(opm))
      ensures events == old(events) +
        (if SetsOverprint(e) then [OverprintChanged(page.num, index, opStroking, opNonStroking, opm)] else [])
    {
      if SetsOverprint(e) {
        opStroking := if e.overprintStroke.Some? then e.overprintStroke.value else opStroking;
        opNonStroking := if e.overprintFill.Some? then e.overprintFill.value else opNonStroking;
        opm := if e.overprintMode.Some? then e.overprintMode.value else opm;
        events := events + [OverprintChanged(page.num, index, opStroking, opNonStroking, opm)];
      }
    }

    method ColourOp(i: Instr, index: int)
      requires IsColour(i.op)
      modifies `fillCs, `fillVals, `strokeCs, `strokeVals, `events
      ensures Gs() == NextGs(page, old(Gs()), i)
      ensures events == old(events) +
        (if SetsFill(i) then [ColorChanged(page.num, index, i.op, fillCs, fillVals, false)]
         else if SetsStroke(i) then [ColorChanged(page.num, index, i.op, strokeCs, strokeVals, true)]
         else [])
    {
      hide Nums, PyNums, SpaceNamed, NextGs;
      if i.op.Op_g? || i.op.Op_rg? || i.op.Op_k? || i.op.Op_cs? || i.op.Op_sc? || i.op.Op_scn? {
        FillOp(i, index);
      } else {
        StrokeOp(i, index);
      }
    }

    method FillOp(i: Instr, index: int)
      requires i.op.Op_g? || i.op.Op_rg? || i.op.Op_k? || i.op.Op_cs? || i.op.Op_sc? || i.op.Op_scn?
      modifies `fillCs, `fillVals, `events
      ensures Gs() == NextGs(page, old(Gs()), i)
      ensures events == old(events) +
        (if SetsFill(i) then [ColorChanged(page.num, index, i.op, fillCs, fillVals, false)] else [])
    {
      hide Nums, PyNums, SpaceNamed;
      var n := |i.args|;
      match i.op {
        case Op_g =>
          if n > 0 { SetFill("DeviceGray", Nums(i.args[..1]), i.op, index); }
        case Op_rg =>
          if n >= 3 { SetFill("DeviceRGB", Nums(i.args[..3]), i.op, index); }
        case Op_k =>
          if n >= 4 { SetFill("DeviceCMYK", Nums(i.args[..4]), i.op, index); }
        case Op_cs =>
          if n > 0 { fillCs := SpaceNamed(page, i.args[0]); }
        case Op_sc | Op_scn => SetFill(fillCs, PyNums(i.args), i.op, index);
      }
    }

    method StrokeOp(i: Instr, index: int)
      requires i.op.Op_G? || i.op.Op_RG? || i.op.Op_K? || i.op.Op_CS? || i.op.Op_SC? || i.op.Op_SCN?
      modifies `strokeCs, `strokeVals, `events
      ensures Gs() == NextGs(page, old(Gs()), i)
      ensures events == old(events) +
        (if SetsStroke(i) then [ColorChanged(page.num, index, i.op, strokeCs, strokeVals, true)] else [])
    {
      hide Nums, PyNums, SpaceNamed;
      var n := |i.args|;
      match i.op {
        case Op_G =>
          if n > 0 { SetStroke("DeviceGray", Nums(i.args[..1]), i.op, index); }
        case Op_RG =>
          if n >= 3 { SetStroke("DeviceRGB", Nums(i.args[..3]), i.op, index); }
        case Op_K =>
          if n >= 4 { SetStroke("DeviceCMYK", Nums(i.args[..4]), i.op, index); }
        case Op_CS =>
          if n > 0 { strokeCs := SpaceNamed(page, i.args[0]); }
        case Op_SC | Op_SCN => SetStroke(strokeCs, PyNums(i.args), i.op, index);
      }
    }

    method SetFill(cs: string, vals: seq<real>, op: Operator, index: int)
      modifies `fillCs, `fillVals, `events
      ensures fillCs == cs && fillVals == vals
      ensures events == old(events) + [ColorChanged(page.num, index, op, cs, vals, false)]
    {
      fillCs, fillVals := cs, vals;
      EmitColor(op, index, false);
    }

    method SetStroke(cs: string, vals: seq<real>, op: Operator, index: int)
      modifies `strokeCs, `strokeVals, `events
      ensures strokeCs == cs && strokeVals == vals
      ensures events == old(events) + [ColorChanged(page.num, index, op, cs, vals, true)]
    {
      strokeCs, strokeVals := cs, vals;
      EmitColor(op, index, true);
    }

    method PathOp(i: Instr)
      requires IsPath(i.op)
      modifies `pathPts, `pathStart
      ensures PathState() == Built(ctm, old(PathState()), i)
    {
      var n := |i.args|;
      match i.op {
        case Op_m =>
          if n >= 2 {
            pathStart := Some(PointAt(i.args, 0));
            AddPoint(PointAt(i.args, 0));
          }
        case Op_l =>
          if n >= 2 { AddPoint(PointAt(i.args, 0)); }
        case Op_c =>
          if n >= 6 {
            AddPoints([PointAt(i.args, 0), PointAt(i.args, 2), PointAt(i.args, 4)]);
          }
        case Op_v | Op_y =>
          if n >= 4 {
            AddPoints([PointAt(i.args, 0), PointAt(i.args, 2)]);
          }
        case Op_re =>
          if n >= 4 {
            var p, w, h := PointAt(i.args, 0), Num(i.args[2]), Num(i.args[3]);
            pathStart := Some(p);
            AddPoints([p, Point(p.x + w, p.y), Point(p.x + w, p.y + h), Point(p.x, p.y + h)]);
          }
        case Op_h => ClosePath();
      }
    }

    method PaintOp(i: Instr, index: int)
      requires Paints(i.op) || i.op.Op_n?
      modifies `events, `pathPts, `pathStart
      ensures PathState() == EMPTY_PATH
      ensures events == old(events) +
        (if Paints(i.op) then [PaintEvent(page, Gs(), Built(ctm, old(PathState()), i), i.op, index)] else [])
    {
      hide BoxOf, Apply, EffectiveLineWidth;
      assert Closes(i.op) || Built(ctm, PathState(), i) == PathState();
      match i.op {
        case Op_S => Paint(false, true, false, index);
        case Op_s => ClosingPaint(false, true, false, i, index);
        case Op_f | Op_F => Paint(true, false, false, index);
        case Op_fStar => Paint(true, false, true, index);
        case Op_B => Paint(true, true, false, index);
        case Op_BStar => Paint(true, true, true, index);
        case Op_b => ClosingPaint(true, true, false, i, index);
        case Op_bStar => ClosingPaint(true, true, true, i, index);
        case Op_n => ClearPath();
      }
    }

    method ClosingPaint(fill: bool, stroke: bool, evenOdd: bool, ghost i: Instr, index: int)
      requires Closes(i.op)
      modifies `events, `pathPts, `pathStart
      ensures PathState() == EMPTY_PATH
      ensures events == old(events) +
        [PaintedWith(page, Gs(), Built(ctm, old(PathState()), i), fill, stroke, evenOdd, index)]
    {
      ClosePath();
      assert pathPts == Built(ctm, old(PathState()), i).pts;
      Paint(fill, stroke, evenOdd, index);
    }

    method PlacementOp(i: Instr)
      requires IsPlacement(i.op)
      modifies `inText, `textMatrix, `textLineMatrix, `textLeading
      ensures TextFields() == NextText(page, old(TextFields()), i)
    {
      hide Mul, MatrixOf, Num;
      var n := |i.args|;
      match i.op {
        case Op_BT =>
          inText := true;
          textMatrix := IDENTITY;
          textLineMatrix := IDENTITY;
        case Op_ET => inText := false;
        case Op_Tm =>
          if n >= 6 {
            textMatrix := MatrixOf(i.args);
            textLineMatrix := MatrixOf(i.args);
          }
        case Op_Td =>
          if n >= 2 { MoveText(Num(i.args[0]), Num(i.args[1])); }
        case Op_TD =>
          if n >= 2 {
            var tx, ty := Num(i.args[0]), Num(i.args[1]);
            textLeading := -ty;
            MoveText(tx, ty);
          }
        case Op_TStar => MoveText(0.0, -textLeading);
      }
    }

    method TextParameterOp(i: Instr)
      requires IsTextParameter(i.op)
      modifies `fontName, `fontSize, `textLeading, `renderingMode
      ensures TextFields() == NextText(page, old(TextFields()), i)
    {
      var n := |i.args|;
      match i.op {
        case Op_Tf =>
          if n >= 2 {
            fontName := NameIn(page, i.args[0]);
            fontSize := MaxR(0.0, Num(i.args[1]));
          }
        case Op_TL =>
          if n > 0 { textLeading := Num(i.args[0]); }
        case Op_Tr =>
          if n > 0 { renderingMode := IntOf(i.args[0]); }
      }
    }

    method ShowOp(i: Instr, index: int)
      requires IsShow(i.op)
      modifies `textMatrix, `textLineMatrix, `events
      ensures TextFields() == NextText(page, old(TextFields()), i)
      ensures events == old(events) + TextEvents(page, Gs(), TextFields(), i, index)
    {
      hide Shown, Moved;
      match i.op {
        case Op_Tj => ShowString(i, index);
        case Op_TJ => ShowArray(i, index);
        case Op_Quote | Op_DoubleQuote => NextLineShow(i, index);
      }
    }

    method ShowString(i: Instr, index: int)
      requires i.op.Op_Tj?
      modifies `events
      ensures events == old(events) + TextEvents(page, Gs(), TextFields(), i, index)
    {
      hide Shown;
      if |i.args| > 0 {
        EmitText(page.strLen(i.args[0]), index, page.strVal(i.args[0]));
      }
    }

    method ShowArray(i: Instr, index: int)
      requires i.op.Op_TJ?
      modifies `events
      ensures events == old(events) + TextEvents(page, Gs(), TextFields(), i, index)
    {
      hide Shown, TotalLen, Joined, NonNumbers;
      if |i.args| > 0 {
        if i.args[0].Array? {
          var parts := NonNumbers(i.args[0].items);
          EmitText(MaxI(TotalLen(page, parts), 1), index, Joined(page, parts));
        } else {
          EmitText(1, index, "");
        }
      }
    }

    method NextLineShow(i: Instr, index: int)
      modifies `textMatrix, `textLineMatrix, `events
      ensures TextFields() == Moved(old(TextFields()), 0.0, -old(textLeading))
      ensures var src := if |i.args| > 0 then i.args[|i.args| - 1] else Text("");
        events == old(events) + Shown(page, Gs(), TextFields(), page.strLen(src), page.strVal(src), index)
    {
      hide Shown;
      MoveText(0.0, -textLeading);
      var src := if |i.args| > 0 then i.args[|i.args| - 1] else Text("");
      EmitText(page.strLen(src), index, page.strVal(src));
    }
  }
}
