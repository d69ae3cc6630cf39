/** The operator groups of the dispatch, and which components of the state each group can touch. */
module OperatorGroups {
  import opened ContentStream

  predicate IsGraphics(op: Operator) {
    op.Op_cm? || op.Op_w? || op.Op_J? || op.Op_j? || op.Op_d? || op.Op_gs?
  }

  predicate IsColour(op: Operator) {
    op.Op_g? || op.Op_G? || op.Op_rg? || op.Op_RG? || op.Op_k? || op.Op_K? ||
    op.Op_cs? || op.Op_CS? || op.Op_sc? || op.Op_scn? || op.Op_SC? || op.Op_SCN?
  }

  predicate IsPath(op: Operator) {
    op.Op_m? || op.Op_l? || op.Op_c? || op.Op_v? || op.Op_y? || op.Op_re? || op.Op_h?
  }

  predicate IsPlacement(op: Operator) {
    op.Op_BT? || op.Op_ET? || op.Op_Tm? || op.Op_Td? || op.Op_TD? || op.Op_TStar?
  }

  predicate IsTextParameter(op: Operator) {
    op.Op_Tf? || op.Op_TL? || op.Op_Tr?
  }

  predicate IsShow(op: Operator) {
    op.Op_Tj? || op.Op_TJ? || op.Op_Quote? || op.Op_DoubleQuote?
  }

  lemma SaveStep(page: Page, s: State, i: Instr, index: int)
    requires i.op.Op_q?
    ensures Step(page, s, i, index) == s.(stack := s.stack + [s.gs])
  {
  }

  lemma RestoreStep(page: Page, s: State, i: Instr, index: int)
    requires i.op.Op_Q?
    ensures Step(page, s, i, index) ==
      if s.stack == [] then s
      else s.(gs := s.stack[|s.stack| - 1], stack := s.stack[..|s.stack| - 1])
  {
  }

  lemma GraphicsStep(page: Page, s: State, i: Instr, index: int)
    requires IsGraphics(i.op)
    ensures var gs := NextGs(page, s.gs, i);
      Step(page, s, i, index) == s.(gs := gs, events := s.events +
        if i.op.Op_gs? && |i.args| > 0 && SetsOverprint(ExtGStateNamed(page, i.args[0]))
        then [OverprintChanged(page.num, index, gs.opStroking, gs.opNonStroking, gs.opm)] else [])
  {
    hide NextGs, ExtGStateNamed, SetsOverprint;
  }

  lemma ColourStep(page: Page, s: State, i: Instr, index: int)
    requires IsColour(i.op)
    ensures var gs := NextGs(page, s.gs, i);
      Step(page, s, i, index) == s.(gs := gs, events := s.events +
        if SetsFill(i) then [ColorChanged(page.num, index, i.op, gs.fillCs, gs.fillVals, false)]
        else if SetsStroke(i) then [ColorChanged(page.num, index, i.op, gs.strokeCs, gs.strokeVals, true)]
        else [])
  {
    hide NextGs;
  }

  lemma PathStep(page: Page, s: State, i: Instr, index: int)
    requires IsPath(i.op)
    ensures Step(page, s, i, index) == s.(path := Built(s.gs.ctm, s.path, i))
  {
  }

  lemma PaintStep(page: Page, s: State, i: Instr, index: int)
    requires Paints(i.op) || i.op.Op_n?
    ensures Step(page, s, i, index) == s.(path := EMPTY_PATH, events := s.events +
        if Paints(i.op) then [PaintEvent(page, s.gs, Built(s.gs.ctm, s.path, i), i.op, index)] else [])
  {
  }

  lemma PlacementStep(page: Page, s: State, i: Instr, index: int)
    requires IsPlacement(i.op)
    ensures Step(page, s, i, index) == s.(text := NextText(page, s.text, i))
  {
    hide NextText;
  }

  lemma TextParameterStep(page: Page, s: State, i: Instr, index: int)
    requires IsTextParameter(i.op)
    ensures Step(page, s, i, index) == s.(text := NextText(page, s.text, i))
  {
    hide NextText;
  }

  lemma ShowStep(page: Page, s: State, i: Instr, index: int)
    requires IsShow(i.op)
    ensures var t := NextText(page, s.text, i);
      Step(page, s, i, index) == s.(text := t, events := s.events + TextEvents(page, s.gs, t, i, index))
  {
  }

  lemma OtherStep(page: Page, s: State, i: Instr, index: int)
    requires i.op.Op_Other?
    ensures Step(page, s, i, index) == s
  {
  }
}
