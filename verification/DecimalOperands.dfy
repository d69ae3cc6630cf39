/** Decimal operands: numbers that `isinstance(v, (int, float))` does not recognise. The general colour operators lose
    them and TJ takes them for text. */
module DecimalOperands {
  import opened Prelude
  import opened ContentStream

  predicate IsNumber(v: Operand) {
    IsPyNumber(v) || v.Decimal?
  }

  predicate NoDecimals(vs: seq<Operand>) {
    forall k :: 0 <= k < |vs| ==> !vs[k].Decimal?
  }

  /** The colour components among some operands: every number, of whatever type. */
  function Components(vs: seq<Operand>): seq<real> {
    if vs == [] then []
    else (if IsNumber(vs[0]) then [Num(vs[0])] else []) + Components(vs[1..])
  }

  /** The strings of a TJ array: its items that are not numbers. */
  function Strings(vs: seq<Operand>): seq<Operand> {
    if vs == [] then []
    else (if IsNumber(vs[0]) then [] else [vs[0]]) + Strings(vs[1..])
  }

  function DecimalCount(vs: seq<Operand>): nat {
    if vs == [] then 0 else (if vs[0].Decimal? then 1 else 0) + DecimalCount(vs[1..])
  }

  lemma {:induction false} NoDecimalsIff(vs: seq<Operand>)
    ensures NoDecimals(vs) <==> DecimalCount(vs) == 0
  {
    if vs != [] {
      NoDecimalsIff(vs[1..]);
      assert vs == [vs[0]] + vs[1..];
    }
  }

  /** The values kept are the components less the decimals, one lost for each. */
  lemma {:induction false} ValuesLost(vs: seq<Operand>)
    ensures |Components(vs)| == |PyNums(vs)| + DecimalCount(vs)
    ensures DecimalCount(vs) == 0 ==> PyNums(vs) == Components(vs)
  {
    if vs != [] {
      ValuesLost(vs[1..]);
    }
  }

  /** `sc` and `scn` set the fill values to the colour components exactly when no operand is a decimal. */
  lemma FillValuesIff(page: Page, gs: GState, i: Instr)
    requires i.op.Op_sc? || i.op.Op_scn?
    ensures NextGs(page, gs, i).fillVals == Components(i.args) <==> NoDecimals(i.args)
  {
    ValuesLost(i.args);
    NoDecimalsIff(i.args);
  }

  /** `SC` and `SCN` do so for the stroke values. */
  lemma StrokeValuesIff(page: Page, gs: GState, i: Instr)
    requires i.op.Op_SC? || i.op.Op_SCN?
    ensures NextGs(page, gs, i).strokeVals == Components(i.args) <==> NoDecimals(i.args)
  {
    ValuesLost(i.args);
    NoDecimalsIff(i.args);
  }

  /** `0.5 sc` with a decimal operand leaves no value at all. */
  lemma GreyIsLost(page: Page, gs: GState)
    ensures NextGs(page, gs, Instr(Op_sc, [Decimal(0.5)])).fillVals == []
    ensures Components([Decimal(0.5)]) == [0.5]
  {
  }

  /** The pieces of text shown are the strings and the decimals, one more for each decimal. */
  lemma {:induction false} PiecesGained(vs: seq<Operand>)
    ensures |NonNumbers(vs)| == |Strings(vs)| + DecimalCount(vs)
    ensures DecimalCount(vs) == 0 ==> NonNumbers(vs) == Strings(vs)
  {
    if vs != [] {
      PiecesGained(vs[1..]);
    }
  }

  /** TJ shows just the strings of its array exactly when the array holds no decimal. */
  lemma ShownPiecesIff(vs: seq<Operand>)
    ensures NonNumbers(vs) == Strings(vs) <==> NoDecimals(vs)
  {
    PiecesGained(vs);
    NoDecimalsIff(vs);
  }

  /** A decimal has at least one digit, so the glyph count is that of the strings exactly in that case too. */
  lemma {:induction false} GlyphsGained(page: Page, vs: seq<Operand>)
    requires forall v: Operand :: v.Decimal? ==> page.strLen(v) >= 1
    ensures TotalLen(page, NonNumbers(vs)) >= TotalLen(page, Strings(vs)) + DecimalCount(vs)
    ensures DecimalCount(vs) == 0 ==> TotalLen(page, NonNumbers(vs)) == TotalLen(page, Strings(vs))
  {
    hide TotalLen;
    if vs != [] {
      GlyphsGained(page, vs[1..]);
      TotalLenCons(page, vs[0], NonNumbers(vs[1..]));
      TotalLenCons(page, vs[0], Strings(vs[1..]));
      assert [] + NonNumbers(vs[1..]) == NonNumbers(vs[1..]) && [] + Strings(vs[1..]) == Strings(vs[1..]);
    }
  }

  lemma TotalLenCons(page: Page, v: Operand, vs: seq<Operand>)
    ensures TotalLen(page, [v] + vs) == page.strLen(v) + TotalLen(page, vs)
  {
    assert ([v] + vs)[1..] == vs;
  }

  /** The glyph count that TJ passes on is at least one, so it is also right when a single printed digit is all there
      is. */
  lemma GlyphCountIff(page: Page, vs: seq<Operand>)
    requires forall v: Operand :: v.Decimal? ==> page.strLen(v) >= 1
    ensures TotalLen(page, NonNumbers(vs)) == TotalLen(page, Strings(vs)) <==> NoDecimals(vs)
    ensures MaxI(TotalLen(page, NonNumbers(vs)), 1) == MaxI(TotalLen(page, Strings(vs)), 1) <==>
      NoDecimals(vs) || TotalLen(page, NonNumbers(vs)) == 1
  {
    GlyphsGained(page, vs);
    NoDecimalsIff(vs);
  }

  /** `[5] TJ` with a decimal of one digit: one glyph with it and one without. */
  lemma OneDigitIsOneGlyph(page: Page)
    requires page.strLen(Decimal(5.0)) == 1
    ensures MaxI(TotalLen(page, NonNumbers([Decimal(5.0)])), 1) == 1 == MaxI(TotalLen(page, Strings([Decimal(5.0)])), 1)
  {
    assert NonNumbers([Decimal(5.0)]) == [Decimal(5.0)] && Strings([Decimal(5.0)]) == [];
  }

  lemma JoinedCons(page: Page, v: Operand, vs: seq<Operand>)
    ensures Joined(page, [v] + vs) == page.strVal(v) + Joined(page, vs)
  {
    assert ([v] + vs)[1..] == vs;
  }

  /** Every decimal adds at least one character to the text. */
  lemma {:induction false} TextGained(page: Page, vs: seq<Operand>)
    requires forall v: Operand :: v.Decimal? ==> page.strVal(v) != ""
    ensures |Joined(page, NonNumbers(vs))| >= |Joined(page, Strings(vs))| + DecimalCount(vs)
  {
    hide Joined;
    if vs != [] {
      TextGained(page, vs[1..]);
      JoinedCons(page, vs[0], NonNumbers(vs[1..]));
      JoinedCons(page, vs[0], Strings(vs[1..]));
      assert [] + NonNumbers(vs[1..]) == NonNumbers(vs[1..]) && [] + Strings(vs[1..]) == Strings(vs[1..]);
      assert vs[0].Decimal? ==> |page.strVal(vs[0])| >= 1;
    }
  }

  /** The event of a TJ on an array carries the text of its strings, and is the event those strings should give,
      exactly when the array holds no decimal. */
  lemma ShownTextIff(page: Page, gs: GState, t: TextState, i: Instr, index: int)
    requires i.op.Op_TJ? && |i.args| > 0 && i.args[0].Array? && t.inText && t.fontSize > 0.0
    requires forall v: Operand :: v.Decimal? ==> page.strVal(v) != ""
    ensures var items := i.args[0].items;
            var es := TextEvents(page, gs, t, i, index);
            var text := Joined(page, Strings(items));
            && |es| == 1 && es[0].TextRendered?
            && (es[0].rawText == text <==> NoDecimals(items))
            && (es == Shown(page, gs, t, MaxI(TotalLen(page, Strings(items)), 1), text, index) <==> NoDecimals(items))
  {
    hide TextBox, Joined, TotalLen, NonNumbers, Strings;
    var items := i.args[0].items;
    TextGained(page, items);
    PiecesGained(items);
    NoDecimalsIff(items);
  }

  /** `[(A) -120.5 (B)] TJ` with a decimal kerning shows three pieces of text, not two. */
  lemma KerningIsShown()
    ensures var a, k, b := Text("A"), Decimal(-120.5), Text("B");
            NonNumbers([a, k, b]) == [a, k, b] && Strings([a, k, b]) == [a, b]
  {
    var a, k, b := Text("A"), Decimal(-120.5), Text("B");
    assert [a, k, b][1..] == [k, b] && [k, b][1..] == [b] && [b][1..] == [];
    assert NonNumbers([b]) == [b] && Strings([b]) == [b];
    assert NonNumbers([k, b]) == [k, b] && Strings([k, b]) == [b];
  }
}
