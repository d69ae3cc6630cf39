/** The event log of a page and of a document: order, positions, and what the paint events say. */
module EventLog {
  import opened Affine
  import opened ContentStream
  import opened GraphicsStack
  import opened Walker

  function PageEvents(page: Page, prog: seq<Instr>): seq<Event> {
    Run(page, INITIAL, prog, 0).events
  }

  lemma LogGrows(page: Page, prog: seq<Instr>)
    requires prog != []
    ensures var n := |prog| - 1;
            var s := Run(page, INITIAL, prog[..n], 0);
            var r := Step(page, s, prog[n], n);
            PageEvents(page, prog) == PageEvents(page, prog[..n])
              + Emitted(page, r.gs, Built(s.gs.ctm, s.path, prog[n]), r.text, prog[n], n)
  {
    hide NextGs, NextText, NextPath, Built, Emitted;
  }

  // ---- Order within a page --------------------------------------------------------------

  /** Events of one page whose indices lie below n and strictly increase. */
  ghost predicate OrderedLog(events: seq<Event>, num: int, n: int) {
    && (forall k :: 0 <= k < |events| ==> events[k].page == num && 0 <= events[k].index < n)
    && (forall j, k :: 0 <= j < k < |events| ==> events[j].index < events[k].index)
  }

  lemma AtMostOneEvent(page: Page, gs: GState, built: Path, t: TextState, i: Instr, index: int)
    ensures var es := Emitted(page, gs, built, t, i, index);
            && |es| <= 1
            && (es != [] ==> es[0].page == page.num && es[0].index == index)
            && (Paints(i.op) ==> es == [PaintEvent(page, gs, built, i.op, index)])
            && (!Paints(i.op) ==> es == [] || !es[0].PathPainted?)
  {
  }

  /** Each operator appends at most one event, stamped with its own position. */
  lemma {:induction false} PageLogIsOrdered(page: Page, prog: seq<Instr>)
    ensures OrderedLog(PageEvents(page, prog), page.num, |prog|)
  {
    hide Step, Emitted, Built;
    if prog != [] {
      var n := |prog| - 1;
      PageLogIsOrdered(page, prog[..n]);
      LogGrows(page, prog);
      var s := Run(page, INITIAL, prog[..n], 0);
      var r := Step(page, s, prog[n], n);
      AtMostOneEvent(page, r.gs, Built(s.gs.ctm, s.path, prog[n]), r.text, prog[n], n);
    }
  }

  // ---- Paint events ---------------------------------------------------------------------

  function PaintsOf(events: seq<Event>): seq<Event> {
    if events == [] then []
    else
      var n := |events| - 1;
      PaintsOf(events[..n]) + (if events[n].PathPainted? then [events[n]] else [])
  }

  lemma {:induction false} PaintsOfAppend(a: seq<Event>, b: seq<Event>)
    requires |b| <= 1
    ensures PaintsOf(a + b) == PaintsOf(a) + PaintsOf(b)
  {
    if b == [] {
      assert a + b == a;
    } else {
      assert (a + b)[..|a|] == a && b[..0] == [];
      assert PaintsOf([]) == [];
    }
  }

  const FILLING: set<Operator> := {Op_f, Op_F, Op_fStar, Op_B, Op_BStar, Op_b, Op_bStar}
  const STROKING: set<Operator> := {Op_S, Op_s, Op_B, Op_BStar, Op_b, Op_bStar}
  const EVEN_ODD: set<Operator> := {Op_fStar, Op_BStar, Op_bStar}
  const CLOSING: set<Operator> := {Op_s, Op_b, Op_bStar}

  lemma PaintingFlags(op: Operator)
    ensures Fills(op) <==> op in FILLING
    ensures Strokes(op) <==> op in STROKING
    ensures EvenOdd(op) <==> op in EVEN_ODD
    ensures Closes(op) <==> op in CLOSING
    ensures Paints(op) <==> op in FILLING || op in STROKING
  {
  }

  /** The line width times the scale of the CTM. */
  function WidthOnPage(page: Page, d: GState): real {
    d.lineWidth * ScaleUniform(page.sqrt, d.ctm)
  }

  /** A paint event field by field. */
  lemma PaintEventIs(page: Page, gs: GState, path: Path, op: Operator, index: int)
    requires Paints(op)
    ensures var fill, stroke := op in FILLING, op in STROKING;
            PaintEvent(page, gs, path, op, index) ==
            PathPainted(if !stroke then "f" else if !fill then "S" else "B", page.num, index, fill, stroke, op in EVEN_ODD,
              if fill then gs.fillCs else "", if fill then gs.fillVals else [],
              if stroke then gs.strokeCs else "", if stroke then gs.strokeVals else [],
              WidthOnPage(page, gs), gs.lineCap, gs.lineJoin, gs.dash,
              |path.pts|, BoxOf(path.pts))
  {
    hide ScaleUniform, BoxOf;
    PaintingFlags(op);
  }

  /** What the painting operator at the end of prog reports: the colours of the sides it paints, line style and width
      left by the operators in force, and the path recorded so far. */
  ghost function ExpectedPaint(page: Page, prog: seq<Instr>, op: Operator, path: Path): Event {
    var d := GsRun(page, INITIAL_GSTATE, LiveNow(prog));
    var fill, stroke := op in FILLING, op in STROKING;
    PathPainted(if !stroke then "f" else if !fill then "S" else "B", page.num, |prog|, fill, stroke, op in EVEN_ODD,
      if fill then d.fillCs else "", if fill then d.fillVals else [],
      if stroke then d.strokeCs else "", if stroke then d.strokeVals else [],
      WidthOnPage(page, d), d.lineCap, d.lineJoin, d.dash, |path.pts|, BoxOf(path.pts))
  }

  lemma PaintIsExpected(page: Page, prog: seq<Instr>, op: Operator, path: Path)
    requires Paints(op)
    ensures PaintEvent(page, GsRun(page, INITIAL_GSTATE, LiveNow(prog)), path, op, |prog|)
         == ExpectedPaint(page, prog, op, path)
  {
    hide PaintEvent, LiveNow, GsRun, WidthOnPage, BoxOf, Paints;
    PaintEventIs(page, GsRun(page, INITIAL_GSTATE, LiveNow(prog)), path, op, |prog|);
  }

  /** One expected event per painting operator, in operator order. */
  ghost function ExpectedPaints(page: Page, prog: seq<Instr>): seq<Event> {
    if prog == [] then []
    else
      var n := |prog| - 1;
      var s := Run(page, INITIAL, prog[..n], 0);
      ExpectedPaints(page, prog[..n]) +
        (if Paints(prog[n].op)
         then [ExpectedPaint(page, prog[..n], prog[n].op, Built(s.gs.ctm, s.path, prog[n]))] else [])
  }

  /** The paint events of a page are exactly the expected ones: one for each painting operator other than
      `n`, and each reports the state left by the operators in force, with no stack in sight. */
  lemma {:induction false} PaintEventsReportLiveState(page: Page, prog: seq<Instr>)
    ensures PaintsOf(PageEvents(page, prog)) == ExpectedPaints(page, prog)
  {
    hide Emitted, Built, PaintEvent, LiveNow, NextGs, NextText, NextPath, StepStack, ExpectedPaint;
    if prog != [] {
      var n := |prog| - 1;
      var i := prog[n];
      PaintEventsReportLiveState(page, prog[..n]);
      LogGrows(page, prog);
      var s := Run(page, INITIAL, prog[..n], 0);
      var r := Step(page, s, i, n);
      var built := Built(s.gs.ctm, s.path, i);
      AtMostOneEvent(page, r.gs, built, r.text, i, n);
      var es := Emitted(page, r.gs, built, r.text, i, n);
      PaintsOfAppend(PageEvents(page, prog[..n]), es);
      assert es != [] ==> es[..0] == [];
      if Paints(i.op) {
        PaintKeepsGs(page, s, i, n);
        StateIsEffectOfLiveOperators(page, prog[..n], 0);
        PaintIsExpected(page, prog[..n], i.op, built);
        assert es[0].PathPainted? by { PaintedIsPaint(page, r.gs, built, i.op, n); }
        assert PaintsOf(es) == es;
      } else {
        assert PaintsOf(es) == [];
      }
    }
  }

  lemma PaintKeepsGs(page: Page, s: State, i: Instr, index: int)
    requires Paints(i.op)
    ensures Step(page, s, i, index).gs == s.gs
  {
    hide Emitted, NextPath, NextText, Built;
  }

  lemma PaintedIsPaint(page: Page, gs: GState, built: Path, op: Operator, index: int)
    ensures PaintEvent(page, gs, built, op, index).PathPainted?
  {
  }

  function Sq(x: real): real {
    x * x
  }

  function MeanSquareScale(m: Matrix): real {
    (m.a * m.a + m.b * m.b + (m.c * m.c + m.d * m.d)) / 2.0
  }

  /** For a square root, the effective width of a stroke is the line width times the root mean square of the
      two axis scales, except that a scale of zero leaves the width as it is. */
  lemma EffectiveWidthSquared(sqrt: real -> real, w: real, m: Matrix)
    requires forall x :: x >= 0.0 ==> sqrt(x) >= 0.0 && sqrt(x) * sqrt(x) == x
    ensures var q := MeanSquareScale(m);
            Sq(EffectiveLineWidth(sqrt, w, m)) == if q == 0.0 then Sq(w) else Sq(w) * q
  {
    var p0, p1 := m.a * m.a + m.b * m.b, m.c * m.c + m.d * m.d;
    SquareIsNonnegative(m.a);
    SquareIsNonnegative(m.b);
    SquareIsNonnegative(m.c);
    SquareIsNonnegative(m.d);
    var sx, sy, q := sqrt(p0), sqrt(p1), MeanSquareScale(m);
    assert sx * sx == p0 && sy * sy == p1;
    assert (sx * sx + sy * sy) / 2.0 == q;
    var r := sqrt(q);
    SquareOfProduct(w, r, q);
    if r > 0.0 {
      PositiveSquare(r, q);
    }
  }

  lemma SquareIsNonnegative(x: real)
    ensures x * x >= 0.0
  {
    if x < 0.0 {
      assert x * x == -x * -x;
    }
  }

  lemma PositiveSquare(r: real, q: real)
    requires r > 0.0 && r * r == q
    ensures q > 0.0
  {
    assert q / r == r;
  }

  lemma SquareOfProduct(w: real, r: real, q: real)
    requires r * r == q
    ensures Sq(w * r) == Sq(w) * q
  {
    assert (w * r) * (w * r) == (w * w) * (r * r);
  }

  // ---- Documents ------------------------------------------------------------------------

  /** A page of the document: its operators, or a failure while it was opened or parsed. */
  datatype PageInput = Readable(page: Page, prog: seq<Instr>) | Broken

  /** The events of the readable pages, in order; page k of the list is numbered k + 1. */
  function DocumentEvents(pages: seq<PageInput>): seq<Event> {
    if pages == [] then []
    else
      var n := |pages| - 1;
      DocumentEvents(pages[..n]) +
        (if pages[n].Broken? then [] else PageEvents(pages[n].page.(num := n + 1), pages[n].prog))
  }

  /** One page walked from the start. */
  method PageLog(page: Page, prog: seq<Instr>) returns (events: seq<Event>)
    ensures events == PageEvents(page, prog)
  {
    hide Run, PageWalker.Gs, PageWalker.PathState, PageWalker.TextFields;
    var walker := new PageWalker(page);
    walker.Walk(prog);
    events := walker.events;
  }

  method Extract(pages: seq<PageInput>) returns (events: seq<Event>)
    ensures events == DocumentEvents(pages)
  {
    events := [];
    for k := 0 to |pages|
      invariant events == DocumentEvents(pages[..k])
    {
      assert pages[..k + 1][..k] == pages[..k];
      match pages[k] {
        case Readable(page, prog) =>
          var found := PageLog(page.(num := k + 1), prog);
          events := events + found;
        case Broken =>
      }
    }
    assert pages[..|pages|] == pages;
  }

  ghost predicate Before(e: Event, f: Event) {
    e.page < f.page || (e.page == f.page && e.index < f.index)
  }

  ghost predicate OrderedDocument(es: seq<Event>, pages: int) {
    && (forall k :: 0 <= k < |es| ==> 1 <= es[k].page <= pages)
    && (forall j, k :: 0 <= j < k < |es| ==> Before(es[j], es[k]))
  }

  lemma AppendPage(es: seq<Event>, page: seq<Event>, n: nat, len: int)
    requires OrderedDocument(es, n) && OrderedLog(page, n + 1, len)
    ensures OrderedDocument(es + page, n + 1)
  {
  }

  /** Over a whole document the log is strictly ordered by page and then by operator position. */
  lemma {:induction false} DocumentLogIsOrdered(pages: seq<PageInput>)
    ensures OrderedDocument(DocumentEvents(pages), |pages|)
  {
    hide PageEvents;
    if pages != [] {
      var n := |pages| - 1;
      DocumentLogIsOrdered(pages[..n]);
      if pages[n].Readable? {
        var page := pages[n].page.(num := n + 1);
        PageLogIsOrdered(page, pages[n].prog);
        AppendPage(DocumentEvents(pages[..n]), PageEvents(page, pages[n].prog), n, |pages[n].prog|);
      }
    }
  }
}
