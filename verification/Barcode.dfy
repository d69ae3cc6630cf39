/** Barcode candidates collected from the paint events of a document, and their quality metrics. */
module Barcode {
  import opened Prelude
  import opened ContentStream

  const MIN_NARROW_STROKES := 20

  /** A bar: its width, and its box when the event has one. */
  datatype Bar = Bar(width: real, bbox: Option<Box>)

  /** The bar a paint event may be: a thin stroke, or a tall and narrow filled rectangle. */
  function BarOf(e: Event, narrow: real): Option<Bar> {
    if !e.PathPainted? then None
    else if e.stroke && 0.0 < e.lineWidth < narrow then Some(Bar(e.lineWidth, e.bbox))
    else if e.fill && !e.stroke && e.bbox.Some? then
      var w, h := e.bbox.value.x1 - e.bbox.value.x0, e.bbox.value.y1 - e.bbox.value.y0;
      if 0.0 < w < narrow && h > w * 3.0 then Some(Bar(w, e.bbox)) else None
    else None
  }

  /** The bars of one page, in order. */
  function BarsOn(events: seq<Event>, narrow: real, page: int): seq<Bar> {
    if events == [] then []
    else
      var e := events[|events| - 1];
      BarsOn(events[..|events| - 1], narrow, page) +
        (if BarOf(e, narrow).Some? && e.page == page then [BarOf(e, narrow).value] else [])
  }

  function Widths(bars: seq<Bar>): (ws: seq<real>)
    ensures |ws| == |bars|
  {
    seq(|bars|, k requires 0 <= k < |bars| => bars[k].width)
  }

  function Union(a: Option<Box>, b: Option<Box>): Option<Box> {
    if a.None? then b
    else if b.None? then a
    else Some(Box(MinR(a.value.x0, b.value.x0), MinR(a.value.y0, b.value.y0),
                  MaxR(a.value.x1, b.value.x1), MaxR(a.value.y1, b.value.y1)))
  }

  /** The union of the boxes of some bars. */
  function Bounds(bars: seq<Bar>): Option<Box> {
    if bars == [] then None else Union(Bounds(bars[..|bars| - 1]), bars[|bars| - 1].bbox)
  }

  /** b holds the box c. */
  predicate Holds(b: Box, c: Box) {
    b.x0 <= c.x0 && b.y0 <= c.y0 && c.x1 <= b.x1 && c.y1 <= b.y1
  }

  ghost predicate HoldsAll(c: Box, bars: seq<Bar>) {
    forall k :: 0 <= k < |bars| && bars[k].bbox.Some? ==> Holds(c, bars[k].bbox.value)
  }

  ghost predicate HasBox(bars: seq<Bar>) {
    exists k :: 0 <= k < |bars| && bars[k].bbox.Some?
  }

  lemma HoldsAllSnoc(c: Box, bars: seq<Bar>)
    requires bars != []
    ensures var n := |bars| - 1;
            HoldsAll(c, bars) <==> HoldsAll(c, bars[..n]) && (bars[n].bbox.Some? ==> Holds(c, bars[n].bbox.value))
  {
    hide Holds;
    forall k | 0 <= k < |bars| - 1 ensures bars[..|bars| - 1][k] == bars[k] {}
  }

  lemma HasBoxSnoc(bars: seq<Bar>)
    requires bars != []
    ensures HasBox(bars) <==> HasBox(bars[..|bars| - 1]) || bars[|bars| - 1].bbox.Some?
  {
    forall k | 0 <= k < |bars| - 1 ensures bars[..|bars| - 1][k] == bars[k] {}
  }

  /** The bounds are the least box over the bars' boxes: a box holds them exactly when it holds every one. */
  lemma {:induction false} BoundsAreUnion(bars: seq<Bar>)
    ensures Bounds(bars).Some? <==> HasBox(bars)
    ensures Bounds(bars).Some? ==> forall c: Box :: Holds(c, Bounds(bars).value) <==> HoldsAll(c, bars)
  {
    if bars != [] {
      var n := |bars| - 1;
      BoundsAreUnion(bars[..n]);
      HasBoxSnoc(bars);
      forall c: Box ensures HoldsAll(c, bars) <==>
        HoldsAll(c, bars[..n]) && (bars[n].bbox.Some? ==> Holds(c, bars[n].bbox.value))
      {
        HoldsAllSnoc(c, bars);
      }
      if Bounds(bars[..n]).None? {
        forall c: Box ensures HoldsAll(c, bars[..n]) {
          NothingToHold(c, bars[..n]);
        }
      }
    }
  }

  lemma NothingToHold(c: Box, bars: seq<Bar>)
    requires !HasBox(bars)
    ensures HoldsAll(c, bars)
  {
  }

  /** One candidate per page; min and max coordinates stay absent until a bar has a box. */
  class BarcodeCandidate {
    const page: int
    var narrowCount: nat
    var widths: seq<real>
    var bounds: Option<Box>

    ghost predicate Shows(bars: seq<Bar>)
      reads this
    {
      narrowCount == |bars| && widths == Widths(bars) && bounds == Bounds(bars)
    }

    constructor (page: int)
      ensures this.page == page && Shows([])
    {
      this.page := page;
      narrowCount, widths, bounds := 0, [], None;
    }

    /** Has bounds of positive width, and fewer than fifteen strokes. */
    predicate HasDefect()
      reads this
    {
      bounds.Some? && bounds.value.x1 - bounds.value.x0 > 0.0 && |widths| < 15
    }

    predicate HasLowModulation()
      reads this
    {
      Modulation(|widths|) < 2.0
    }

    method AddStroke(bar: Bar, ghost bars: seq<Bar>)
      requires Shows(bars)
      modifies this
      ensures Shows(bars + [bar])
    {
      assert (bars + [bar])[..|bars|] == bars;
      narrowCount := narrowCount + 1;
      widths := widths + [bar.width];
      if bar.bbox.Some? {
        bounds := Union(bounds, bar.bbox);
      }
    }
  }

  type Candidates = map<int, BarcodeCandidate>

  /** Every candidate is the only one of its page and shows the bars of that page. */
  ghost predicate Tracked(cs: Candidates, bars: int -> seq<Bar>)
    reads set p | p in cs :: cs[p]
  {
    && (forall p :: p in cs ==> cs[p].page == p && cs[p].Shows(bars(p)))
    && (forall p, q :: p in cs && q in cs && p != q ==> cs[p] != cs[q])
  }

  /** Exactly the pages with bars have a candidate. */
  ghost predicate Collected(cs: Candidates, bars: int -> seq<Bar>)
    reads set p | p in cs :: cs[p]
  {
    Tracked(cs, bars) && forall p :: p in cs <==> bars(p) != []
  }

  /** The bars of every page of an event stream. */
  function AllBars(events: seq<Event>, narrow: real): int -> seq<Bar> {
    p => BarsOn(events, narrow, p)
  }

  lemma BarsSnoc(events: seq<Event>, e: Event, narrow: real, page: int)
    ensures BarsOn(events + [e], narrow, page) == BarsOn(events, narrow, page) +
      (if BarOf(e, narrow).Some? && e.page == page then [BarOf(e, narrow).value] else [])
  {
    assert (events + [e])[..|events|] == events;
  }

  /** Finds or makes the page's candidate. */
  method CandidateFor(cs: Candidates, page: int, ghost bars: int -> seq<Bar>) returns (all: Candidates)
    requires Collected(cs, bars)
    ensures Tracked(all, bars) && all.Keys == cs.Keys + {page}
    ensures forall p :: p in all ==> (p in cs && all[p] == cs[p]) || fresh(all[p])
  {
    hide Bounds, Widths, BarcodeCandidate.Shows;
    all := cs;
    if page !in cs {
      var c := new BarcodeCandidate(page);
      assert bars(page) == [];
      all := cs[page := c];
    }
  }

  method AddBar(cs: Candidates, page: int, bar: Bar, ghost bars: int -> seq<Bar>, ghost more: int -> seq<Bar>)
    returns (all: Candidates)
    requires Collected(cs, bars)
    requires forall p :: more(p) == if p == page then bars(p) + [bar] else bars(p)
    modifies set p | p in cs :: cs[p]
    ensures Collected(all, more)
    ensures forall p :: p in all ==> (p in cs && all[p] == cs[p]) || fresh(all[p])
  {
    hide Bounds, Widths, BarcodeCandidate.Shows;
    all := CandidateFor(cs, page, bars);
    var c := all[page];
    label before:
    c.AddStroke(bar, bars(page));
    forall p | p in all ensures all[p].Shows(more(p)) {
      if p != page {
        assert all[p] != c && old@before(all[p].Shows(bars(p)));
      }
    }
  }

  method Collect(events: seq<Event>, narrow: real) returns (cs: Candidates)
    ensures forall p :: p in cs ==> fresh(cs[p])
    ensures Collected(cs, AllBars(events, narrow))
  {
    cs := map[];
    for k := 0 to |events|
      invariant forall p :: p in cs ==> fresh(cs[p])
      invariant Collected(cs, AllBars(events[..k], narrow))
    {
      hide BarOf, BarsOn, Bounds, Widths, Collected;
      var e := events[k];
      ghost var before, after := AllBars(events[..k], narrow), AllBars(events[..k + 1], narrow);
      assert events[..k] + [e] == events[..k + 1];
      forall p ensures after(p) == before(p) +
        (if BarOf(e, narrow).Some? && e.page == p then [BarOf(e, narrow).value] else [])
      {
        BarsSnoc(events[..k], e, narrow, p);
      }
      var bar := BarOf(e, narrow);
      if bar.Some? {
        cs := AddBar(cs, e.page, bar.value, before, after);
      } else {
        SameBars(cs, before, after);
      }
    }
    assert events[..|events|] == events;
  }

  lemma SameBars(cs: Candidates, a: int -> seq<Bar>, b: int -> seq<Bar>)
    requires Collected(cs, a) && forall p :: b(p) == a(p) + []
    ensures Collected(cs, b)
  {
    forall p ensures b(p) == a(p) {}
  }

  // ---- Metrics --------------------------------------------------------------------------

  function SumR(xs: seq<real>): real {
    if xs == [] then 0.0 else SumR(xs[..|xs| - 1]) + xs[|xs| - 1]
  }

  function SquaredDeviations(xs: seq<real>, mean: real): real {
    if xs == [] then 0.0
    else
      var d := xs[|xs| - 1] - mean;
      SquaredDeviations(xs[..|xs| - 1], mean) + d * d
  }

  /** From the coefficient of variation of the widths, clamped to 0 to 4. */
  function Contrast(sqrt: real -> real, ws: seq<real>): real {
    if ws == [] then 0.0
    else
      var n := |ws| as real;
      var mean := SumR(ws) / n;
      if mean > 0.0 then
        var cv := sqrt(SquaredDeviations(ws, mean) / n) / mean;
        MaxR(0.0, MinR(4.0, 4.0 * (1.0 - cv)))
      else 0.0
  }

  function Modulation(count: nat): real {
    if count >= 60 then 4.0
    else if count >= 40 then 3.0
    else if count >= 20 then 2.0
    else if count >= 10 then 1.0
    else 0.0
  }

  function Decodability(sqrt: real -> real, ws: seq<real>): real {
    (Contrast(sqrt, ws) + Modulation(|ws|)) / 2.0
  }

  function Overall(sqrt: real -> real, ws: seq<real>): real {
    MinR(MinR(Contrast(sqrt, ws), Modulation(|ws|)), Decodability(sqrt, ws))
  }

  /** The third metric never decides: the overall score is the smaller of contrast and modulation. */
  lemma OverallIsMinOfTwo(sqrt: real -> real, ws: seq<real>)
    ensures Overall(sqrt, ws) == MinR(Contrast(sqrt, ws), Modulation(|ws|))
    ensures 0.0 <= Overall(sqrt, ws) <= 4.0
  {
  }

  datatype Grade = A | B | C | D | F

  function GradeOf(score: real): Grade {
    if score >= 3.5 then A
    else if score >= 2.5 then B
    else if score >= 1.5 then C
    else if score >= 0.5 then D
    else F
  }

  predicate NoBetter(g: Grade, h: Grade) {
    h.A? || g == h || g.F? || (h.B? && !g.A?) || (h.C? && g.D?)
  }

  /** The overall grade is the worse of the grades of contrast and modulation. */
  lemma OverallGradeIsWorse(sqrt: real -> real, ws: seq<real>)
    ensures var g, c, m := GradeOf(Overall(sqrt, ws)), GradeOf(Contrast(sqrt, ws)), GradeOf(Modulation(|ws|));
            NoBetter(g, c) && NoBetter(g, m) && (g == c || g == m)
  {
    hide Contrast, Overall;
    OverallIsMinOfTwo(sqrt, ws);
  }

  // ---- Barcode pages and the findings about them ----------------------------------------

  /** The page has a candidate, with enough bars to count as a barcode. */
  predicate IsBarcodePage(events: seq<Event>, narrow: real, least: nat, page: int) {
    BarsOn(events, narrow, page) != [] && |BarsOn(events, narrow, page)| >= least
  }

  /** Too few strokes over a positive width. */
  predicate Finding011(bars: seq<Bar>) {
    Bounds(bars).Some? && Bounds(bars).value.x1 - Bounds(bars).value.x0 > 0.0 && |bars| < 15
  }

  /** Modulation below grade C. */
  predicate Finding012(bars: seq<Bar>) {
    Modulation(|bars|) < 2.0
  }

  predicate Increasing(pages: seq<int>) {
    forall j, k :: 0 <= j < k < |pages| ==> pages[j] < pages[k]
  }

  lemma NoMembers(keys: set<int>)
    requires forall p :: p !in keys
    ensures |keys| == 0
  {
    var none: set<int> := {};
    assert forall p :: p in keys <==> p in none;
    assert keys == none;
  }

  lemma HasMember(keys: set<int>)
    requires keys != {}
    ensures exists p :: p in keys
  {
    if forall p :: p !in keys {
      NoMembers(keys);
    }
  }

  method LeastOf(keys: set<int>) returns (m: int)
    requires keys != {}
    ensures m in keys && forall p :: p in keys ==> m <= p
  {
    HasMember(keys);
    m :| m in keys;
    var rest := keys - {m};
    while rest != {}
      invariant m in keys && rest <= keys
      invariant forall p :: p in keys && p !in rest ==> m <= p
      decreases |rest|
    {
      HasMember(rest);
      var p :| p in rest;
      if p < m {
        m := p;
      }
      rest := rest - {p};
    }
  }

  /** `sorted` on the keys of a dictionary. */
  method Sorted(keys: set<int>) returns (pages: seq<int>)
    ensures Increasing(pages) && forall p :: p in pages <==> p in keys
  {
    pages := [];
    var rest := keys;
    while rest != {}
      invariant rest <= keys && Increasing(pages)
      invariant forall p :: p in pages <==> p in keys && p !in rest
      invariant forall k, p :: 0 <= k < |pages| && p in rest ==> pages[k] < p
      decreases |rest|
    {
      var p := LeastOf(rest);
      pages := pages + [p];
      rest := rest - {p};
    }
  }

  function PagesOf(cands: seq<BarcodeCandidate>): (pages: seq<int>)
    ensures |pages| == |cands|
  {
    seq(|cands|, k requires 0 <= k < |cands| => cands[k].page)
  }

  /** The candidates with enough strokes, in page order: each is the one its page has in the map. */
  method BarcodePages(cs: Candidates, least: nat) returns (cands: seq<BarcodeCandidate>)
    requires forall p :: p in cs ==> cs[p].page == p
    ensures Increasing(PagesOf(cands))
    ensures forall c :: c in cands <==> c.page in cs && cs[c.page] == c && c.narrowCount >= least
  {
    var pages := Sorted(cs.Keys);
    cands := [];
    for k := 0 to |pages|
      invariant Increasing(PagesOf(cands))
      invariant forall j, i :: 0 <= j < |cands| && k <= i < |pages| ==> cands[j].page < pages[i]
      invariant forall c :: c in cands <==> c.page in pages[..k] && cs[c.page] == c && c.narrowCount >= least
    {
      assert pages[k] in pages;
      var c := cs[pages[k]];
      ghost var before := PagesOf(cands);
      assert pages[..k + 1] == pages[..k] + [pages[k]];
      if c.narrowCount >= least {
        cands := cands + [c];
        assert PagesOf(cands) == before + [c.page];
      }
    }
    assert pages[..|pages|] == pages;
  }

  function Occurrences(pages: seq<int>, page: int): nat {
    if pages == [] then 0
    else Occurrences(pages[..|pages| - 1], page) + (if pages[|pages| - 1] == page then 1 else 0)
  }

  /** The dictionary of candidates per page. */
  method CountPages(cands: seq<BarcodeCandidate>) returns (counts: map<int, nat>)
    ensures forall p :: p in counts <==> p in PagesOf(cands)
    ensures forall p :: p in counts ==> counts[p] == Occurrences(PagesOf(cands), p)
  {
    counts := map[];
    for k := 0 to |cands|
      invariant forall p :: p in counts <==> p in PagesOf(cands[..k])
      invariant forall p :: (if p in counts then counts[p] else 0) == Occurrences(PagesOf(cands[..k]), p)
    {
      var c := cands[k];
      PagesSnoc(cands, k);
      counts := counts[c.page := (if c.page in counts then counts[c.page] else 0) + 1];
    }
    assert cands[..|cands|] == cands;
  }

  lemma PagesSnoc(cands: seq<BarcodeCandidate>, k: nat)
    requires k < |cands|
    ensures var before := PagesOf(cands[..k]);
            && PagesOf(cands[..k + 1]) == before + [cands[k].page]
            && forall p :: Occurrences(before + [cands[k].page], p)
                 == Occurrences(before, p) + (if cands[k].page == p then 1 else 0)
  {
    var before := PagesOf(cands[..k]);
    assert PagesOf(cands[..k + 1]) == before + [cands[k].page];
    assert (before + [cands[k].page])[..k] == before;
  }

  lemma {:induction false} OccursAtMostOnce(pages: seq<int>, p: int)
    requires Increasing(pages)
    ensures Occurrences(pages, p) <= 1
    ensures Occurrences(pages, p) == 1 <==> p in pages
  {
    if pages != [] {
      var n := |pages| - 1;
      OccursAtMostOnce(pages[..n], p);
      assert pages == pages[..n] + [pages[n]];
      if p in pages[..n] {
        var k :| 0 <= k < n && pages[..n][k] == p;
        assert pages[k] == p && pages[k] < pages[n];
      }
    }
  }

  /** LPDF_BARCODE_011, 012 and 027. */
  datatype Finding = Defect(page: int) | LowModulation(page: int) | SeveralOn(page: int)

  /** The part of the quality pass that raises the three findings. */
  method Quality(cands: seq<BarcodeCandidate>) returns (found: seq<Finding>)
    ensures forall p :: Defect(p) in found <==> exists c :: c in cands && c.page == p && c.HasDefect()
    ensures forall p :: LowModulation(p) in found <==> exists c :: c in cands && c.page == p && c.HasLowModulation()
    ensures forall p :: SeveralOn(p) in found <==> Occurrences(PagesOf(cands), p) > 1
  {
    found := [];
    for k := 0 to |cands|
      invariant forall p :: Defect(p) in found <==> exists c :: c in cands[..k] && c.page == p && c.HasDefect()
      invariant forall p ::
        LowModulation(p) in found <==> exists c :: c in cands[..k] && c.page == p && c.HasLowModulation()
      invariant forall p :: SeveralOn(p) !in found
    {
      var c := cands[k];
      assert cands[..k + 1] == cands[..k] + [c];
      if c.HasDefect() {
        found := found + [Defect(c.page)];
      }
      if c.HasLowModulation() {
        found := found + [LowModulation(c.page)];
      }
    }
    assert cands[..|cands|] == cands;
    var counts := CountPages(cands);
    var repeated := SeveralFindings(counts);
    forall p ensures SeveralOn(p) in repeated <==> Occurrences(PagesOf(cands), p) > 1 {
      NotThere(PagesOf(cands), p);
    }
    found := found + repeated;
  }

  /** One finding for each page counted more than once. */
  method SeveralFindings(counts: map<int, nat>) returns (found: seq<Finding>)
    ensures forall f :: f in found <==> f.SeveralOn? && f.page in counts && counts[f.page] > 1
  {
    found := [];
    var rest := counts.Keys;
    while rest != {}
      invariant rest <= counts.Keys
      invariant forall f :: f in found <==> f.SeveralOn? && f.page in counts && f.page !in rest && counts[f.page] > 1
      decreases |rest|
    {
      HasMember(rest);
      var p :| p in rest;
      if counts[p] > 1 {
        found := found + [SeveralOn(p)];
      }
      rest := rest - {p};
    }
  }

  lemma {:induction false} NotThere(pages: seq<int>, p: int)
    ensures p !in pages ==> Occurrences(pages, p) == 0
  {
    if pages != [] {
      NotThere(pages[..|pages| - 1], p);
      assert pages == pages[..|pages| - 1] + [pages[|pages| - 1]];
    }
  }

  /** From the events to the three findings: 011 and 012 appear exactly on the barcode pages whose bars deserve them,
      and 027 on none, because a page has one candidate in the map. */
  method Analyze(events: seq<Event>, narrow: real, least: nat) returns (pages: seq<int>, found: seq<Finding>)
    ensures Increasing(pages) && forall p :: p in pages <==> IsBarcodePage(events, narrow, least, p)
    ensures forall p :: Defect(p) in found <==> p in pages && Finding011(BarsOn(events, narrow, p))
    ensures forall p :: LowModulation(p) in found <==> p in pages && Finding012(BarsOn(events, narrow, p))
    ensures forall p :: SeveralOn(p) !in found
  {
    hide BarsOn, Bounds, Occurrences;
    var cs := Collect(events, narrow);
    var cands := BarcodePages(cs, least);
    pages := PagesOf(cands);
    forall c | c in cands
      ensures c.HasDefect() == Finding011(BarsOn(events, narrow, c.page))
      ensures c.HasLowModulation() == Finding012(BarsOn(events, narrow, c.page))
    {
      assert cs[c.page].Shows(AllBars(events, narrow)(c.page));
    }
    forall p ensures p in pages <==> p in cs && cs[p] in cands {
      if p in pages {
        var k :| 0 <= k < |pages| && pages[k] == p;
        assert cands[k] in cands && cands[k].page == p;
      }
      if p in cs && cs[p] in cands {
        var k :| 0 <= k < |cands| && cands[k] == cs[p];
        assert pages[k] == p;
      }
    }
    forall p ensures p in pages <==> IsBarcodePage(events, narrow, least, p) {
      if p in cs {
        assert cs[p].Shows(AllBars(events, narrow)(p));
      }
    }
    found := Quality(cands);
    forall p ensures Occurrences(pages, p) <= 1 {
      OccursAtMostOnce(pages, p);
    }
  }

  // ---- When they can appear at all ------------------------------------------------------

  /** Some event stream has a barcode page with a defect finding. */
  ghost predicate DefectReachable(narrow: real, least: nat) {
    exists events: seq<Event>, page: int ::
      IsBarcodePage(events, narrow, least, page) && Finding011(BarsOn(events, narrow, page))
  }

  /** Some event stream has a barcode page with a modulation finding. */
  ghost predicate ModulationReachable(narrow: real, least: nat) {
    exists events: seq<Event>, page: int ::
      IsBarcodePage(events, narrow, least, page) && Finding012(BarsOn(events, narrow, page))
  }

  /** Nothing is narrower than a width that is not positive. */
  lemma {:induction false} NoBars(events: seq<Event>, narrow: real, page: int)
    requires narrow <= 0.0
    ensures BarsOn(events, narrow, page) == []
  {
    if events != [] {
      NoBars(events[..|events| - 1], narrow, page);
    }
  }

  function Repeat(e: Event, n: nat): seq<Event> {
    if n == 0 then [] else Repeat(e, n - 1) + [e]
  }

  /** Painting one bar n times gives n bars, bounded by its own box. */
  lemma {:induction false} BarsOfRepeat(e: Event, n: nat, narrow: real)
    requires BarOf(e, narrow).Some?
    ensures var bars := BarsOn(Repeat(e, n), narrow, e.page);
            |bars| == n && (n > 0 ==> Bounds(bars) == BarOf(e, narrow).value.bbox)
  {
    hide BarOf;
    if n > 0 {
      BarsOfRepeat(e, n - 1, narrow);
      BarsSnoc(Repeat(e, n - 1), e, narrow, e.page);
      var bars := BarsOn(Repeat(e, n), narrow, e.page);
      assert bars[..n - 1] == BarsOn(Repeat(e, n - 1), narrow, e.page);
    }
  }

  /** A filled rectangle half the limit wide and twice the limit high. */
  function ThinBar(narrow: real): Event {
    PathPainted("f", 1, 0, true, false, false, "DeviceGray", BLACK, "", [],
      1.0, 0, 0, Dash([], 0.0), 4, Some(Box(0.0, 0.0, narrow / 2.0, narrow * 2.0)))
  }

  /** A barcode page with no more bars than the threshold asks for. */
  lemma ThinBarPage(narrow: real, least: nat) returns (events: seq<Event>)
    requires narrow > 0.0
    ensures var bars := BarsOn(events, narrow, 1);
            && IsBarcodePage(events, narrow, least, 1)
            && |bars| == MaxI(1, least) && Bounds(bars) == ThinBar(narrow).bbox
  {
    events := Repeat(ThinBar(narrow), MaxI(1, least));
    assert BarOf(ThinBar(narrow), narrow) == Some(Bar(narrow / 2.0, ThinBar(narrow).bbox));
    BarsOfRepeat(ThinBar(narrow), MaxI(1, least), narrow);
  }

  /** LPDF_BARCODE_011 can be raised exactly when the threshold for a barcode is below fifteen bars. */
  lemma DefectReachableIff(narrow: real, least: nat)
    ensures DefectReachable(narrow, least) <==> narrow > 0.0 && least < 15
  {
    if narrow <= 0.0 {
      forall events, page ensures BarsOn(events, narrow, page) == [] {
        NoBars(events, narrow, page);
      }
    } else if least < 15 {
      var events := ThinBarPage(narrow, least);
      assert Finding011(BarsOn(events, narrow, 1));
    }
  }

  /** LPDF_BARCODE_012 can be raised exactly when that threshold is below twenty; it is twenty by default. */
  lemma ModulationReachableIff(narrow: real, least: nat)
    ensures ModulationReachable(narrow, least) <==> narrow > 0.0 && least < MIN_NARROW_STROKES
  {
    if narrow <= 0.0 {
      forall events, page ensures BarsOn(events, narrow, page) == [] {
        NoBars(events, narrow, page);
      }
    } else if least < MIN_NARROW_STROKES {
      var events := ThinBarPage(narrow, least);
      assert Finding012(BarsOn(events, narrow, 1));
    }
  }
}
