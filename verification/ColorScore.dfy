/** The colour quality score, in tenths of a point. */
module ColorScore {
  import opened Prelude
  import opened SetSums

  datatype Severity = Error | Warning | Advisory

  datatype Finding = Finding(id: string, severity: Severity)

  datatype Category = ColorSpaces | InkCoverage | Profiles | SpotColors | Overprint

  /** One number of tenths per category. */
  datatype PerCategory = PerCategory(colorSpaces: int, inkCoverage: int, profiles: int, spotColors: int, overprint: int)
  {
    function At(c: Category): int {
      match c
      case ColorSpaces => colorSpaces
      case InkCoverage => inkCoverage
      case Profiles => profiles
      case SpotColors => spotColors
      case Overprint => overprint
    }

    function Total(): int {
      colorSpaces + inkCoverage + profiles + spotColors + overprint
    }
  }

  const DEFAULT_WEIGHTS := PerCategory(250, 250, 200, 150, 150)

  const CRITICAL_FLOORS: map<string, nat> := map[
    "LPDF_COLOR_013" := 200, "LPDF_COLOR_006" := 250, "LPDF_ICC_003" := 300, "LPDF_ICC_001" := 300]

  const MAJOR: map<string, nat> := map[
    "LPDF_COLOR_004" := 100, "LPDF_GAMUT_001" := 80, "LPDF_SPOT_001" := 70, "LPDF_SPOT_003" := 50,
    "LPDF_SPOT_002" := 50, "LPDF_SPOT_004" := 100, "LPDF_ICC_003" := 80, "LPDF_ICC_009" := 50]

  const MODERATE: map<string, nat> := map[
    "LPDF_OVER_001" := 30, "LPDF_OVER_002" := 30, "LPDF_OVER_003" := 20, "LPDF_OVER_004" := 50,
    "LPDF_OVER_006" := 50, "LPDF_OVER_008" := 50, "LPDF_ADV_005" := 30, "LPDF_COLOR_008" := 30,
    "LPDF_ADV_001" := 20, "LPDF_COLOR_015" := 20, "LPDF_COLOR_002" := 30, "LPDF_ICC_007" := 30,
    "LPDF_ADV_006" := 30]

  const MINOR: map<string, nat> := map[
    "LPDF_INK_001" := 10, "LPDF_SPOT_006" := 5, "LPDF_ADV_003" := 15, "LPDF_INK_003" := 5,
    "LPDF_COLOR_014" := 0, "LPDF_ICC_008" := 15]

  const PREFIXES: seq<(string, Category)> := [
    ("LPDF_COLOR_", ColorSpaces), ("LPDF_ICC_", Profiles), ("LPDF_SPOT_", SpotColors),
    ("LPDF_OVER_", Overprint), ("LPDF_INK_", InkCoverage), ("LPDF_ADV_", InkCoverage),
    ("LPDF_GAMUT_", Profiles), ("LPDF_STD_", ColorSpaces), ("LPDF_ECG_", ColorSpaces),
    ("LPDF_EPM_", InkCoverage)]

  /** The first prefix that fits decides; colour spaces otherwise. */
  function CategoryIn(prefixes: seq<(string, Category)>, id: string): Category {
    if prefixes == [] then ColorSpaces
    else if prefixes[0].0 <= id then prefixes[0].1
    else CategoryIn(prefixes[1..], id)
  }

  function CategoryOf(id: string): Category {
    CategoryIn(PREFIXES, id)
  }

  predicate HasPrefix(id: string) {
    exists k :: 0 <= k < |PREFIXES| && PREFIXES[k].0 <= id
  }

  predicate IsColor(f: Finding) {
    HasPrefix(f.id)
  }

  predicate Serious(s: Severity) {
    s.Error? || s.Warning?
  }

  /** The deduction of one finding. */
  function Amount(f: Finding): nat {
    if f.id in MAJOR && Serious(f.severity) then MAJOR[f.id]
    else if f.id in MODERATE && Serious(f.severity) then MODERATE[f.id]
    else if f.id in MINOR then MINOR[f.id]
    else 0
  }

  // ---- What a list of colour findings amounts to ----------------------------------------

  function Seen(fs: seq<Finding>): set<string> {
    set f | f in fs :: f.id
  }

  /** The deductions of a category: each check once, by its first finding. */
  function Deducted(fs: seq<Finding>, c: Category): nat {
    if fs == [] then 0
    else
      var n := |fs| - 1;
      Deducted(fs[..n], c) + (if fs[n].id !in Seen(fs[..n]) && CategoryOf(fs[n].id) == c then Amount(fs[n]) else 0)
  }

  function Lower(cap: Option<nat>, f: Finding): Option<nat> {
    if f.id in CRITICAL_FLOORS && f.severity.Error? && (cap.None? || CRITICAL_FLOORS[f.id] < cap.value)
    then Some(CRITICAL_FLOORS[f.id]) else cap
  }

  /** The lowest critical cap hit. */
  function Cap(fs: seq<Finding>): Option<nat> {
    if fs == [] then None else Lower(Cap(fs[..|fs| - 1]), fs[|fs| - 1])
  }

  datatype Detail = Detail(id: string, severity: Severity, deduction: nat, category: Category)

  function Details(fs: seq<Finding>): seq<Detail> {
    if fs == [] then []
    else
      var n := |fs| - 1;
      Details(fs[..n]) +
        (if fs[n].id !in Seen(fs[..n]) && Amount(fs[n]) > 0
         then [Detail(fs[n].id, fs[n].severity, Amount(fs[n]), CategoryOf(fs[n].id))] else [])
  }

  function OnlyColor(fs: seq<Finding>): seq<Finding> {
    if fs == [] then []
    else OnlyColor(fs[..|fs| - 1]) + (if IsColor(fs[|fs| - 1]) then [fs[|fs| - 1]] else [])
  }

  function CategoryScore(weight: int, deducted: int): int {
    weight - MinI(deducted, weight)
  }

  function Breakdown(fs: seq<Finding>, w: PerCategory): PerCategory {
    PerCategory(
      CategoryScore(w.colorSpaces, Deducted(fs, ColorSpaces)),
      CategoryScore(w.inkCoverage, Deducted(fs, InkCoverage)),
      CategoryScore(w.profiles, Deducted(fs, Profiles)),
      CategoryScore(w.spotColors, Deducted(fs, SpotColors)),
      CategoryScore(w.overprint, Deducted(fs, Overprint)))
  }

  function Clamped(total: int, cap: Option<nat>): int {
    var s := MaxI(0, MinI(1000, total));
    if cap.Some? then MinI(s, cap.value) else s
  }

  /** The score of all findings of a run. */
  function Score(findings: seq<Finding>, w: PerCategory): int {
    var fs := OnlyColor(findings);
    if fs == [] then 1000 else Clamped(Breakdown(fs, w).Total(), Cap(fs))
  }

  datatype Grade = Excellent | Good | Fair | Poor | Critical

  function GradeOf(score: int): Grade {
    if score >= 900 then Excellent
    else if score >= 750 then Good
    else if score >= 500 then Fair
    else if score >= 250 then Poor
    else Critical
  }

  datatype Quality = Quality(
    score: int, grade: Grade, breakdown: PerCategory, deductions: seq<Detail>, cap: Option<nat>)

  function Bumped(d: map<Category, nat>, c: Category, extra: nat): map<Category, nat> {
    d[c := (if c in d then d[c] else 0) + extra]
  }

  ghost predicate Tracks(d: map<Category, nat>, fs: seq<Finding>) {
    forall c: Category :: c in d && d[c] == Deducted(fs, c)
  }

  method ComputeScore(findings: seq<Finding>, w: PerCategory) returns (q: Quality)
    ensures q.score == Score(findings, w) && q.grade == GradeOf(q.score)
    ensures var fs := OnlyColor(findings);
            && q.breakdown == (if fs == [] then w else Breakdown(fs, w))
            && q.deductions == Details(fs) && q.cap == Cap(fs)
  {
    var fs := [];
    for k := 0 to |findings|
      invariant fs == OnlyColor(findings[..k])
    {
      assert findings[..k + 1][..k] == findings[..k];
      if IsColor(findings[k]) {
        fs := fs + [findings[k]];
      }
    }
    assert findings[..|findings|] == findings;
    if fs == [] {
      return Quality(1000, Excellent, w, [], None);
    }
    var cap, deductions, details := Deduct(fs);
    var b := PerCategory(
      CategoryScore(w.colorSpaces, deductions[ColorSpaces]),
      CategoryScore(w.inkCoverage, deductions[InkCoverage]),
      CategoryScore(w.profiles, deductions[Profiles]),
      CategoryScore(w.spotColors, deductions[SpotColors]),
      CategoryScore(w.overprint, deductions[Overprint]));
    var score := MaxI(0, MinI(1000, b.Total()));
    if cap.Some? {
      score := MinI(score, cap.value);
    }
    return Quality(score, GradeOf(score), b, details, cap);
  }

  lemma DeductedSnoc(fs: seq<Finding>, f: Finding, c: Category)
    ensures Deducted(fs + [f], c) ==
      Deducted(fs, c) + (if f.id !in Seen(fs) && CategoryOf(f.id) == c then Amount(f) else 0)
  {
    hide Seen, CategoryOf, Amount;
    assert (fs + [f])[..|fs|] == fs;
  }

  lemma CapSnoc(fs: seq<Finding>, f: Finding)
    ensures Cap(fs + [f]) == Lower(Cap(fs), f)
  {
    hide Lower;
    assert (fs + [f])[..|fs|] == fs;
  }

  lemma DetailsSnoc(fs: seq<Finding>, f: Finding)
    ensures Details(fs + [f]) == Details(fs) +
      (if f.id !in Seen(fs) && Amount(f) > 0 then [Detail(f.id, f.severity, Amount(f), CategoryOf(f.id))] else [])
  {
    hide Seen, CategoryOf, Amount;
    assert (fs + [f])[..|fs|] == fs;
  }

  lemma TracksSnoc(d: map<Category, nat>, fs: seq<Finding>, f: Finding)
    requires Tracks(d, fs)
    ensures Tracks(if f.id in Seen(fs) || Amount(f) == 0 then d else Bumped(d, CategoryOf(f.id), Amount(f)), fs + [f])
  {
    hide Seen, CategoryOf, Amount, Deducted;
    forall c: Category ensures Deducted(fs + [f], c) ==
      Deducted(fs, c) + (if f.id !in Seen(fs) && CategoryOf(f.id) == c then Amount(f) else 0)
    {
      DeductedSnoc(fs, f, c);
    }
  }

  /** The deduction loop. */
  method Deduct(fs: seq<Finding>) returns (cap: Option<nat>, deductions: map<Category, nat>, details: seq<Detail>)
    ensures cap == Cap(fs) && Tracks(deductions, fs) && details == Details(fs)
  {
    cap, details := None, [];
    deductions := map[ColorSpaces := 0, InkCoverage := 0, Profiles := 0, SpotColors := 0, Overprint := 0];
    var seen: set<string> := {};
    NothingDeducted(deductions);
    for k := 0 to |fs|
      invariant seen == Seen(fs[..k]) && cap == Cap(fs[..k])
      invariant Tracks(deductions, fs[..k]) && details == Details(fs[..k])
    {
      hide Amount, CategoryOf, Lower, Seen, Cap, Details, Tracks, Bumped;
      var f := fs[k];
      assert fs[..k] + [f] == fs[..k + 1];
      SeenSnoc(fs[..k], f);
      CapSnoc(fs[..k], f);
      DetailsSnoc(fs[..k], f);
      TracksSnoc(deductions, fs[..k], f);
      cap := Lower(cap, f);
      if f.id in seen {
        continue;
      }
      seen := seen + {f.id};
      var amount := Amount(f);
      if amount > 0 {
        deductions := Bumped(deductions, CategoryOf(f.id), amount);
        details := details + [Detail(f.id, f.severity, amount, CategoryOf(f.id))];
      }
    }
    assert fs[..|fs|] == fs;
  }

  lemma NothingDeducted(d: map<Category, nat>)
    requires d == map[ColorSpaces := 0, InkCoverage := 0, Profiles := 0, SpotColors := 0, Overprint := 0]
    ensures Tracks(d, [])
  {
    forall c: Category ensures c in d && d[c] == 0 {
      match c
      case ColorSpaces =>
      case InkCoverage =>
      case Profiles =>
      case SpotColors =>
      case Overprint =>
    }
  }

  lemma SeenSnoc(fs: seq<Finding>, f: Finding)
    ensures Seen(fs + [f]) == Seen(fs) + {f.id}
  {
    assert (fs + [f])[|fs|] == f;
    forall g | g in fs ensures g in fs + [f] {}
  }

  // ---- Laws -----------------------------------------------------------------------------

  /** Identifiers fit at most one prefix, so the order of the prefix table does not matter. */
  lemma PrefixesAreExclusive(id: string, j: nat, k: nat)
    requires j < |PREFIXES| && k < |PREFIXES| && PREFIXES[j].0 <= id && PREFIXES[k].0 <= id
    ensures j == k
  {
    PrefixTag(id, j);
    PrefixTag(id, k);
  }

  /** The sixth and seventh characters tell the prefixes apart. */
  function Tag(s: string): int {
    if |s| < 7 then -1
    else match s[5]
      case 'C' => 0
      case 'I' => if s[6] == 'C' then 1 else 4
      case 'S' => if s[6] == 'P' then 2 else 7
      case 'O' => 3
      case 'A' => 5
      case 'G' => 6
      case 'E' => if s[6] == 'C' then 8 else 9
      case _ => -1
  }

  lemma PrefixTag(id: string, k: nat)
    requires k < |PREFIXES| && PREFIXES[k].0 <= id
    ensures Tag(id) == k
  {
    var p := PREFIXES[k].0;
    assert |p| > 6 && Tag(p) == k;
    assert id[5] == p[5] && id[6] == p[6];
  }

  /** Every score is between 0 and 100 points, whatever the weights. */
  lemma ScoreInRange(findings: seq<Finding>, w: PerCategory)
    ensures 0 <= Score(findings, w) <= 1000
  {
  }

  lemma CategoryScoreIs(weight: int, deducted: nat)
    requires weight >= 0
    ensures CategoryScore(weight, deducted) == MaxI(0, weight - deducted) <= weight
  {
  }

  lemma CategoryScoreFalls(weight: int, d: nat, e: nat)
    requires d <= e
    ensures CategoryScore(weight, e) <= CategoryScore(weight, d)
  {
  }

  /** With nonnegative weights adding up to 100 the clamp never acts: the score is the sum of the category
      scores, each its weight less its deductions but not below zero, under the critical cap. */
  lemma ScoreIsCappedSum(findings: seq<Finding>, w: PerCategory)
    requires w.colorSpaces >= 0 && w.inkCoverage >= 0 && w.profiles >= 0 && w.spotColors >= 0 && w.overprint >= 0
    requires w.Total() == 1000
    ensures var fs := OnlyColor(findings);
            var total := Breakdown(fs, w).Total();
            && (forall c: Category :: Breakdown(fs, w).At(c) == MaxI(0, w.At(c) - Deducted(fs, c)))
            && Score(findings, w) == if Cap(fs).Some? then MinI(total, Cap(fs).value) else total
  {
    hide CategoryScore, Deducted, Cap, OnlyColor, MaxI;
    var fs := OnlyColor(findings);
    CategoryScoreIs(w.colorSpaces, Deducted(fs, ColorSpaces));
    CategoryScoreIs(w.inkCoverage, Deducted(fs, InkCoverage));
    CategoryScoreIs(w.profiles, Deducted(fs, Profiles));
    CategoryScoreIs(w.spotColors, Deducted(fs, SpotColors));
    CategoryScoreIs(w.overprint, Deducted(fs, Overprint));
    BreakdownInRange(fs, w);
    ClampIsIdle(Breakdown(fs, w).Total(), Cap(fs));
    if fs == [] {
      NoFindingsNoDeductions(w);
    }
  }

  lemma BreakdownInRange(fs: seq<Finding>, w: PerCategory)
    requires w.colorSpaces >= 0 && w.inkCoverage >= 0 && w.profiles >= 0 && w.spotColors >= 0 && w.overprint >= 0
    ensures 0 <= Breakdown(fs, w).Total() <= w.Total()
  {
    hide CategoryScore, Deducted;
    PartInRange(w.colorSpaces, Deducted(fs, ColorSpaces));
    PartInRange(w.inkCoverage, Deducted(fs, InkCoverage));
    PartInRange(w.profiles, Deducted(fs, Profiles));
    PartInRange(w.spotColors, Deducted(fs, SpotColors));
    PartInRange(w.overprint, Deducted(fs, Overprint));
  }

  lemma PartInRange(weight: int, d: nat)
    requires weight >= 0
    ensures 0 <= CategoryScore(weight, d) <= weight
  {
  }

  lemma ClampIsIdle(total: int, cap: Option<nat>)
    requires 0 <= total <= 1000
    ensures Clamped(total, cap) == if cap.Some? then MinI(total, cap.value) else total
  {
  }

  lemma NoFindingsNoDeductions(w: PerCategory)
    requires w.colorSpaces >= 0 && w.inkCoverage >= 0 && w.profiles >= 0 && w.spotColors >= 0 && w.overprint >= 0
    ensures Breakdown([], w) == w && Cap([]) == None
  {
  }

  function DetailSum(ds: seq<Detail>, c: Category): nat {
    if ds == [] then 0
    else DetailSum(ds[..|ds| - 1], c) + (if ds[|ds| - 1].category == c then ds[|ds| - 1].deduction else 0)
  }

  /** The deduction details of a category add up to its deductions. */
  lemma {:induction false} DetailsAddUp(fs: seq<Finding>, c: Category)
    ensures DetailSum(Details(fs), c) == Deducted(fs, c)
  {
    hide Amount, CategoryOf, Seen;
    if fs != [] {
      var n := |fs| - 1;
      DetailsAddUp(fs[..n], c);
      var ds := Details(fs[..n]);
      assert ds + [] == ds;
      DetailSumSnoc(ds, Detail(fs[n].id, fs[n].severity, Amount(fs[n]), CategoryOf(fs[n].id)), c);
    }
  }

  lemma DetailSumSnoc(ds: seq<Detail>, d: Detail, c: Category)
    ensures DetailSum(ds + [d], c) == DetailSum(ds, c) + (if d.category == c then d.deduction else 0)
  {
    assert (ds + [d])[..|ds|] == ds;
  }

  lemma OnlyColorAppend(a: seq<Finding>, f: Finding)
    ensures OnlyColor(a + [f]) == OnlyColor(a) + (if IsColor(f) then [f] else [])
  {
    hide IsColor;
    assert (a + [f])[..|a|] == a;
  }

  lemma MoreDeductsMore(fs: seq<Finding>, f: Finding, c: Category)
    ensures Deducted(fs, c) <= Deducted(fs + [f], c)
    ensures Cap(fs).Some? ==> Cap(fs + [f]).Some? && Cap(fs + [f]).value <= Cap(fs).value
  {
    hide Amount, CategoryOf, Seen;
    assert (fs + [f])[..|fs|] == fs;
  }

  /** One more finding never raises the score. */
  lemma AppendingNeverRaises(findings: seq<Finding>, f: Finding, w: PerCategory)
    ensures Score(findings + [f], w) <= Score(findings, w)
  {
    hide Deducted, Cap, OnlyColor, IsColor, Clamped, Breakdown;
    var fs := OnlyColor(findings);
    OnlyColorAppend(findings, f);
    if IsColor(f) {
      BreakdownFalls(fs, f, w);
      MoreDeductsMore(fs, f, ColorSpaces);
      ClampedFalls(Breakdown(fs, w).Total(), Cap(fs), Breakdown(fs + [f], w).Total(), Cap(fs + [f]));
    } else {
      assert fs + [] == fs;
    }
  }

  lemma BreakdownFalls(fs: seq<Finding>, f: Finding, w: PerCategory)
    ensures Breakdown(fs + [f], w).Total() <= Breakdown(fs, w).Total()
  {
    hide Deducted, Cap, CategoryScore;
    PartFalls(fs, f, ColorSpaces, w.colorSpaces);
    PartFalls(fs, f, InkCoverage, w.inkCoverage);
    PartFalls(fs, f, Profiles, w.profiles);
    PartFalls(fs, f, SpotColors, w.spotColors);
    PartFalls(fs, f, Overprint, w.overprint);
  }

  lemma PartFalls(fs: seq<Finding>, f: Finding, c: Category, weight: int)
    ensures CategoryScore(weight, Deducted(fs + [f], c)) <= CategoryScore(weight, Deducted(fs, c))
  {
    MoreDeductsMore(fs, f, c);
    CategoryScoreFalls(weight, Deducted(fs, c), Deducted(fs + [f], c));
  }

  lemma ClampedFalls(t: int, a: Option<nat>, u: int, b: Option<nat>)
    requires u <= t && (a.Some? ==> b.Some? && b.value <= a.value)
    ensures Clamped(u, b) <= Clamped(t, a) <= 1000
  {
  }

  /** Any number of further findings. */
  lemma {:induction false} ExtendingNeverRaises(a: seq<Finding>, b: seq<Finding>, w: PerCategory)
    ensures Score(a + b, w) <= Score(a, w)
  {
    hide Score;
    if b == [] {
      assert a + b == a;
    } else {
      var n := |b| - 1;
      ExtendingNeverRaises(a, b[..n], w);
      AppendingNeverRaises(a + b[..n], b[n], w);
      assert a + b[..n] + [b[n]] == a + b;
    }
  }

  // ---- Order independence ---------------------------------------------------------------

  /** Each check is deducted the same wherever it occurs. */
  ghost predicate OneAmountPerCheck(fs: seq<Finding>) {
    forall f, g :: f in fs && g in fs && f.id == g.id ==> Amount(f) == Amount(g)
  }

  ghost function AmountIn(fs: seq<Finding>, id: string): nat {
    if exists f :: f in fs && f.id == id then
      var f :| f in fs && f.id == id;
      Amount(f)
    else 0
  }

  /** The deduction a check contributes to a category. */
  ghost function ShareIn(fs: seq<Finding>, c: Category): string -> nat {
    id => if CategoryOf(id) == c then AmountIn(fs, id) else 0
  }

  /** A category's deductions as a sum over the set of checks seen: no order left in it. */
  lemma {:induction false} DeductedIsSetSum(fs: seq<Finding>, all: seq<Finding>, c: Category)
    requires OneAmountPerCheck(all) && forall f :: f in fs ==> f in all
    ensures Deducted(fs, c) == SumOver(Seen(fs), ShareIn(all, c))
  {
    hide Amount, CategoryOf;
    if fs != [] {
      var n := |fs| - 1;
      var f := fs[n];
      assert f in fs;
      forall g | g in fs[..n] ensures g in all { assert g in fs; }
      DeductedIsSetSum(fs[..n], all, c);
      SeenSnoc(fs[..n], f);
      assert fs[..n] + [f] == fs;
      assert AmountIn(all, f.id) == Amount(f);
      if f.id !in Seen(fs[..n]) {
        SumAdd(Seen(fs[..n]), ShareIn(all, c), f.id);
      } else {
        assert Seen(fs[..n]) + {f.id} == Seen(fs[..n]);
      }
    }
  }

  /** Whether the error finding with this cap is in the list. */
  ghost predicate HitsCap(fs: seq<Finding>, v: nat) {
    exists f :: f in fs && f.id in CRITICAL_FLOORS && f.severity.Error? && CRITICAL_FLOORS[f.id] == v
  }

  lemma {:induction false} CapIsLowestHit(fs: seq<Finding>)
    ensures Cap(fs).Some? ==> HitsCap(fs, Cap(fs).value)
    ensures forall v: nat :: HitsCap(fs, v) ==> Cap(fs).Some? && Cap(fs).value <= v
  {
    if fs != [] {
      var n := |fs| - 1;
      CapIsLowestHit(fs[..n]);
      assert fs == fs[..n] + [fs[n]];
      if Cap(fs[..n]).Some? {
        var f :| f in fs[..n] && f.id in CRITICAL_FLOORS && f.severity.Error? && CRITICAL_FLOORS[f.id] == Cap(fs[..n]).value;
        assert f in fs;
      }
      forall v: nat | HitsCap(fs, v) ensures Cap(fs).Some? && Cap(fs).value <= v {
        var f :| f in fs && f.id in CRITICAL_FLOORS && f.severity.Error? && CRITICAL_FLOORS[f.id] == v;
        if f in fs[..n] {
          assert HitsCap(fs[..n], v);
        } else {
          assert f == fs[n];
        }
      }
    }
  }

  ghost predicate SameFindings(a: seq<Finding>, b: seq<Finding>) {
    forall f :: f in a <==> f in b
  }

  lemma {:induction false} OnlyColorMembers(fs: seq<Finding>)
    ensures forall f :: f in OnlyColor(fs) <==> f in fs && IsColor(f)
  {
    hide IsColor;
    if fs != [] {
      var n := |fs| - 1;
      OnlyColorMembers(fs[..n]);
      assert fs == fs[..n] + [fs[n]];
    }
  }

  lemma SameDeductions(a: seq<Finding>, b: seq<Finding>, c: Category)
    requires OneAmountPerCheck(a) && SameFindings(a, b)
    ensures Deducted(a, c) == Deducted(b, c)
  {
    hide Deducted, Amount;
    DeductedIsSetSum(a, a, c);
    DeductedIsSetSum(b, a, c);
    assert Seen(a) == Seen(b);
  }

  lemma SameCap(a: seq<Finding>, b: seq<Finding>)
    requires SameFindings(a, b)
    ensures Cap(a) == Cap(b)
  {
    CapIsLowestHit(a);
    CapIsLowestHit(b);
    assert forall v: nat :: HitsCap(a, v) <==> HitsCap(b, v);
  }

  /** When each check is deducted the same wherever it occurs, neither the order of the findings nor how often
      they repeat matters: the score is a function of the set of findings. A single severity per check is
      enough, and so is any mix of errors and warnings. */
  lemma ScoreIgnoresOrder(a: seq<Finding>, b: seq<Finding>, w: PerCategory)
    requires SameFindings(a, b) && OneAmountPerCheck(a)
    ensures Score(a, w) == Score(b, w)
  {
    hide Deducted, Cap, OnlyColor, Amount, IsColor, Clamped, CategoryScore;
    var fs, gs := OnlyColor(a), OnlyColor(b);
    OnlyColorMembers(a);
    OnlyColorMembers(b);
    assert SameFindings(fs, gs);
    assert |gs| > 0 ==> gs[0] in gs;
    if fs != [] {
      assert fs[0] in fs && fs[0] in gs;
      SameDeductions(fs, gs, ColorSpaces);
      SameDeductions(fs, gs, InkCoverage);
      SameDeductions(fs, gs, Profiles);
      SameDeductions(fs, gs, SpotColors);
      SameDeductions(fs, gs, Overprint);
      SameCap(fs, gs);
    }
  }

  lemma SingleSeverityIsEnough(fs: seq<Finding>)
    requires forall f, g :: f in fs && g in fs && f.id == g.id ==>
      f.severity == g.severity || (Serious(f.severity) && Serious(g.severity))
    ensures OneAmountPerCheck(fs)
  {
  }

  lemma InkLimitCheck()
    ensures var e, a := Finding("LPDF_COLOR_004", Error), Finding("LPDF_COLOR_004", Advisory);
            && Amount(e) == 100 && Amount(a) == 0
            && IsColor(e) && e.id !in CRITICAL_FLOORS && CategoryOf(e.id) == ColorSpaces
  {
    var e := Finding("LPDF_COLOR_004", Error);
    assert PREFIXES[0].0 <= e.id;
  }

  /** Otherwise order can matter: the first occurrence of a check decides its deduction. */
  lemma OrderCanMatter()
    ensures var e, a := Finding("LPDF_COLOR_004", Error), Finding("LPDF_COLOR_004", Advisory);
            Score([e, a], DEFAULT_WEIGHTS) == 900 && Score([a, e], DEFAULT_WEIGHTS) == 1000
  {
    hide Score, Amount, CategoryOf, HasPrefix;
    var e, a := Finding("LPDF_COLOR_004", Error), Finding("LPDF_COLOR_004", Advisory);
    InkLimitCheck();
    TwoOfACheck(e, a);
    TwoOfACheck(a, e);
  }

  lemma TwoOfACheck(f: Finding, g: Finding)
    requires f.id == g.id && IsColor(f) && f.id !in CRITICAL_FLOORS
    ensures Score([f, g], DEFAULT_WEIGHTS)
         == 1000 - MinI(Amount(f), DEFAULT_WEIGHTS.At(CategoryOf(f.id)))
  {
    hide HasPrefix, Amount, CategoryOf, Clamped, CategoryScore;
    assert [f, g][..1] == [f] && [f][..0] == [];
    assert OnlyColor([f]) == [] + [f];
    assert OnlyColor([f, g]) == [f] + [g] == [f, g];
    NoCaps(f, g);
    forall c: Category ensures Deducted([f, g], c) == if CategoryOf(f.id) == c then Amount(f) else 0 {
      OneDeduction(f, g, c);
    }
    OneCategoryOff([f, g], CategoryOf(f.id), Amount(f));
  }

  lemma NoCaps(f: Finding, g: Finding)
    requires f.id !in CRITICAL_FLOORS && g.id !in CRITICAL_FLOORS
    ensures Cap([f, g]) == None
  {
    assert [f, g][..1] == [f] && [f, g][1] == g;
    assert [f][..0] == [] && [f][0] == f;
    assert Cap([]) == None;
    assert Cap([f]) == None;
  }

  lemma OneDeduction(f: Finding, g: Finding, c: Category)
    requires f.id == g.id
    ensures Deducted([f, g], c) == if CategoryOf(f.id) == c then Amount(f) else 0
  {
    hide Amount, CategoryOf;
    assert [f, g][..1] == [f] && [f][..0] == [];
    assert Seen([]) == {};
    assert f in [f] && g.id in Seen([f]);
    assert Deducted([f], c) == if CategoryOf(f.id) == c then Amount(f) else 0;
  }

  lemma OneCategoryOff(fs: seq<Finding>, off: Category, amount: nat)
    requires forall c: Category :: Deducted(fs, c) == if off == c then amount else 0
    ensures Clamped(Breakdown(fs, DEFAULT_WEIGHTS).Total(), None) == 1000 - MinI(amount, DEFAULT_WEIGHTS.At(off))
  {
    hide Deducted, CategoryScore;
    PartOrWhole(250, amount);
    PartOrWhole(200, amount);
    PartOrWhole(150, amount);
    match off
    case ColorSpaces =>
    case InkCoverage =>
    case Profiles =>
    case SpotColors =>
    case Overprint =>
  }

  lemma PartOrWhole(weight: nat, amount: nat)
    ensures CategoryScore(weight, 0) == weight && CategoryScore(weight, amount) == weight - MinI(amount, weight)
  {
  }
}
