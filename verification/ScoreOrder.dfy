/** When the order of the findings matters to the colour score: exactly for the deductions of a category, and exactly
    for the score itself. */
module ScoreOrder {
  import opened Prelude
  import opened SetSums
  import opened ColorScore

  ghost predicate Reordering(a: seq<Finding>, b: seq<Finding>) {
    multiset(a) == multiset(b)
  }

  lemma ReorderingIsSame(a: seq<Finding>, b: seq<Finding>)
    requires Reordering(a, b)
    ensures SameFindings(a, b)
  {
    forall f ensures f in a <==> f in b {
      assert f in a <==> f in multiset(a);
      assert f in b <==> f in multiset(b);
    }
  }

  // ---- Deductions -----------------------------------------------------------------------

  /** The findings of the other checks. */
  function Without(fs: seq<Finding>, id: string): seq<Finding> {
    if fs == [] then []
    else Without(fs[..|fs| - 1], id) + (if fs[|fs| - 1].id == id then [] else [fs[|fs| - 1]])
  }

  lemma WithoutSnoc(fs: seq<Finding>, f: Finding, id: string)
    ensures Without(fs + [f], id) == if f.id == id then Without(fs, id) else Without(fs, id) + [f]
  {
    assert (fs + [f])[..|fs|] == fs;
  }

  lemma {:induction false} WithoutAppend(a: seq<Finding>, b: seq<Finding>, id: string)
    ensures Without(a + b, id) == Without(a, id) + Without(b, id)
  {
    hide Without;
    if b == [] {
      assert a + b == a;
      WithoutNone(id);
    } else {
      var n := |b| - 1;
      WithoutAppend(a, b[..n], id);
      assert a + b == a + b[..n] + [b[n]] && b == b[..n] + [b[n]];
      WithoutSnoc(a + b[..n], b[n], id);
      WithoutSnoc(b[..n], b[n], id);
    }
  }

  lemma WithoutNone(id: string)
    ensures Without([], id) == []
  {
  }

  lemma {:induction false} SeenWithout(fs: seq<Finding>, id: string)
    ensures Seen(Without(fs, id)) == Seen(fs) - {id}
  {
    if fs != [] {
      var n := |fs| - 1;
      SeenWithout(fs[..n], id);
      SeenSnoc(fs[..n], fs[n]);
      assert fs[..n] + [fs[n]] == fs;
      SeenSnoc(Without(fs[..n], id), fs[n]);
    }
  }

  function Share(f: Finding, c: Category): nat {
    if CategoryOf(f.id) == c then Amount(f) else 0
  }

  /** The finding in front is the one its check is charged for. */
  lemma {:induction false} FrontDecides(f: Finding, xs: seq<Finding>, c: Category)
    ensures Deducted([f] + xs, c) == Share(f, c) + Deducted(Without(xs, f.id), c)
  {
    hide Amount, CategoryOf, Seen, Deducted, Without;
    if xs == [] {
      NothingSeen();
      DeductedSnoc([], f, c);
      assert [f] + xs == [] + [f];
      NothingDeductedYet(f.id, c);
    } else {
      var n := |xs| - 1;
      var p, x := xs[..n], xs[n];
      assert xs == p + [x] && [f] + xs == [f] + p + [x];
      FrontDecides(f, p, c);
      DeductedSnoc([f] + p, x, c);
      SeenFront(f, p);
      SeenWithout(p, f.id);
      WithoutSnoc(p, x, f.id);
      DeductedSnoc(Without(p, f.id), x, c);
    }
  }

  lemma NothingDeductedYet(id: string, c: Category)
    ensures Without([], id) == [] && Deducted([], c) == 0
  {
  }

  lemma NothingSeen()
    ensures Seen([]) == {}
  {
  }

  lemma SeenFront(f: Finding, xs: seq<Finding>)
    ensures Seen([f] + xs) == {f.id} + Seen(xs)
  {
    assert ([f] + xs)[0] == f;
    forall x | x in xs ensures x in [f] + xs {}
  }

  /** The list with its j-th finding moved to the front. */
  function Fronted(a: seq<Finding>, j: nat): seq<Finding>
    requires j < |a|
  {
    [a[j]] + (a[..j] + a[j + 1..])
  }

  lemma FrontedReorders(a: seq<Finding>, j: nat)
    requires j < |a|
    ensures Reordering(a, Fronted(a, j))
  {
    assert a == a[..j] + [a[j]] + a[j + 1..];
  }

  /** A finding of the check itself makes no difference. */
  lemma WithoutOne(p: seq<Finding>, f: Finding, q: seq<Finding>)
    ensures Without(p + [f] + q, f.id) == Without(p + q, f.id)
  {
    WithoutAppend(p + [f], q, f.id);
    WithoutAppend(p, q, f.id);
    assert (p + [f])[..|p|] == p;
    assert Without(p + [f], f.id) == Without(p, f.id) + [];
  }

  lemma FrontedDeducts(a: seq<Finding>, j: nat, c: Category)
    requires j < |a|
    ensures Deducted(Fronted(a, j), c) == Share(a[j], c) + Deducted(Without(a, a[j].id), c)
  {
    hide Deducted, Amount, CategoryOf;
    var id := a[j].id;
    FrontDecides(a[j], a[..j] + a[j + 1..], c);
    WithoutOne(a[..j], a[j], a[j + 1..]);
    assert a == a[..j] + [a[j]] + a[j + 1..];
  }

  ghost predicate DeductionsIgnoreOrder(a: seq<Finding>) {
    forall b, c :: Reordering(a, b) ==> Deducted(b, c) == Deducted(a, c)
  }

  ghost predicate DeductionsAreOfSet(a: seq<Finding>) {
    forall b, c :: SameFindings(a, b) ==> Deducted(b, c) == Deducted(a, c)
  }

  /** Every order of some findings, and every list of the same ones, is charged alike exactly when each check has one
      deduction among them. */
  lemma DeductionsIgnoreOrderIff(a: seq<Finding>)
    ensures DeductionsIgnoreOrder(a) <==> OneAmountPerCheck(a)
    ensures DeductionsAreOfSet(a) <==> OneAmountPerCheck(a)
  {
    hide Deducted, Amount, CategoryOf, Reordering;
    if OneAmountPerCheck(a) {
      forall b, c | SameFindings(a, b) ensures Deducted(b, c) == Deducted(a, c) {
        SameDeductions(a, b, c);
      }
    }
    forall b | Reordering(a, b) ensures SameFindings(a, b) {
      ReorderingIsSame(a, b);
    }
    if DeductionsIgnoreOrder(a) {
      forall f, g | f in a && g in a && f.id == g.id ensures Amount(f) == Amount(g) {
        var j :| 0 <= j < |a| && a[j] == f;
        var k :| 0 <= k < |a| && a[k] == g;
        var c := CategoryOf(f.id);
        FrontedReorders(a, j);
        FrontedReorders(a, k);
        FrontedDeducts(a, j, c);
        FrontedDeducts(a, k, c);
      }
    }
  }

  // ---- The score ------------------------------------------------------------------------

  /** What the first finding of a check deducts. */
  function FirstAmount(fs: seq<Finding>, id: string): nat {
    if fs == [] then 0
    else
      var n := |fs| - 1;
      if id in Seen(fs[..n]) then FirstAmount(fs[..n], id) else if fs[n].id == id then Amount(fs[n]) else 0
  }

  function FirstShare(fs: seq<Finding>, c: Category): string -> nat {
    id => if CategoryOf(id) == c then FirstAmount(fs, id) else 0
  }

  /** A category's deductions as a sum over the checks seen, each by its first finding. */
  lemma {:induction false} DeductedIsFirstSum(fs: seq<Finding>, c: Category)
    ensures Deducted(fs, c) == SumOver(Seen(fs), FirstShare(fs, c))
  {
    hide Amount, CategoryOf, Seen;
    if fs == [] {
      NothingSeen();
    } else {
      var n := |fs| - 1;
      var p, f := fs[..n], fs[n];
      DeductedIsFirstSum(p, c);
      SeenSnoc(p, f);
      assert p + [f] == fs;
      SumSame(Seen(p), FirstShare(p, c), FirstShare(fs, c));
      if f.id in Seen(p) {
        assert Seen(p) + {f.id} == Seen(p);
      } else {
        SumAdd(Seen(p), FirstShare(fs, c), f.id);
      }
    }
  }

  lemma {:induction false} FirstIsOneOf(fs: seq<Finding>, id: string)
    requires id in Seen(fs)
    ensures exists f :: f in fs && f.id == id && FirstAmount(fs, id) == Amount(f)
  {
    hide Amount, Seen;
    if fs == [] {
      NothingSeen();
    } else {
      var n := |fs| - 1;
      SeenSnoc(fs[..n], fs[n]);
      assert fs == fs[..n] + [fs[n]];
      if id in Seen(fs[..n]) {
        FirstIsOneOf(fs[..n], id);
        var f :| f in fs[..n] && f.id == id && FirstAmount(fs[..n], id) == Amount(f);
        assert f in fs;
      } else {
        assert fs[n] in fs;
      }
    }
  }

  lemma FirstSnoc(fs: seq<Finding>, f: Finding, id: string)
    ensures FirstAmount(fs + [f], id) ==
      if id in Seen(fs) then FirstAmount(fs, id) else if f.id == id then Amount(f) else 0
  {
    hide Seen, Amount;
    assert (fs + [f])[..|fs|] == fs;
  }

  lemma {:induction false} FirstOfAppend(a: seq<Finding>, b: seq<Finding>, id: string)
    ensures FirstAmount(a + b, id) == if id in Seen(a) then FirstAmount(a, id) else FirstAmount(b, id)
    ensures Seen(a + b) == Seen(a) + Seen(b)
  {
    hide Amount, Seen, FirstAmount;
    if b == [] {
      assert a + b == a;
      NothingSeen();
      FirstOfUnseen([], id);
      if id !in Seen(a) {
        FirstOfUnseen(a, id);
      }
    } else {
      var n := |b| - 1;
      assert b == b[..n] + [b[n]] && a + b == a + b[..n] + [b[n]];
      FirstOfAppend(a, b[..n], id);
      FirstSnoc(b[..n], b[n], id);
      FirstSnoc(a + b[..n], b[n], id);
      SeenSnoc(b[..n], b[n]);
      SeenSnoc(a + b[..n], b[n]);
    }
  }

  lemma {:induction false} FirstOfUnseen(fs: seq<Finding>, id: string)
    requires id !in Seen(fs)
    ensures FirstAmount(fs, id) == 0
  {
    hide Amount, Seen;
    if fs != [] {
      var n := |fs| - 1;
      SeenSnoc(fs[..n], fs[n]);
      assert fs == fs[..n] + [fs[n]];
    }
  }

  /** Errors and warnings of a check deduct alike, and at least as much as its advisories. */
  lemma AmountsBySeverity(f: Finding, g: Finding)
    requires f.id == g.id && (Serious(f.severity) ==> Serious(g.severity))
    ensures Amount(f) <= Amount(g)
    ensures Serious(f.severity) == Serious(g.severity) ==> Amount(f) == Amount(g)
  {
    if f.id in MINOR {
      assert f.id !in MAJOR && f.id !in MODERATE;
    }
  }

  function Picked(fs: seq<Finding>, serious: bool): seq<Finding> {
    if fs == [] then []
    else Picked(fs[..|fs| - 1], serious) + (if Serious(fs[|fs| - 1].severity) == serious then [fs[|fs| - 1]] else [])
  }

  function SeriousFirst(fs: seq<Finding>): seq<Finding> {
    Picked(fs, true) + Picked(fs, false)
  }

  function SeriousLast(fs: seq<Finding>): seq<Finding> {
    Picked(fs, false) + Picked(fs, true)
  }

  lemma {:induction false} PickedReorder(fs: seq<Finding>)
    ensures multiset(Picked(fs, true)) + multiset(Picked(fs, false)) == multiset(fs)
  {
    if fs != [] {
      var p, f := fs[..|fs| - 1], fs[|fs| - 1];
      PickedReorder(p);
      assert fs == p + [f];
      PickedSnoc(p, f, true);
      PickedSnoc(p, f, false);
    }
  }

  lemma PickedSnoc(fs: seq<Finding>, f: Finding, serious: bool)
    ensures multiset(Picked(fs + [f], serious))
         == multiset(Picked(fs, serious)) + if Serious(f.severity) == serious then multiset{f} else multiset{}
  {
    hide Serious;
    assert (fs + [f])[..|fs|] == fs;
  }

  lemma {:induction false} PickedSeverity(fs: seq<Finding>, serious: bool)
    ensures forall f :: f in Picked(fs, serious) ==> Serious(f.severity) == serious
  {
    if fs != [] {
      PickedSeverity(fs[..|fs| - 1], serious);
    }
  }

  /** Serious findings in front of the others charge a check the most, behind them the least. */
  lemma FirstIsGreatest(early: seq<Finding>, late: seq<Finding>, fs: seq<Finding>, id: string)
    requires forall f :: f in early ==> Serious(f.severity)
    requires forall f :: f in late ==> !Serious(f.severity)
    requires SameFindings(early + late, fs) && id in Seen(fs)
    ensures FirstAmount(fs, id) <= FirstAmount(early + late, id)
    ensures FirstAmount(late + early, id) <= FirstAmount(fs, id)
  {
    hide Amount, FirstAmount;
    FirstIsOneOf(fs, id);
    var f :| f in fs && f.id == id && FirstAmount(fs, id) == Amount(f);
    assert f in early + late;
    FirstOfAppend(early, late, id);
    FirstOfAppend(late, early, id);
    if id in Seen(early) {
      FirstIsOneOf(early, id);
      var g :| g in early && g.id == id && FirstAmount(early, id) == Amount(g);
      AmountsBySeverity(f, g);
    }
    if id in Seen(late) {
      FirstIsOneOf(late, id);
      var g :| g in late && g.id == id && FirstAmount(late, id) == Amount(g);
      AmountsBySeverity(g, f);
      if id !in Seen(early) {
        assert f in late;
        AmountsBySeverity(f, g);
      }
    } else {
      assert f in early;
      FirstIsOneOf(early, id);
      var g :| g in early && g.id == id && FirstAmount(early, id) == Amount(g);
      AmountsBySeverity(g, f);
    }
  }

  lemma DeductedBetween(early: seq<Finding>, late: seq<Finding>, fs: seq<Finding>, c: Category)
    requires forall f :: f in early ==> Serious(f.severity)
    requires forall f :: f in late ==> !Serious(f.severity)
    requires SameFindings(early + late, fs)
    ensures Deducted(late + early, c) <= Deducted(fs, c) <= Deducted(early + late, c)
  {
    hide Amount, FirstAmount, Deducted, CategoryOf;
    assert Seen(fs) == Seen(early + late) == Seen(late + early);
    forall id | id in Seen(fs)
      ensures FirstShare(late + early, c)(id) <= FirstShare(fs, c)(id) <= FirstShare(early + late, c)(id)
    {
      FirstIsGreatest(early, late, fs, id);
    }
    DeductedIsFirstSum(fs, c);
    DeductedIsFirstSum(early + late, c);
    DeductedIsFirstSum(late + early, c);
    SumMonotone(Seen(fs), FirstShare(late + early, c), FirstShare(fs, c));
    SumMonotone(Seen(fs), FirstShare(fs, c), FirstShare(early + late, c));
  }

  lemma {:induction false} OnlyColorOfAppend(a: seq<Finding>, b: seq<Finding>)
    ensures OnlyColor(a + b) == OnlyColor(a) + OnlyColor(b)
  {
    hide IsColor;
    if b == [] {
      assert a + b == a;
    } else {
      var n := |b| - 1;
      OnlyColorOfAppend(a, b[..n]);
      assert (a + b)[..|a| + n] == a + b[..n];
    }
  }

  /** A list that is charged no more in any category, under the same cap, scores no less. */
  lemma LessChargedScoresMore(a: seq<Finding>, b: seq<Finding>, w: PerCategory)
    requires SameFindings(a, b)
    requires forall c: Category :: Deducted(OnlyColor(a), c) <= Deducted(OnlyColor(b), c)
    ensures Score(b, w) <= Score(a, w)
  {
    hide Deducted, Cap, OnlyColor, IsColor, Clamped, CategoryScore;
    var fs, gs := OnlyColor(a), OnlyColor(b);
    OnlyColorMembers(a);
    OnlyColorMembers(b);
    assert |fs| > 0 ==> fs[0] in fs && fs[0] in gs;
    assert |gs| > 0 ==> gs[0] in gs && gs[0] in fs;
    SameCap(fs, gs);
    CategoryScoreFalls(w.colorSpaces, Deducted(fs, ColorSpaces), Deducted(gs, ColorSpaces));
    CategoryScoreFalls(w.inkCoverage, Deducted(fs, InkCoverage), Deducted(gs, InkCoverage));
    CategoryScoreFalls(w.profiles, Deducted(fs, Profiles), Deducted(gs, Profiles));
    CategoryScoreFalls(w.spotColors, Deducted(fs, SpotColors), Deducted(gs, SpotColors));
    CategoryScoreFalls(w.overprint, Deducted(fs, Overprint), Deducted(gs, Overprint));
    ClampedFalls(Breakdown(fs, w).Total(), Cap(fs), Breakdown(gs, w).Total(), Cap(gs));
  }

  /** Whatever the order, the score lies between the one with errors and warnings in front and the one with them
      behind the advisories. */
  lemma ScoreBetween(a: seq<Finding>, b: seq<Finding>, w: PerCategory)
    requires SameFindings(a, b)
    ensures Score(SeriousFirst(a), w) <= Score(b, w) <= Score(SeriousLast(a), w)
  {
    hide Score, Deducted, OnlyColor, IsColor;
    PickedSeverity(a, true);
    PickedSeverity(a, false);
    SeriousOrdersReorder(a);
    ReorderingIsSame(a, SeriousFirst(a));
    ReorderingIsSame(a, SeriousLast(a));
    var early, late := OnlyColor(Picked(a, true)), OnlyColor(Picked(a, false));
    OnlyColorMembers(Picked(a, true));
    OnlyColorMembers(Picked(a, false));
    OnlyColorMembers(SeriousFirst(a));
    OnlyColorMembers(b);
    OnlyColorOfAppend(Picked(a, true), Picked(a, false));
    OnlyColorOfAppend(Picked(a, false), Picked(a, true));
    assert SameFindings(early + late, OnlyColor(b));
    forall c: Category
      ensures Deducted(late + early, c) <= Deducted(OnlyColor(b), c) <= Deducted(early + late, c)
    {
      DeductedBetween(early, late, OnlyColor(b), c);
    }
    LessChargedScoresMore(b, SeriousFirst(a), w);
    LessChargedScoresMore(SeriousLast(a), b, w);
  }

  lemma SeriousOrdersReorder(a: seq<Finding>)
    ensures Reordering(a, SeriousFirst(a)) && Reordering(a, SeriousLast(a))
  {
    PickedReorder(a);
  }

  /** So every order of some findings has one score exactly when those two extreme orders do, whatever the weights. */
  lemma ExtremeOrdersDecide(a: seq<Finding>, w: PerCategory)
    ensures (forall b :: Reordering(a, b) ==> Score(b, w) == Score(a, w)) <==>
            Score(SeriousFirst(a), w) == Score(SeriousLast(a), w)
  {
    hide Score, Reordering, SeriousFirst, SeriousLast;
    SeriousOrdersReorder(a);
    forall b | Reordering(a, b)
      ensures Score(SeriousFirst(a), w) <= Score(b, w) <= Score(SeriousLast(a), w)
    {
      ReorderingIsSame(a, b);
      ScoreBetween(a, b, w);
    }
    ScoreBetween(a, a, w);
  }

  // ---- In terms of the findings ---------------------------------------------------------

  /** The heaviest deduction among the findings of a check. */
  function Heaviest(fs: seq<Finding>, id: string): nat {
    if fs == [] then 0
    else
      var rest := Heaviest(fs[..|fs| - 1], id);
      var f := fs[|fs| - 1];
      if f.id == id && Amount(f) > rest then Amount(f) else rest
  }

  /** The lightest one, or zero for a check that does not occur. */
  function Lightest(fs: seq<Finding>, id: string): nat {
    if fs == [] then 0
    else
      var n := |fs| - 1;
      var rest := Lightest(fs[..n], id);
      if fs[n].id == id && (id !in Seen(fs[..n]) || Amount(fs[n]) < rest) then Amount(fs[n]) else rest
  }

  function HeaviestShare(fs: seq<Finding>, c: Category): string -> nat {
    id => if CategoryOf(id) == c then Heaviest(fs, id) else 0
  }

  function LightestShare(fs: seq<Finding>, c: Category): string -> nat {
    id => if CategoryOf(id) == c then Lightest(fs, id) else 0
  }

  /** What a category is charged when every check is charged its heaviest deduction. */
  ghost function Most(fs: seq<Finding>, c: Category): nat {
    SumOver(Seen(fs), HeaviestShare(fs, c))
  }

  /** And when every check is charged its lightest. */
  ghost function Least(fs: seq<Finding>, c: Category): nat {
    SumOver(Seen(fs), LightestShare(fs, c))
  }

  lemma {:induction false} HeaviestIs(fs: seq<Finding>, id: string)
    ensures forall f :: f in fs && f.id == id ==> Amount(f) <= Heaviest(fs, id)
    ensures id in Seen(fs) ==> exists f :: f in fs && f.id == id && Amount(f) == Heaviest(fs, id)
    ensures id !in Seen(fs) ==> Heaviest(fs, id) == 0
  {
    hide Amount, Seen;
    if fs == [] {
      NothingSeen();
    } else {
      var p, f := fs[..|fs| - 1], fs[|fs| - 1];
      HeaviestIs(p, id);
      SeenSnoc(p, f);
      assert fs == p + [f] && f in fs;
      if id in Seen(p) {
        var g :| g in p && g.id == id && Amount(g) == Heaviest(p, id);
        assert g in fs;
      }
    }
  }

  lemma {:induction false} LightestIs(fs: seq<Finding>, id: string)
    ensures forall f :: f in fs && f.id == id ==> Lightest(fs, id) <= Amount(f)
    ensures id in Seen(fs) ==> exists f :: f in fs && f.id == id && Amount(f) == Lightest(fs, id)
  {
    hide Amount, Seen;
    if fs == [] {
      NothingSeen();
    } else {
      var p, f := fs[..|fs| - 1], fs[|fs| - 1];
      LightestIs(p, id);
      SeenSnoc(p, f);
      assert fs == p + [f] && f in fs;
      if id in Seen(p) {
        var g :| g in p && g.id == id && Amount(g) == Lightest(p, id);
        assert g in fs;
      } else {
        forall g | g in p ensures g.id != id {
          SeenOf(p, g);
        }
      }
    }
  }

  lemma SeenOf(fs: seq<Finding>, f: Finding)
    requires f in fs
    ensures f.id in Seen(fs)
  {
  }

  /** Any finding of a check lies between what the check is charged in the two orders. */
  lemma FirstBounds(early: seq<Finding>, late: seq<Finding>, f: Finding)
    requires forall f :: f in early ==> Serious(f.severity)
    requires forall f :: f in late ==> !Serious(f.severity)
    requires f in early + late
    ensures FirstAmount(late + early, f.id) <= Amount(f) <= FirstAmount(early + late, f.id)
  {
    hide Amount, FirstAmount, Seen;
    FirstOfFront(f, early + late);
    FirstIsGreatest(early, late, [f] + (early + late), f.id);
  }

  lemma FirstOfFront(f: Finding, fs: seq<Finding>)
    ensures FirstAmount([f] + fs, f.id) == Amount(f) && f.id in Seen([f] + fs)
  {
    hide Amount, Seen;
    FirstOfAppend([f], fs, f.id);
    SeenOf([f], f);
    NothingSeen();
    assert [f][..0] == [];
  }

  /** With the serious findings in front each check is charged its heaviest deduction, behind the others its
      lightest. */
  lemma ExtremesAreFirst(early: seq<Finding>, late: seq<Finding>, fs: seq<Finding>, id: string)
    requires forall f :: f in early ==> Serious(f.severity)
    requires forall f :: f in late ==> !Serious(f.severity)
    requires SameFindings(early + late, fs) && id in Seen(fs)
    ensures FirstAmount(early + late, id) == Heaviest(fs, id)
    ensures FirstAmount(late + early, id) == Lightest(fs, id)
  {
    hide Amount, FirstAmount, Heaviest, Lightest, Seen;
    HeaviestIs(fs, id);
    LightestIs(fs, id);
    var h :| h in fs && h.id == id && Amount(h) == Heaviest(fs, id);
    var l :| l in fs && l.id == id && Amount(l) == Lightest(fs, id);
    FirstBounds(early, late, h);
    FirstBounds(early, late, l);
    SeenOf(early + late, h);
    SeenOf(late + early, h);
    FirstIsOneOf(early + late, id);
    FirstIsOneOf(late + early, id);
  }

  lemma ExtremesAreCharged(early: seq<Finding>, late: seq<Finding>, fs: seq<Finding>, c: Category)
    requires forall f :: f in early ==> Serious(f.severity)
    requires forall f :: f in late ==> !Serious(f.severity)
    requires SameFindings(early + late, fs)
    ensures Deducted(early + late, c) == Most(fs, c) && Deducted(late + early, c) == Least(fs, c)
  {
    hide Amount, FirstAmount, Deducted, CategoryOf, Heaviest, Lightest;
    assert Seen(fs) == Seen(early + late) == Seen(late + early);
    forall id | id in Seen(fs)
      ensures FirstAmount(early + late, id) == Heaviest(fs, id) && FirstAmount(late + early, id) == Lightest(fs, id)
    {
      ExtremesAreFirst(early, late, fs, id);
    }
    DeductedIsFirstSum(early + late, c);
    DeductedIsFirstSum(late + early, c);
    SumSame(Seen(fs), FirstShare(early + late, c), HeaviestShare(fs, c));
    SumSame(Seen(fs), FirstShare(late + early, c), LightestShare(fs, c));
  }

  /** The two extreme orders charge a category the most and the least there is to charge. */
  lemma ExtremeOrdersCharge(a: seq<Finding>, c: Category)
    ensures Deducted(OnlyColor(SeriousFirst(a)), c) == Most(OnlyColor(a), c)
    ensures Deducted(OnlyColor(SeriousLast(a)), c) == Least(OnlyColor(a), c)
    ensures Least(OnlyColor(a), c) <= Most(OnlyColor(a), c)
    ensures Cap(OnlyColor(SeriousFirst(a))) == Cap(OnlyColor(a)) == Cap(OnlyColor(SeriousLast(a)))
  {
    hide Deducted, OnlyColor, IsColor, Most, Least, Cap;
    PickedSeverity(a, true);
    PickedSeverity(a, false);
    SeriousOrdersReorder(a);
    ReorderingIsSame(a, SeriousFirst(a));
    ReorderingIsSame(a, SeriousLast(a));
    var early, late, fs := OnlyColor(Picked(a, true)), OnlyColor(Picked(a, false)), OnlyColor(a);
    OnlyColorMembers(Picked(a, true));
    OnlyColorMembers(Picked(a, false));
    OnlyColorMembers(a);
    OnlyColorOfAppend(Picked(a, true), Picked(a, false));
    OnlyColorOfAppend(Picked(a, false), Picked(a, true));
    assert SameFindings(early + late, fs) && SameFindings(late + early, fs);
    ExtremesAreCharged(early, late, fs, c);
    DeductedBetween(early, late, fs, c);
    SameCap(early + late, fs);
    SameCap(late + early, fs);
  }

  predicate GoodWeights(w: PerCategory) {
    w.colorSpaces >= 0 && w.inkCoverage >= 0 && w.profiles >= 0 && w.spotColors >= 0 && w.overprint >= 0
    && w.Total() == 1000
  }

  /** What is left of the weights after the heaviest charges. */
  ghost function LeastLeft(fs: seq<Finding>, w: PerCategory): int {
    MaxI(0, w.colorSpaces - Most(fs, ColorSpaces)) + MaxI(0, w.inkCoverage - Most(fs, InkCoverage))
    + MaxI(0, w.profiles - Most(fs, Profiles)) + MaxI(0, w.spotColors - Most(fs, SpotColors))
    + MaxI(0, w.overprint - Most(fs, Overprint))
  }

  /** No category is charged differently within its weight. */
  ghost predicate ChargesAgree(fs: seq<Finding>, w: PerCategory) {
    forall c: Category :: MinI(Most(fs, c), w.At(c)) == MinI(Least(fs, c), w.At(c))
  }

  /** What a charge leaves of a weight: two charges leave the same when they agree within it. */
  lemma LeftAgreeIff(weight: int, most: nat, least: nat)
    requires weight >= 0 && least <= most
    ensures MaxI(0, weight - most) <= MaxI(0, weight - least)
    ensures MaxI(0, weight - most) == MaxI(0, weight - least) <==> MinI(most, weight) == MinI(least, weight)
  {
  }

  /** The two totals, the first of them the lower: when they agree, and when a cap hides the difference. */
  lemma TotalsAgreeIff(fs: seq<Finding>, w: PerCategory, low: PerCategory, high: PerCategory)
    requires GoodWeights(w)
    requires forall c: Category :: Least(fs, c) <= Most(fs, c)
    requires forall c: Category ::
      low.At(c) == MaxI(0, w.At(c) - Most(fs, c)) && high.At(c) == MaxI(0, w.At(c) - Least(fs, c))
    ensures low.Total() == LeastLeft(fs, w) <= high.Total()
    ensures low.Total() == high.Total() <==> ChargesAgree(fs, w)
  {
    hide Most, Least, MaxI, MinI;
    forall c: Category
      ensures low.At(c) <= high.At(c)
      ensures low.At(c) == high.At(c) <==> MinI(Most(fs, c), w.At(c)) == MinI(Least(fs, c), w.At(c))
    {
      LeftAgreeIff(w.At(c), Most(fs, c), Least(fs, c));
    }
    TotalIsOfParts(low, high);
    assert LeastLeft(fs, w) == low.Total() by {
      assert low.colorSpaces == low.At(ColorSpaces) && low.inkCoverage == low.At(InkCoverage);
      assert low.profiles == low.At(Profiles) && low.spotColors == low.At(SpotColors);
      assert low.overprint == low.At(Overprint);
    }
  }

  /** Totals of numbers in order agree exactly when the numbers do. */
  lemma TotalIsOfParts(low: PerCategory, high: PerCategory)
    requires forall c: Category :: low.At(c) <= high.At(c)
    ensures low.Total() <= high.Total()
    ensures low.Total() == high.Total() <==> forall c: Category :: low.At(c) == high.At(c)
  {
    assert low.At(ColorSpaces) <= high.At(ColorSpaces) && low.At(InkCoverage) <= high.At(InkCoverage);
    assert low.At(Profiles) <= high.At(Profiles) && low.At(SpotColors) <= high.At(SpotColors);
    assert low.At(Overprint) <= high.At(Overprint);
  }

  function Under(total: int, cap: Option<nat>): int {
    if cap.Some? then MinI(total, cap.value) else total
  }

  /** An order's score by its charges. */
  lemma ScoreByCharges(a: seq<Finding>, b: seq<Finding>, w: PerCategory)
    requires GoodWeights(w) && Cap(OnlyColor(b)) == Cap(OnlyColor(a))
    ensures var p := Breakdown(OnlyColor(b), w);
            && (forall c: Category :: p.At(c) == MaxI(0, w.At(c) - Deducted(OnlyColor(b), c)))
            && Score(b, w) == Under(p.Total(), Cap(OnlyColor(a)))
  {
    hide Score, OnlyColor, Deducted, Cap, Breakdown;
    ScoreIsCappedSum(b, w);
  }

  lemma ExtremeScores(a: seq<Finding>, w: PerCategory) returns (high: int)
    requires GoodWeights(w)
    ensures var fs := OnlyColor(a);
            && LeastLeft(fs, w) <= high && (LeastLeft(fs, w) == high <==> ChargesAgree(fs, w))
            && Score(SeriousFirst(a), w) == Under(LeastLeft(fs, w), Cap(fs))
            && Score(SeriousLast(a), w) == Under(high, Cap(fs))
  {
    hide Score, SeriousFirst, SeriousLast, OnlyColor, Deducted, Cap, Most, Least, ChargesAgree, LeastLeft, Breakdown, MaxI, Under;
    var fs, low, last := OnlyColor(a), Breakdown(OnlyColor(SeriousFirst(a)), w), Breakdown(OnlyColor(SeriousLast(a)), w);
    forall c: Category
      ensures Deducted(OnlyColor(SeriousFirst(a)), c) == Most(fs, c)
      ensures Deducted(OnlyColor(SeriousLast(a)), c) == Least(fs, c) <= Most(fs, c)
    {
      ExtremeOrdersCharge(a, c);
    }
    ExtremeOrdersCharge(a, ColorSpaces);
    ScoreByCharges(a, SeriousFirst(a), w);
    ScoreByCharges(a, SeriousLast(a), w);
    TotalsAgreeIff(fs, w, low, last);
    high := last.Total();
  }

  /** So every order of some findings has one score exactly when, within each category's weight, the heaviest and the
      lightest deductions of its checks come to the same, or a critical cap is hit that is no higher than what the
      heaviest ones leave. */
  lemma ScoreIgnoresOrderIff(a: seq<Finding>, w: PerCategory)
    requires GoodWeights(w)
    ensures (forall b :: Reordering(a, b) ==> Score(b, w) == Score(a, w)) <==>
      var fs := OnlyColor(a);
      ChargesAgree(fs, w) || (Cap(fs).Some? && Cap(fs).value <= LeastLeft(fs, w))
  {
    hide Score, Reordering, SeriousFirst, SeriousLast, OnlyColor, Cap, ChargesAgree, LeastLeft;
    ExtremeOrdersDecide(a, w);
    var high := ExtremeScores(a, w);
  }
}
