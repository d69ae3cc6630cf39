/** The tables of the colour score read the other way round: which checks make each deduction, hit each cap and belong to
    each category. */
module ScoreTables {
  import opened Prelude
  import opened ColorScore

  predicate SevereOneOf(f: Finding, ids: set<string>) {
    !f.severity.Advisory? && f.id in ids
  }

  /** The errors and warnings by what they deduct, in tenths, and the minor checks, which deduct at any severity. */
  lemma ChecksByDeduction(f: Finding)
    ensures Amount(f) == 100 <==> SevereOneOf(f, {"LPDF_COLOR_004", "LPDF_SPOT_004"})
    ensures Amount(f) == 80 <==> SevereOneOf(f, {"LPDF_GAMUT_001", "LPDF_ICC_003"})
    ensures Amount(f) == 70 <==> SevereOneOf(f, {"LPDF_SPOT_001"})
    ensures Amount(f) == 50 <==> SevereOneOf(f, {"LPDF_SPOT_002", "LPDF_SPOT_003", "LPDF_ICC_009",
      "LPDF_OVER_004", "LPDF_OVER_006", "LPDF_OVER_008"})
    ensures Amount(f) == 30 <==> SevereOneOf(f, {"LPDF_OVER_001", "LPDF_OVER_002", "LPDF_COLOR_002", "LPDF_COLOR_008",
      "LPDF_ICC_007", "LPDF_ADV_005", "LPDF_ADV_006"})
    ensures Amount(f) == 20 <==> SevereOneOf(f, {"LPDF_OVER_003", "LPDF_ADV_001", "LPDF_COLOR_015"})
    ensures Amount(f) == 15 <==> f.id in {"LPDF_ADV_003", "LPDF_ICC_008"}
    ensures Amount(f) == 10 <==> f.id == "LPDF_INK_001"
    ensures Amount(f) == 5 <==> f.id in {"LPDF_SPOT_006", "LPDF_INK_003"}
    ensures Amount(f) in {100, 80, 70, 50, 30, 20, 15, 10, 5, 0}
  {
    if f.id in MAJOR && Serious(f.severity) {
      MajorIsListed(f);
    } else if f.id in MODERATE && Serious(f.severity) {
      ModerateIsListed(f);
    } else {
      MinorIsListed(f);
    }
  }

  lemma MajorIsListed(f: Finding)
    requires f.id in MAJOR
    ensures MAJOR[f.id] == 100 <==> f.id in {"LPDF_COLOR_004", "LPDF_SPOT_004"}
    ensures MAJOR[f.id] == 80 <==> f.id in {"LPDF_GAMUT_001", "LPDF_ICC_003"}
    ensures MAJOR[f.id] == 70 <==> f.id == "LPDF_SPOT_001"
    ensures MAJOR[f.id] == 50 <==> f.id in {"LPDF_SPOT_002", "LPDF_SPOT_003", "LPDF_ICC_009"}
    ensures MAJOR[f.id] in {100, 80, 70, 50}
  {
  }

  lemma ModerateIsListed(f: Finding)
    requires f.id in MODERATE
    ensures MODERATE[f.id] == 50 <==> f.id in {"LPDF_OVER_004", "LPDF_OVER_006", "LPDF_OVER_008"}
    ensures MODERATE[f.id] == 30 <==> f.id in {"LPDF_OVER_001", "LPDF_OVER_002", "LPDF_COLOR_002", "LPDF_COLOR_008",
      "LPDF_ICC_007", "LPDF_ADV_005", "LPDF_ADV_006"}
    ensures MODERATE[f.id] == 20 <==> f.id in {"LPDF_OVER_003", "LPDF_ADV_001", "LPDF_COLOR_015"}
    ensures MODERATE[f.id] in {50, 30, 20}
  {
  }

  lemma MinorIsListed(f: Finding)
    ensures f.id in MINOR <==> f.id in {"LPDF_ADV_003", "LPDF_ICC_008", "LPDF_INK_001", "LPDF_SPOT_006", "LPDF_INK_003",
      "LPDF_COLOR_014"}
    ensures f.id in MINOR ==>
      MINOR[f.id] == if f.id in {"LPDF_ADV_003", "LPDF_ICC_008"} then 15 else if f.id == "LPDF_INK_001" then 10
        else if f.id in {"LPDF_SPOT_006", "LPDF_INK_003"} then 5 else 0
  {
  }

  /** The errors that cap the score, by their cap in tenths. */
  lemma ErrorsByCap(f: Finding)
    ensures Cap([f]) == Some(200) <==> f == Finding("LPDF_COLOR_013", Error)
    ensures Cap([f]) == Some(250) <==> f == Finding("LPDF_COLOR_006", Error)
    ensures Cap([f]) == Some(300) <==> f.severity.Error? && f.id in {"LPDF_ICC_001", "LPDF_ICC_003"}
    ensures Cap([f]) in {Some(200), Some(250), Some(300), None}
  {
    assert [f][..0] == [] && Cap([]) == None;
    assert Cap([f]) == Lower(None, f);
  }

  /** The checks that count, and the categories by the prefixes of their checks. */
  lemma ChecksByCategory(f: Finding)
    ensures IsColor(f) <==>
      || "LPDF_COLOR_" <= f.id || "LPDF_ICC_" <= f.id || "LPDF_SPOT_" <= f.id || "LPDF_OVER_" <= f.id
      || "LPDF_INK_" <= f.id || "LPDF_ADV_" <= f.id || "LPDF_GAMUT_" <= f.id || "LPDF_STD_" <= f.id
      || "LPDF_ECG_" <= f.id || "LPDF_EPM_" <= f.id
    ensures CategoryOf(f.id) == Profiles <==> "LPDF_ICC_" <= f.id || "LPDF_GAMUT_" <= f.id
    ensures CategoryOf(f.id) == SpotColors <==> "LPDF_SPOT_" <= f.id
    ensures CategoryOf(f.id) == Overprint <==> "LPDF_OVER_" <= f.id
    ensures CategoryOf(f.id) == InkCoverage <==> "LPDF_INK_" <= f.id || "LPDF_ADV_" <= f.id || "LPDF_EPM_" <= f.id
  {
    hide Tag;
    var id := f.id;
    assert PREFIXES[0].0 == "LPDF_COLOR_" && PREFIXES[1].0 == "LPDF_ICC_" && PREFIXES[2].0 == "LPDF_SPOT_";
    assert PREFIXES[3].0 == "LPDF_OVER_" && PREFIXES[4].0 == "LPDF_INK_" && PREFIXES[5].0 == "LPDF_ADV_";
    assert PREFIXES[6].0 == "LPDF_GAMUT_" && PREFIXES[7].0 == "LPDF_STD_" && PREFIXES[8].0 == "LPDF_ECG_";
    assert PREFIXES[9].0 == "LPDF_EPM_";
    if HasPrefix(id) {
      var k :| 0 <= k < |PREFIXES| && PREFIXES[k].0 <= id;
      forall j: nat | j < |PREFIXES| && j != k ensures !(PREFIXES[j].0 <= id) {
        if PREFIXES[j].0 <= id {
          PrefixesAreExclusive(id, j, k);
        }
      }
      FirstFitting(PREFIXES, id, k);
    } else {
      NoneFitting(PREFIXES, id);
    }
  }

  lemma {:induction false} FirstFitting(ps: seq<(string, Category)>, id: string, k: nat)
    requires k < |ps| && ps[k].0 <= id && forall j :: 0 <= j < |ps| && j != k ==> !(ps[j].0 <= id)
    ensures CategoryIn(ps, id) == ps[k].1
  {
    if k > 0 {
      FirstFitting(ps[1..], id, k - 1);
    }
  }

  lemma {:induction false} NoneFitting(ps: seq<(string, Category)>, id: string)
    requires forall j :: 0 <= j < |ps| ==> !(ps[j].0 <= id)
    ensures CategoryIn(ps, id) == ColorSpaces
  {
    if ps != [] {
      NoneFitting(ps[1..], id);
    }
  }

  /** The default weights in tenths: a quarter each for colour spaces and ink, a fifth for profiles, the rest shared. */
  lemma DefaultWeights()
    ensures DEFAULT_WEIGHTS.At(ColorSpaces) == DEFAULT_WEIGHTS.At(InkCoverage) == 250
    ensures DEFAULT_WEIGHTS.At(Profiles) == 200
    ensures DEFAULT_WEIGHTS.At(SpotColors) == DEFAULT_WEIGHTS.At(Overprint) == 150
    ensures DEFAULT_WEIGHTS.Total() == 1000
  {
  }

  /** The grades by their ranges in tenths. */
  lemma GradesByScore(score: int)
    ensures GradeOf(score) == Excellent <==> 900 <= score
    ensures GradeOf(score) == Good <==> 750 <= score < 900
    ensures GradeOf(score) == Fair <==> 500 <= score < 750
    ensures GradeOf(score) == Poor <==> 250 <= score < 500
    ensures GradeOf(score) == Critical <==> score < 250
  {
  }

  /** Finding k is the first of its check and deducts something. */
  predicate Charged(fs: seq<Finding>, k: nat)
    requires k < |fs|
  {
    Amount(fs[k]) > 0 && forall j :: 0 <= j < k ==> fs[j].id != fs[k].id
  }

  /** The details are those of the charged findings, each with its own check, severity, deduction and category. */
  lemma {:induction false} DetailsAreCharged(fs: seq<Finding>)
    ensures forall d :: d in Details(fs) <==> exists k: nat :: IsDetail(fs, k, d)
  {
    hide Amount, CategoryOf, Seen;
    if fs == [] {
      assert forall d: Detail, k: nat :: !IsDetail([], k, d);
    } else {
      var n := |fs| - 1;
      var p, f := fs[..n], fs[n];
      DetailsAreCharged(p);
      DetailsSnoc(p, f);
      assert p + [f] == fs;
      FirstOfCheck(fs, n);
      forall d ensures d in Details(fs) <==> exists k: nat :: IsDetail(fs, k, d) {
        if d in Details(p) {
          var k: nat :| IsDetail(p, k, d);
          assert IsDetail(fs, k, d);
        } else if d in Details(fs) {
          assert IsDetail(fs, n, d);
        }
        if k: nat :| IsDetail(fs, k, d) {
          if k < n {
            assert IsDetail(p, k, d);
          }
        }
      }
    }
  }

  predicate IsDetail(fs: seq<Finding>, k: nat, d: Detail) {
    k < |fs| && Charged(fs, k) && d == Detail(fs[k].id, fs[k].severity, Amount(fs[k]), CategoryOf(fs[k].id))
  }

  lemma FirstOfCheck(fs: seq<Finding>, n: nat)
    requires n < |fs|
    ensures fs[n].id in Seen(fs[..n]) <==> exists j :: 0 <= j < n && fs[j].id == fs[n].id
  {
    if j :| 0 <= j < n && fs[j].id == fs[n].id {
      assert fs[..n][j] == fs[j];
    }
  }
}
