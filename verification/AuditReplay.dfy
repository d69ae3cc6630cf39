/** Matching a fresh run of findings against an audited baseline, and the scoreboard it yields. */
module AuditReplay {
  import opened Prelude
  import opened Overlap

  datatype Key = Key(rule: string, page: Option<int>)

  datatype Verdict = Confirmed | Disputed | NeedsContext | Skipped | OtherVerdict(text: string)

  datatype Finding = Finding(key: Key, bbox: Option<Box>, verdict: Verdict)

  datatype AuditSet = AuditSet(name: string, findings: seq<Finding>)

  const THRESHOLD := 0.5

  /** Findings without a box on either side count as a perfect match. */
  function Similarity(f: Finding, b: Finding): real {
    if f.bbox.Some? && b.bbox.Some? then Iou(f.bbox.value, b.bbox.value) else 1.0
  }

  lemma SimilarityLaws(f: Finding, b: Finding)
    ensures 0.0 <= Similarity(f, b) <= 1.0
    ensures Similarity(f, f) == 1.0
  {
    if f.bbox.Some? && b.bbox.Some? {
      IouLaws(f.bbox.value, b.bbox.value);
    }
    if f.bbox.Some? {
      IouLaws(f.bbox.value, f.bbox.value);
    }
  }

  // ---- Matching one fresh finding -------------------------------------------------------

  /** Baseline finding i is in the bucket of f and nobody has taken it. */
  predicate Available(base: seq<Finding>, used: set<nat>, f: Finding, i: nat) {
    i < |base| && i !in used && base[i].key == f.key
  }

  function ScoreOf(base: seq<Finding>, f: Finding, best: Option<nat>): real
    requires best.Some? ==> best.value < |base|
  {
    if best.Some? then Similarity(f, base[best.value]) else 0.0
  }

  /** The most similar available finding among the first n, the earliest among equals. */
  function Best(base: seq<Finding>, used: set<nat>, f: Finding, n: nat): (r: Option<nat>)
    requires n <= |base|
    ensures r.Some? ==> r.value < n
  {
    if n == 0 then None
    else
      var best := Best(base, used, f, n - 1);
      if Available(base, used, f, n - 1) && Similarity(f, base[n - 1]) > ScoreOf(base, f, best) then Some(n - 1)
      else best
  }

  function Match(base: seq<Finding>, used: set<nat>, f: Finding): (r: Option<nat>)
    ensures r.Some? ==> r.value < |base|
  {
    var best := Best(base, used, f, |base|);
    if best.Some? && ScoreOf(base, f, best) >= THRESHOLD then best else None
  }

  /** What a match should be: an available finding of the same bucket, at least at the threshold, that no
      other available one beats and no earlier one equals; None only when none reaches the threshold. */
  ghost predicate IsMatch(base: seq<Finding>, used: set<nat>, f: Finding, m: Option<nat>) {
    match m
    case None => forall j: nat :: Available(base, used, f, j) ==> Similarity(f, base[j]) < THRESHOLD
    case Some(i) =>
      && Available(base, used, f, i)
      && Similarity(f, base[i]) >= THRESHOLD
      && forall j: nat :: Available(base, used, f, j) ==>
           Similarity(f, base[j]) <= Similarity(f, base[i]) && (j < i ==> Similarity(f, base[j]) < Similarity(f, base[i]))
  }

  lemma {:induction false} BestIsBest(base: seq<Finding>, used: set<nat>, f: Finding, n: nat)
    requires n <= |base|
    ensures var r := Best(base, used, f, n);
            && (r.Some? ==> Available(base, used, f, r.value) && ScoreOf(base, f, r) > 0.0)
            && forall j: nat :: j < n && Available(base, used, f, j) ==>
                 Similarity(f, base[j]) <= ScoreOf(base, f, r)
                 && (r.Some? && j < r.value ==> Similarity(f, base[j]) < ScoreOf(base, f, r))
  {
    hide Similarity;
    if n > 0 {
      BestIsBest(base, used, f, n - 1);
    }
  }

  lemma MatchIsMatch(base: seq<Finding>, used: set<nat>, f: Finding)
    ensures IsMatch(base, used, f, Match(base, used, f))
  {
    hide Similarity;
    BestIsBest(base, used, f, |base|);
  }

  lemma MatchIsUnique(base: seq<Finding>, used: set<nat>, f: Finding, m: Option<nat>)
    requires IsMatch(base, used, f, m)
    ensures m == Match(base, used, f)
  {
    hide Similarity;
    MatchIsMatch(base, used, f);
    var r := Match(base, used, f);
    if m.Some? && r.Some? {
      assert Available(base, used, f, m.value) && Available(base, used, f, r.value);
    }
  }

  // ---- Matching a file ------------------------------------------------------------------

  function Used(pairs: seq<Option<nat>>): set<nat> {
    set k | 0 <= k < |pairs| && pairs[k].Some? :: pairs[k].value
  }

  /** For each fresh finding in turn, the baseline finding it takes. */
  function Assign(base: seq<Finding>, rerun: seq<Finding>): (r: seq<Option<nat>>)
    ensures |r| == |rerun|
  {
    if rerun == [] then []
    else
      var n := |rerun| - 1;
      var earlier := Assign(base, rerun[..n]);
      earlier + [Match(base, Used(earlier), rerun[n])]
  }

  lemma UsedSnoc(pairs: seq<Option<nat>>, m: Option<nat>)
    ensures Used(pairs + [m]) == Used(pairs) + (if m.Some? then {m.value} else {})
  {
    var all := pairs + [m];
    forall i | i in Used(pairs) ensures i in Used(all) {
      var k :| 0 <= k < |pairs| && pairs[k].Some? && pairs[k].value == i;
      assert all[k].Some? && all[k].value == i;
    }
    if m.Some? {
      assert all[|pairs|].value == m.value;
    }
  }

  /** Pairs share a bucket and reach the threshold; no baseline finding is taken twice; and no fresh finding
      left without a partner could still be given one that nobody took. */
  ghost predicate SoundAssignment(base: seq<Finding>, rerun: seq<Finding>, a: seq<Option<nat>>)
    requires |a| == |rerun|
  {
    && (forall k :: 0 <= k < |a| && a[k].Some? ==>
         a[k].value < |base| && base[a[k].value].key == rerun[k].key
         && Similarity(rerun[k], base[a[k].value]) >= THRESHOLD)
    && (forall j, k :: 0 <= j < k < |a| && a[j].Some? && a[k].Some? ==> a[j].value != a[k].value)
    && (forall k, i: nat :: 0 <= k < |a| && a[k].None? && Available(base, Used(a), rerun[k], i) ==>
         Similarity(rerun[k], base[i]) < THRESHOLD)
  }

  lemma {:induction false} AssignIsSound(base: seq<Finding>, rerun: seq<Finding>)
    ensures SoundAssignment(base, rerun, Assign(base, rerun))
  {
    hide Match, Similarity, Used;
    if rerun != [] {
      var n := |rerun| - 1;
      var e := Assign(base, rerun[..n]);
      AssignIsSound(base, rerun[..n]);
      MatchIsMatch(base, Used(e), rerun[n]);
      SoundSnoc(base, rerun, e, Match(base, Used(e), rerun[n]));
    }
  }

  lemma SoundSnoc(base: seq<Finding>, rerun: seq<Finding>, e: seq<Option<nat>>, m: Option<nat>)
    requires rerun != [] && |e| == |rerun| - 1
    requires SoundAssignment(base, rerun[..|e|], e)
    requires IsMatch(base, Used(e), rerun[|e|], m)
    ensures SoundAssignment(base, rerun, e + [m])
  {
    hide Similarity;
    var a := e + [m];
    UsedSnoc(e, m);
    forall k | 0 <= k < |e| && e[k].Some? ensures e[k].value in Used(e) {}
    forall k, i: nat | 0 <= k < |a| && a[k].None? && Available(base, Used(a), rerun[k], i)
      ensures Similarity(rerun[k], base[i]) < THRESHOLD
    {
      assert Available(base, Used(e), rerun[k], i);
      if k < |e| {
        assert e[k].None? && rerun[..|e|][k] == rerun[k];
      }
    }
  }

  // ---- The ledger -----------------------------------------------------------------------

  datatype Kind =
    | BaselineTotal | BaselineDisputed | FreshTotal | FreshDisputed
    | Regression | RemovedDisputed | RemovedConfirmed

  datatype Entry = Entry(rule: string, kind: Kind)

  /** How many entries of a kind a ledger holds, for one rule or for all of them. */
  function Count(ledger: seq<Entry>, kind: Kind, rule: Option<string>): nat {
    if ledger == [] then 0
    else
      var n := |ledger| - 1;
      Count(ledger[..n], kind, rule) + (if Counts(ledger[n], kind, rule) then 1 else 0)
  }

  predicate Counts(e: Entry, kind: Kind, rule: Option<string>) {
    e.kind == kind && (rule.None? || rule.value == e.rule)
  }

  lemma {:induction false} CountAppend(a: seq<Entry>, b: seq<Entry>, kind: Kind, rule: Option<string>)
    ensures Count(a + b, kind, rule) == Count(a, kind, rule) + Count(b, kind, rule)
  {
    if b == [] {
      assert a + b == a;
    } else {
      var n := |b| - 1;
      assert (a + b)[..|a| + n] == a + b[..n];
      CountAppend(a, b[..n], kind, rule);
    }
  }

  function BaselineEntries(base: seq<Finding>): seq<Entry> {
    if base == [] then []
    else
      var f := base[|base| - 1];
      BaselineEntries(base[..|base| - 1]) + [Entry(f.key.rule, BaselineTotal)] +
        (if f.verdict.Disputed? then [Entry(f.key.rule, BaselineDisputed)] else [])
  }

  /** What one fresh finding adds. With no partner it is a regression when its rule has a disputed baseline
      finding in the files read so far. */
  function FreshStep(before: seq<Entry>, base: seq<Finding>, f: Finding, m: Option<nat>): seq<Entry>
    requires m.Some? ==> m.value < |base|
  {
    [Entry(f.key.rule, FreshTotal)] +
      (if m.Some? then
         if base[m.value].verdict.Disputed? then [Entry(f.key.rule, FreshDisputed)] else []
       else
         if Count(before, BaselineDisputed, Some(f.key.rule)) > 0 then [Entry(f.key.rule, Regression)] else [])
  }

  function FreshEntries(before: seq<Entry>, base: seq<Finding>, rerun: seq<Finding>): seq<Entry> {
    if rerun == [] then []
    else
      var n := |rerun| - 1;
      FreshEntries(before, base, rerun[..n]) +
        FreshStep(before, base, rerun[n], Match(base, Used(Assign(base, rerun[..n])), rerun[n]))
  }

  function RemovedEntries(base: seq<Finding>, used: set<nat>): seq<Entry> {
    if base == [] then []
    else
      var n := |base| - 1;
      RemovedEntries(base[..n], used) +
        (if n in used then []
         else if base[n].verdict.Disputed? then [Entry(base[n].key.rule, RemovedDisputed)]
         else if base[n].verdict.Confirmed? then [Entry(base[n].key.rule, RemovedConfirmed)]
         else [])
  }

  /** What one baseline file adds to the ledger; a file the fresh run does not cover only counts its baseline. */
  function FileEntries(before: seq<Entry>, base: AuditSet, rerun: map<string, AuditSet>): seq<Entry> {
    var baseline := BaselineEntries(base.findings);
    if base.name !in rerun then baseline
    else
      var ff := rerun[base.name].findings;
      baseline + FreshEntries(before + baseline, base.findings, ff)
        + RemovedEntries(base.findings, Used(Assign(base.findings, ff)))
  }

  function Ledger(baseline: seq<AuditSet>, rerun: map<string, AuditSet>): seq<Entry> {
    if baseline == [] then []
    else
      var before := Ledger(baseline[..|baseline| - 1], rerun);
      before + FileEntries(before, baseline[|baseline| - 1], rerun)
  }
}
