/** What each of the seven counters of a scoring pass counts, as plain sums over the files. */
module ReplayTotals {
  import opened Prelude
  import opened AuditReplay
  import opened Scoreboard
  import opened ReplayLaws

  /** The findings of a rule, or all of them. */
  function OfRule(fs: seq<Finding>, rule: Option<string>): nat {
    if fs == [] then 0
    else
      var f := fs[|fs| - 1];
      OfRule(fs[..|fs| - 1], rule) + (if rule == None || rule == Some(f.key.rule) then 1 else 0)
  }

  /** The findings that some fresh finding takes. */
  function Taken(base: AuditSet, rerun: map<string, AuditSet>): set<nat>
    requires base.name in rerun
  {
    Used(Assign(base.findings, rerun[base.name].findings))
  }

  /** What one file adds to a counter. */
  function FileSum(base: AuditSet, rerun: map<string, AuditSet>, kind: Kind, rule: Option<string>): int
    requires kind != Regression
  {
    match kind
    case BaselineTotal => OfRule(base.findings, rule)
    case BaselineDisputed => TotalOf(base.findings, Disputed, rule)
    case FreshTotal => if base.name in rerun then OfRule(rerun[base.name].findings, rule) else 0
    case FreshDisputed =>
      if base.name in rerun then TakenOf(base.findings, Taken(base, rerun), Disputed, rule) else 0
    case RemovedDisputed =>
      if base.name in rerun
      then TotalOf(base.findings, Disputed, rule) - TakenOf(base.findings, Taken(base, rerun), Disputed, rule) else 0
    case RemovedConfirmed =>
      if base.name in rerun
      then TotalOf(base.findings, Confirmed, rule) - TakenOf(base.findings, Taken(base, rerun), Confirmed, rule) else 0
  }

  function SumOfFiles(baseline: seq<AuditSet>, rerun: map<string, AuditSet>, kind: Kind, rule: Option<string>): int
    requires kind != Regression
  {
    if baseline == [] then 0
    else SumOfFiles(baseline[..|baseline| - 1], rerun, kind, rule)
           + FileSum(baseline[|baseline| - 1], rerun, kind, rule)
  }

  lemma {:induction false} BaselineTotalCount(base: seq<Finding>, rule: Option<string>)
    ensures Count(BaselineEntries(base), BaselineTotal, rule) == OfRule(base, rule)
  {
    hide Count;
    if base == [] {
      NoneOfKind([], BaselineTotal, rule);
    } else {
      var n := |base| - 1;
      BaselineTotalCount(base[..n], rule);
      var total, disputed := Entry(base[n].key.rule, BaselineTotal), Entry(base[n].key.rule, BaselineDisputed);
      CountSnoc(BaselineEntries(base[..n]), total, BaselineTotal, rule);
      CountSnoc(BaselineEntries(base[..n]) + [total], disputed, BaselineTotal, rule);
      assert BaselineEntries(base[..n]) + [total] + [] == BaselineEntries(base[..n]) + [total];
    }
  }

  lemma {:induction false} FreshTotalCount(before: seq<Entry>, base: seq<Finding>, rerun: seq<Finding>, rule: Option<string>)
    ensures Count(FreshEntries(before, base, rerun), FreshTotal, rule) == OfRule(rerun, rule)
  {
    hide Count, Match, Used, Assign, FreshStep;
    if rerun == [] {
      NoneOfKind([], FreshTotal, rule);
    } else {
      var n := |rerun| - 1;
      FreshTotalCount(before, base, rerun[..n], rule);
      var m := Match(base, Used(Assign(base, rerun[..n])), rerun[n]);
      CountAppend(FreshEntries(before, base, rerun[..n]), FreshStep(before, base, rerun[n], m), FreshTotal, rule);
      StepCount(before, base, rerun[n], m, FreshTotal, rule);
    }
  }

  lemma FileIsSum(before: seq<Entry>, base: AuditSet, rerun: map<string, AuditSet>, kind: Kind, rule: Option<string>)
    requires kind != Regression
    ensures Count(FileEntries(before, base, rerun), kind, rule) == FileSum(base, rerun, kind, rule)
  {
    hide Count, Used, Assign, BaselineEntries, FreshEntries, RemovedEntries, FileEntries, TotalOf, TakenOf, OfRule;
    FileCount(before, base, rerun, kind, rule);
    BaselineTotalCount(base.findings, rule);
    BaselineCount(base.findings, rule);
    if base.name in rerun {
      var ff := rerun[base.name].findings;
      FreshTotalCount(before + BaselineEntries(base.findings), base.findings, ff, rule);
      FreshDisputedCount(before + BaselineEntries(base.findings), base.findings, ff, rule);
      RemovedCount(base.findings, Taken(base, rerun), rule);
    }
  }

  lemma {:induction false} LedgerIsSum(baseline: seq<AuditSet>, rerun: map<string, AuditSet>, kind: Kind, rule: Option<string>)
    requires kind != Regression
    ensures Count(Ledger(baseline, rerun), kind, rule) == SumOfFiles(baseline, rerun, kind, rule)
  {
    hide Count, FileEntries, FileSum;
    if baseline == [] {
      NoneOfKind([], kind, rule);
    } else {
      var n := |baseline| - 1;
      var before := Ledger(baseline[..n], rerun);
      LedgerIsSum(baseline[..n], rerun, kind, rule);
      CountAppend(before, FileEntries(before, baseline[n], rerun), kind, rule);
      FileIsSum(before, baseline[n], rerun, kind, rule);
    }
  }

  /** Each counter but the regressions, overall or for a rule: all findings and the disputed ones of the baseline, those
      of the fresh run, and of the covered files the disputed ones taken and the disputed and confirmed ones not taken. */
  lemma CountersAreSums(baseline: seq<AuditSet>, rerun: map<string, AuditSet>, rule: Option<string>)
    ensures var t := Tally(Ledger(baseline, rerun), rule);
            && t.baselineTotal == SumOfFiles(baseline, rerun, BaselineTotal, rule)
            && t.baselineDisputed == SumOfFiles(baseline, rerun, BaselineDisputed, rule)
            && t.freshTotal == SumOfFiles(baseline, rerun, FreshTotal, rule)
            && t.freshDisputed == SumOfFiles(baseline, rerun, FreshDisputed, rule)
            && t.removedDisputed == SumOfFiles(baseline, rerun, RemovedDisputed, rule)
            && t.removedConfirmed == SumOfFiles(baseline, rerun, RemovedConfirmed, rule)
  {
    hide Count, Ledger, SumOfFiles;
    LedgerIsSum(baseline, rerun, BaselineTotal, rule);
    LedgerIsSum(baseline, rerun, BaselineDisputed, rule);
    LedgerIsSum(baseline, rerun, FreshTotal, rule);
    LedgerIsSum(baseline, rerun, FreshDisputed, rule);
    LedgerIsSum(baseline, rerun, RemovedDisputed, rule);
    LedgerIsSum(baseline, rerun, RemovedConfirmed, rule);
  }
}
