/** Laws of the replay scoreboard: sums, conservation, self-replay, and what counts as a regression. */
module ReplayLaws {
  import opened Prelude
  import opened SetSums
  import opened AuditReplay
  import opened Scoreboard

  // ---- The aggregate is the sum of the rules --------------------------------------------

  function Field(s: Stats, kind: Kind): nat {
    match kind
    case BaselineTotal => s.baselineTotal
    case BaselineDisputed => s.baselineDisputed
    case FreshTotal => s.freshTotal
    case FreshDisputed => s.freshDisputed
    case Regression => s.regressions
    case RemovedDisputed => s.removedDisputed
    case RemovedConfirmed => s.removedConfirmed
  }

  function CountsOf(l: seq<Entry>, kind: Kind): string -> nat {
    r => Count(l, kind, Some(r))
  }

  lemma {:induction false} CountIsSumOfRules(l: seq<Entry>, kind: Kind, rules: set<string>)
    requires Rules(l) <= rules
    ensures Count(l, kind, None) == SumOver(rules, CountsOf(l, kind))
  {
    if l == [] {
      SumZero(rules, CountsOf(l, kind));
    } else {
      var n := |l| - 1;
      assert l == l[..n] + [l[n]];
      RulesSnoc(l[..n], l[n]);
      CountIsSumOfRules(l[..n], kind, rules);
      forall r | r in rules
        ensures CountsOf(l, kind)(r) == CountsOf(l[..n], kind)(r) + (if l[n].kind == kind && r == l[n].rule then 1 else 0)
      {
        CountSnoc(l[..n], l[n], kind, Some(r));
      }
      if l[n].kind == kind {
        SumBump(rules, CountsOf(l[..n], kind), CountsOf(l, kind), l[n].rule);
      } else {
        SumSame(rules, CountsOf(l[..n], kind), CountsOf(l, kind));
      }
    }
  }

  function FieldsOf(perRule: map<string, Stats>, kind: Kind): string -> nat {
    r => if r in perRule then Field(perRule[r], kind) else 0
  }

  /** Each of the seven aggregate counters of a scoring pass is the sum of its per-rule counters. */
  lemma AggregateIsSumOfRules(baseline: seq<AuditSet>, rerun: map<string, AuditSet>,
                              agg: Stats, perRule: map<string, Stats>, kind: Kind)
    requires agg == Tally(Ledger(baseline, rerun), None)
    requires perRule.Keys == Rules(Ledger(baseline, rerun))
    requires forall r :: r in perRule ==> perRule[r] == Tally(Ledger(baseline, rerun), Some(r))
    ensures Field(agg, kind) == SumOver(perRule.Keys, FieldsOf(perRule, kind))
  {
    hide Ledger, Count;
    var l := Ledger(baseline, rerun);
    CountIsSumOfRules(l, kind, perRule.Keys);
    SumSame(perRule.Keys, CountsOf(l, kind), FieldsOf(perRule, kind));
  }

  // ---- Which kinds each part of the ledger holds ----------------------------------------

  lemma {:induction false} NoneOfKind(l: seq<Entry>, kind: Kind, rule: Option<string>)
    requires forall e :: e in l ==> e.kind != kind
    ensures Count(l, kind, rule) == 0
  {
    if l != [] {
      assert l[|l| - 1] in l;
      NoneOfKind(l[..|l| - 1], kind, rule);
    }
  }

  lemma {:induction false} BaselineKinds(base: seq<Finding>)
    ensures forall e :: e in BaselineEntries(base) ==> e.kind.BaselineTotal? || e.kind.BaselineDisputed?
  {
    if base != [] {
      BaselineKinds(base[..|base| - 1]);
    }
  }

  lemma {:induction false} FreshKinds(before: seq<Entry>, base: seq<Finding>, rerun: seq<Finding>)
    ensures forall e :: e in FreshEntries(before, base, rerun) ==>
      e.kind.FreshTotal? || e.kind.FreshDisputed? || e.kind.Regression?
  {
    if rerun != [] {
      FreshKinds(before, base, rerun[..|rerun| - 1]);
    }
  }

  lemma {:induction false} RemovedKinds(base: seq<Finding>, used: set<nat>)
    ensures forall e :: e in RemovedEntries(base, used) ==> e.kind.RemovedDisputed? || e.kind.RemovedConfirmed?
  {
    if base != [] {
      RemovedKinds(base[..|base| - 1], used);
    }
  }

  function IsKindOf(part: nat, kind: Kind): bool {
    match kind
    case BaselineTotal => part == 0
    case BaselineDisputed => part == 0
    case FreshTotal => part == 1
    case FreshDisputed => part == 1
    case Regression => part == 1
    case RemovedDisputed => part == 2
    case RemovedConfirmed => part == 2
  }

  /** A file's count of a kind comes from the one part of its entries that records the kind. */
  lemma FileCount(before: seq<Entry>, base: AuditSet, rerun: map<string, AuditSet>, kind: Kind, rule: Option<string>)
    ensures var b := BaselineEntries(base.findings);
            Count(FileEntries(before, base, rerun), kind, rule) ==
              if IsKindOf(0, kind) then Count(b, kind, rule)
              else if base.name !in rerun then 0
              else if IsKindOf(1, kind) then
                Count(FreshEntries(before + b, base.findings, rerun[base.name].findings), kind, rule)
              else
                Count(RemovedEntries(base.findings, Used(Assign(base.findings, rerun[base.name].findings))), kind, rule)
  {
    hide Count, BaselineEntries, FreshEntries, RemovedEntries, Assign, Used;
    var b := BaselineEntries(base.findings);
    BaselineKinds(base.findings);
    if !IsKindOf(0, kind) {
      NoneOfKind(b, kind, rule);
    }
    if base.name in rerun {
      var ff := rerun[base.name].findings;
      var f := FreshEntries(before + b, base.findings, ff);
      var r := RemovedEntries(base.findings, Used(Assign(base.findings, ff)));
      FreshKinds(before + b, base.findings, ff);
      RemovedKinds(base.findings, Used(Assign(base.findings, ff)));
      CountAppend(b + f, r, kind, rule);
      CountAppend(b, f, kind, rule);
      if !IsKindOf(1, kind) {
        NoneOfKind(f, kind, rule);
      }
      if !IsKindOf(2, kind) {
        NoneOfKind(r, kind, rule);
      }
    }
  }

  // ---- Conservation ---------------------------------------------------------------------

  predicate Selected(f: Finding, v: Verdict, rule: Option<string>) {
    f.verdict == v && (rule.None? || rule.value == f.key.rule)
  }

  /** Baseline findings with a verdict, for one rule or for all. */
  function TotalOf(base: seq<Finding>, v: Verdict, rule: Option<string>): nat {
    if base == [] then 0
    else TotalOf(base[..|base| - 1], v, rule) + (if Selected(base[|base| - 1], v, rule) then 1 else 0)
  }

  /** Those among them that some fresh finding took. */
  function TakenOf(base: seq<Finding>, used: set<nat>, v: Verdict, rule: Option<string>): nat {
    if base == [] then 0
    else
      var n := |base| - 1;
      TakenOf(base[..n], used, v, rule) + (if n in used && Selected(base[n], v, rule) then 1 else 0)
  }

  lemma {:induction false} TakeOneMore(base: seq<Finding>, used: set<nat>, i: nat, v: Verdict, rule: Option<string>)
    requires i !in used
    ensures TakenOf(base, used + {i}, v, rule)
         == TakenOf(base, used, v, rule) + (if i < |base| && Selected(base[i], v, rule) then 1 else 0)
  {
    if base != [] {
      TakeOneMore(base[..|base| - 1], used, i, v, rule);
    }
  }

  lemma {:induction false} TakenOfNone(base: seq<Finding>, v: Verdict, rule: Option<string>)
    ensures TakenOf(base, {}, v, rule) == 0
  {
    if base != [] {
      TakenOfNone(base[..|base| - 1], v, rule);
    }
  }

  lemma {:induction false} BaselineCount(base: seq<Finding>, rule: Option<string>)
    ensures Count(BaselineEntries(base), BaselineDisputed, rule) == TotalOf(base, Disputed, rule)
  {
    if base != [] {
      var n := |base| - 1;
      BaselineCount(base[..n], rule);
      var total, disputed := Entry(base[n].key.rule, BaselineTotal), Entry(base[n].key.rule, BaselineDisputed);
      CountSnoc(BaselineEntries(base[..n]), total, BaselineDisputed, rule);
      CountSnoc(BaselineEntries(base[..n]) + [total], disputed, BaselineDisputed, rule);
      assert BaselineEntries(base[..n]) + [total] + [] == BaselineEntries(base[..n]) + [total];
    }
  }

  lemma {:induction false} RemovedCount(base: seq<Finding>, used: set<nat>, rule: Option<string>)
    ensures Count(RemovedEntries(base, used), RemovedDisputed, rule) + TakenOf(base, used, Disputed, rule)
         == TotalOf(base, Disputed, rule)
    ensures Count(RemovedEntries(base, used), RemovedConfirmed, rule) + TakenOf(base, used, Confirmed, rule)
         == TotalOf(base, Confirmed, rule)
  {
    if base != [] {
      var n := |base| - 1;
      RemovedCount(base[..n], used, rule);
      RemovedStep(base, used, RemovedDisputed, rule);
      RemovedStep(base, used, RemovedConfirmed, rule);
    }
  }

  lemma RemovedStep(base: seq<Finding>, used: set<nat>, kind: Kind, rule: Option<string>)
    requires base != [] && (kind.RemovedDisputed? || kind.RemovedConfirmed?)
    ensures var n := |base| - 1;
            var v := if kind.RemovedDisputed? then Disputed else Confirmed;
            Count(RemovedEntries(base, used), kind, rule) ==
              Count(RemovedEntries(base[..n], used), kind, rule) + (if n !in used && Selected(base[n], v, rule) then 1 else 0)
  {
    hide Count;
    var n := |base| - 1;
    var l := RemovedEntries(base[..n], used);
    assert l + [] == l;
    if n !in used && base[n].verdict.Disputed? {
      CountSnoc(l, Entry(base[n].key.rule, RemovedDisputed), kind, rule);
    } else if n !in used && base[n].verdict.Confirmed? {
      CountSnoc(l, Entry(base[n].key.rule, RemovedConfirmed), kind, rule);
    }
  }

  /** The disputed findings that survive are exactly the disputed baseline findings taken, rule by rule:
      no baseline finding is taken twice, and partners share a rule. */
  lemma {:induction false} FreshDisputedCount(before: seq<Entry>, base: seq<Finding>, rerun: seq<Finding>, rule: Option<string>)
    ensures Count(FreshEntries(before, base, rerun), FreshDisputed, rule)
         == TakenOf(base, Used(Assign(base, rerun)), Disputed, rule)
  {
    if rerun == [] {
      assert Used(Assign(base, rerun)) == {};
      TakenOfNone(base, Disputed, rule);
    } else {
      var n := |rerun| - 1;
      FreshDisputedCount(before, base, rerun[..n], rule);
      FreshDisputedStep(before, base, rerun, rule);
    }
  }

  lemma FreshDisputedStep(before: seq<Entry>, base: seq<Finding>, rerun: seq<Finding>, rule: Option<string>)
    requires rerun != []
    requires var n := |rerun| - 1;
             Count(FreshEntries(before, base, rerun[..n]), FreshDisputed, rule)
               == TakenOf(base, Used(Assign(base, rerun[..n])), Disputed, rule)
    ensures Count(FreshEntries(before, base, rerun), FreshDisputed, rule)
         == TakenOf(base, Used(Assign(base, rerun)), Disputed, rule)
  {
    hide Count, Match, Used, TakenOf;
    var n := |rerun| - 1;
    var e := Assign(base, rerun[..n]);
    var m := Match(base, Used(e), rerun[n]);
    MatchIsMatch(base, Used(e), rerun[n]);
    UsedSnoc(e, m);
    var step := FreshStep(before, base, rerun[n], m);
    CountAppend(FreshEntries(before, base, rerun[..n]), step, FreshDisputed, rule);
    StepCount(before, base, rerun[n], m, FreshDisputed, rule);
    if m.Some? {
      TakeOneMore(base, Used(e), m.value, Disputed, rule);
    } else {
      assert Used(e) + {} == Used(e);
    }
  }

  lemma StepCount(before: seq<Entry>, base: seq<Finding>, f: Finding, m: Option<nat>, kind: Kind, rule: Option<string>)
    requires m.Some? ==> m.value < |base|
    ensures var mine := rule.None? || rule.value == f.key.rule;
            Count(FreshStep(before, base, f, m), kind, rule) ==
              if !mine then 0
              else match kind
                case FreshTotal => 1
                case FreshDisputed => if m.Some? && base[m.value].verdict.Disputed? then 1 else 0
                case Regression => if m.None? && Count(before, BaselineDisputed, Some(f.key.rule)) > 0 then 1 else 0
                case _ => 0
  {
    var total := Entry(f.key.rule, FreshTotal);
    var rest := FreshStep(before, base, f, m)[1..];
    assert FreshStep(before, base, f, m) == [total] + rest;
    CountAppend([total], rest, kind, rule);
    assert [total][..0] == [];
    assert rest != [] ==> rest[..0] == [];
    assert Count([], kind, rule) == 0;
  }

  /** Disputed baseline findings of the files that the fresh run covers. */
  function CoveredDisputed(baseline: seq<AuditSet>, rerun: map<string, AuditSet>, rule: Option<string>): nat {
    if baseline == [] then 0
    else
      var base := baseline[|baseline| - 1];
      CoveredDisputed(baseline[..|baseline| - 1], rerun, rule) +
        (if base.name in rerun then TotalOf(base.findings, Disputed, rule) else 0)
  }

  /** Nothing is lost: over the covered files every disputed baseline finding either survives or is removed,
      in the aggregate and for every rule. */
  lemma {:induction false} DisputedAreConserved(baseline: seq<AuditSet>, rerun: map<string, AuditSet>, rule: Option<string>)
    ensures var l := Ledger(baseline, rerun);
            Count(l, FreshDisputed, rule) + Count(l, RemovedDisputed, rule) == CoveredDisputed(baseline, rerun, rule)
  {
    hide Count, FileEntries, TotalOf;
    if baseline == [] {
      assert Count([], FreshDisputed, rule) == 0 && Count([], RemovedDisputed, rule) == 0 by {
        NoneOfKind([], FreshDisputed, rule);
        NoneOfKind([], RemovedDisputed, rule);
      }
    } else {
      var n := |baseline| - 1;
      var base := baseline[n];
      var before := Ledger(baseline[..n], rerun);
      DisputedAreConserved(baseline[..n], rerun, rule);
      CountAppend(before, FileEntries(before, base, rerun), FreshDisputed, rule);
      CountAppend(before, FileEntries(before, base, rerun), RemovedDisputed, rule);
      FileCount(before, base, rerun, FreshDisputed, rule);
      FileCount(before, base, rerun, RemovedDisputed, rule);
      if base.name in rerun {
        var ff := rerun[base.name].findings;
        FreshDisputedCount(before + BaselineEntries(base.findings), base.findings, ff, rule);
        RemovedCount(base.findings, Used(Assign(base.findings, ff)), rule);
      }
    }
  }

  // ---- Self-replay ----------------------------------------------------------------------

  function FirstNats(n: nat): (r: set<nat>)
    ensures forall j: nat :: j in r <==> j < n
  {
    if n == 0 then {} else FirstNats(n - 1) + {n - 1}
  }

  /** Against itself, every finding takes its own copy: the earlier ones are gone, and of the later ones none
      scores more than the perfect score of the copy. */
  lemma {:induction false} SelfAssign(base: seq<Finding>, n: nat)
    requires n <= |base|
    ensures var a := Assign(base, base[..n]);
            (forall k :: 0 <= k < n ==> a[k] == Some(k)) && Used(a) == FirstNats(n)
  {
    if n == 0 {
      NothingUsed();
      assert Assign(base, base[..0]) == [];
    } else {
      SelfAssign(base, n - 1);
      assert base[..n][..n - 1] == base[..n - 1];
      var e := Assign(base, base[..n - 1]);
      UsedSnoc(e, Some(n - 1));
      forall j: nat | j < |base| ensures 0.0 <= Similarity(base[n - 1], base[j]) <= 1.0 {
        SimilarityLaws(base[n - 1], base[j]);
      }
      SimilarityLaws(base[n - 1], base[n - 1]);
      assert IsMatch(base, Used(e), base[n - 1], Some(n - 1)) by {
        hide Similarity;
      }
      MatchIsUnique(base, Used(e), base[n - 1], Some(n - 1));
    }
  }

  lemma {:induction false} SelfFresh(before: seq<Entry>, base: seq<Finding>, n: nat, rule: Option<string>)
    requires n <= |base|
    ensures var l := FreshEntries(before, base, base[..n]);
            && Count(l, Regression, rule) == 0
            && Count(l, FreshTotal, rule) == Count(BaselineEntries(base[..n]), BaselineTotal, rule)
  {
    if n > 0 {
      SelfFresh(before, base, n - 1, rule);
      SelfFreshStep(before, base, n, rule);
    }
  }

  lemma SelfFreshStep(before: seq<Entry>, base: seq<Finding>, n: nat, rule: Option<string>)
    requires 0 < n <= |base|
    ensures var l, e := FreshEntries(before, base, base[..n]), FreshEntries(before, base, base[..n - 1]);
            var b, c := BaselineEntries(base[..n]), BaselineEntries(base[..n - 1]);
            && Count(l, Regression, rule) == Count(e, Regression, rule)
            && Count(l, FreshTotal, rule) - Count(e, FreshTotal, rule)
               == Count(b, BaselineTotal, rule) - Count(c, BaselineTotal, rule)
  {
    hide Count, Match, Used;
    assert base[..n][..n - 1] == base[..n - 1];
    SelfAssign(base, n);
    var f := base[n - 1];
    var m := Match(base, Used(Assign(base, base[..n - 1])), f);
    assert m == Assign(base, base[..n])[n - 1] == Some(n - 1);
    var e := FreshEntries(before, base, base[..n - 1]);
    var step := FreshStep(before, base, f, m);
    CountAppend(e, step, Regression, rule);
    CountAppend(e, step, FreshTotal, rule);
    StepCount(before, base, f, m, Regression, rule);
    StepCount(before, base, f, m, FreshTotal, rule);
    var c := BaselineEntries(base[..n - 1]);
    var total, disputed := Entry(f.key.rule, BaselineTotal), Entry(f.key.rule, BaselineDisputed);
    CountSnoc(c, total, BaselineTotal, rule);
    CountSnoc(c + [total], disputed, BaselineTotal, rule);
    assert c + [total] + [] == c + [total];
  }

  lemma {:induction false} AllTaken(base: seq<Finding>, used: set<nat>, v: Verdict, rule: Option<string>)
    requires forall k: nat :: k < |base| ==> k in used
    ensures TakenOf(base, used, v, rule) == TotalOf(base, v, rule)
  {
    if base != [] {
      AllTaken(base[..|base| - 1], used, v, rule);
    }
  }

  /** Scoring a data set against an equal copy: every finding pairs with itself, nothing is a regression,
      nothing is removed, and the disputed and total counts agree, in the aggregate and for every rule. */
  lemma {:induction false} SelfReplayIsIdentity(baseline: seq<AuditSet>, rerun: map<string, AuditSet>, rule: Option<string>)
    requires forall k :: 0 <= k < |baseline| ==>
      baseline[k].name in rerun && rerun[baseline[k].name].findings == baseline[k].findings
    ensures var t := Tally(Ledger(baseline, rerun), rule);
            && t.regressions == 0 && t.removedDisputed == 0 && t.removedConfirmed == 0
            && t.freshDisputed == t.baselineDisputed && t.freshTotal == t.baselineTotal
  {
    hide Count, FileEntries, BaselineEntries;
    if baseline == [] {
      forall kind: Kind ensures Count([], kind, rule) == 0 {
        NoneOfKind([], kind, rule);
      }
    } else {
      var n := |baseline| - 1;
      var base := baseline[n];
      var before := Ledger(baseline[..n], rerun);
      SelfReplayIsIdentity(baseline[..n], rerun, rule);
      forall kind: Kind
        ensures Count(Ledger(baseline, rerun), kind, rule)
             == Count(before, kind, rule) + Count(FileEntries(before, base, rerun), kind, rule)
      {
        CountAppend(before, FileEntries(before, base, rerun), kind, rule);
      }
      SelfFile(before, base, rerun, rule);
    }
  }

  lemma SelfFile(before: seq<Entry>, base: AuditSet, rerun: map<string, AuditSet>, rule: Option<string>)
    requires base.name in rerun && rerun[base.name].findings == base.findings
    ensures var l := FileEntries(before, base, rerun);
            && Count(l, Regression, rule) == 0
            && Count(l, RemovedDisputed, rule) == 0 && Count(l, RemovedConfirmed, rule) == 0
            && Count(l, FreshDisputed, rule) == Count(l, BaselineDisputed, rule)
            && Count(l, FreshTotal, rule) == Count(l, BaselineTotal, rule)
  {
    hide Count, FileEntries, BaselineEntries, Used;
    var fs := base.findings;
    var b := before + BaselineEntries(fs);
    assert fs[..|fs|] == fs;
    forall kind: Kind
      ensures Count(FileEntries(before, base, rerun), kind, rule) ==
        if IsKindOf(0, kind) then Count(BaselineEntries(fs), kind, rule)
        else if IsKindOf(1, kind) then Count(FreshEntries(b, fs, fs), kind, rule)
        else Count(RemovedEntries(fs, Used(Assign(fs, fs))), kind, rule)
    {
      FileCount(before, base, rerun, kind, rule);
    }
    SelfAssign(fs, |fs|);
    SelfFresh(b, fs, |fs|, rule);
    FreshDisputedCount(b, fs, fs, rule);
    BaselineCount(fs, rule);
    RemovedCount(fs, Used(Assign(fs, fs)), rule);
    AllTaken(fs, Used(Assign(fs, fs)), Disputed, rule);
    AllTaken(fs, Used(Assign(fs, fs)), Confirmed, rule);
  }

  // ---- What counts as a regression ------------------------------------------------------

  /** The rules of the fresh findings of a file that found no partner, in order. */
  function Unmatched(base: seq<Finding>, rerun: seq<Finding>): seq<string> {
    if rerun == [] then []
    else
      var n := |rerun| - 1;
      Unmatched(base, rerun[..n]) +
        (if Match(base, Used(Assign(base, rerun[..n])), rerun[n]).None? then [rerun[n].key.rule] else [])
  }

  function UnmatchedIn(base: AuditSet, rerun: map<string, AuditSet>): seq<string> {
    if base.name in rerun then Unmatched(base.findings, rerun[base.name].findings) else []
  }

  /** The rule has a disputed finding in these baseline files. */
  predicate DisputedIn(files: seq<AuditSet>, rule: string) {
    exists k :: 0 <= k < |files| && TotalOf(files[k].findings, Disputed, Some(rule)) > 0
  }

  function CountDisputed(files: seq<AuditSet>, rules: seq<string>, rule: Option<string>): nat {
    if rules == [] then 0
    else
      var r := rules[|rules| - 1];
      CountDisputed(files, rules[..|rules| - 1], rule) +
        (if (rule.None? || rule.value == r) && DisputedIn(files, r) then 1 else 0)
  }

  /** Regressions as the documentation has them: unmatched fresh findings whose rule is disputed anywhere in
      the baseline. The first `n` files are counted. */
  function Documented(all: seq<AuditSet>, n: nat, rerun: map<string, AuditSet>, rule: Option<string>): nat
    requires n <= |all|
  {
    if n == 0 then 0
    else Documented(all, n - 1, rerun, rule) + CountDisputed(all, UnmatchedIn(all[n - 1], rerun), rule)
  }

  /** Regressions as the code has them: only the files read so far, the current one included, are consulted. */
  function Counted(all: seq<AuditSet>, n: nat, rerun: map<string, AuditSet>, rule: Option<string>): nat
    requires n <= |all|
  {
    if n == 0 then 0
    else Counted(all, n - 1, rerun, rule) + CountDisputed(all[..n], UnmatchedIn(all[n - 1], rerun), rule)
  }

  lemma {:induction false} LedgerDisputed(files: seq<AuditSet>, rerun: map<string, AuditSet>, r: string)
    ensures Count(Ledger(files, rerun), BaselineDisputed, Some(r)) > 0 <==> DisputedIn(files, r)
  {
    hide Count, FileEntries, TotalOf, BaselineEntries;
    if files == [] {
      NoneOfKind([], BaselineDisputed, Some(r));
    } else {
      var n := |files| - 1;
      var before := Ledger(files[..n], rerun);
      LedgerDisputed(files[..n], rerun, r);
      CountAppend(before, FileEntries(before, files[n], rerun), BaselineDisputed, Some(r));
      FileCount(before, files[n], rerun, BaselineDisputed, Some(r));
      BaselineCount(files[n].findings, Some(r));
      DisputedInSnoc(files, r);
    }
  }

  lemma DisputedInSnoc(files: seq<AuditSet>, r: string)
    requires files != []
    ensures var n := |files| - 1;
            DisputedIn(files, r) <==> DisputedIn(files[..n], r) || TotalOf(files[n].findings, Disputed, Some(r)) > 0
  {
    hide TotalOf;
    var n := |files| - 1;
    forall k | 0 <= k < n ensures files[..n][k] == files[k] {}
  }

  lemma {:induction false} FreshRegressions(before: seq<Entry>, files: seq<AuditSet>, base: seq<Finding>,
                                            rerun: seq<Finding>, rule: Option<string>)
    requires forall r :: Count(before, BaselineDisputed, Some(r)) > 0 <==> DisputedIn(files, r)
    ensures Count(FreshEntries(before, base, rerun), Regression, rule)
         == CountDisputed(files, Unmatched(base, rerun), rule)
  {
    hide Count, DisputedIn, Match, Used;
    if rerun == [] {
      NoneOfKind([], Regression, rule);
    } else {
      var n := |rerun| - 1;
      var f := rerun[n];
      var m := Match(base, Used(Assign(base, rerun[..n])), f);
      FreshRegressions(before, files, base, rerun[..n], rule);
      CountAppend(FreshEntries(before, base, rerun[..n]), FreshStep(before, base, f, m), Regression, rule);
      StepCount(before, base, f, m, Regression, rule);
      var u := Unmatched(base, rerun[..n]);
      if m.None? {
        assert (u + [f.key.rule])[..|u|] == u;
      } else {
        assert u + [] == u;
      }
    }
  }

  /** The code counts by the prefix reading. */
  lemma {:induction false} RegressionsAreCounted(files: seq<AuditSet>, rerun: map<string, AuditSet>, rule: Option<string>)
    ensures Tally(Ledger(files, rerun), rule).regressions == Counted(files, |files|, rerun, rule)
  {
    hide Count, FileEntries, BaselineEntries, FreshEntries, CountDisputed, UnmatchedIn, DisputedIn;
    if files == [] {
      NoneOfKind([], Regression, rule);
    } else {
      var n := |files| - 1;
      var before := Ledger(files[..n], rerun);
      RegressionsAreCounted(files[..n], rerun, rule);
      CountedOfPrefix(files, n, n, rerun, rule);
      CountAppend(before, FileEntries(before, files[n], rerun), Regression, rule);
      FileCount(before, files[n], rerun, Regression, rule);
      FileRegressions(before, files, rerun, rule);
      assert files[..|files|] == files;
    }
  }

  lemma FileRegressions(before: seq<Entry>, files: seq<AuditSet>, rerun: map<string, AuditSet>, rule: Option<string>)
    requires files != [] && before == Ledger(files[..|files| - 1], rerun)
    ensures var base := files[|files| - 1];
            CountDisputed(files, UnmatchedIn(base, rerun), rule) ==
              if base.name !in rerun then 0
              else Count(FreshEntries(before + BaselineEntries(base.findings), base.findings, rerun[base.name].findings),
                         Regression, rule)
  {
    hide Count, FileEntries, BaselineEntries, FreshEntries, DisputedIn, Ledger;
    var n := |files| - 1;
    var base := files[n];
    var b := before + BaselineEntries(base.findings);
    forall r ensures Count(b, BaselineDisputed, Some(r)) > 0 <==> DisputedIn(files, r) {
      CountAppend(before, BaselineEntries(base.findings), BaselineDisputed, Some(r));
      LedgerDisputed(files[..n], rerun, r);
      BaselineCount(base.findings, Some(r));
      DisputedInSnoc(files, r);
    }
    if base.name in rerun {
      FreshRegressions(b, files, base.findings, rerun[base.name].findings, rule);
    }
  }

  lemma {:induction false} CountedOfPrefix(all: seq<AuditSet>, m: nat, n: nat, rerun: map<string, AuditSet>, rule: Option<string>)
    requires n <= m <= |all|
    ensures Counted(all[..m], n, rerun, rule) == Counted(all, n, rerun, rule)
  {
    if n > 0 {
      CountedOfPrefix(all, m, n - 1, rerun, rule);
      assert all[..m][..n] == all[..n] && all[..m][n - 1] == all[n - 1];
    }
  }

  /** No unmatched fresh finding belongs to a rule whose first dispute comes in a later file. */
  ghost predicate NoLateDispute(all: seq<AuditSet>, n: nat, rerun: map<string, AuditSet>, rule: Option<string>)
    requires n <= |all|
  {
    forall k, r | 0 <= k < n && r in UnmatchedIn(all[k], rerun) && (rule.None? || rule.value == r) ::
      DisputedIn(all, r) ==> DisputedIn(all[..k + 1], r)
  }

  lemma {:induction false} CountDisputedCompare(some: seq<AuditSet>, all: seq<AuditSet>, rules: seq<string>, rule: Option<string>)
    requires forall r :: DisputedIn(some, r) ==> DisputedIn(all, r)
    ensures CountDisputed(some, rules, rule) <= CountDisputed(all, rules, rule)
    ensures CountDisputed(some, rules, rule) == CountDisputed(all, rules, rule) <==>
      forall r :: r in rules && (rule.None? || rule.value == r) && DisputedIn(all, r) ==> DisputedIn(some, r)
  {
    hide DisputedIn;
    if rules != [] {
      var n := |rules| - 1;
      CountDisputedCompare(some, all, rules[..n], rule);
      assert rules == rules[..n] + [rules[n]];
    }
  }

  /** The documented count is never smaller, and the two agree exactly when no unmatched finding of the rules
      asked for belongs to a rule first disputed in a later file. */
  lemma {:induction false} CountedVersusDocumented(all: seq<AuditSet>, n: nat, rerun: map<string, AuditSet>, rule: Option<string>)
    requires n <= |all|
    ensures Counted(all, n, rerun, rule) <= Documented(all, n, rerun, rule)
    ensures Counted(all, n, rerun, rule) == Documented(all, n, rerun, rule) <==> NoLateDispute(all, n, rerun, rule)
  {
    hide CountDisputed, UnmatchedIn, DisputedIn;
    if n > 0 {
      CountedVersusDocumented(all, n - 1, rerun, rule);
      forall r | DisputedIn(all[..n], r) ensures DisputedIn(all, r) {
        DisputedInMore(all, n, r);
      }
      CountDisputedCompare(all[..n], all, UnmatchedIn(all[n - 1], rerun), rule);
    }
  }

  lemma DisputedInMore(all: seq<AuditSet>, n: nat, r: string)
    requires n <= |all| && DisputedIn(all[..n], r)
    ensures DisputedIn(all, r)
  {
    hide TotalOf;
    var k :| 0 <= k < n && TotalOf(all[..n][k].findings, Disputed, Some(r)) > 0;
    assert all[..n][k] == all[k];
  }

  /** The regressions a scoring pass reports are the documented ones exactly under that condition. */
  lemma RegressionsAreDocumentedIff(all: seq<AuditSet>, rerun: map<string, AuditSet>, rule: Option<string>)
    ensures Tally(Ledger(all, rerun), rule).regressions <= Documented(all, |all|, rerun, rule)
    ensures Tally(Ledger(all, rerun), rule).regressions == Documented(all, |all|, rerun, rule) <==>
      NoLateDispute(all, |all|, rerun, rule)
  {
    hide Counted, Documented, NoLateDispute, Tally;
    RegressionsAreCounted(all, rerun, rule);
    CountedVersusDocumented(all, |all|, rerun, rule);
  }

  /** The order of the files matters: a new finding g in one file and the only dispute f of its rule in another
      count as a regression when the disputed file comes first and not when it comes second. */
  lemma OrderOfFilesMatters(f: Finding, g: Finding)
    requires f.verdict.Disputed? && f.key.rule == g.key.rule
    ensures var quiet, disputed := AuditSet("quiet", []), AuditSet("disputed", [f]);
            var rerun := map["quiet" := AuditSet("quiet", [g])];
            && Counted([quiet, disputed], 2, rerun, None) == 0
            && Counted([disputed, quiet], 2, rerun, None) == 1
            && Documented([quiet, disputed], 2, rerun, None) == 1
  {
    var quiet, disputed := AuditSet("quiet", []), AuditSet("disputed", [f]);
    var rerun := map["quiet" := AuditSet("quiet", [g])];
    var r := g.key.rule;
    assert [g][..0] == [] && [f][..0] == [];
    assert Unmatched([], []) == [];
    assert Unmatched([], [g]) == [] + [r];
    assert UnmatchedIn(quiet, rerun) == [r] && UnmatchedIn(disputed, rerun) == [];
    assert TotalOf([f], Disputed, Some(r)) == 1 && TotalOf([], Disputed, Some(r)) == 0;
    assert !DisputedIn([quiet], r);
    assert [disputed, quiet][0] == disputed && [quiet, disputed][1] == disputed;
    assert DisputedIn([disputed, quiet], r) && DisputedIn([quiet, disputed], r);
    OneRule([quiet], r);
    OneRule([disputed], r);
    OneRule([disputed, quiet], r);
    OneRule([quiet, disputed], r);
    TwoFiles(quiet, disputed, rerun);
    TwoFiles(disputed, quiet, rerun);
  }

  lemma TwoFiles(a: AuditSet, b: AuditSet, rerun: map<string, AuditSet>)
    ensures var u, v := UnmatchedIn(a, rerun), UnmatchedIn(b, rerun);
            && Counted([a, b], 2, rerun, None) == CountDisputed([a], u, None) + CountDisputed([a, b], v, None)
            && Documented([a, b], 2, rerun, None) == CountDisputed([a, b], u, None) + CountDisputed([a, b], v, None)
  {
    hide CountDisputed, UnmatchedIn;
    var all := [a, b];
    assert all[..1] == [a] && all[..2] == all;
    assert Counted(all, 0, rerun, None) == 0 && Documented(all, 0, rerun, None) == 0;
    assert Counted(all, 1, rerun, None) == CountDisputed([a], UnmatchedIn(a, rerun), None);
    assert Documented(all, 1, rerun, None) == CountDisputed(all, UnmatchedIn(a, rerun), None);
  }

  lemma OneRule(files: seq<AuditSet>, r: string)
    ensures CountDisputed(files, [r], None) == if DisputedIn(files, r) then 1 else 0
    ensures CountDisputed(files, [], None) == 0
  {
    assert [r][..0] == [];
  }
}
