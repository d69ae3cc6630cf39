/** The scoring loops of the audit replay, and the laws of the counters they leave. */
module Scoreboard {
  import opened Prelude
  import opened AuditReplay

  datatype Stats = Stats(
    baselineTotal: nat, baselineDisputed: nat, freshTotal: nat, freshDisputed: nat,
    regressions: nat, removedDisputed: nat, removedConfirmed: nat)

  const ZERO := Stats(0, 0, 0, 0, 0, 0, 0)

  function Bump(s: Stats, kind: Kind): Stats {
    match kind
    case BaselineTotal => s.(baselineTotal := s.baselineTotal + 1)
    case BaselineDisputed => s.(baselineDisputed := s.baselineDisputed + 1)
    case FreshTotal => s.(freshTotal := s.freshTotal + 1)
    case FreshDisputed => s.(freshDisputed := s.freshDisputed + 1)
    case Regression => s.(regressions := s.regressions + 1)
    case RemovedDisputed => s.(removedDisputed := s.removedDisputed + 1)
    case RemovedConfirmed => s.(removedConfirmed := s.removedConfirmed + 1)
  }

  /** The seven counters of a ledger, for one rule or for all. */
  function Tally(l: seq<Entry>, rule: Option<string>): Stats {
    Stats(Count(l, BaselineTotal, rule), Count(l, BaselineDisputed, rule), Count(l, FreshTotal, rule),
      Count(l, FreshDisputed, rule), Count(l, Regression, rule), Count(l, RemovedDisputed, rule),
      Count(l, RemovedConfirmed, rule))
  }

  function Rules(l: seq<Entry>): set<string> {
    set e | e in l :: e.rule
  }

  // ---- Counting step by step ------------------------------------------------------------

  lemma CountSnoc(l: seq<Entry>, e: Entry, kind: Kind, rule: Option<string>)
    ensures Count(l + [e], kind, rule) == Count(l, kind, rule) + (if Counts(e, kind, rule) then 1 else 0)
  {
    assert (l + [e])[..|l|] == l;
  }

  lemma TallySnoc(l: seq<Entry>, e: Entry, rule: Option<string>)
    ensures Tally(l + [e], rule) ==
      if rule.None? || rule.value == e.rule then Bump(Tally(l, rule), e.kind) else Tally(l, rule)
  {
    hide Count;
    forall kind: Kind
      ensures Count(l + [e], kind, rule) == Count(l, kind, rule) + (if Counts(e, kind, rule) then 1 else 0)
    {
      CountSnoc(l, e, kind, rule);
    }
  }

  lemma RulesSnoc(l: seq<Entry>, e: Entry)
    ensures Rules(l + [e]) == Rules(l) + {e.rule}
  {
    assert (l + [e])[|l|] == e;
    forall x | x in l ensures x in l + [e] {}
  }

  lemma {:induction false} TallyOfAbsent(l: seq<Entry>, rule: string)
    requires rule !in Rules(l)
    ensures Tally(l, Some(rule)) == ZERO
  {
    if l == [] {
    } else {
      var n := |l| - 1;
      assert l == l[..n] + [l[n]];
      RulesSnoc(l[..n], l[n]);
      TallyOfAbsent(l[..n], rule);
      TallySnoc(l[..n], l[n], Some(rule));
    }
  }

  /** Fresh findings add no baseline entries. */
  lemma {:induction false} FreshAddsNoBaseline(before: seq<Entry>, base: seq<Finding>, rerun: seq<Finding>, rule: Option<string>)
    ensures Count(FreshEntries(before, base, rerun), BaselineDisputed, rule) == 0
  {
    if rerun != [] {
      var n := |rerun| - 1;
      FreshAddsNoBaseline(before, base, rerun[..n], rule);
      var step := FreshStep(before, base, rerun[n], Match(base, Used(Assign(base, rerun[..n])), rerun[n]));
      CountAppend(FreshEntries(before, base, rerun[..n]), step, BaselineDisputed, rule);
      NoBaselineIn(step, rule);
    }
  }

  lemma {:induction false} NoBaselineIn(l: seq<Entry>, rule: Option<string>)
    requires forall e :: e in l ==> !e.kind.BaselineDisputed?
    ensures Count(l, BaselineDisputed, rule) == 0
  {
    if l != [] {
      assert l[|l| - 1] in l;
      NoBaselineIn(l[..|l| - 1], rule);
    }
  }

  // ---- Finding a partner ----------------------------------------------------------------

  type BucketMap = map<Key, seq<nat>>

  /** c lists, in order, exactly the positions of the findings with the key. */
  ghost predicate IsBucket(base: seq<Finding>, key: Key, c: seq<nat>) {
    && (forall k :: 0 <= k < |c| ==> c[k] < |base| && base[c[k]].key == key)
    && (forall j, k :: 0 <= j < k < |c| ==> c[j] < c[k])
    && (forall i: nat :: i < |base| && base[i].key == key ==> i in c)
  }

  function BucketIn(buckets: BucketMap, key: Key): seq<nat> {
    if key in buckets then buckets[key] else []
  }

  ghost predicate AreBuckets(base: seq<Finding>, buckets: BucketMap) {
    forall key :: IsBucket(base, key, BucketIn(buckets, key))
  }

  lemma NoBuckets()
    ensures AreBuckets([], map[])
  {
  }

  lemma BucketSnoc(base: seq<Finding>, key: Key, c: seq<nat>, f: Finding)
    requires IsBucket(base, key, c)
    ensures IsBucket(base + [f], key, if f.key == key then c + [|base|] else c)
  {
    if f.key == key {
      var more := c + [|base|];
      assert more[|c|] == |base|;
      forall i | i in c ensures i in more {}
    }
  }

  lemma BucketsSnoc(base: seq<Finding>, buckets: BucketMap, f: Finding)
    requires AreBuckets(base, buckets)
    ensures AreBuckets(base + [f], buckets[f.key := BucketIn(buckets, f.key) + [|base|]])
  {
    hide IsBucket;
    var more := buckets[f.key := BucketIn(buckets, f.key) + [|base|]];
    forall key ensures IsBucket(base + [f], key, BucketIn(more, key)) {
      BucketSnoc(base, key, BucketIn(buckets, key), f);
    }
  }

  /** Findings outside the bucket do not matter. */
  lemma {:induction false} SkipOtherKeys(base: seq<Finding>, used: set<nat>, f: Finding, a: nat, b: nat)
    requires a <= b <= |base|
    requires forall i :: a <= i < b ==> base[i].key != f.key
    ensures Best(base, used, f, b) == Best(base, used, f, a)
  {
    if a < b {
      SkipOtherKeys(base, used, f, a, b - 1);
    }
  }

  /** The first position at or after which the k-th candidate onwards lie. */
  function Reached(base: seq<Finding>, cands: seq<nat>, k: nat): nat
    requires k <= |cands|
  {
    if k < |cands| then cands[k] else |base|
  }

  /** Between one candidate and the next, nothing can change the best. */
  lemma SkipToNext(base: seq<Finding>, used: set<nat>, f: Finding, c: seq<nat>, k: nat)
    requires IsBucket(base, f.key, c) && k <= |c|
    ensures var a := if k == 0 then 0 else c[k - 1] + 1;
            a <= Reached(base, c, k) <= |base|
            && Best(base, used, f, Reached(base, c, k)) == Best(base, used, f, a)
  {
    hide Best;
    var a := if k == 0 then 0 else c[k - 1] + 1;
    forall i | a <= i < Reached(base, c, k) ensures i !in c {
      forall j | 0 <= j < |c| ensures c[j] != i {
        assert j < k ==> c[j] <= c[k - 1];
      }
    }
    SkipOtherKeys(base, used, f, a, Reached(base, c, k));
  }

  /** The inner matching loop over one bucket. */
  method FindMatch(base: seq<Finding>, buckets: BucketMap, used: set<nat>, f: Finding) returns (m: Option<nat>)
    requires AreBuckets(base, buckets)
    ensures m == Match(base, used, f)
  {
    var cands := BucketIn(buckets, f.key);
    assert IsBucket(base, f.key, cands);
    hide Similarity, AreBuckets;
    var best: Option<nat> := None;
    var bestScore := 0.0;
    SkipToNext(base, used, f, cands, 0);
    for k := 0 to |cands|
      invariant best == Best(base, used, f, Reached(base, cands, k))
      invariant bestScore == ScoreOf(base, f, best)
    {
      var i := cands[k];
      if i !in used {
        var score := Similarity(f, base[i]);
        if score > bestScore {
          bestScore := score;
          best := Some(i);
        }
      }
      SkipToNext(base, used, f, cands, k + 1);
    }
    m := if best.Some? && bestScore >= THRESHOLD then best else None;
  }

  /** The aggregate and the per-rule counters while the files are read. */
  class Board {
    var agg: Stats
    var perRule: map<string, Stats>

    constructor ()
      ensures Holds([])
    {
      agg, perRule := ZERO, map[];
    }

    /** The counters are those of the ledger. */
    ghost predicate Holds(l: seq<Entry>)
      reads this
    {
      && agg == Tally(l, None)
      && perRule.Keys == Rules(l)
      && forall r :: r in perRule ==> perRule[r] == Tally(l, Some(r))
    }

    /** One counter up, in the aggregate and for its rule. */
    method Credit(rule: string, kind: Kind, ghost l: seq<Entry>)
      requires Holds(l)
      modifies this
      ensures Holds(l + [Entry(rule, kind)])
    {
      hide Tally, Bump;
      ghost var e := Entry(rule, kind);
      TallySnoc(l, e, None);
      forall r ensures Tally(l + [e], Some(r)) == if r == rule then Bump(Tally(l, Some(r)), kind) else Tally(l, Some(r)) {
        TallySnoc(l, e, Some(r));
      }
      RulesSnoc(l, e);
      if rule !in perRule {
        TallyOfAbsent(l, rule);
      }
      agg := Bump(agg, kind);
      perRule := perRule[rule := Bump(if rule in perRule then perRule[rule] else ZERO, kind)];
    }

    /** Counts the baseline of a file and groups it by key. */
    method CreditBaseline(base: seq<Finding>, ghost l: seq<Entry>) returns (buckets: BucketMap)
      requires Holds(l)
      modifies this
      ensures Holds(l + BaselineEntries(base))
      ensures AreBuckets(base, buckets)
    {
      hide Holds, AreBuckets;
      assert l + [] == l;
      buckets := map[];
      NoBuckets();
      for k := 0 to |base|
        invariant Holds(l + BaselineEntries(base[..k]))
        invariant AreBuckets(base[..k], buckets)
      {
        ghost var now := l + BaselineEntries(base[..k]);
        var f := base[k];
        assert base[..k + 1][..k] == base[..k];
        BucketsSnoc(base[..k], buckets, f);
        assert base[..k] + [f] == base[..k + 1];
        buckets := buckets[f.key := BucketIn(buckets, f.key) + [k]];
        Credit(f.key.rule, BaselineTotal, now);
        if f.verdict.Disputed? {
          Credit(f.key.rule, BaselineDisputed, now + [Entry(f.key.rule, BaselineTotal)]);
        }
        BaselineSnoc(l, base[..k], f);
        assert base[..k] + [f] == base[..k + 1];
      }
      assert base[..|base|] == base;
    }

    method CreditRemoved(base: seq<Finding>, used: set<nat>, ghost l: seq<Entry>)
      requires Holds(l)
      modifies this
      ensures Holds(l + RemovedEntries(base, used))
    {
      hide Holds;
      assert l + [] == l;
      for k := 0 to |base|
        invariant Holds(l + RemovedEntries(base[..k], used))
      {
        ghost var now := l + RemovedEntries(base[..k], used);
        assert base[..k + 1][..k] == base[..k];
        if k !in used && base[k].verdict.Disputed? {
          Credit(base[k].key.rule, RemovedDisputed, now);
        } else if k !in used && base[k].verdict.Confirmed? {
          Credit(base[k].key.rule, RemovedConfirmed, now);
        }
        ghost var step := if k in used then []
          else if base[k].verdict.Disputed? then [Entry(base[k].key.rule, RemovedDisputed)]
          else if base[k].verdict.Confirmed? then [Entry(base[k].key.rule, RemovedConfirmed)] else [];
        assert now + [] == now;
        assert now + step == l + RemovedEntries(base[..k + 1], used);
      }
      assert base[..|base|] == base;
    }

    /** Reads the rule's disputed count so far, as `_rule(...).baseline_disputed` does. */
    method DisputedSoFar(rule: string, ghost l: seq<Entry>) returns (n: nat)
      requires Holds(l)
      ensures n == Count(l, BaselineDisputed, Some(rule))
    {
      if rule !in perRule {
        TallyOfAbsent(l, rule);
      }
      n := if rule in perRule then perRule[rule].baselineDisputed else 0;
    }

    method CreditFresh(base: seq<Finding>, buckets: BucketMap, rerun: seq<Finding>, ghost l: seq<Entry>)
      returns (used: set<nat>)
      requires Holds(l) && AreBuckets(base, buckets)
      modifies this
      ensures used == Used(Assign(base, rerun))
      ensures Holds(l + FreshEntries(l, base, rerun))
    {
      hide Holds, Count, FreshStep, Match, Used;
      assert l + [] == l;
      used := {};
      NothingUsed();
      for k := 0 to |rerun|
        invariant used == Used(Assign(base, rerun[..k]))
        invariant Holds(l + FreshEntries(l, base, rerun[..k]))
      {
        var m := FindMatch(base, buckets, used, rerun[k]);
        FreshSnoc(l, base, rerun[..k], rerun[k]);
        assert rerun[..k] + [rerun[k]] == rerun[..k + 1];
        CreditOneFresh(base, rerun[k], m, l, l + FreshEntries(l, base, rerun[..k]));
        if m.Some? {
          used := used + {m.value};
        }
      }
      assert rerun[..|rerun|] == rerun;
    }

    method CreditOneFresh(base: seq<Finding>, f: Finding, m: Option<nat>, ghost l: seq<Entry>, ghost now: seq<Entry>)
      requires Holds(now) && (m.Some? ==> m.value < |base|)
      requires Count(now, BaselineDisputed, Some(f.key.rule)) == Count(l, BaselineDisputed, Some(f.key.rule))
      modifies this
      ensures Holds(now + FreshStep(l, base, f, m))
    {
      hide Holds, Count;
      Credit(f.key.rule, FreshTotal, now);
      ghost var total := Entry(f.key.rule, FreshTotal);
      CountSnoc(now, total, BaselineDisputed, Some(f.key.rule));
      if m.Some? {
        if base[m.value].verdict.Disputed? {
          Credit(f.key.rule, FreshDisputed, now + [total]);
          assert now + [total] + [Entry(f.key.rule, FreshDisputed)] == now + FreshStep(l, base, f, m);
        } else {
          assert now + [total] == now + FreshStep(l, base, f, m);
        }
      } else {
        var n := DisputedSoFar(f.key.rule, now + [total]);
        if n > 0 {
          Credit(f.key.rule, Regression, now + [total]);
          assert now + [total] + [Entry(f.key.rule, Regression)] == now + FreshStep(l, base, f, m);
        } else {
          assert now + [total] == now + FreshStep(l, base, f, m);
        }
      }
    }

    method CreditFile(base: AuditSet, rerun: map<string, AuditSet>, ghost l: seq<Entry>)
      requires Holds(l)
      modifies this
      ensures Holds(l + FileEntries(l, base, rerun))
    {
      hide Holds;
      ghost var before := l + BaselineEntries(base.findings);
      var buckets := CreditBaseline(base.findings, l);
      if base.name !in rerun {
        return;
      }
      var ff := rerun[base.name].findings;
      var used := CreditFresh(base.findings, buckets, ff, before);
      CreditRemoved(base.findings, used, before + FreshEntries(before, base.findings, ff));
      assert before + FreshEntries(before, base.findings, ff) + RemovedEntries(base.findings, used)
          == l + FileEntries(l, base, rerun);
    }
  }

  lemma NothingUsed()
    ensures Used([]) == {}
  {
  }

  /** One more fresh finding: who is taken, what the ledger gains, and that its disputed counts stand still. */
  lemma FreshSnoc(l: seq<Entry>, base: seq<Finding>, rerun: seq<Finding>, f: Finding)
    ensures var e := Assign(base, rerun);
            var m := Match(base, Used(e), f);
            && Used(Assign(base, rerun + [f])) == Used(e) + (if m.Some? then {m.value} else {})
            && l + FreshEntries(l, base, rerun + [f]) == l + FreshEntries(l, base, rerun) + FreshStep(l, base, f, m)
    ensures Count(l + FreshEntries(l, base, rerun), BaselineDisputed, Some(f.key.rule))
         == Count(l, BaselineDisputed, Some(f.key.rule))
  {
    hide Count, FreshStep, Match, Used;
    assert (rerun + [f])[..|rerun|] == rerun;
    UsedSnoc(Assign(base, rerun), Match(base, Used(Assign(base, rerun)), f));
    FreshAddsNoBaseline(l, base, rerun, Some(f.key.rule));
    CountAppend(l, FreshEntries(l, base, rerun), BaselineDisputed, Some(f.key.rule));
  }

  lemma BaselineSnoc(l: seq<Entry>, base: seq<Finding>, f: Finding)
    ensures var total, disputed := Entry(f.key.rule, BaselineTotal), Entry(f.key.rule, BaselineDisputed);
            l + BaselineEntries(base + [f]) ==
              if f.verdict.Disputed? then l + BaselineEntries(base) + [total] + [disputed]
              else l + BaselineEntries(base) + [total]
  {
    assert (base + [f])[..|base|] == base;
  }

  /** The scoring pass: aggregate and per-rule counters over all baseline files, in order. */
  method Score(baseline: seq<AuditSet>, rerun: map<string, AuditSet>) returns (agg: Stats, perRule: map<string, Stats>)
    ensures agg == Tally(Ledger(baseline, rerun), None)
    ensures perRule.Keys == Rules(Ledger(baseline, rerun))
    ensures forall r :: r in perRule ==> perRule[r] == Tally(Ledger(baseline, rerun), Some(r))
  {
    var board := new Board();
    for k := 0 to |baseline|
      invariant board.Holds(Ledger(baseline[..k], rerun))
    {
      assert baseline[..k + 1][..k] == baseline[..k];
      board.CreditFile(baseline[k], rerun, Ledger(baseline[..k], rerun));
    }
    assert baseline[..|baseline|] == baseline;
    return board.agg, board.perRule;
  }
}
