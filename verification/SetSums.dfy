/** Sums over finite sets of names. */
module SetSums {

  ghost function SumOver(rules: set<string>, counts: string -> nat): nat {
    if rules == {} then 0
    else
      var r :| r in rules;
      counts(r) + SumOver(rules - {r}, counts)
  }

  lemma {:induction false} SumZero(rules: set<string>, counts: string -> nat)
    requires forall r :: r in rules ==> counts(r) == 0
    ensures SumOver(rules, counts) == 0
  {
    if rules != {} {
      var r :| r in rules && SumOver(rules, counts) == counts(r) + SumOver(rules - {r}, counts);
      SumZero(rules - {r}, counts);
    }
  }

  /** Raising one summand by one raises the sum by one. */
  lemma {:induction false} SumBump(rules: set<string>, c: string -> nat, d: string -> nat, x: string)
    requires forall r :: r in rules ==> d(r) == c(r) + (if r == x then 1 else 0)
    ensures SumOver(rules, d) == SumOver(rules, c) + (if x in rules then 1 else 0)
  {
    if rules != {} {
      var r :| r in rules && SumOver(rules, c) == c(r) + SumOver(rules - {r}, c)
        && SumOver(rules, d) == d(r) + SumOver(rules - {r}, d);
      SumBump(rules - {r}, c, d, x);
    }
  }

  lemma {:induction false} SumSame(rules: set<string>, c: string -> nat, d: string -> nat)
    requires forall r :: r in rules ==> d(r) == c(r)
    ensures SumOver(rules, d) == SumOver(rules, c)
  {
    if rules != {} {
      var r :| r in rules && SumOver(rules, c) == c(r) + SumOver(rules - {r}, c)
        && SumOver(rules, d) == d(r) + SumOver(rules - {r}, d);
      SumSame(rules - {r}, c, d);
    }
  }

  lemma {:induction false} SumMonotone(rules: set<string>, c: string -> nat, d: string -> nat)
    requires forall r :: r in rules ==> c(r) <= d(r)
    ensures SumOver(rules, c) <= SumOver(rules, d)
  {
    if rules != {} {
      var r :| r in rules && SumOver(rules, c) == c(r) + SumOver(rules - {r}, c)
        && SumOver(rules, d) == d(r) + SumOver(rules - {r}, d);
      SumMonotone(rules - {r}, c, d);
    }
  }

  /** Adding a new element adds its summand. */
  lemma {:induction false} SumAdd(rules: set<string>, counts: string -> nat, x: string)
    requires x !in rules
    ensures SumOver(rules + {x}, counts) == SumOver(rules, counts) + counts(x)
  {
    var all := rules + {x};
    var r :| r in all && SumOver(all, counts) == counts(r) + SumOver(all - {r}, counts);
    if r == x {
      assert all - {x} == rules;
    } else {
      SumAdd(rules - {r}, counts, x);
      assert all - {r} == rules - {r} + {x};
      SumRemove(rules, counts, r);
    }
  }

  /** Any element may be taken out first. */
  lemma {:induction false} SumRemove(rules: set<string>, counts: string -> nat, x: string)
    requires x in rules
    ensures SumOver(rules, counts) == counts(x) + SumOver(rules - {x}, counts)
  {
    var r :| r in rules && SumOver(rules, counts) == counts(r) + SumOver(rules - {r}, counts);
    if r != x {
      SumRemove(rules - {r}, counts, x);
      SumRemove(rules - {x}, counts, r);
      assert rules - {r} - {x} == rules - {x} - {r};
    }
  }
}
