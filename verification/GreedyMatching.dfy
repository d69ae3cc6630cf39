/** How far the greedy matcher can be from pairing as many findings as possible. */
module GreedyMatching {
  import opened Prelude
  import opened Overlap
  import opened AuditReplay

  /** Any way of pairing findings within their buckets, at the threshold, nobody twice. */
  ghost predicate Admissible(base: seq<Finding>, rerun: seq<Finding>, b: seq<Option<nat>>) {
    && |b| == |rerun|
    && (forall k :: 0 <= k < |b| && b[k].Some? ==>
         b[k].value < |base| && base[b[k].value].key == rerun[k].key
         && Similarity(rerun[k], base[b[k].value]) >= THRESHOLD)
    && Injective(b)
  }

  ghost predicate Injective(b: seq<Option<nat>>) {
    forall j, k :: 0 <= j < k < |b| && b[j].Some? && b[k].Some? ==> b[j].value != b[k].value
  }

  function Pairs(b: seq<Option<nat>>): nat {
    if b == [] then 0 else Pairs(b[..|b| - 1]) + (if b[|b| - 1].Some? then 1 else 0)
  }

  /** The pairs whose baseline finding is in a set. */
  function PairsIn(b: seq<Option<nat>>, taken: set<nat>): nat {
    if b == [] then 0
    else
      var last := b[|b| - 1];
      PairsIn(b[..|b| - 1], taken) + (if last.Some? && last.value in taken then 1 else 0)
  }

  lemma {:induction false} PairsInWithout(b: seq<Option<nat>>, taken: set<nat>, i: nat)
    requires forall k :: 0 <= k < |b| && b[k].Some? ==> b[k].value != i
    ensures PairsIn(b, taken) == PairsIn(b, taken - {i})
  {
    if b != [] {
      PairsInWithout(b[..|b| - 1], taken, i);
    }
  }

  /** Nobody twice: so no more such pairs than the set has members. */
  lemma {:induction false} PairsInAreFew(b: seq<Option<nat>>, taken: set<nat>)
    requires Injective(b)
    ensures PairsIn(b, taken) <= |taken|
  {
    if b != [] {
      var n := |b| - 1;
      if b[n].Some? && b[n].value in taken {
        var i := b[n].value;
        forall k | 0 <= k < n && b[..n][k].Some? ensures b[..n][k].value != i {
          assert b[k].Some? && b[k].value != b[n].value;
        }
        PairsInWithout(b[..n], taken, i);
        PairsInAreFew(b[..n], taken - {i});
      } else {
        PairsInAreFew(b[..n], taken);
      }
    }
  }

  lemma {:induction false} UsedAreFew(a: seq<Option<nat>>)
    ensures |Used(a)| <= Pairs(a)
  {
    hide Used;
    if a == [] {
      NothingUsed();
    } else {
      var n := |a| - 1;
      UsedAreFew(a[..n]);
      UsedSnoc(a[..n], a[n]);
      assert a[..n] + [a[n]] == a;
    }
  }

  lemma NothingUsed()
    ensures Used([]) == {}
  {
  }

  /** Each pair of b meets a pair of a: at its fresh finding, or at its baseline finding. */
  lemma {:induction false} PairsMeet(a: seq<Option<nat>>, b: seq<Option<nat>>, taken: set<nat>)
    requires |a| == |b|
    requires forall k :: 0 <= k < |b| && b[k].Some? ==> a[k].Some? || b[k].value in taken
    ensures Pairs(b) <= Pairs(a) + PairsIn(b, taken)
  {
    if b != [] {
      var n := |b| - 1;
      forall k | 0 <= k < n && b[..n][k].Some? ensures a[..n][k].Some? || b[..n][k].value in taken {
        assert b[k].Some?;
      }
      PairsMeet(a[..n], b[..n], taken);
    }
  }

  /** No pairing whatever has more than twice as many pairs as the greedy one. */
  lemma GreedyIsHalfOfAny(base: seq<Finding>, rerun: seq<Finding>, b: seq<Option<nat>>)
    requires Admissible(base, rerun, b)
    ensures Pairs(b) <= 2 * Pairs(Assign(base, rerun))
  {
    hide Used, Similarity, Assign, Pairs, PairsIn;
    var a := Assign(base, rerun);
    AssignIsSound(base, rerun);
    forall k | 0 <= k < |b| && b[k].Some? ensures a[k].Some? || b[k].value in Used(a) {
      assert Available(base, Used(a), rerun[k], b[k].value) <==> b[k].value !in Used(a);
    }
    PairsMeet(a, b, Used(a));
    PairsInAreFew(b, Used(a));
    UsedAreFew(a);
  }

  /** And it can be as few as half: a fresh finding without a box takes the only partner of the next one. */
  lemma GreedyCanBeHalf(key: Key, v: Verdict)
    ensures var here, there := Box(0.0, 0.0, 10.0, 10.0), Box(100.0, 0.0, 110.0, 10.0);
            var base := [Finding(key, Some(here), v), Finding(key, Some(there), v)];
            var rerun := [Finding(key, None, v), Finding(key, Some(here), v)];
            && Assign(base, rerun) == [Some(0), None]
            && Admissible(base, rerun, [Some(1), Some(0)])
            && Pairs([Some(1), Some(0)]) == 2 && Pairs([Some(0), None]) == 1
  {
    hide Assign, Match, Used, Iou, Pairs;
    var here, there := Box(0.0, 0.0, 10.0, 10.0), Box(100.0, 0.0, 110.0, 10.0);
    var base := [Finding(key, Some(here), v), Finding(key, Some(there), v)];
    var f, g := Finding(key, None, v), Finding(key, Some(here), v);
    FarApart();
    IouLaws(here, here);
    MatchIsUnique(base, {}, f, Some(0));
    MatchIsUnique(base, {0}, g, None);
    AssignTwo(base, f, g);
    PairsOfTwo(Some(1), Some(0));
    PairsOfTwo(Some(0), None);
  }

  lemma FarApart()
    ensures Iou(Box(0.0, 0.0, 10.0, 10.0), Box(100.0, 0.0, 110.0, 10.0)) == 0.0
  {
  }

  lemma AssignTwo(base: seq<Finding>, f: Finding, g: Finding)
    ensures var m := Match(base, {}, f);
            Assign(base, [f, g]) == [m, Match(base, if m.Some? then {m.value} else {}, g)]
  {
    hide Match, Used;
    assert [f, g][..1] == [f] && [f][..0] == [];
    NothingUsed();
    var m := Match(base, {}, f);
    UsedSnoc([], m);
    assert Used([m]) == if m.Some? then {m.value} else {} by {
      assert [] + [m] == [m];
    }
    assert Assign(base, [f]) == [m] by {
      assert Assign(base, []) == [];
      assert [] + [m] == [m];
    }
  }

  lemma PairsOfTwo(x: Option<nat>, y: Option<nat>)
    ensures Pairs([x, y]) == (if x.Some? then 1 else 0) + (if y.Some? then 1 else 0)
  {
    assert [x, y][..1] == [x] && [x][..0] == [];
    assert Pairs([x]) == if x.Some? then 1 else 0;
  }
}
