/** Walks over the structure tree of a tagged PDF: heading levels and element types. */
module StructTree {
  import opened Prelude

  /** A dictionary entry: absent, a string, or another object with the text and truth value Python gives it. */
  datatype Attr = Absent | Str(text: string) | Object(shown: string, truthy: bool)

  datatype Node = Dict(s: Attr, kind: Attr, kids: Kids) | NotDict

  datatype Kids = NoKids | List(items: seq<Node>) | Single(item: Node)

  predicate Truthy(a: Attr) {
    match a
    case Absent => false
    case Str(t) => t != []
    case Object(_, b) => b
  }

  function Shown(a: Attr): string {
    match a
    case Absent => ""
    case Str(t) => t
    case Object(t, _) => t
  }

  /** `node.get("/S") or node.get("/Type")`, without leading slashes. */
  function TypeName(n: Node): string
    requires n.Dict?
  {
    var v := if Truthy(n.s) then n.s else n.kind;
    if Truthy(v) then StripSlashes(Shown(v)) else ""
  }

  /** The level of a heading element H0 to H9. */
  function LevelOf(n: Node): Option<nat> {
    if n.NotDict? then None
    else
      var name := TypeName(n);
      if |name| == 2 && name[0] == 'H' && '0' <= name[1] <= '9' then Some((name[1] as int) - ('0' as int)) else None
  }

  // ---- Heading levels in document order -------------------------------------------------

  /** The heading levels of a tree in preorder. */
  function Levels(n: Node): seq<nat>
    decreases n, 0
  {
    if n.NotDict? then []
    else
      (if LevelOf(n).Some? then [LevelOf(n).value] else []) +
      match n.kids
      case NoKids => []
      case List(items) => LevelsOfAll(items)
      case Single(item) => Levels(item)
  }

  function LevelsOfAll(ns: seq<Node>): seq<nat>
    decreases ns, 1
  {
    if ns == [] then [] else LevelsOfAll(ns[..|ns| - 1]) + Levels(ns[|ns| - 1])
  }

  /** The variables the walk updates. */
  datatype Progress = Progress(prev: nat, skips: nat, gap: nat, from: nat, to: nat)

  const START := Progress(0, 0, 0, 0, 0)

  function Advance(p: Progress, level: nat): Progress {
    if p.prev > 0 && level > p.prev + 1 then
      var gap := level - p.prev;
      if gap > p.gap then Progress(level, p.skips + 1, gap, p.prev, level)
      else Progress(level, p.skips + 1, p.gap, p.from, p.to)
    else p.(prev := level)
  }

  function Fold(p: Progress, levels: seq<nat>): Progress {
    if levels == [] then p else Advance(Fold(p, levels[..|levels| - 1]), levels[|levels| - 1])
  }

  lemma {:induction false} FoldAppend(p: Progress, a: seq<nat>, b: seq<nat>)
    ensures Fold(p, a + b) == Fold(Fold(p, a), b)
  {
    if b == [] {
      assert a + b == a;
    } else {
      assert (a + b)[..|a| + |b| - 1] == a + b[..|b| - 1];
      FoldAppend(p, a, b[..|b| - 1]);
    }
  }

  /** The recursive closure with its nonlocal variables. */
  class HeadingWalk {
    var prevLevel: nat
    var skipCount: nat
    var worstGap: nat
    var worstFrom: nat
    var worstTo: nat

    function Abs(): Progress
      reads this
    {
      Progress(prevLevel, skipCount, worstGap, worstFrom, worstTo)
    }

    constructor ()
      ensures Abs() == START
    {
      prevLevel, skipCount, worstGap, worstFrom, worstTo := 0, 0, 0, 0, 0;
    }

    method Walk(n: Node)
      modifies this
      ensures Abs() == Fold(old(Abs()), Levels(n))
      decreases n, 0
    {
      if n.NotDict? {
        return;
      }
      var level := LevelOf(n);
      ghost var own: seq<nat> := if level.Some? then [level.value] else [];
      if level.Some? {
        EnterHeading(level.value);
      }
      FoldOne(old(Abs()), level);
      match n.kids {
        case NoKids =>
          assert Levels(n) == own;
        case List(items) =>
          WalkAll(items);
          FoldAppend(old(Abs()), own, LevelsOfAll(items));
        case Single(item) =>
          Walk(item);
          FoldAppend(old(Abs()), own, Levels(item));
      }
    }

    method EnterHeading(level: nat)
      modifies this
      ensures Abs() == Advance(old(Abs()), level)
    {
      if prevLevel > 0 && level > prevLevel + 1 {
        skipCount := skipCount + 1;
        var gap := level - prevLevel;
        if gap > worstGap {
          worstGap := gap;
          worstFrom := prevLevel;
          worstTo := level;
        }
      }
      prevLevel := level;
    }

    method WalkAll(ns: seq<Node>)
      modifies this
      ensures Abs() == Fold(old(Abs()), LevelsOfAll(ns))
      decreases ns, 1
    {
      for k := 0 to |ns|
        invariant Abs() == Fold(old(Abs()), LevelsOfAll(ns[..k]))
      {
        Walk(ns[k]);
        assert ns[..k + 1][..k] == ns[..k];
        FoldAppend(old(Abs()), LevelsOfAll(ns[..k]), Levels(ns[k]));
      }
      assert ns[..|ns|] == ns;
    }
  }

  lemma FoldOne(p: Progress, level: Option<nat>)
    ensures Fold(p, if level.Some? then [level.value] else []) == if level.Some? then Advance(p, level.value) else p
  {
    if level.Some? {
      assert [level.value][..0] == [];
    }
  }

  // ---- What the heading walk reports ----------------------------------------------------

  /** Heading k jumps more than one level past a positive level just before it. */
  predicate Skips(levels: seq<nat>, k: nat)
    requires k < |levels|
  {
    k > 0 && levels[k - 1] > 0 && levels[k] > levels[k - 1] + 1
  }

  function SkipPositions(levels: seq<nat>): set<nat> {
    set k: nat | k < |levels| && Skips(levels, k)
  }

  function Gap(levels: seq<nat>, k: nat): int
    requires 0 < k < |levels|
  {
    (levels[k] as int) - (levels[k - 1] as int)
  }

  /** Position k is the first of the widest skips. */
  ghost predicate FirstWidest(levels: seq<nat>, k: nat) {
    && k < |levels| && Skips(levels, k)
    && forall j: nat :: j < |levels| && Skips(levels, j) ==>
         Gap(levels, j) <= Gap(levels, k) && (j < k ==> Gap(levels, j) < Gap(levels, k))
  }

  ghost predicate Reports(levels: seq<nat>, p: Progress) {
    && p.prev == (if levels == [] then 0 else levels[|levels| - 1])
    && p.skips == |SkipPositions(levels)|
    && (p.skips == 0 ==> p.gap == 0)
    && (p.skips > 0 ==> exists k: nat :: FirstWidest(levels, k) && p.gap == Gap(levels, k)
                          && p.from == levels[k - 1] && p.to == levels[k])
  }

  /** Over the preorder list of heading levels the walk counts exactly the positions that skip, and the pair it
      reports is the first of the widest skips. */
  lemma {:induction false} HeadingWalkReports(levels: seq<nat>)
    ensures Reports(levels, Fold(START, levels))
  {
    if levels == [] {
      assert SkipPositions(levels) == {};
    } else {
      var n := |levels| - 1;
      HeadingWalkReports(levels[..n]);
      ReportsSnoc(levels, Fold(START, levels[..n]));
    }
  }

  lemma SkipsOfPrefix(levels: seq<nat>)
    requires levels != []
    ensures var n := |levels| - 1;
            SkipPositions(levels) == SkipPositions(levels[..n]) + (if Skips(levels, n) then {n} else {})
  {
    var n := |levels| - 1;
    forall k: nat | k < n ensures Skips(levels[..n], k) == Skips(levels, k) {}
  }

  lemma ReportsSnoc(levels: seq<nat>, p: Progress)
    requires levels != [] && Reports(levels[..|levels| - 1], p)
    ensures Reports(levels, Advance(p, levels[|levels| - 1]))
  {
    hide SkipPositions;
    var n := |levels| - 1;
    var prefix := levels[..n];
    SkipsOfPrefix(levels);
    NotYetThere(levels);
    forall k: nat | k < n ensures Skips(prefix, k) == Skips(levels, k) {}
    if p.skips > 0 {
      var k: nat :| FirstWidest(prefix, k) && p.gap == Gap(prefix, k) && p.from == prefix[k - 1] && p.to == prefix[k];
      if Skips(levels, n) && Gap(levels, n) > p.gap {
        assert FirstWidest(levels, n);
      } else {
        assert FirstWidest(levels, k) && Gap(levels, k) == p.gap;
      }
    } else {
      NoSkips(prefix);
      if Skips(levels, n) {
        assert FirstWidest(levels, n);
      }
    }
  }

  lemma NotYetThere(levels: seq<nat>)
    requires levels != []
    ensures |levels| - 1 !in SkipPositions(levels[..|levels| - 1])
  {
  }

  lemma NoSkips(levels: seq<nat>)
    requires |SkipPositions(levels)| == 0
    ensures forall k: nat :: k < |levels| ==> !Skips(levels, k)
  {
    forall k: nat | k < |levels| ensures !Skips(levels, k) {
      assert k !in SkipPositions(levels);
    }
  }

  // ---- Element types --------------------------------------------------------------------

  const MAX_DEPTH := 100

  /** The child elements the walk descends into. */
  function Children(n: Node): seq<Node> {
    if n.NotDict? then []
    else match n.kids
      case NoKids => []
      case List(items) => Dicts(items)
      case Single(item) => if item.Dict? then [item] else []
  }

  function Dicts(ns: seq<Node>): seq<Node> {
    if ns == [] then []
    else Dicts(ns[..|ns| - 1]) + (if ns[|ns| - 1].Dict? then [ns[|ns| - 1]] else [])
  }

  /** t is the string type of an element exactly `depth` levels below n. */
  ghost predicate TypeAt(n: Node, t: string, depth: nat)
    decreases depth
  {
    if depth == 0 then n.Dict? && n.s == Str(t)
    else exists c :: c in Children(n) && TypeAt(c, t, depth - 1)
  }

  /** At most `room` levels below n. */
  ghost predicate TypeWithin(n: Node, t: string, room: int) {
    exists d: nat :: d <= room && TypeAt(n, t, d)
  }

  ghost predicate InAny(ns: seq<Node>, t: string, room: int) {
    exists c :: c in ns && TypeWithin(c, t, room)
  }

  lemma TypeWithinStep(n: Node, t: string, room: nat)
    ensures TypeWithin(n, t, room) <==> TypeAt(n, t, 0) || InAny(Children(n), t, room - 1)
  {
    if TypeWithin(n, t, room) {
      var d: nat :| d <= room && TypeAt(n, t, d);
      if d > 0 {
        var c :| c in Children(n) && TypeAt(c, t, d - 1);
        assert TypeWithin(c, t, room - 1);
      }
    }
    if TypeAt(n, t, 0) {
      assert TypeWithin(n, t, room);
    }
    if InAny(Children(n), t, room - 1) {
      var c :| c in Children(n) && TypeWithin(c, t, room - 1);
      var d: nat :| d <= room - 1 && TypeAt(c, t, d);
      assert TypeAt(n, t, d + 1);
    }
  }

  lemma InAnySnoc(ns: seq<Node>, n: Node, t: string, room: int)
    ensures InAny(ns + [n], t, room) <==> InAny(ns, t, room) || TypeWithin(n, t, room)
  {
    hide TypeWithin;
    var all := ns + [n];
    assert all[|ns|] == n;
    forall c | c in ns ensures c in all {}
  }

  /** Collects exactly the string types found at depth at most one hundred. */
  method CollectTypes(n: Node, depth: nat) returns (types: set<string>)
    requires n.Dict?
    ensures forall t :: t in types <==> TypeWithin(n, t, 100 - depth)
    decreases n, 0
  {
    if depth > MAX_DEPTH {
      return {};
    }
    hide TypeWithin, InAny;
    var own: set<string> := if n.s.Str? then {n.s.text} else {};
    var below: set<string> := {};
    match n.kids {
      case NoKids =>
      case List(items) =>
        below := CollectAll(items, depth + 1);
      case Single(item) =>
        if item.Dict? {
          below := CollectTypes(item, depth + 1);
        }
    }
    types := own + below;
    forall t ensures t in types <==> TypeWithin(n, t, MAX_DEPTH - depth) {
      TypeWithinStep(n, t, MAX_DEPTH - depth);
      NoneInEmpty(t, MAX_DEPTH - depth - 1);
      if n.kids.Single? && n.kids.item.Dict? {
        InAnySnoc([], n.kids.item, t, MAX_DEPTH - depth - 1);
        assert [] + [n.kids.item] == [n.kids.item];
      }
    }
  }

  lemma NoneInEmpty(t: string, room: int)
    ensures !InAny([], t, room)
  {
  }

  method CollectAll(ns: seq<Node>, depth: nat) returns (types: set<string>)
    ensures forall t :: t in types <==> InAny(Dicts(ns), t, 100 - depth)
    decreases ns, 1
  {
    hide TypeWithin, InAny;
    types := {};
    ghost var room := MAX_DEPTH - depth;
    forall t ensures t in types <==> InAny(Dicts(ns[..0]), t, room) {
      NoneInEmpty(t, room);
    }
    for k := 0 to |ns|
      invariant forall t :: t in types <==> InAny(Dicts(ns[..k]), t, room)
    {
      assert ns[..k + 1][..k] == ns[..k];
      if ns[k].Dict? {
        var more := CollectTypes(ns[k], depth);
        forall t ensures t in types + more <==> InAny(Dicts(ns[..k + 1]), t, room) {
          InAnySnoc(Dicts(ns[..k]), ns[k], t, room);
        }
        types := types + more;
      } else {
        assert Dicts(ns[..k + 1]) == Dicts(ns[..k]) + [] == Dicts(ns[..k]);
      }
    }
    assert ns[..|ns|] == ns;
  }
}
