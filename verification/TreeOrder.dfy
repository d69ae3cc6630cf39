/** Document order, told by a worklist: take the first element, note its level, and put its kids in front of the rest. */
module TreeOrder {
  import opened Prelude
  import opened StructTree

  /** Heading elements are those whose type is an H and one digit. */
  lemma HeadingTypes(n: Node, d: nat)
    ensures LevelOf(n) == Some(d) <==> n.Dict? && d <= 9 && TypeName(n) == ['H', "0123456789"[d]]
  {
    hide TypeName;
    if n.Dict? && d <= 9 {
      assert "0123456789"[d] as int == '0' as int + d;
      var name := TypeName(n);
      if |name| == 2 {
        assert name == [name[0], name[1]];
      }
    }
  }

  /** A string type counts unless it is empty, and then the kind does. */
  lemma TypeNames(s: string, kind: string, kids: Kids)
    ensures TypeName(Dict(Str(s), Str(kind), kids)) == StripSlashes(if s == "" then kind else s)
    ensures TypeName(Dict(Absent, Str(kind), kids)) == StripSlashes(kind)
    ensures TypeName(Dict(Absent, Absent, kids)) == ""
    ensures TypeName(Dict(Object(s, true), Str(kind), kids)) == StripSlashes(s)
    ensures TypeName(Dict(Object(s, false), Str(kind), kids)) == StripSlashes(kind)
  {
  }

  function KidsOf(n: Node): seq<Node> {
    if n.NotDict? || n.kids.NoKids? then []
    else if n.kids.Single? then [n.kids.item]
    else n.kids.items
  }

  function Size(n: Node): nat
    decreases n, 0
  {
    1 + (if n.NotDict? then 0
         else match n.kids
           case NoKids => 0
           case List(items) => SizeOfAll(items)
           case Single(item) => Size(item))
  }

  function SizeOfAll(ns: seq<Node>): nat
    decreases ns, 1
  {
    if ns == [] then 0 else SizeOfAll(ns[..|ns| - 1]) + Size(ns[|ns| - 1])
  }

  lemma {:induction false} SizeAppend(a: seq<Node>, b: seq<Node>)
    ensures SizeOfAll(a + b) == SizeOfAll(a) + SizeOfAll(b)
  {
    hide Size;
    if b == [] {
      assert a + b == a;
    } else {
      assert (a + b)[..|a| + |b| - 1] == a + b[..|b| - 1];
      SizeAppend(a, b[..|b| - 1]);
    }
  }

  lemma SizeOfKids(n: Node)
    ensures Size(n) == 1 + SizeOfAll(KidsOf(n))
  {
    if n.Dict? && n.kids.Single? {
      assert [n.kids.item][..0] == [];
      assert SizeOfAll([n.kids.item]) == SizeOfAll([]) + Size(n.kids.item);
    }
  }

  lemma SizeFirst(todo: seq<Node>)
    requires todo != []
    ensures SizeOfAll(KidsOf(todo[0]) + todo[1..]) < SizeOfAll(todo)
  {
    SizeOfKids(todo[0]);
    SizeAppend(KidsOf(todo[0]), todo[1..]);
    SizeAppend([todo[0]], todo[1..]);
    assert todo == [todo[0]] + todo[1..];
    assert [todo[0]][..0] == [] && SizeOfAll([todo[0]]) == Size(todo[0]);
  }

  /** The levels met when the first element of a list is always taken next, its kids after it. */
  function Preorder(todo: seq<Node>): seq<nat>
    decreases SizeOfAll(todo)
  {
    if todo == [] then []
    else
      SizeFirst(todo);
      (if LevelOf(todo[0]).Some? then [LevelOf(todo[0]).value] else []) + Preorder(KidsOf(todo[0]) + todo[1..])
  }

  lemma {:induction false} LevelsAppend(a: seq<Node>, b: seq<Node>)
    ensures LevelsOfAll(a + b) == LevelsOfAll(a) + LevelsOfAll(b)
  {
    hide Levels;
    if b == [] {
      assert a + b == a;
    } else {
      assert (a + b)[..|a| + |b| - 1] == a + b[..|b| - 1];
      LevelsAppend(a, b[..|b| - 1]);
    }
  }

  lemma LevelsOfKids(n: Node)
    ensures Levels(n) == (if LevelOf(n).Some? then [LevelOf(n).value] else []) + LevelsOfAll(KidsOf(n))
  {
    hide TypeName;
    if n.Dict? && n.kids.Single? {
      OneOf(n.kids.item);
    }
  }

  lemma OneOf(n: Node)
    ensures LevelsOfAll([n]) == Levels(n)
  {
    assert [n][..0] == [] && LevelsOfAll([]) == [];
  }

  /** The walk's list of levels is the list in document order. */
  lemma {:induction false} LevelsArePreorder(todo: seq<Node>)
    ensures LevelsOfAll(todo) == Preorder(todo)
    decreases SizeOfAll(todo)
  {
    hide Levels, LevelOf, KidsOf;
    if todo != [] {
      var n, rest := todo[0], todo[1..];
      SizeFirst(todo);
      LevelsArePreorder(KidsOf(n) + rest);
      LevelsOfKids(n);
      LevelsAppend(KidsOf(n), rest);
      LevelsAppend([n], rest);
      OneOf(n);
      assert todo == [n] + rest;
    }
  }

  lemma TreeIsPreorder(n: Node)
    ensures Levels(n) == Preorder([n])
  {
    hide Levels, Preorder;
    OneOf(n);
    LevelsArePreorder([n]);
  }
}
