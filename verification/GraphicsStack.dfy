/** The q/Q stack over whole operator sequences: its depth, what a balanced block restores, and
    which operators are still in force at a point of the stream. */
module GraphicsStack {
  import opened Prelude
  import opened Affine
  import opened ContentStream
  import opened OperatorGroups

  predicate IsStackOp(op: Operator) {
    op.Op_q? || op.Op_Q?
  }

  // ---- Depth ----------------------------------------------------------------------------

  /** Number of `q` minus number of `Q`. */
  function Net(prog: seq<Instr>): int {
    if prog == [] then 0
    else
      var n := |prog| - 1;
      Net(prog[..n]) + (if prog[n].op.Op_q? then 1 else if prog[n].op.Op_Q? then -1 else 0)
  }

  ghost predicate NetBoundedBelow(prog: seq<Instr>, m: int) {
    forall k :: 0 <= k <= |prog| ==> m <= Net(prog[..k])
  }

  /** The least value Net takes over the prefixes (at most zero, because of the empty prefix). */
  ghost predicate IsLowestNet(prog: seq<Instr>, m: int) {
    NetBoundedBelow(prog, m) && exists k :: 0 <= k <= |prog| && m == Net(prog[..k])
  }

  function LowestNet(prog: seq<Instr>): int {
    if prog == [] then 0 else MinI(LowestNet(prog[..|prog| - 1]), Net(prog))
  }

  lemma {:induction false} LowestNetIsLowest(prog: seq<Instr>)
    ensures IsLowestNet(prog, LowestNet(prog)) && LowestNet(prog) <= 0
  {
    assert prog[..|prog|] == prog && prog[..0] == [];
    if prog != [] {
      var n := |prog| - 1;
      var p := prog[..n];
      LowestNetIsLowest(p);
      forall k | 0 <= k <= n ensures prog[..k] == p[..k] {}
      var k :| 0 <= k <= |p| && LowestNet(p) == Net(p[..k]);
      assert LowestNet(prog) == Net(prog[..if LowestNet(p) <= Net(prog) then k else |prog|]);
    }
  }

  /** An unmatched `Q` is ignored, so the depth is the net count lifted by the deepest deficit the
      starting stack did not cover. */
  lemma {:induction false} StackDepth(page: Page, s: State, prog: seq<Instr>, first: int)
    ensures |Run(page, s, prog, first).stack| == Net(prog) + MaxI(|s.stack|, -LowestNet(prog))
  {
    hide NextGs, NextPath, NextText, Built, Emitted;
    if prog != [] {
      StackDepth(page, s, prog[..|prog| - 1], first);
      LowestNetIsLowest(prog[..|prog| - 1]);
    }
  }

  // ---- Balanced blocks ------------------------------------------------------------------

  ghost predicate Balanced(prog: seq<Instr>) {
    Net(prog) == 0 && NetBoundedBelow(prog, 0)
  }

  lemma {:induction false} FramesBelowAreKept(page: Page, s: State, prog: seq<Instr>, first: int)
    requires NetBoundedBelow(prog, 0)
    ensures var r := Run(page, s, prog, first);
            |r.stack| == |s.stack| + Net(prog) && s.stack <= r.stack
  {
    hide NextGs, NextPath, NextText, Built, Emitted;
    if prog != [] {
      var n := |prog| - 1;
      assert prog[..|prog|] == prog;
      forall k | 0 <= k <= n ensures prog[..n][..k] == prog[..k] {}
      FramesBelowAreKept(page, s, prog[..n], first);
    }
  }

  function TextRun(page: Page, t: TextState, prog: seq<Instr>): TextState {
    if prog == [] then t
    else NextText(page, TextRun(page, t, prog[..|prog| - 1]), prog[|prog| - 1])
  }

  /** The text state never looks at the graphics state, so `q` and `Q` do not touch it. */
  lemma {:induction false} TextIgnoresStack(page: Page, s: State, prog: seq<Instr>, first: int)
    ensures Run(page, s, prog, first).text == TextRun(page, s.text, prog)
  {
    hide NextGs, NextPath, NextText, Built, Emitted;
    if prog != [] {
      TextIgnoresStack(page, s, prog[..|prog| - 1], first);
    }
  }

  /** A block `q body Q` with a balanced body restores all fourteen saved fields and the stack,
      whatever the body does and however deep it nests; the text state and the path under
      construction come out as the body left them. */
  lemma BalancedBlockRestores(page: Page, s: State, body: seq<Instr>, q: Instr, bigQ: Instr, first: int)
    requires Balanced(body) && q.op.Op_q? && bigQ.op.Op_Q?
    ensures var inner := Run(page, s, [q] + body, first);
            var r := Run(page, s, [q] + body + [bigQ], first);
            && r.gs == s.gs && r.stack == s.stack
            && r.text == TextRun(page, s.text, body)
            && r.path == inner.path && r.events == inner.events
  {
    hide Step;
    var s1 := Run(page, s, [q], first);
    OneStep(page, s, q, first);
    SaveStep(page, s, q, first);
    RunAppend(page, s, [q], body, first);
    FramesBelowAreKept(page, s1, body, first + 1);
    TextIgnoresStack(page, s1, body, first + 1);
    var s2 := Run(page, s1, body, first + 1);
    RunAppend(page, s, [q] + body, [bigQ], first);
    OneStep(page, s2, bigQ, first + 1 + |body|);
    RestoreStep(page, s2, bigQ, first + 1 + |body|);
    assert s2.stack == s.stack + [s.gs] by {
      assert s2.stack[..|s1.stack|] == s2.stack;
    }
  }

  lemma OneStep(page: Page, s: State, i: Instr, index: int)
    ensures Run(page, s, [i], index) == Step(page, s, i, index)
  {
    hide Step;
    assert [i][..0] == [];
    assert Run(page, s, [], index) == s;
  }

  // ---- Operators in force ---------------------------------------------------------------

  /** Stack depth after a prefix, starting from an empty stack. */
  function Depth(prog: seq<Instr>): nat {
    if prog == [] then 0
    else
      var n := |prog| - 1;
      var d := Depth(prog[..n]);
      if prog[n].op.Op_q? then d + 1 else if prog[n].op.Op_Q? && d > 0 then d - 1 else d
  }

  /** Operator j of prog is in force at stack level d: it was executed at that level or below, and the
      stack has not dropped below its own level since. */
  ghost predicate InForce(prog: seq<Instr>, j: nat, d: nat)
    requires j < |prog|
  {
    && !IsStackOp(prog[j].op)
    && Depth(prog[..j]) <= d
    && forall k :: j < k <= |prog| ==> Depth(prog[..j]) <= Depth(prog[..k])
  }

  /** The first i operators of prog that are in force at level d, in order. */
  ghost function Live(prog: seq<Instr>, i: nat, d: nat): seq<Instr>
    requires i <= |prog|
  {
    if i == 0 then []
    else Live(prog, i - 1, d) + (if InForce(prog, i - 1, d) then [prog[i - 1]] else [])
  }

  ghost function LiveNow(prog: seq<Instr>): seq<Instr> {
    Live(prog, |prog|, Depth(prog))
  }

  function GsRun(page: Page, gs: GState, prog: seq<Instr>): GState {
    if prog == [] then gs
    else NextGs(page, GsRun(page, gs, prog[..|prog| - 1]), prog[|prog| - 1])
  }

  /** Adding one operator does not change what is in force at levels the stack still has. */
  lemma {:induction false} LiveOfPrefix(prog: seq<Instr>, i: nat, d: nat)
    requires prog != [] && i <= |prog| - 1 && d <= Depth(prog)
    ensures Live(prog, i, d) == Live(prog[..|prog| - 1], i, d)
  {
    if i > 0 {
      LiveOfPrefix(prog, i - 1, d);
      var p := prog[..|prog| - 1];
      forall k | 0 <= k < |prog| ensures prog[..k] == p[..k] {}
      assert prog[..|prog|] == prog;
      assert InForce(prog, i - 1, d) <==> InForce(p, i - 1, d);
    }
  }

  /** No operator in force lies above the current depth. */
  lemma {:induction false} LiveAboveDepth(prog: seq<Instr>, i: nat, d: nat)
    requires i <= |prog| && d >= Depth(prog)
    ensures Live(prog, i, d) == Live(prog, i, Depth(prog))
  {
    if i > 0 {
      LiveAboveDepth(prog, i - 1, d);
      assert prog[..|prog|] == prog;
      assert InForce(prog, i - 1, d) <==> InForce(prog, i - 1, Depth(prog));
    }
  }

  /** What the stack and the current graphics state hold: the k-th saved state is the effect of
      the operators in force at level k, and the current one of those in force now. */
  ghost predicate Reflects(page: Page, s: State, prog: seq<Instr>) {
    && |s.stack| == Depth(prog)
    && s.gs == GsRun(page, INITIAL_GSTATE, LiveNow(prog))
    && forall k :: 0 <= k < |s.stack| ==> s.stack[k] == GsRun(page, INITIAL_GSTATE, Live(prog, |prog|, k))
  }

  /** The stack machine computes the stackless meaning: at every point of every operator sequence the
      graphics state is what the operators still in force produce when run on their own, in order. */
  lemma {:induction false} StateIsEffectOfLiveOperators(page: Page, prog: seq<Instr>, first: int)
    ensures Reflects(page, Run(page, INITIAL, prog, first), prog)
  {
    hide NextGs, NextPath, NextText, Built, Emitted;
    if prog != [] {
      var n := |prog| - 1;
      StateIsEffectOfLiveOperators(page, prog[..n], first);
      var s := Run(page, INITIAL, prog[..n], first);
      LiveStep(page, s, prog, first + n);
    }
  }

  /** How one more operator changes what is in force at the levels the stack still has. */
  lemma LiveAppend(prog: seq<Instr>, k: nat)
    requires prog != [] && k <= Depth(prog)
    ensures var n := |prog| - 1;
      Live(prog, |prog|, k) ==
        if !IsStackOp(prog[n].op) && Depth(prog[..n]) <= k then Live(prog[..n], n, k) + [prog[n]]
        else Live(prog[..n], n, k)
  {
    assert prog[..|prog|] == prog;
    LiveOfPrefix(prog, |prog| - 1, k);
  }

  lemma LiveStep(page: Page, s: State, prog: seq<Instr>, index: int)
    requires prog != [] && Reflects(page, s, prog[..|prog| - 1])
    ensures Reflects(page, Step(page, s, prog[|prog| - 1], index), prog)
  {
    hide NextGs, NextPath, NextText, Built, Emitted, InForce, Live;
    var n := |prog| - 1;
    var p, i := prog[..n], prog[n];
    forall k | 0 <= k <= Depth(prog)
      ensures Live(prog, |prog|, k) ==
        if !IsStackOp(i.op) && Depth(p) <= k then Live(p, n, k) + [i] else Live(p, n, k)
    {
      LiveAppend(prog, k);
    }
    if i.op.Op_q? {
      LiveAboveDepth(p, n, Depth(prog));
    } else if !i.op.Op_Q? {
      var l := LiveNow(p);
      assert (l + [i])[..|l|] == l;
      assert GsRun(page, INITIAL_GSTATE, l + [i]) == NextGs(page, s.gs, i);
    }
  }

  // ---- The transformation matrix --------------------------------------------------------

  /** The operand matrices of the well-formed `cm` operators, oldest first. */
  function Deltas(prog: seq<Instr>): seq<Matrix> {
    if prog == [] then []
    else
      var i := prog[|prog| - 1];
      Deltas(prog[..|prog| - 1]) + (if i.op.Op_cm? && |i.args| == 6 then [MatrixOf(i.args)] else [])
  }

  lemma NextCtm(page: Page, gs: GState, i: Instr)
    ensures NextGs(page, gs, i).ctm == if i.op.Op_cm? && |i.args| == 6 then Mul(gs.ctm, MatrixOf(i.args)) else gs.ctm
  {
    hide Mul, MatrixOf, Num, IntOf, Nums, PyNums, ExtGStateNamed, SpaceNamed, MaxR;
  }

  lemma {:induction false} CtmOfGsRun(page: Page, prog: seq<Instr>)
    ensures GsRun(page, INITIAL_GSTATE, prog).ctm == Product(Deltas(prog))
  {
    hide Mul, MatrixOf, NextGs;
    if prog != [] {
      var p, i := prog[..|prog| - 1], prog[|prog| - 1];
      CtmOfGsRun(page, p);
      NextCtm(page, GsRun(page, INITIAL_GSTATE, p), i);
      var ds := Deltas(p);
      if i.op.Op_cm? && |i.args| == 6 {
        assert (ds + [MatrixOf(i.args)])[..|ds|] == ds;
      } else {
        assert Deltas(prog) == ds;
      }
    }
  }

  /** At every point the CTM is the product of the `cm` matrices still in force, oldest first, so a
      user-space point goes through the oldest matrix first. */
  lemma CtmIsProductOfLiveDeltas(page: Page, prog: seq<Instr>, first: int, p: Point)
    ensures var ctm := Run(page, INITIAL, prog, first).gs.ctm;
            && ctm == Product(Deltas(LiveNow(prog)))
            && Apply(ctm, p) == Chain(Deltas(LiveNow(prog)), p)
  {
    hide Step, NextGs;
    StateIsEffectOfLiveOperators(page, prog, first);
    CtmOfGsRun(page, LiveNow(prog));
    ProductAppliesOldestFirst(Deltas(LiveNow(prog)), p);
  }

  /** It is the matrix of section 8.3.4 of ISO 32000-2 whenever the matrices in force commute. */
  lemma CtmMatchesStandardWhenCommuting(page: Page, prog: seq<Instr>, first: int)
    requires var ds := Deltas(LiveNow(prog)); forall a, b :: 0 <= a < b < |ds| ==> Commute(ds[a], ds[b])
    ensures Run(page, INITIAL, prog, first).gs.ctm == StandardProduct(Deltas(LiveNow(prog)))
  {
    hide Step;
    CtmIsProductOfLiveDeltas(page, prog, first, Point(0.0, 0.0));
    CommutingMatricesAgree(Deltas(LiveNow(prog)));
  }
}
