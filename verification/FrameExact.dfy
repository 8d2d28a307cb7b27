/** The frame is no larger than it must be: it counts each drop once and for what it is,
    and a walk that makes every drop and no rise ends exactly that far down. */
module FrameExact {
  import opened Graph
  import opened Thumb
  import opened ReturnAnalysis
  import opened BodyRules
  import opened FrameBound

  function Below(v: int): nat {
    if v < 0 then -v else 0
  }

  /** What is charged for an instruction is what it lowers a known sp by, no more. */
  lemma DropExact(st: Abs, ins: Insn)
    requires st.sp.Some? && InsnOk(ins)
    ensures SpAfter(st, ins).Some? && Drop(ins) == Below(SpAfter(st, ins).value - st.sp.value)
  {
  }

  /** How far sp moves on the way to b; an instruction that is skipped moves nothing. */
  function EdgeMove(ins: Insn, cond: bool, b: int): int {
    if cond && !(ins.target == Some(b) && ins.flow != Seq && ins.flow != It) then 0
    else if SP in ins.wr then ins.sp
    else 0
  }

  function MoveAt(insns: map<int, Insn>, inIt: set<int>, a: int, b: int): int {
    if a in insns then EdgeMove(insns[a], a in inIt, b) else 0
  }

  /** How far sp moves along a walk. */
  function WalkMove(insns: map<int, Insn>, inIt: set<int>, p: seq<int>): int {
    if |p| <= 1 then 0
    else WalkMove(insns, inIt, p[..|p| - 1]) + MoveAt(insns, inIt, p[|p| - 2], p[|p| - 1])
  }

  lemma EdgeExact(ins: Insn, cond: bool, st: Abs, b: int)
    requires st.Ok() && st.sp.Some? && !EdgeClash(ins, cond, st, b) && InsnOk(ins)
    ensures EdgeState(ins, cond, st, b).sp == Some(st.sp.value + EdgeMove(ins, cond, b))
    ensures EdgeMove(ins, cond, b) + Drop(ins) >= 0
  {
  }

  lemma WalkInit(succ: Succ, p: seq<int>)
    requires IsWalk(succ, p) && |p| > 1
    ensures IsWalk(succ, p[..|p| - 1]) && Graph.Edge(succ, p[|p| - 2], p[|p| - 1])
  {
    var q := p[..|p| - 1];
    forall i | 0 <= i < |q| - 1
      ensures Graph.Edge(succ, q[i], q[i + 1])
    {
      assert Graph.Edge(succ, p[i], p[i + 1]);
    }
    assert Graph.Edge(succ, p[|p| - 2], p[|p| - 2 + 1]);
  }

  /** The position found at the end of a walk is what the walk's moves add up to. */
  lemma {:induction false} SpExact(node: Node, f: Findings, p: seq<int>)
    requires IsWalk(f.succ, p) && p[0] == node.addr
    requires SpTracked(node, f)
    ensures p[|p| - 1] in f.IN
    ensures f.IN[p[|p| - 1]].sp == Some(WalkMove(InsnMap(node.code), ItSet(node.code), p))
    ensures forall i :: 0 <= i < |p| ==> p[i] in f.IN
  {
    var insns, inIt := InsnMap(node.code), ItSet(node.code);
    hide InsnMap, ItSet, EdgeState, EdgeClash, EdgeMove, NoClash, Fixpoint;
    if |p| > 1 {
      var a, b, q := p[|p| - 2], p[|p| - 1], p[..|p| - 1];
      WalkInit(f.succ, p);
      SpExact(node, f, q);
      assert p == q + [b];
      EdgeKept(insns, inIt, f.succ, f.IN, a, b);
      EdgeExact(insns[a], a in inIt, f.IN[a], b);
    }
  }

  lemma EdgeKept(insns: map<int, Insn>, inIt: set<int>, succ: Succ, IN: States, a: int, b: int)
    requires a in IN && Graph.Edge(succ, a, b) && Fixpoint(insns, inIt, succ, IN) && AllSpKnown(IN)
    requires NoClash(insns, inIt, succ, IN, a) && IN[a].Ok()
    ensures a in insns && b in IN && IN[b].Ok() && !EdgeClash(insns[a], a in inIt, IN[a], b)
    ensures IN[b].sp == EdgeState(insns[a], a in inIt, IN[a], b).sp
  {
    hide EdgeState, EdgeClash;
    assert NodeHolds(insns, inIt, succ, IN, a) && EdgeHolds(insns, inIt, IN, a, b);
  }

  // ---- when the frame is reached -------------------------------------------------

  /** Every edge of the walk goes down by all that its instruction is charged. */
  ghost predicate NeverRises(insns: map<int, Insn>, inIt: set<int>, p: seq<int>) {
    forall i :: 0 <= i < |p| - 1 ==> MoveAt(insns, inIt, p[i], p[i + 1]) + DropAt(insns, p[i]) == 0
  }

  /** The walk goes on from every instruction that lowers sp. */
  ghost predicate MakesAll(code: seq<Insn>, p: seq<int>) {
    forall ins :: ins in code && Drop(ins) > 0 ==> ins.addr in p
  }

  lemma {:induction false} MoveSum(insns: map<int, Insn>, inIt: set<int>, p: seq<int>)
    requires p != [] && forall i :: 0 <= i < |p| ==> p[i] in insns && InsnOk(insns[p[i]])
    ensures WalkMove(insns, inIt, p) + DropSum(insns, p[..|p| - 1]) >= 0
    ensures WalkMove(insns, inIt, p) + DropSum(insns, p[..|p| - 1]) == 0 <==> NeverRises(insns, inIt, p)
  {
    if |p| > 1 {
      var q := p[..|p| - 1];
      MoveSum(insns, inIt, q);
      assert p[..|p| - 1][..|p| - 2] == q[..|q| - 1];
      assert MoveAt(insns, inIt, p[|p| - 2], p[|p| - 1]) + DropAt(insns, p[|p| - 2]) >= 0;
      assert NeverRises(insns, inIt, p) <==>
        NeverRises(insns, inIt, q) && MoveAt(insns, inIt, p[|p| - 2], p[|p| - 1]) + DropAt(insns, p[|p| - 2]) == 0 by {
        RisesLast(insns, inIt, p);
      }
    }
  }

  lemma RisesLast(insns: map<int, Insn>, inIt: set<int>, p: seq<int>)
    requires |p| > 1
    ensures NeverRises(insns, inIt, p) <==>
      NeverRises(insns, inIt, p[..|p| - 1]) && MoveAt(insns, inIt, p[|p| - 2], p[|p| - 1]) + DropAt(insns, p[|p| - 2]) == 0
  {
    hide MoveAt, DropAt;
    var q := p[..|p| - 1];
    forall i | 0 <= i < |p| - 1 && NeverRises(insns, inIt, q)
      ensures i < |p| - 2 ==> MoveAt(insns, inIt, p[i], p[i + 1]) + DropAt(insns, p[i]) == 0
    {
      assert i < |p| - 2 ==> q[i] == p[i] && q[i + 1] == p[i + 1];
    }
    if NeverRises(insns, inIt, p) {
      forall i | 0 <= i < |q| - 1
        ensures MoveAt(insns, inIt, q[i], q[i + 1]) + DropAt(insns, q[i]) == 0
      {
        assert q[i] == p[i] && q[i + 1] == p[i + 1];
      }
      assert MoveAt(insns, inIt, p[|p| - 2], p[|p| - 2 + 1]) + DropAt(insns, p[|p| - 2]) == 0;
    }
  }

  lemma {:induction false} AddOnce(m: map<int, Insn>, ins: Insn, p: seq<int>)
    requires ins.addr !in m && ins.addr in p
    requires forall i, j :: 0 <= i < j < |p| && p[i] == p[j] == ins.addr ==> Drop(ins) == 0
    ensures DropSum(m[ins.addr := ins], p) == DropSum(m, p) + Drop(ins)
  {
    var q := p[..|p| - 1];
    if p[|p| - 1] == ins.addr {
      if ins.addr in q {
        var i :| 0 <= i < |q| && q[i] == ins.addr;
        assert p[i] == p[|p| - 1];
        AddOnce(m, ins, q);
      } else {
        AddOne(m, ins, q);
      }
    } else {
      assert ins.addr in q;
      AddOnce(m, ins, q);
    }
  }

  /** Drops passed at most once add up to the frame exactly when none is left out. */
  lemma {:induction false} DropSumExact(code: seq<Insn>, p: seq<int>)
    requires WellLaid(code) && DropsOnce(InsnMap(code), p)
    ensures DropSum(InsnMap(code), p) == FrameOf(code) <==> MakesAll(code, p)
  {
    if code == [] {
      NoDrops(p);
    } else {
      var init, ins := code[..|code| - 1], code[|code| - 1];
      var m := InsnMap(init);
      InsnMapKeys(init, ins.addr);
      forall i | 0 <= i < |init|
        ensures init[i].addr != ins.addr
      {
        assert code[i].addr + code[i].size <= code[|code| - 1].addr && init[i] == code[i];
      }
      forall i, j | 0 <= i < j < |p| && DropAt(m, p[i]) > 0
        ensures p[i] != p[j]
      {
        assert DropAt(InsnMap(code), p[i]) == DropAt(m, p[i]);
      }
      assert forall i, j :: 0 <= i < j < |p| && p[i] == p[j] == ins.addr ==> DropAt(InsnMap(code), p[i]) == 0;
      DropSumFrame(init, p);
      DropSumExact(init, p);
      assert code == init + [ins];
      MakesMore(init, ins, p);
      AddOne(m, ins, p);
      if ins.addr in p {
        AddOnce(m, ins, p);
      }
    }
  }

  lemma MakesMore(init: seq<Insn>, ins: Insn, p: seq<int>)
    ensures MakesAll(init + [ins], p) <==> MakesAll(init, p) && (Drop(ins) > 0 ==> ins.addr in p)
  {
    assert ins in init + [ins];
    assert forall x :: x in init + [ins] <==> x in init || x == ins;
  }

  ghost predicate FoundAt(f: Findings, a: int, v: int) {
    a in f.IN && f.IN[a].sp == Some(v)
  }

  /** At the end of a walk through an accepted body sp is the whole frame below the entry
      if and only if the walk made every drop and no rise. */
  lemma FrameReached(image: Image, node: Node, f: Findings, p: seq<int>) returns (v: int)
    requires WellLaid(node.code) && p != [] && p[0] == node.addr && IsWalk(f.succ, p)
    requires Accepted(image, node, f)
    ensures FoundAt(f, p[|p| - 1], v)
    ensures v + FrameOf(node.code) == 0 <==>
      NeverRises(InsnMap(node.code), ItSet(node.code), p) && MakesAll(node.code, p[..|p| - 1])
  {
    hide Accepted, ItBlocksOk, FrameOf, NeverRises, MakesAll, InsnMap, ItSet, DropSum, WalkMove, DropAt;
    AcceptedTracks(image, node, f);
    SpExact(node, f, p);
    v := WalkMove(InsnMap(node.code), ItSet(node.code), p);
    WalkOk(node, f, p);
    hide SpTracked;
    MoveSum(InsnMap(node.code), ItSet(node.code), p);
    WalkDropsOnce(image, node, f, p);
    DropSumFrame(node.code, p[..|p| - 1]);
    DropSumExact(node.code, p[..|p| - 1]);
  }

  lemma WalkOk(node: Node, f: Findings, p: seq<int>)
    requires SpTracked(node, f) && forall i :: 0 <= i < |p| ==> p[i] in f.IN
    ensures forall i :: 0 <= i < |p| ==> p[i] in InsnMap(node.code) && InsnOk(InsnMap(node.code)[p[i]])
  {
    hide Fixpoint, NoClash;
    forall i | 0 <= i < |p|
      ensures p[i] in InsnMap(node.code) && InsnOk(InsnMap(node.code)[p[i]])
    {
      var a := p[i];
      assert a in f.IN;
    }
  }

  lemma WalkDropsOnce(image: Image, node: Node, f: Findings, p: seq<int>)
    requires IsWalk(f.succ, p) && p[0] == node.addr && node.addr in f.IN
    requires Accepted(image, node, f)
    ensures DropsOnce(InsnMap(node.code), p[..|p| - 1])
  {
    hide Accepted, InsnMap;
    var q := p[..|p| - 1];
    ReachedFrom(image, node, f, node.addr);
    forall i, j | 0 <= i < j < |q| && DropAt(InsnMap(node.code), q[i]) > 0
      ensures q[i] != q[j]
    {
      OncePerActivation(image, node, f, p, i, j);
    }
  }
}
