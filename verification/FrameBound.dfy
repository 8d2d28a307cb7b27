/** The frame of a body bounds how far sp goes below its entry: an instruction that
    changes sp and lies on no cycle is passed at most once by any walk through the
    body. */
module FrameBound {
  import opened Graph
  import opened Thumb
  import opened ReturnAnalysis
  import opened BodyRules

  function DropAt(insns: map<int, Insn>, a: int): nat {
    if a in insns then Drop(insns[a]) else 0
  }

  /** The drops along a walk. */
  function DropSum(insns: map<int, Insn>, p: seq<int>): nat {
    if p == [] then 0 else DropSum(insns, p[..|p| - 1]) + DropAt(insns, p[|p| - 1])
  }

  lemma SubWalk(succ: Succ, p: seq<int>, i: int, j: int)
    requires IsWalk(succ, p) && 0 <= i <= j < |p|
    ensures Reach(succ, p[i], p[j])
  {
    var q := p[i..j + 1];
    forall k | 0 <= k < |q| - 1
      ensures Graph.Edge(succ, q[k], q[k + 1])
    {
      assert Graph.Edge(succ, p[i + k], p[i + k + 1]);
    }
    assert WalkBetween(succ, p[i], p[j], q);
  }

  /** A node that a walk passes twice lies on a cycle. */
  lemma TwiceIsCycle(succ: Succ, p: seq<int>, i: int, j: int)
    requires IsWalk(succ, p) && 0 <= i < j < |p| && p[i] == p[j]
    ensures OnCycle(succ, p[i])
  {
    assert Graph.Edge(succ, p[i], p[i + 1]);
    SubWalk(succ, p, i + 1, j);
  }

  /** An accepted body's changes of sp are made at most once on any walk. */
  lemma OncePerActivation(image: Image, node: Node, f: Findings, p: seq<int>, i: int, j: int)
    requires Accepted(image, node, f) && IsWalk(f.succ, p) && p[0] in f.seen
    requires 0 <= i < j < |p| && p[i] in InsnMap(node.code) && SP in InsnMap(node.code)[p[i]].wr
    ensures p[i] != p[j]
  {
    if p[i] == p[j] {
      TwiceIsCycle(f.succ, p, i, j);
      WalkStays(f.succ, f.seen, p);
    }
  }

  ghost predicate DropsOnce(insns: map<int, Insn>, p: seq<int>) {
    forall i, j :: 0 <= i < j < |p| && DropAt(insns, p[i]) > 0 ==> p[i] != p[j]
  }

  lemma {:induction false} AddOne(m: map<int, Insn>, ins: Insn, p: seq<int>)
    requires ins.addr !in m && forall i, j :: 0 <= i < j < |p| && p[i] == p[j] == ins.addr ==> Drop(ins) == 0
    ensures DropSum(m[ins.addr := ins], p) <= DropSum(m, p) + Drop(ins)
    ensures ins.addr !in p ==> DropSum(m[ins.addr := ins], p) == DropSum(m, p)
  {
    if p != [] {
      var q := p[..|p| - 1];
      AddOne(m, ins, q);
      if p[|p| - 1] == ins.addr && ins.addr in q {
        var i :| 0 <= i < |q| && q[i] == ins.addr;
        assert p[i] == p[|p| - 1];
      }
    }
  }

  /** Drops that are each passed at most once add up to no more than the frame. */
  lemma {:induction false} DropSumFrame(code: seq<Insn>, p: seq<int>)
    requires WellLaid(code) && DropsOnce(InsnMap(code), p)
    ensures DropSum(InsnMap(code), p) <= FrameOf(code)
  {
    if code == [] {
      NoDrops(p);
    } else {
      var init, ins := code[..|code| - 1], code[|code| - 1];
      InsnMapKeys(init, ins.addr);
      var m := InsnMap(init);
      forall i | 0 <= i < |init|
        ensures init[i].addr != ins.addr
      {
        assert code[i].addr + code[i].size <= code[|code| - 1].addr && init[i] == code[i];
      }
      assert InsnMap(code)[ins.addr] == ins;
      forall i, j | 0 <= i < j < |p| && DropAt(m, p[i]) > 0
        ensures p[i] != p[j]
      {
        assert DropAt(InsnMap(code), p[i]) == DropAt(m, p[i]);
      }
      assert forall i, j :: 0 <= i < j < |p| && p[i] == p[j] == ins.addr ==> DropAt(InsnMap(code), p[i]) == 0;
      DropSumFrame(init, p);
      AddOne(m, ins, p);
    }
  }

  lemma {:induction false} NoDrops(p: seq<int>)
    ensures DropSum(map[], p) == 0
  {
    if p != [] {
      NoDrops(p[..|p| - 1]);
    }
  }

  /** What a walk needs of an accepted body. */
  ghost predicate SpTracked(node: Node, f: Findings) {
    && AllSpKnown(f.IN) && (forall a :: a in f.IN ==> f.IN[a].Ok())
    && Fixpoint(InsnMap(node.code), ItSet(node.code), f.succ, f.IN)
    && (forall a :: a in f.IN ==> NoClash(InsnMap(node.code), ItSet(node.code), f.succ, f.IN, a))
    && (forall a :: a in f.IN ==> a in InsnMap(node.code) && InsnOk(InsnMap(node.code)[a]))
    && node.addr in f.IN && LeqOpt(f.IN[node.addr].sp, Some(0))
  }

  lemma AcceptedTracks(image: Image, node: Node, f: Findings)
    requires WellLaid(node.code)
    requires Accepted(image, node, f)
    ensures SpTracked(node, f)
  {
    hide Fixpoint, NoClash, FlowOk, LoopsOk, ItBlocksOk, StoresOk, ReturnOk, HandOverOk, TailCalls, Closed, InsnMap, Next;
    forall a | a in f.IN
      ensures a in InsnMap(node.code) && InsnOk(InsnMap(node.code)[a])
    {
      InsnMapKeys(node.code, a);
    }
  }

  /** Along an edge the known position of sp falls by no more than the drop. */
  lemma EdgeDrop(node: Node, f: Findings, a: int, b: int) returns (v: int, w: int)
    requires a in f.IN && Graph.Edge(f.succ, a, b)
    requires SpTracked(node, f)
    ensures b in f.IN && f.IN[a].sp == Some(v) && f.IN[b].sp == Some(w)
    ensures w >= v - DropAt(InsnMap(node.code), a)
  {
    hide InsnMap, ItSet, EdgeState, EdgeClash;
    var insns, inIt := InsnMap(node.code), ItSet(node.code);
    assert NodeHolds(insns, inIt, f.succ, f.IN, a);
    assert NoClash(insns, inIt, f.succ, f.IN, a);
    assert EdgeHolds(insns, inIt, f.IN, a, b);
    EdgeSp(insns[a], a in inIt, f.IN[a], b);
    v, w := f.IN[a].sp.value, f.IN[b].sp.value;
  }

  lemma EdgeSp(ins: Insn, cond: bool, st: Abs, b: int)
    requires st.Ok() && st.sp.Some? && !EdgeClash(ins, cond, st, b) && InsnOk(ins)
    ensures EdgeState(ins, cond, st, b).sp.Some?
    ensures EdgeState(ins, cond, st, b).sp.value >= st.sp.value - Drop(ins)
  {
  }

  lemma {:induction false} SpAlongWalk(node: Node, f: Findings, p: seq<int>) returns (v: int)
    requires IsWalk(f.succ, p) && p[0] == node.addr
    requires SpTracked(node, f)
    ensures p[|p| - 1] in f.IN && f.IN[p[|p| - 1]].sp == Some(v)
    ensures v + DropSum(InsnMap(node.code), p[..|p| - 1]) >= 0
  {
    hide Fixpoint, NoClash;
    if |p| == 1 {
      v := 0;
    } else {
      var q := p[..|p| - 1];
      forall i | 0 <= i < |q| - 1
        ensures Graph.Edge(f.succ, q[i], q[i + 1])
      {
        assert Graph.Edge(f.succ, p[i], p[i + 1]);
      }
      var u := SpAlongWalk(node, f, q);
      assert Graph.Edge(f.succ, p[|p| - 2], p[|p| - 2 + 1]);
      u, v := EdgeDrop(node, f, p[|p| - 2], p[|p| - 1]);
    }
  }

  /** sp never goes further below the entry than the frame. */
  lemma SpWithinFrame(image: Image, node: Node, f: Findings, a: int) returns (v: int)
    requires WellLaid(node.code) && a in f.IN
    requires Accepted(image, node, f)
    ensures f.IN[a].sp == Some(v) && v + FrameOf(node.code) >= 0
  {
    hide Accepted, SpTracked, ItBlocksOk, DropSum, FrameOf;
    assert Reach(f.succ, node.addr, a) by { ReachedFrom(image, node, f, a); }
    var p :| WalkBetween(f.succ, node.addr, a, p);
    AcceptedTracks(image, node, f);
    v := SpAlongWalk(node, f, p);
    var q := p[..|p| - 1];
    forall i, j | 0 <= i < j < |q| && DropAt(InsnMap(node.code), q[i]) > 0
      ensures q[i] != q[j]
    {
      ReachedFrom(image, node, f, a);
      OncePerActivation(image, node, f, p, i, j);
    }
    DropSumFrame(node.code, q);
  }

  lemma ReachedFrom(image: Image, node: Node, f: Findings, a: int)
    requires a in f.IN
    requires Accepted(image, node, f)
    ensures node.addr in f.seen && Reach(f.succ, node.addr, a)
  {
    hide Fixpoint, NoClash, FlowOk, LoopsOk, ItBlocksOk, ReturnsOk, ExtentOk, Next;
  }
}
