/** What every reachable state of a run of an accepted program keeps. */
module RunInvariant {
  import opened Graph
  import opened Thumb
  import opened Machine
  import opened ReturnAnalysis
  import opened BodyRules
  import opened ItBlocks
  import opened StepSoundness
  import opened Runs
  import FrameBound

  // ---- an accepted program ----------------------------------------------------

  /** What the decoder promises of the instructions it found in a body. */
  ghost predicate Decoded(node: Node) {
    && (forall ins :: ins in node.code ==> WellFormed(ins) && node.addr <= ins.addr && ins.Fall() <= node.end)
    && (forall ins :: ins in node.code && ins.flow == It ==> ins.itlen >= 1)
    && (forall ins :: ins in node.code && (ins.flow == Seq || ins.flow == It || ins.flow == RetLr || ins.flow == RetPop) ==> ins.target.None?)
    && (forall ins :: ins in node.code && ins.flow == LitPc ==> NoData(ins) && SP !in ins.wr && LR !in ins.wr)
  }

  /** The code of a body is laid out in order from its entry, and the decoder's word on
      each instruction is good. */
  ghost predicate CodeOk(node: Node, b: int) {
    && node.addr == b && WellLaid(node.code) && node.code != [] && node.code[0].addr == b
    && Decoded(node)
  }

  ghost predicate BodyOk(c: Ctx, b: int) {
    && b in c.image.nodes && b in c.depth && CodeOk(c.image.nodes[b], b)
    && var node := c.image.nodes[b];
       if IsVeneer(c, b) then
         && !Overlapped(c.image, node)
         && var t := ThumbEntry(c.image, Insns(c, b)[b].target.value);
            t.Some? && t.value in c.bodies && t.value in c.depth && c.depth[t.value] <= c.depth[b]
       else
         && b in c.findings && Accepted(c.image, node, c.findings[b])
         && CalleesOk(c, b)
  }

  /** Every call and tail call of a reached instruction leads to a body below which
      less stack is needed, by the frame. */
  ghost predicate CalleesOk(c: Ctx, b: int)
    requires b in c.image.nodes && b in c.depth && b in c.findings
  {
    && FrameOf(c.image.nodes[b].code) <= c.depth[b]
    && forall a, e :: a in c.findings[b].seen && a in Insns(c, b) && e in CallsOf(c.image, c.image.nodes[b], Insns(c, b)[a]) ==>
         && e.callee in c.bodies && e.callee in c.depth
         && FrameOf(c.image.nodes[b].code) + c.depth[e.callee] <= c.depth[b]
  }

  /** `rise` bounds sp at every place of the body, and with what is called from there. */
  ghost predicate RiseOk(c: Ctx, b: int) {
    && b in c.rise && b in c.image.nodes
    && if IsVeneer(c, b) then
         var t := ThumbEntry(c.image, Insns(c, b)[b].target.value);
         t.Some? ==> t.value in c.rise && c.rise[t.value] <= c.rise[b]
       else
         b in c.findings ==>
           forall a :: a in c.findings[b].IN && a in Insns(c, b) && c.findings[b].IN[a].sp.Some? ==> RiseAt(c, b, a)
  }

  ghost predicate RiseAt(c: Ctx, b: int, a: int)
    requires b in c.rise && b in c.image.nodes && b in c.findings && a in c.findings[b].IN && a in Insns(c, b)
    requires c.findings[b].IN[a].sp.Some?
  {
    var v := c.findings[b].IN[a].sp.value;
    && v <= c.rise[b]
    && forall e :: e in CallsOf(c.image, c.image.nodes[b], Insns(c, b)[a]) ==>
         e.callee in c.rise && v + c.rise[e.callee] <= c.rise[b]
  }

  /** No body that is called rises above a word that holds the caller's return address. */
  ghost predicate Spares(c: Ctx, b: int) {
    !IsVeneer(c, b) && b in c.findings && b in c.image.nodes ==>
      forall a :: a in c.findings[b].IN && a in Insns(c, b) && c.findings[b].IN[a].Ok() && c.findings[b].IN[a].sp.Some? ==>
        SparesAt(c, b, a)
  }

  ghost predicate SparesAt(c: Ctx, b: int, a: int)
    requires b in c.image.nodes && b in c.findings && a in c.findings[b].IN && a in Insns(c, b)
    requires c.findings[b].IN[a].Ok() && c.findings[b].IN[a].sp.Some?
  {
    var st, ins := c.findings[b].IN[a], Insns(c, b)[a];
    forall e, x :: (e in CallsOf(c.image, c.image.nodes[b], ins) && e.kind == CallEdge && e.callee in c.rise
                    && x in Transfer(st, ins).slots) ==> st.sp.value + c.rise[e.callee] <= x
  }

  ghost predicate Calm(c: Ctx) {
    forall b :: b in c.bodies ==> RiseOk(c, b) && Spares(c, b)
  }

  ghost predicate ProgramOk(c: Ctx) {
    && c.root in c.bodies && (forall b :: b in c.bodies ==> BodyOk(c, b))
    && c.depth[c.root] <= 0x8000_0000
    && (c.async ==> Calm(c))
  }

  // ---- the invariant ----------------------------------------------------------

  /** Where an activation stands is a place the analysis reached. */
  ghost predicate Placed(c: Ctx, act: Act) {
    && act.body in c.bodies
    && if IsVeneer(c, act.body) then act.pc == act.body
       else act.body in c.findings && act.pc in c.findings[act.body].IN
  }

  ghost predicate SlotsOk(st: Abs) {
    && st.Ok() && st.sp.Some? && SlotsBelow(st.slots)
    && forall x :: x in st.slots ==> st.sp.value <= x
  }

  /** The activation waits at a call, and `next` is what it called, or what that was
      replaced by in tail calls. */
  ghost predicate Waits(c: Ctx, act: Act, next: Act) {
    && Placed(c, act) && !IsVeneer(c, act.body) && act.pc in Insns(c, act.body)
    && Insns(c, act.body)[act.pc].flow == Bl
    && Insns(c, act.body)[act.pc].Fall() !in ItSet(c.image.nodes[act.body].code)
    && Graph.Edge(c.findings[act.body].succ, act.pc, Insns(c, act.body)[act.pc].Fall())
    && next.link == Insns(c, act.body)[act.pc].Fall()
    && SlotsOk(TopAbs(c, act))
    && next.base == act.base + TopAbs(c, act).sp.value
    && act.body in c.depth && next.body in c.depth && c.depth[next.body] <= c.depth[act.body]
    && act.base + c.depth[next.body] <= next.base + c.depth[act.body]
    && KeptHold(TopAbs(c, act), act.base, next.kept)
  }

  /** The registers a callee preserves hold what the analysis says. */
  ghost predicate KeptHold(st: Abs, base: int, kept: seq<int>)
    requires st.Ok()
  {
    |kept| == 16 && forall r: Reg :: 4 <= r <= 11 && st.regs[r].Some? ==> U32(kept[r]) == U32(base + st.regs[r].value)
  }

  ghost predicate ActsOk(c: Ctx, acts: seq<Act>) {
    && acts != []
    && acts[0].base == c.sp0 && acts[0].link == c.lr0
    && c.root in c.depth && acts[0].body in c.bodies && acts[0].body in c.depth && c.depth[acts[0].body] <= c.depth[c.root]
    && (forall i :: 0 <= i < |acts| - 1 ==> Waits(c, acts[i], acts[i + 1]))
    && Placed(c, acts[|acts| - 1])
  }

  ghost predicate TopOk(c: Ctx, cpu: Cpu, it: nat, act: Act) {
    && Sim(TopAbs(c, act), act.base, act.link, cpu) && SlotsOk(TopAbs(c, act))
    && act.body in c.image.nodes && ItPlace(c.image.nodes[act.body].code, act.pc, it)
  }

  /** No activation above i has lost its return address. */
  ghost predicate AliveAbove(c: Ctx, acts: seq<Act>, i: int) {
    forall j :: i < j < |acts| ==> 0 <= j && !Dead(Shown(c, acts, j))
  }

  /** The saved return addresses of the activations that can still be returned to are
      in memory. */
  ghost predicate Saved(c: Ctx, acts: seq<Act>, mem: Mem) {
    forall i :: 0 <= i < |acts| && AliveAbove(c, acts, i) ==>
      SlotsHold(Shown(c, acts, i).slots, acts[i].base, acts[i].link, mem)
  }

  ghost predicate RunOk(c: Ctx, s: State) {
    match s
    case Wild => false
    case Done(end, to) => end.sp == c.sp0 && to == c.lr0
    case Running(cpu, it, acts) =>
      ActsOk(c, acts) && TopOk(c, cpu, it, acts[|acts| - 1]) && Saved(c, acts, cpu.mem)
  }

  // ---- where the activations lie -----------------------------------------------

  /** The stack used down to an activation, plus what it may still need, is within the
      bound of the root. */
  lemma {:induction false} BaseBound(c: Ctx, acts: seq<Act>, i: nat)
    requires ActsOk(c, acts) && i < |acts|
    ensures c.root in c.depth && acts[i].body in c.depth && c.sp0 + c.depth[acts[i].body] <= acts[i].base + c.depth[c.root]
  {
    if i > 0 {
      assert Waits(c, acts[i - 1], acts[i - 1 + 1]);
      BaseBound(c, acts, i - 1);
    }
  }

  /** Between two activations no more lies than the bound of the outer one. */
  lemma {:induction false} BaseSpan(c: Ctx, acts: seq<Act>, i: nat, k: nat)
    requires ActsOk(c, acts) && i <= k < |acts|
    ensures acts[i].body in c.depth && acts[k].body in c.depth
    ensures acts[i].base + c.depth[acts[k].body] <= acts[k].base + c.depth[acts[i].body]
  {
    if i < k {
      assert Waits(c, acts[k - 1], acts[k - 1 + 1]);
      BaseSpan(c, acts, i, k - 1);
    } else {
      BaseBound(c, acts, i);
    }
  }

  lemma {:induction false} DepthFalls(c: Ctx, acts: seq<Act>, i: nat)
    requires ProgramOk(c) && ActsOk(c, acts) && i < |acts|
    ensures acts[i].body in c.depth && c.root in c.depth && c.depth[acts[i].body] <= c.depth[c.root] <= 0x8000_0000
  {
    if i > 0 {
      assert Waits(c, acts[i - 1], acts[i - 1 + 1]);
      DepthFalls(c, acts, i - 1);
    }
  }

  // ---- one accepted instruction ------------------------------------------------

  /** What acceptance says of a reached instruction of a body that is no veneer. */
  ghost predicate Reached(c: Ctx, b: int, a: int, ins: Insn) {
    && b in c.image.nodes && b in c.findings && b in c.depth && !IsVeneer(c, b)
    && CodeOk(c.image.nodes[b], b) && ItBlocksOk(c.image.nodes[b].code)
    && !Overlapped(c.image, c.image.nodes[b])
    && a in c.findings[b].IN && a in Insns(c, b) && ins == Insns(c, b)[a] && ins in c.image.nodes[b].code && ins.addr == a
    && c.findings[b].IN[a].Ok() && c.findings[b].IN[a].sp.Some?
    && WellFormed(ins) && ins.flow != Undef && (SP in ins.wr ==> ins.spKnown)
    && (ins.flow == It ==> ins.itlen >= 1)
    && FlowErrs(c.image, Insns(c, b), ItSet(c.image.nodes[b].code), c.image.nodes[b], ins) == []
    && Out(c.findings[b].succ, a) == Next(Insns(c, b), ItSet(c.image.nodes[b].code), c.image.nodes[b], ins)
    && NodeHolds(Insns(c, b), ItSet(c.image.nodes[b].code), c.findings[b].succ, c.findings[b].IN, a)
    && StoresOk(c.findings[b].IN[a], ins) && ReturnOk(c.findings[b].IN[a], ins)
    && (TailCalls(c.image, c.image.nodes[b], ins) ==> HandOverOk(c.findings[b].IN[a]))
    && (forall e :: e in CallsOf(c.image, c.image.nodes[b], ins) ==>
          && e.callee in c.bodies && e.callee in c.depth
          && FrameOf(c.image.nodes[b].code) + c.depth[e.callee] <= c.depth[b])
    && c.findings[b].IN[a].sp.value + FrameOf(c.image.nodes[b].code) >= 0
    && FrameOf(c.image.nodes[b].code) <= c.depth[b]
  }

  lemma ReachedInsn(c: Ctx, b: int, a: int) returns (ins: Insn)
    requires b in c.bodies && !IsVeneer(c, b) && b in c.findings && a in c.findings[b].IN
    requires ProgramOk(c)
    ensures Reached(c, b, a, ins)
  {
    hide ItBlocksOk, WellFormed, LoopsOk, NoClash, TailCalls, StoresOk, ReturnOk, HandOverOk, FlowErrs, CallsOf, Next, NodeHolds, WellLaid, Closed, Reach, Overlapped, Calm, Leq;
    assert BodyOk(c, b);
    var node := c.image.nodes[b];
    assert WellLaid(node.code);
    InsnMapKeys(node.code, a);
    var v := FrameBound.SpWithinFrame(c.image, node, c.findings[b], a);
    assert a in c.findings[b].seen;
    ins := Insns(c, b)[a];
  }

  // ---- outer activations ---------------------------------------------------------

  /** A call leaves sp and the saved words above it; lr is lost. */
  lemma CallAbsFacts(c: Ctx, act: Act, next: Act)
    requires Waits(c, act, next)
    requires ProgramOk(c)
    ensures SlotsOk(CallAbs(c, act)) && !CallAbs(c, act).ra
    ensures CallAbs(c, act).sp == TopAbs(c, act).sp && CallAbs(c, act).slots <= TopAbs(c, act).slots
    ensures next.base == act.base + CallAbs(c, act).sp.value
    ensures forall x :: x in TopAbs(c, act).slots ==> x in CallAbs(c, act).slots
  {
    hide ProgramOk;
    var ins := ReachedInsn(c, act.body, act.pc);
    hide Reached;
    assert WellFormed(ins) by { ReachedFacts(c, act.body, act.pc, ins); }
    assert AfterStores(TopAbs(c, act), TopAbs(c, act).slots, ins.st) == TopAbs(c, act).slots;
  }

  lemma ReachedFacts(c: Ctx, b: int, a: int, ins: Insn)
    requires Reached(c, b, a, ins)
    ensures WellFormed(ins) && a in Insns(c, b) && ins == Insns(c, b)[a] && ins.addr == a
    ensures b in c.findings && a in c.findings[b].IN && c.findings[b].IN[a].Ok() && c.findings[b].IN[a].sp.Some?
  {
  }

  /** A waiting activation that can still be returned to was called above sp. */
  lemma AliveDescends(c: Ctx, act: Act, next: Act)
    requires Waits(c, act, next)
    requires ProgramOk(c)
    requires !Dead(CallAbs(c, act))
    ensures next.base <= act.base - 4
  {
    hide ProgramOk, Waits;
    CallAbsFacts(c, act, next);
    var st := CallAbs(c, act);
    assert st.slots != {};
    var x :| x in st.slots;
  }

  lemma {:induction false} AliveOrder(c: Ctx, acts: seq<Act>, i: nat, k: nat)
    requires i < k < |acts|
    requires ActsOk(c, acts)
    requires AliveAbove(c, acts, i)
    requires ProgramOk(c)
    ensures acts[k].base <= acts[i + 1].base
  {
    hide ProgramOk, Waits, Dead;
    if i + 1 < k {
      AliveOrder(c, acts, i, k - 1);
      assert Waits(c, acts[k - 1], acts[k - 1 + 1]);
      assert Shown(c, acts, k - 1) == CallAbs(c, acts[k - 1]);
      AliveDescends(c, acts[k - 1], acts[k]);
    }
  }

  /** The saved words of an activation that can still be returned to lie in the half
      of the address space from the entry sp of the running body up. */
  lemma OuterPlace(c: Ctx, acts: seq<Act>, i: nat, x: int)
    requires i < |acts| - 1
    requires ActsOk(c, acts)
    requires AliveAbove(c, acts, i)
    requires x in Shown(c, acts, i).slots
    requires ProgramOk(c)
    ensures acts[|acts| - 1].base <= acts[i].base + x
    ensures acts[i].base + x + 4 <= acts[|acts| - 1].base + 0x8000_0000
  {
    hide Waits, Dead, AliveAbove, ActsOk, ProgramOk;
    var n := |acts| - 1;
    ActsWait(c, acts, i);
    AliveOrder(c, acts, i, n);
    CallAbsFacts(c, acts[i], acts[i + 1]);
    BaseSpan(c, acts, i, n);
    DepthFalls(c, acts, i);
  }

  lemma ActsWait(c: Ctx, acts: seq<Act>, i: nat)
    requires ActsOk(c, acts) && i < |acts| - 1
    ensures Waits(c, acts[i], acts[i + 1])
  {
    hide Waits;
  }

  // ---- the live words --------------------------------------------------------------

  lemma {:induction false} WaitingHas(c: Ctx, acts: seq<Act>, i: nat, x: int)
    requires i < |acts| && x in CallAbs(c, acts[i]).slots
    ensures acts[i].base + x in Waiting(c, acts)
  {
    if i < |acts| - 1 {
      WaitingHas(c, acts[..|acts| - 1], i, x);
    }
  }

  lemma LiveHas(c: Ctx, acts: seq<Act>, i: nat, x: int)
    requires i < |acts| && x in Shown(c, acts, i).slots
    ensures acts[i].base + x in Live(c, acts)
  {
    if i < |acts| - 1 {
      WaitingHas(c, acts[..|acts| - 1], i, x);
    }
  }
}
