/** Where the stack gate's promise stops: two programs it accepts whose runs are not
    what their bound says, and the condition under which addresses do follow it. */
module StackLimits {
  import opened Graph
  import opened Thumb
  import opened Machine
  import opened ReturnAnalysis
  import opened BodyRules
  import opened ItBlocks
  import opened StepSoundness
  import opened Runs
  import opened RunInvariant
  import opened RunSteps
  import opened RunTransfers
  import opened RunHeights
  import StackSafety

  // ---- addresses -------------------------------------------------------------------

  lemma {:induction false} RunHeightsKeep(c: Ctx, states: seq<State>, choices: seq<Choice>, k: nat)
    requires IsRun(c, states, choices) && k < |states| && states[k].Running?
    requires forall b :: b in c.bodies ==> RiseOk(c, b)
    requires ProgramOk(c)
    ensures Heights(c, states[k].acts)
  {
    hide ProgramOk, RunOk, Starts, Step, RiseOk, Heights;
    if k == 0 {
      FirstHeight(c, states[0]);
    } else {
      StackSafety.RunKeeps(c, states, choices, k - 1);
      assert Step(c, states[k - 1], choices[k - 1], states[k - 1 + 1]);
      StillRunning(c, states[k - 1], choices[k - 1], states[k]);
      RunHeightsKeep(c, states, choices, k - 1);
      HeightsKept(c, states[k - 1], choices[k - 1], states[k]);
    }
  }

  lemma FirstHeight(c: Ctx, s: State)
    requires Starts(c, s) && forall b :: b in c.bodies ==> RiseOk(c, b)
    requires ProgramOk(c)
    ensures Heights(c, s.acts)
  {
    hide BodyOk;
    assert c.root in c.bodies && RiseOk(c, c.root);
  }

  lemma StillRunning(c: Ctx, s: State, ch: Choice, s': State)
    requires Step(c, s, ch, s')
    ensures s.Running?
  {
    hide Exec, UnknownStoresSpare, Goes;
  }

  /** sp is never higher above its start than the rise of the root. */
  lemma RiseNow(c: Ctx, s: State)
    requires RunOk(c, s) && s.Running? && Heights(c, s.acts)
    requires forall b :: b in c.bodies ==> RiseOk(c, b)
    requires ProgramOk(c)
    ensures c.root in c.rise && s.cpu.sp <= c.sp0 + c.rise[c.root]
  {
    hide ProgramOk, RunOk, TopOk, Saved, Waits, RiseOk;
    RunParts(c, s);
    var n := |s.acts| - 1;
    TopRise(c, s.cpu, s.it, s.acts[n]);
    HeightsFall(c, s.acts, n, n);
  }

  function NoRise(bodies: set<int>): map<int, nat> {
    map b | b in bodies :: 0
  }

  /** Where no body raises sp above its entry, a rise of nothing will do, for addresses and
      for interrupts. */
  lemma LevelCalm(c: Ctx)
    requires forall b, a :: b in c.bodies && b in c.findings && a in c.findings[b].IN && c.findings[b].IN[a].sp.Some? ==>
               c.findings[b].IN[a].sp.value <= 0
    requires c.rise == NoRise(c.bodies)
    requires ProgramOk(c.(async := false))
    ensures Calm(c)
  {
    hide BodyOk, RiseOk, Spares;
    forall b | b in c.bodies
      ensures RiseOk(c, b) && Spares(c, b)
    {
      assert BodyOk(c.(async := false), b);
      LevelBody(c, b);
    }
  }

  lemma LevelBody(c: Ctx, b: int)
    requires b in c.bodies && c.rise == NoRise(c.bodies)
    requires b in c.findings ==> forall a :: a in c.findings[b].IN && c.findings[b].IN[a].sp.Some? ==> c.findings[b].IN[a].sp.value <= 0
    requires ProgramOk(c.(async := false))
    ensures RiseOk(c, b) && Spares(c, b)
  {
    hide CodeOk, Accepted, FrameOf, CallsOf, Transfer, Insns;
    var d := c.(async := false);
    assert BodyOk(d, b);
    SameReading(c, b);
    if !IsVeneer(c, b) {
      forall a | a in c.findings[b].IN && a in Insns(c, b) && c.findings[b].IN[a].Ok() && c.findings[b].IN[a].sp.Some?
        ensures RiseAt(c, b, a) && SparesAt(c, b, a)
      {
        LevelPlace(c, b, a);
      }
      StatesOfBody(d, b);
    }
  }

  lemma SameReading(c: Ctx, b: int)
    ensures Insns(c.(async := false), b) == Insns(c, b) && IsVeneer(c.(async := false), b) == IsVeneer(c, b)
  {
    hide InsnMap;
  }

  lemma StatesOfBody(d: Ctx, b: int)
    requires ProgramOk(d) && b in d.bodies && !IsVeneer(d, b)
    ensures b in d.findings && forall a :: a in d.findings[b].IN ==> d.findings[b].IN[a].Ok()
  {
    assert BodyOk(d, b);
    hide ProgramOk;
    forall a | a in d.findings[b].IN
      ensures d.findings[b].IN[a].Ok()
    {
      var ins := ReachedInsn(d, b, a);
      ReachedFacts(d, b, a, ins);
    }
  }

  lemma LevelPlace(c: Ctx, b: int, a: int)
    requires b in c.bodies && c.rise == NoRise(c.bodies) && !IsVeneer(c, b) && b in c.findings && b in c.image.nodes
    requires a in c.findings[b].IN && a in Insns(c, b) && c.findings[b].IN[a].Ok() && c.findings[b].IN[a].sp.Some?
    requires c.findings[b].IN[a].sp.value <= 0
    requires ProgramOk(c.(async := false))
    ensures RiseAt(c, b, a) && SparesAt(c, b, a)
  {
    hide ProgramOk, InsnMap;
    var d := c.(async := false);
    SameReading(c, b);
    var ins := ReachedInsn(d, b, a);
    ReachedFacts(d, b, a, ins);
    CalleesIn(d, b, a, ins);
    CallSlots(c.findings[b].IN[a], ins);
  }

  lemma CalleesIn(d: Ctx, b: int, a: int, ins: Insn)
    requires Reached(d, b, a, ins)
    ensures b in d.image.nodes && forall e :: e in CallsOf(d.image, d.image.nodes[b], ins) ==> e.callee in d.bodies
  {
    hide WellFormed, CodeOk, ItBlocksOk, NodeHolds, ReturnOk, StoresOk, FlowErrs, CallsOf, FrameOf;
  }

  /** A call does not move sp, and only words from sp up are kept. */
  lemma CallSlots(st: Abs, ins: Insn)
    requires st.Ok() && WellFormed(ins) && st.sp.Some?
    ensures ins.flow == Bl ==> forall x :: x in Transfer(st, ins).slots ==> st.sp.value <= x
  {
    hide AfterStores;
  }

  /** The bound on addresses: when the need fits below the start and the rise of the root
      above it, sp as the hardware holds it stays in between. */
  lemma AddressBound(c: Ctx, states: seq<State>, choices: seq<Choice>, k: nat)
    requires IsRun(c, states, choices) && k < |states| && states[k].Running?
    requires forall b :: b in c.bodies ==> RiseOk(c, b)
    requires c.root in c.depth && c.root in c.rise && c.depth[c.root] <= c.sp0 && c.sp0 + c.rise[c.root] < 0x1_0000_0000
    requires ProgramOk(c)
    ensures c.sp0 - c.depth[c.root] <= U32(states[k].cpu.sp) <= c.sp0 + c.rise[c.root]
  {
    hide ProgramOk, IsRun, RiseOk, RunOk, Heights;
    StackSafety.RunKeeps(c, states, choices, k);
    StackSafety.WholeRunStackBound(c, states, choices, k);
    RunHeightsKeep(c, states, choices, k);
    RiseNow(c, states[k]);
  }

  // ---- sp moved around the address space ---------------------------------------------

  function Unknown(): seq<Option<int>> {
    seq(16, _ => None)
  }

  function Plain(addr: int, size: nat, flow: Flow, target: Option<int>): Insn {
    Insn(addr, size, flow, target, {}, 0, false, [], [], None, None, 0, false, false)
  }

  function MovesSp(addr: int, size: nat, delta: int): Insn {
    Insn(addr, size, Seq, None, {SP}, delta, true, [], [], None, None, 0, false, false)
  }

  /** `add.w sp, sp, #0xff000000` and then a branch to itself. */
  function WrapCode(): seq<Insn> {
    [MovesSp(0x1000, 4, 0xff00_0000), Plain(0x1004, 2, B, Some(0x1004))]
  }

  function WrapNode(): Node {
    Node(0x1000, 0x1006, WrapCode(), 0, [])
  }

  function WrapFindings(): Findings {
    Findings({0x1000, 0x1004}, map[0x1000 := [0x1004], 0x1004 := [0x1004]],
             map[0x1000 := Entry(), 0x1004 := Abs(Some(0xff00_0000), true, {}, Unknown())])
  }

  function WrapCtx(): Ctx {
    Ctx(Image(map[0x1000 := WrapNode()], map[]), map[0x1000 := WrapFindings()], {0x1000}, map[0x1000 := 0], map[],
        0x1000, 0x2000_8000, 0, false)
  }

  lemma NoBlocks(code: seq<Insn>)
    requires forall k :: 0 <= k < |code| ==> code[k].flow != It
    ensures ItSet(code) == {} && ItBlocksOk(code)
  {
    forall k, m
      ensures !InBlock(code, k, m)
    {
    }
  }

  lemma WrapInsns()
    ensures InsnMap(WrapCode()) == map[0x1000 := WrapCode()[0], 0x1004 := WrapCode()[1]]
    ensures FrameOf(WrapCode()) == 0 && WellLaid(WrapCode()) && ItSet(WrapCode()) == {} && ItBlocksOk(WrapCode())
  {
    var code := WrapCode();
    assert code[..1] == [code[0]];
    assert code[..1][..0] == [];
    NoBlocks(code);
  }

  lemma SeqFlow(image: Image, insns: map<int, Insn>, node: Node, ins: Insn)
    requires ins.flow == Seq && ins.target.None? && ins.Fall() in insns
    ensures Next(insns, {}, node, ins) == [ins.Fall()] && FlowErrs(image, insns, {}, node, ins) == []
    ensures CallsOf(image, node, ins) == []
  {
  }

  lemma JumpFlow(image: Image, insns: map<int, Insn>, node: Node, ins: Insn, t: int)
    requires ins.flow == B && ins.target == Some(t) && t in insns && Inside(node, t)
    ensures Next(insns, {}, node, ins) == [t] && FlowErrs(image, insns, {}, node, ins) == []
    ensures CallsOf(image, node, ins) == []
  {
  }

  lemma WrapFlow()
    ensures FlowKnown(WrapNode(), WrapFindings()) && FlowOk(WrapCtx().image, WrapNode(), WrapFindings())
    ensures forall a :: a in {0x1000, 0x1004} ==> CallsOf(WrapCtx().image, WrapNode(), InsnMap(WrapCode())[a]) == []
  {
    hide InsnMap, ItSet, Reach, FrameOf, Next, FlowErrs, CallsOf;
    WrapInsns();
    var f, insns := WrapFindings(), InsnMap(WrapCode());
    SeqFlow(WrapCtx().image, insns, WrapNode(), WrapCode()[0]);
    JumpFlow(WrapCtx().image, insns, WrapNode(), WrapCode()[1], 0x1004);
    ReachRefl(f.succ, 0x1000);
    assert Graph.Edge(f.succ, 0x1000, 0x1004);
    ReachEdge(f.succ, 0x1000, 0x1004);
  }

  lemma WrapLoops()
    requires FlowKnown(WrapNode(), WrapFindings())
    ensures LoopsOk(WrapNode(), WrapFindings())
  {
    hide InsnMap, ItSet, Reach, FrameOf, FlowKnown;
    WrapInsns();
    var f := WrapFindings();
    if v :| Graph.Edge(f.succ, 0x1000, v) && Reach(f.succ, v, 0x1000) {
      ReachStays(f.succ, {0x1004}, v, 0x1000);
    }
  }

  lemma MovesOn(st: Abs, ins: Insn)
    requires st.Ok() && st.sp.Some? && st.slots == {} && ins == MovesSp(ins.addr, ins.size, ins.sp)
    ensures Transfer(st, ins) == st.(sp := Some(st.sp.value + ins.sp))
  {
  }

  lemma StaysOn(st: Abs, ins: Insn)
    requires st.Ok() && st.slots == {} && ins == Plain(ins.addr, ins.size, ins.flow, ins.target)
    requires !IsCall(ins)
    ensures Transfer(st, ins) == st
  {
  }

  lemma WrapStates()
    requires FlowKnown(WrapNode(), WrapFindings())
    ensures StatesKnown(WrapNode(), WrapFindings())
    ensures forall a :: a in WrapFindings().IN ==> NoClash(InsnMap(WrapCode()), {}, WrapFindings().succ, WrapFindings().IN, a)
  {
    hide InsnMap, ItSet, Reach, FrameOf, FlowKnown, Transfer, Leq;
    WrapInsns();
    var f, insns := WrapFindings(), InsnMap(WrapCode());
    MovesOn(f.IN[0x1000], insns[0x1000]);
    StaysOn(f.IN[0x1004], insns[0x1004]);
    LeqRefl(f.IN[0x1004]);
    LeqRefl(f.IN[0x1000]);
  }

  lemma WrapReturns()
    requires FlowKnown(WrapNode(), WrapFindings())
    ensures StatesKnown(WrapNode(), WrapFindings()) && ReturnsOk(WrapCtx().image, WrapNode(), WrapFindings())
  {
    hide InsnMap, ItSet, FlowKnown, FlowOk, CallsOf, NoClash, StatesKnown;
    WrapInsns();
    WrapFlow();
    WrapStates();
  }

  /** The analysis accepts it with a frame of 0, and one instruction later the hardware
      sp is 16 MiB lower: positions are followed modulo 2^32, changes of sp are not. */
  lemma SpWraps(states: seq<State>, choices: seq<Choice>, cpu: Cpu, after: Cpu)
    requires cpu == Cpu(0x2000_8000, seq(16, _ => 0), _ => 0) && after == cpu.(sp := cpu.sp + 0xff00_0000)
    requires states == [Running(cpu, 0, [Act(0x1000, 0x1000, cpu.sp, 0, cpu.regs)]),
                        Running(after, 0, [Act(0x1000, 0x1004, cpu.sp, 0, cpu.regs)])]
    requires choices == [Execute([cpu.mem], after, false, 0)]
    ensures ProgramOk(WrapCtx()) && WrapCtx().depth[0x1000] == 0 && IsRun(WrapCtx(), states, choices)
    ensures U32(states[1].cpu.sp) == U32(states[0].cpu.sp) - 0x100_0000
  {
    hide InsnMap, ItSet, FrameOf, ProgramOk, Step;
    WrapProgramOk();
    WrapStep(cpu, states[0], choices[0], states[1]);
  }

  lemma WrapStep(cpu: Cpu, s: State, ch: Choice, s': State)
    requires cpu == Cpu(0x2000_8000, seq(16, _ => 0), _ => 0)
    requires s == Running(cpu, 0, [Act(0x1000, 0x1000, cpu.sp, 0, cpu.regs)])
    requires s' == Running(cpu.(sp := cpu.sp + 0xff00_0000), 0, [Act(0x1000, 0x1004, cpu.sp, 0, cpu.regs)])
    requires ch == Execute([cpu.mem], s'.cpu, false, 0)
    ensures Step(WrapCtx(), s, ch, s')
  {
    hide InsnMap, ItSet, FrameOf, Exec;
    WrapInsns();
    MovesExec(WrapCode()[0], cpu);
  }

  /** An instruction without stores that moves sp by a constant. */
  lemma MovesExec(ins: Insn, cpu: Cpu)
    requires cpu.Ok() && ins == MovesSp(ins.addr, ins.size, ins.sp)
    ensures Exec(ins, cpu, [cpu.mem], cpu.(sp := cpu.sp + ins.sp))
  {
  }

  lemma WrapAccepted()
    ensures Accepted(WrapCtx().image, WrapNode(), WrapFindings())
  {
    hide InsnMap, ItSet, FrameOf, FlowKnown, FlowOk, LoopsOk, StatesKnown, ReturnsOk, ItBlocksOk;
    WrapInsns();
    WrapFlow();
    WrapLoops();
    WrapReturns();
  }

  lemma PlainWellFormed(ins: Insn)
    requires ins == Plain(ins.addr, ins.size, ins.flow, ins.target) && ins.flow !in {Bl, RetPop}
    ensures WellFormed(ins)
  {
  }

  lemma MovesWellFormed(ins: Insn)
    requires ins == MovesSp(ins.addr, ins.size, ins.sp)
    ensures WellFormed(ins)
  {
  }

  lemma WrapCodeOk()
    ensures CodeOk(WrapNode(), 0x1000)
  {
    hide InsnMap, ItSet, WellFormed, WellLaid;
    WrapInsns();
    MovesWellFormed(WrapCode()[0]);
    PlainWellFormed(WrapCode()[1]);
  }

  lemma WrapProgramOk()
    ensures ProgramOk(WrapCtx())
  {
    hide InsnMap, ItSet, FrameOf, Accepted, CodeOk, ItBlocksOk, WellLaid, CallsOf;
    WrapInsns();
    WrapFlow();
    WrapAccepted();
    WrapCodeOk();
  }
}
