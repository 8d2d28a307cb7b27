/** Interrupts that use the running stack and a body that raises sp above its entry: the
    analysis accepts both, and a caller's saved return address is lost. */
module RisingBody {
  import opened Graph
  import opened Thumb
  import opened Machine
  import opened ReturnAnalysis
  import opened BodyRules
  import opened ItBlocks
  import opened StepSoundness
  import opened Runs
  import opened RunInvariant
  import opened StackLimits

  const START: int := 0x2000_1000

  // ---- push {lr}; bl callee; pop {pc} -----------------------------------------------

  function Push(): Insn {
    Insn(0x100, 2, Seq, None, {SP}, -4, true, [Store(SP, Some(-4), Some(4), Some(LR))], [], None, None, 0, false, false)
  }

  function CallIt(): Insn {
    Insn(0x102, 4, Bl, Some(0x200), {LR}, 0, false, [], [], None, None, 0, false, false)
  }

  function Pop(): Insn {
    Insn(0x106, 2, RetPop, None, {SP, PC}, 4, true, [], [Load(PC, SP, Some(0), 4)], None, None, 0, false, false)
  }

  function CallerCode(): seq<Insn> {
    [Push(), CallIt(), Pop()]
  }

  function Caller(): Node {
    Node(0x100, 0x108, CallerCode(), 0, [])
  }

  function CallerFindings(): Findings {
    Findings({0x100, 0x102, 0x106}, map[0x100 := [0x102], 0x102 := [0x106], 0x106 := []],
             map[0x100 := Entry(), 0x102 := Abs(Some(-4), true, {-4}, Unknown()), 0x106 := Abs(Some(-4), false, {-4}, Unknown())])
  }

  // ---- add sp, #8; sub sp, #8; bx lr --------------------------------------------------

  function CalleeCode(): seq<Insn> {
    [MovesSp(0x200, 2, 8), MovesSp(0x202, 2, -8), Plain(0x204, 2, RetLr, None)]
  }

  function Callee(): Node {
    Node(0x200, 0x206, CalleeCode(), 0, [])
  }

  function CalleeFindings(): Findings {
    Findings({0x200, 0x202, 0x204}, map[0x200 := [0x202], 0x202 := [0x204], 0x204 := []],
             map[0x200 := Entry(), 0x202 := Abs(Some(8), true, {}, Unknown()), 0x204 := Abs(Some(0), true, {}, Unknown())])
  }

  function RisingCtx(): Ctx {
    Ctx(Image(map[0x100 := Caller(), 0x200 := Callee()], map[]), map[0x100 := CallerFindings(), 0x200 := CalleeFindings()],
        {0x100, 0x200}, map[0x100 := 12, 0x200 := 8], map[], 0x100, START, 0, true)
  }

  // ---- both are accepted ----------------------------------------------------------------

  lemma Three(code: seq<Insn>)
    requires |code| == 3 && WellLaid(code) && forall k :: 0 <= k < 3 ==> code[k].flow != It
    ensures InsnMap(code) == map[code[0].addr := code[0], code[1].addr := code[1], code[2].addr := code[2]]
    ensures FrameOf(code) == Drop(code[0]) + Drop(code[1]) + Drop(code[2])
    ensures ItSet(code) == {} && ItBlocksOk(code)
  {
    hide WellLaid, Drop;
    var two, one := code[..2], code[..1];
    assert two[..1] == one && one[..0] == [];
    assert InsnMap(one) == map[code[0].addr := code[0]];
    assert InsnMap(two) == InsnMap(one)[code[1].addr := code[1]];
    assert InsnMap(code) == InsnMap(two)[code[2].addr := code[2]];
    ThreeDrops(code);
    NoBlocks(code);
  }

  lemma ThreeDrops(code: seq<Insn>)
    requires |code| == 3
    ensures FrameOf(code) == Drop(code[0]) + Drop(code[1]) + Drop(code[2])
  {
    hide Drop;
    var two, one := code[..2], code[..1];
    assert two[..1] == one && one[..0] == [];
    assert two[1] == code[1] && one[0] == code[0];
    LastDrop(one);
    LastDrop(two);
    LastDrop(code);
    assert FrameOf([]) == 0;
  }

  lemma LastDrop(code: seq<Insn>)
    requires code != []
    ensures FrameOf(code) == FrameOf(code[..|code| - 1]) + Drop(code[|code| - 1])
  {
    hide Drop;
  }

  /** Three nodes in a row: reachable, none on a cycle. */
  lemma RowGraph(succ: Succ, a: int, b: int, c: int)
    requires a < b < c && succ == map[a := [b], b := [c], c := []]
    ensures Closed(succ, {a, b, c}) && Reach(succ, a, a) && Reach(succ, a, b) && Reach(succ, a, c)
    ensures !OnCycle(succ, a) && !OnCycle(succ, b) && !OnCycle(succ, c)
  {
    ReachRefl(succ, a);
    assert Graph.Edge(succ, a, b) && Graph.Edge(succ, b, c);
    ReachEdge(succ, a, b);
    ReachEdge(succ, b, c);
    ReachTrans(succ, a, b, c);
    if v :| Graph.Edge(succ, a, v) && Reach(succ, v, a) {
      ReachStays(succ, {b, c}, v, a);
    }
    if v :| Graph.Edge(succ, b, v) && Reach(succ, v, b) {
      ReachStays(succ, {c}, v, b);
    }
  }

  lemma CallFlow(image: Image, insns: map<int, Insn>, node: Node, ins: Insn, t: int)
    requires ins.flow == Bl && ins.target == Some(t) && ins.Fall() in insns && t in image.nodes
    ensures Next(insns, {}, node, ins) == [ins.Fall()] && FlowErrs(image, insns, {}, node, ins) == []
    ensures CallsOf(image, node, ins) == [BodyRules.Edge(t, CallEdge, ins.addr)]
  {
  }

  lemma LeaveFlow(image: Image, insns: map<int, Insn>, node: Node, ins: Insn)
    requires ins.flow in {RetLr, RetPop} && ins.target.None?
    ensures Next(insns, {}, node, ins) == [] && FlowErrs(image, insns, {}, node, ins) == []
    ensures CallsOf(image, node, ins) == []
  {
  }

  lemma CallerFlow()
    ensures FlowKnown(Caller(), CallerFindings()) && FlowOk(RisingCtx().image, Caller(), CallerFindings())
    ensures LoopsOk(Caller(), CallerFindings())
    ensures CallsOf(RisingCtx().image, Caller(), Push()) == [] && CallsOf(RisingCtx().image, Caller(), Pop()) == []
    ensures CallsOf(RisingCtx().image, Caller(), CallIt()) == [BodyRules.Edge(0x200, CallEdge, 0x102)]
  {
    hide InsnMap, ItSet, Reach, OnCycle, FrameOf, Next, FlowErrs, CallsOf, Closed;
    Three(CallerCode());
    var f, insns, image := CallerFindings(), InsnMap(CallerCode()), RisingCtx().image;
    RowGraph(f.succ, 0x100, 0x102, 0x106);
    SeqFlow(image, insns, Caller(), Push());
    CallFlow(image, insns, Caller(), CallIt(), 0x200);
    LeaveFlow(image, insns, Caller(), Pop());
  }

  lemma CalleeFlow()
    ensures FlowKnown(Callee(), CalleeFindings()) && FlowOk(RisingCtx().image, Callee(), CalleeFindings())
    ensures LoopsOk(Callee(), CalleeFindings())
    ensures forall i :: 0 <= i < 3 ==> CallsOf(RisingCtx().image, Callee(), CalleeCode()[i]) == []
  {
    hide InsnMap, ItSet, Reach, OnCycle, FrameOf, Next, FlowErrs, CallsOf, Closed;
    Three(CalleeCode());
    var f, insns, image := CalleeFindings(), InsnMap(CalleeCode()), RisingCtx().image;
    RowGraph(f.succ, 0x200, 0x202, 0x204);
    SeqFlow(image, insns, Callee(), CalleeCode()[0]);
    SeqFlow(image, insns, Callee(), CalleeCode()[1]);
    LeaveFlow(image, insns, Callee(), CalleeCode()[2]);
  }

  lemma PushTransfer()
    ensures Transfer(Entry(), Push()) == Abs(Some(-4), true, {-4}, Unknown())
  {
    var st := Entry();
    assert AfterStores(st, {}, Push().st) == AfterStores(st, AfterStore(st, {}, Push().st[0]), []);
    assert AfterStore(st, {}, Push().st[0]) == {-4};
  }

  lemma CallTransfer()
    ensures Transfer(Abs(Some(-4), true, {-4}, Unknown()), CallIt()) == Abs(Some(-4), false, {-4}, Unknown())
  {
  }

  lemma OneEdge(insns: map<int, Insn>, succ: Succ, IN: States, a: int, b: int)
    requires a in IN && b in IN && a in insns && a in succ && succ[a] == [b] && IN[a].Ok() && IN[b].Ok()
    requires IN[b] == Transfer(IN[a], insns[a])
    ensures NodeHolds(insns, {}, succ, IN, a) && NoClash(insns, {}, succ, IN, a)
  {
    hide Transfer, Leq;
    LeqRefl(IN[b]);
  }

  lemma NoEdge(insns: map<int, Insn>, succ: Succ, IN: States, a: int)
    requires a in succ && succ[a] == []
    ensures NodeHolds(insns, {}, succ, IN, a) && NoClash(insns, {}, succ, IN, a)
  {
  }

  /** A state that is right at the end of its instruction. */
  ghost predicate Fine(st: Abs, ins: Insn) {
    st.Ok() && st.sp.Some? && StoresOk(st, ins) && ReturnOk(st, ins)
  }

  lemma FineAll()
    ensures Fine(Entry(), Push()) && Fine(CallerFindings().IN[0x102], CallIt()) && Fine(CallerFindings().IN[0x106], Pop())
  {
    var st := CallerFindings().IN[0x106];
    assert PcLoad(Pop().ld) == Some(Pop().ld[0]);
    assert Addr(st, SP, Some(0)) == Some(-4);
  }

  lemma FineCallee()
    ensures Fine(Entry(), CalleeCode()[0]) && Fine(CalleeFindings().IN[0x202], CalleeCode()[1]) && Fine(CalleeFindings().IN[0x204], CalleeCode()[2])
  {
  }

  lemma RowStates(node: Node, f: Findings, insns: map<int, Insn>, a: int, b: int, c: int)
    requires FlowKnown(node, f) && node.addr == a < b < c && insns == InsnMap(node.code) && ItSet(node.code) == {}
    requires f.succ == map[a := [b], b := [c], c := []] && f.IN.Keys == f.seen == {a, b, c}
    requires (forall v :: v in f.IN ==> f.IN[v].Ok()) && f.IN[a] == Entry()
    requires a in insns && f.IN[b] == Transfer(f.IN[a], insns[a]) && b in insns && f.IN[c] == Transfer(f.IN[b], insns[b])
    ensures StatesKnown(node, f)
    ensures forall v :: v in f.IN ==> NoClash(insns, {}, f.succ, f.IN, v)
  {
    hide InsnMap, ItSet, FlowKnown, Transfer, Leq, NodeHolds, NoClash;
    OneEdge(insns, f.succ, f.IN, a, b);
    OneEdge(insns, f.succ, f.IN, b, c);
    NoEdge(insns, f.succ, f.IN, c);
    LeqRefl(f.IN[a]);
  }

  lemma CallerStates()
    ensures FlowKnown(Caller(), CallerFindings()) && StatesKnown(Caller(), CallerFindings())
    ensures forall a :: a in CallerFindings().IN ==> NoClash(InsnMap(CallerCode()), {}, CallerFindings().succ, CallerFindings().IN, a)
  {
    hide InsnMap, ItSet, FrameOf, FlowKnown, FlowOk, LoopsOk, CallsOf, Transfer, StatesKnown, NoClash;
    Three(CallerCode());
    CallerFlow();
    PushTransfer();
    CallTransfer();
    RowStates(Caller(), CallerFindings(), InsnMap(CallerCode()), 0x100, 0x102, 0x106);
  }

  lemma CalleeStates()
    ensures FlowKnown(Callee(), CalleeFindings()) && StatesKnown(Callee(), CalleeFindings())
    ensures forall a :: a in CalleeFindings().IN ==> NoClash(InsnMap(CalleeCode()), {}, CalleeFindings().succ, CalleeFindings().IN, a)
  {
    hide InsnMap, ItSet, FrameOf, FlowKnown, FlowOk, LoopsOk, CallsOf, Transfer, StatesKnown, NoClash;
    Three(CalleeCode());
    CalleeFlow();
    MovesOn(CalleeFindings().IN[0x200], CalleeCode()[0]);
    MovesOn(CalleeFindings().IN[0x202], CalleeCode()[1]);
    RowStates(Callee(), CalleeFindings(), InsnMap(CalleeCode()), 0x200, 0x202, 0x204);
  }

  lemma RowReturns(image: Image, node: Node, f: Findings, insns: map<int, Insn>, a: int, b: int, c: int)
    requires FlowKnown(node, f) && StatesKnown(node, f) && insns == InsnMap(node.code) && ItSet(node.code) == {}
    requires f.IN.Keys == {a, b, c} && (forall v :: v in f.IN ==> NoClash(insns, {}, f.succ, f.IN, v) && v in insns)
    requires forall v :: v in f.IN ==> Fine(f.IN[v], insns[v]) && insns[v].flow !in {B, Bcc, Cbz}
    ensures ReturnsOk(image, node, f)
  {
    hide InsnMap, ItSet, FlowKnown, StatesKnown, NoClash, StoresOk, ReturnOk;
  }

  lemma CallerReturns()
    ensures FlowKnown(Caller(), CallerFindings()) && StatesKnown(Caller(), CallerFindings())
    ensures ReturnsOk(RisingCtx().image, Caller(), CallerFindings())
  {
    hide InsnMap, ItSet, FrameOf, FlowKnown, FlowOk, LoopsOk, CallsOf, NoClash, StatesKnown, Fine, ReturnsOk;
    Three(CallerCode());
    FineAll();
    CallerStates();
    RowReturns(RisingCtx().image, Caller(), CallerFindings(), InsnMap(CallerCode()), 0x100, 0x102, 0x106);
  }

  lemma CalleeReturns()
    ensures FlowKnown(Callee(), CalleeFindings()) && StatesKnown(Callee(), CalleeFindings())
    ensures ReturnsOk(RisingCtx().image, Callee(), CalleeFindings())
  {
    hide InsnMap, ItSet, FrameOf, FlowKnown, FlowOk, LoopsOk, CallsOf, NoClash, StatesKnown, Fine, ReturnsOk;
    Three(CalleeCode());
    FineCallee();
    CalleeStates();
    RowReturns(RisingCtx().image, Callee(), CalleeFindings(), InsnMap(CalleeCode()), 0x200, 0x202, 0x204);
  }

  lemma BothAccepted()
    ensures Accepted(RisingCtx().image, Caller(), CallerFindings()) && Accepted(RisingCtx().image, Callee(), CalleeFindings())
  {
    hide InsnMap, ItSet, FrameOf, FlowKnown, FlowOk, LoopsOk, StatesKnown, ReturnsOk, ItBlocksOk, CallsOf;
    Three(CallerCode());
    Three(CalleeCode());
    CallerFlow();
    CalleeFlow();
    CallerReturns();
    CalleeReturns();
  }

  lemma CallerCodeOk()
    ensures CodeOk(Caller(), 0x100)
  {
    hide InsnMap, ItSet, WellFormed, WellLaid;
    LaidOut();
    CallerWellFormed();
  }

  lemma CalleeCodeOk()
    ensures CodeOk(Callee(), 0x200)
  {
    hide InsnMap, ItSet, WellFormed, WellLaid;
    LaidOut();
    MovesWellFormed(CalleeCode()[0]);
    MovesWellFormed(CalleeCode()[1]);
    PlainWellFormed(CalleeCode()[2]);
  }

  lemma CallerWellFormed()
    ensures WellFormed(Push()) && WellFormed(CallIt()) && WellFormed(Pop())
  {
    assert Loaded(Pop().ld) == {PC};
  }

  /** Nothing is missing but that the callee raises sp above its entry. */
  lemma BodiesOk()
    ensures forall b :: b in RisingCtx().bodies ==> BodyOk(RisingCtx(), b)
  {
    hide InsnMap, ItSet, Accepted, CodeOk, ItBlocksOk, WellLaid, CallsOf, FlowKnown, FlowOk, LoopsOk;
    assert WellLaid(CallerCode()) && WellLaid(CalleeCode()) by { LaidOut(); }
    Three(CallerCode());
    Three(CalleeCode());
    CallerFlow();
    CalleeFlow();
    BothAccepted();
    CallerCodeOk();
    CalleeCodeOk();
  }

  lemma LaidOut()
    ensures WellLaid(CallerCode()) && WellLaid(CalleeCode())
  {
  }

  // ---- the run ------------------------------------------------------------------------------

  function Zeros(): Mem {
    _ => 0
  }

  /** The interrupt writes the word at START - 4, which is below sp when it comes. */
  function Stacked(): Mem {
    q => if Hits(START - 4, 4, q) then 1 else 0
  }

  function Regs(lr: int): (regs: seq<int>)
    ensures |regs| == 16
  {
    seq(16, r => if r == LR then lr else 0)
  }

  function RunStates(): seq<State> {
    var root, back := Act(0x100, 0x100, START, 0, Regs(0)), Act(0x200, 0x200, START - 4, 0x106, Regs(0x106));
    [Running(Cpu(START, Regs(0), Zeros()), 0, [root]),
     Running(Cpu(START - 4, Regs(0), Zeros()), 0, [root.(pc := 0x102)]),
     Running(Cpu(START - 4, Regs(0x106), Zeros()), 0, [root.(pc := 0x102), back]),
     Running(Cpu(START + 4, Regs(0x106), Zeros()), 0, [root.(pc := 0x102), back.(pc := 0x202)]),
     Running(Cpu(START + 4, Regs(0x106), Stacked()), 0, [root.(pc := 0x102), back.(pc := 0x202)]),
     Running(Cpu(START - 4, Regs(0x106), Stacked()), 0, [root.(pc := 0x102), back.(pc := 0x204)]),
     Running(Cpu(START - 4, Regs(0x106), Stacked()), 0, [root.(pc := 0x106)]),
     Done(Cpu(START, Regs(0x106), Stacked()), 0x101_0101)]
  }

  function RunChoices(): seq<Choice> {
    [Execute([Zeros(), Zeros()], Cpu(START - 4, Regs(0), Zeros()), false, 0),
     Execute([Zeros()], Cpu(START - 4, Regs(0x106), Zeros()), false, 0),
     Execute([Zeros()], Cpu(START + 4, Regs(0x106), Zeros()), false, 0),
     Interrupt(Stacked()),
     Execute([Stacked()], Cpu(START - 4, Regs(0x106), Stacked()), false, 0),
     Execute([Stacked()], Cpu(START - 4, Regs(0x106), Stacked()), false, 0),
     Execute([Stacked()], Cpu(START, Regs(0x106), Stacked()), false, 0x101_0101)]
  }

  /** The memory the interrupt leaves: what was at or above sp is still there. */
  lemma StackedKeeps()
    ensures KeptFrom(START + 4, Zeros(), Stacked()) && WordAt(Stacked(), START - 4) == 0x101_0101
  {
    forall p | START + 4 <= p && p + 4 <= START + 4 + 0x8000_0000
      ensures WordAt(Stacked(), p) == WordAt(Zeros(), p)
    {
      WordKept(Zeros(), Stacked(), START - 4, 4, p);
    }
  }

  lemma InsnsAt()
    ensures Insns(RisingCtx(), 0x100) == map[0x100 := Push(), 0x102 := CallIt(), 0x106 := Pop()]
    ensures Insns(RisingCtx(), 0x200) == map[0x200 := CalleeCode()[0], 0x202 := CalleeCode()[1], 0x204 := CalleeCode()[2]]
    ensures !IsVeneer(RisingCtx(), 0x100) && !IsVeneer(RisingCtx(), 0x200)
  {
    hide InsnMap;
    LaidOut();
    Three(CallerCode());
    Three(CalleeCode());
  }

  lemma PushExec()
    ensures Exec(Push(), Cpu(START, Regs(0), Zeros()), [Zeros(), Zeros()], Cpu(START - 4, Regs(0), Zeros()))
  {
  }

  lemma CallExec()
    ensures Exec(CallIt(), Cpu(START - 4, Regs(0), Zeros()), [Zeros()], Cpu(START - 4, Regs(0x106), Zeros()))
  {
  }

  lemma PopExec()
    ensures Exec(Pop(), Cpu(START - 4, Regs(0x106), Stacked()), [Stacked()], Cpu(START, Regs(0x106), Stacked()))
    ensures LoadEffect(Cpu(START - 4, Regs(0x106), Stacked()), Pop().ld[0], 0x101_0101)
  {
    StackedKeeps();
    assert Loaded(Pop().ld) == {PC};
  }

  lemma StepPush()
    ensures Step(RisingCtx(), RunStates()[0], RunChoices()[0], RunStates()[1])
  {
    hide Exec, Insns, IsVeneer, InsnMap, Live;
    InsnsAt();
    PushExec();
    var st := Entry();
    assert Addr(st, SP, Some(-4)).Some?;
  }

  lemma StepCall()
    ensures Step(RisingCtx(), RunStates()[1], RunChoices()[1], RunStates()[2])
  {
    hide Exec, Insns, IsVeneer, InsnMap, Live;
    InsnsAt();
    CallExec();
  }

  lemma StepRise()
    ensures Step(RisingCtx(), RunStates()[2], RunChoices()[2], RunStates()[3])
  {
    hide Exec, Insns, IsVeneer, InsnMap, Live;
    InsnsAt();
    MovesExec(CalleeCode()[0], RunStates()[2].cpu);
  }

  lemma StepInterrupt()
    ensures Step(RisingCtx(), RunStates()[3], RunChoices()[3], RunStates()[4])
  {
    StackedKeeps();
  }

  lemma StepBack()
    ensures Step(RisingCtx(), RunStates()[4], RunChoices()[4], RunStates()[5])
  {
    hide Exec, Insns, IsVeneer, InsnMap, Live;
    InsnsAt();
    MovesExec(CalleeCode()[1], RunStates()[4].cpu);
  }

  lemma StepReturn()
    ensures Step(RisingCtx(), RunStates()[5], RunChoices()[5], RunStates()[6])
  {
    hide Insns, IsVeneer, InsnMap, Live;
    InsnsAt();
    assert Exec(CalleeCode()[2], RunStates()[5].cpu, [Stacked()], RunStates()[5].cpu);
  }

  lemma StepPop()
    ensures Step(RisingCtx(), RunStates()[6], RunChoices()[6], RunStates()[7])
  {
    hide Exec, Insns, IsVeneer, InsnMap, Live, LoadEffect;
    InsnsAt();
    PopExec();
  }

  /** Both bodies are accepted with every bound in order, and the root's run ends at an
      address that is not the one it was called with.  No bound of the rise of the callee
      keeps it below the caller's saved word. */
  lemma RisingBodyLosesReturn()
    ensures forall b :: b in RisingCtx().bodies ==> BodyOk(RisingCtx(), b)
    ensures RisingCtx().async && IsRun(RisingCtx(), RunStates(), RunChoices())
    ensures RunStates()[7].Done? && RunStates()[7].to != RisingCtx().lr0
    ensures forall rise :: !Calm(RisingCtx().(rise := rise))
  {
    hide BodyOk, Step, RunStates, RunChoices, Calm;
    BodiesOk();
    RunSteps();
    forall rise
      ensures !Calm(RisingCtx().(rise := rise))
    {
      Rises(rise);
    }
  }

  /** The callee rises by 8. */
  lemma CalleeRises(rise: map<int, nat>)
    ensures Calm(RisingCtx().(rise := rise)) ==> 0x200 in rise && 8 <= rise[0x200]
  {
    hide Insns, IsVeneer, InsnMap, Transfer, CallsOf, RunStates, RunChoices;
    var c := RisingCtx().(rise := rise);
    SameCode(rise);
    InsnsAt();
    assert CalleeFindings().IN[0x202].sp == Some(8);
    if Calm(c) {
      assert RiseOk(c, 0x200) && RiseAt(c, 0x200, 0x202);
    }
  }

  /** The caller's word is 4 below its entry, where the callee is called. */
  lemma CallerSpares(rise: map<int, nat>)
    ensures Calm(RisingCtx().(rise := rise)) && 0x200 in rise ==> rise[0x200] <= 0
  {
    hide Insns, IsVeneer, InsnMap, Transfer, CallsOf, RunStates, RunChoices;
    var c := RisingCtx().(rise := rise);
    SameCode(rise);
    InsnsAt();
    CallerFlow();
    CallTransfer();
    var e := BodyRules.Edge(0x200, CallEdge, 0x102);
    assert e in CallsOf(c.image, Caller(), CallIt()) && e.kind == CallEdge;
    assert -4 in Transfer(CallerFindings().IN[0x102], CallIt()).slots;
    if Calm(c) {
      assert Spares(c, 0x100) && SparesAt(c, 0x100, 0x102);
    }
  }

  lemma Rises(rise: map<int, nat>)
    ensures !Calm(RisingCtx().(rise := rise))
  {
    hide Calm;
    CalleeRises(rise);
    CallerSpares(rise);
  }

  lemma SameCode(rise: map<int, nat>)
    ensures forall b :: Insns(RisingCtx().(rise := rise), b) == Insns(RisingCtx(), b)
    ensures forall b :: IsVeneer(RisingCtx().(rise := rise), b) == IsVeneer(RisingCtx(), b)
  {
    hide InsnMap;
  }

  lemma RunSteps()
    ensures IsRun(RisingCtx(), RunStates(), RunChoices())
    ensures RunStates()[7].Done? && RunStates()[7].to != RisingCtx().lr0
  {
    hide Step;
    StepPush();
    StepCall();
    StepRise();
    StepInterrupt();
    StepBack();
    StepReturn();
    StepPop();
  }
}
