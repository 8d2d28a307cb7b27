/** Why a bound of the rise is enough for addresses but cannot be necessary: behind a call
    that never returns the analysis sees sp rise out of the address space, and no run
    does. */
module UnreachedRise {
  import opened Graph
  import opened Thumb
  import opened Machine
  import opened ReturnAnalysis
  import opened BodyRules
  import opened ItBlocks
  import opened StepSoundness
  import opened Runs
  import opened RunInvariant
  import opened RunTransfers
  import opened RunHeights
  import opened StackLimits
  import opened RisingBody

  const BASE: int := 0x2000_8000

  const JUMP: int := 0xff00_0000

  // ---- bl stuck; add.w sp, sp, #0xff000000; b . ---------------------------------------------

  function CallStuck(): Insn {
    Insn(0x100, 4, Bl, Some(0x200), {LR}, 0, false, [], [], None, None, 0, false, false)
  }

  function HopeCode(): seq<Insn> {
    [CallStuck(), MovesSp(0x104, 4, JUMP), Plain(0x108, 2, B, Some(0x108))]
  }

  function Hope(): Node {
    Node(0x100, 0x10a, HopeCode(), 0, [])
  }

  function HopeFindings(): Findings {
    Findings({0x100, 0x104, 0x108}, map[0x100 := [0x104], 0x104 := [0x108], 0x108 := [0x108]],
             map[0x100 := Entry(), 0x104 := Abs(Some(0), false, {}, Unknown()), 0x108 := Abs(Some(JUMP), false, {}, Unknown())])
  }

  // ---- stuck: b .+2; b . ------------------------------------------------------------------------

  function StuckCode(): seq<Insn> {
    [Plain(0x200, 2, B, Some(0x202)), Plain(0x202, 2, B, Some(0x202))]
  }

  function Stuck(): Node {
    Node(0x200, 0x204, StuckCode(), 0, [])
  }

  function StuckFindings(): Findings {
    Findings({0x200, 0x202}, map[0x200 := [0x202], 0x202 := [0x202]], map[0x200 := Entry(), 0x202 := Entry()])
  }

  function StuckCtx(rise: map<int, nat>): Ctx {
    Ctx(Image(map[0x100 := Hope(), 0x200 := Stuck()], map[]), map[0x100 := HopeFindings(), 0x200 := StuckFindings()],
        {0x100, 0x200}, map[0x100 := 0, 0x200 := 0], rise, 0x100, BASE, 0, false)
  }

  // ---- both are accepted ------------------------------------------------------------------------

  lemma HopeInsns()
    ensures WellLaid(HopeCode()) && FrameOf(HopeCode()) == 0 && ItSet(HopeCode()) == {} && ItBlocksOk(HopeCode())
    ensures InsnMap(HopeCode()) == map[0x100 := CallStuck(), 0x104 := HopeCode()[1], 0x108 := HopeCode()[2]]
  {
    assert WellLaid(HopeCode());
    hide WellLaid;
    Three(HopeCode());
  }

  lemma StuckInsns()
    ensures WellLaid(StuckCode()) && FrameOf(StuckCode()) == 0 && ItSet(StuckCode()) == {} && ItBlocksOk(StuckCode())
    ensures InsnMap(StuckCode()) == map[0x200 := StuckCode()[0], 0x202 := StuckCode()[1]]
  {
    var code := StuckCode();
    assert code[..1] == [code[0]] && code[..1][..0] == [];
    NoBlocks(code);
  }

  /** Three nodes in a row, the last of which leads to itself. */
  lemma LoopGraph(succ: Succ, a: int, b: int, c: int)
    requires a < b < c && succ == map[a := [b], b := [c], c := [c]]
    ensures Closed(succ, {a, b, c}) && Reach(succ, a, a) && Reach(succ, a, b) && Reach(succ, a, c)
    ensures !OnCycle(succ, a) && !OnCycle(succ, b)
  {
    ReachRefl(succ, a);
    assert Graph.Edge(succ, a, b) && Graph.Edge(succ, b, c);
    ReachEdge(succ, a, b);
    ReachEdge(succ, b, c);
    ReachTrans(succ, a, b, c);
    if v :| Graph.Edge(succ, a, v) && Reach(succ, v, a) {
      ReachStays(succ, {b, c}, v, a);
    }
    if v :| Graph.Edge(succ, b, v) && Reach(succ, v, b) {
      ReachStays(succ, {c}, v, b);
    }
  }

  lemma HopeFlow(rise: map<int, nat>)
    ensures FlowKnown(Hope(), HopeFindings()) && FlowOk(StuckCtx(rise).image, Hope(), HopeFindings())
    ensures LoopsOk(Hope(), HopeFindings())
    ensures CallsOf(StuckCtx(rise).image, Hope(), CallStuck()) == [BodyRules.Edge(0x200, CallEdge, 0x100)]
    ensures forall i :: 1 <= i < 3 ==> CallsOf(StuckCtx(rise).image, Hope(), HopeCode()[i]) == []
  {
    hide InsnMap, ItSet, Reach, OnCycle, FrameOf, Next, FlowErrs, CallsOf, Closed;
    HopeInsns();
    var f, insns, image := HopeFindings(), InsnMap(HopeCode()), StuckCtx(rise).image;
    LoopGraph(f.succ, 0x100, 0x104, 0x108);
    CallFlow(image, insns, Hope(), CallStuck(), 0x200);
    SeqFlow(image, insns, Hope(), HopeCode()[1]);
    JumpFlow(image, insns, Hope(), HopeCode()[2], 0x108);
  }

  lemma StuckFlow(rise: map<int, nat>)
    ensures FlowKnown(Stuck(), StuckFindings()) && FlowOk(StuckCtx(rise).image, Stuck(), StuckFindings())
    ensures LoopsOk(Stuck(), StuckFindings())
    ensures forall i :: 0 <= i < 2 ==> CallsOf(StuckCtx(rise).image, Stuck(), StuckCode()[i]) == []
  {
    hide InsnMap, ItSet, Reach, OnCycle, FrameOf, Next, FlowErrs, CallsOf;
    StuckInsns();
    var f, insns, image := StuckFindings(), InsnMap(StuckCode()), StuckCtx(rise).image;
    JumpFlow(image, insns, Stuck(), StuckCode()[0], 0x202);
    JumpFlow(image, insns, Stuck(), StuckCode()[1], 0x202);
    ReachRefl(f.succ, 0x200);
    assert Graph.Edge(f.succ, 0x200, 0x202);
    ReachEdge(f.succ, 0x200, 0x202);
  }

  lemma StuckTransfer()
    ensures Transfer(Entry(), CallStuck()) == Abs(Some(0), false, {}, Unknown())
  {
  }

  lemma HopeStates()
    ensures FlowKnown(Hope(), HopeFindings()) && StatesKnown(Hope(), HopeFindings())
    ensures forall a :: a in HopeFindings().IN ==> NoClash(InsnMap(HopeCode()), {}, HopeFindings().succ, HopeFindings().IN, a)
  {
    hide InsnMap, ItSet, FrameOf, FlowKnown, FlowOk, LoopsOk, CallsOf, Transfer, Leq, NodeHolds, NoClash;
    HopeInsns();
    HopeFlow(map[]);
    var f, insns := HopeFindings(), InsnMap(HopeCode());
    StuckTransfer();
    MovesOn(f.IN[0x104], HopeCode()[1]);
    StaysOn(f.IN[0x108], HopeCode()[2]);
    OneEdge(insns, f.succ, f.IN, 0x100, 0x104);
    OneEdge(insns, f.succ, f.IN, 0x104, 0x108);
    OneEdge(insns, f.succ, f.IN, 0x108, 0x108);
    LeqRefl(f.IN[0x100]);
  }

  lemma StuckStates()
    ensures FlowKnown(Stuck(), StuckFindings()) && StatesKnown(Stuck(), StuckFindings())
    ensures forall a :: a in StuckFindings().IN ==> NoClash(InsnMap(StuckCode()), {}, StuckFindings().succ, StuckFindings().IN, a)
  {
    hide InsnMap, ItSet, FrameOf, FlowKnown, FlowOk, LoopsOk, CallsOf, Transfer, Leq, NodeHolds, NoClash;
    StuckInsns();
    StuckFlow(map[]);
    var f, insns := StuckFindings(), InsnMap(StuckCode());
    StaysOn(f.IN[0x200], StuckCode()[0]);
    StaysOn(f.IN[0x202], StuckCode()[1]);
    OneEdge(insns, f.succ, f.IN, 0x200, 0x202);
    OneEdge(insns, f.succ, f.IN, 0x202, 0x202);
    LeqRefl(f.IN[0x200]);
  }

  /** Nothing is wrong where control goes on in the body or calls. */
  lemma StaysInside(image: Image, node: Node, f: Findings, insns: map<int, Insn>)
    requires FlowKnown(node, f) && StatesKnown(node, f) && insns == InsnMap(node.code) && ItSet(node.code) == {}
    requires forall v :: v in f.IN ==> NoClash(insns, {}, f.succ, f.IN, v) && v in insns && Fine(f.IN[v], insns[v])
    requires forall v, e :: v in f.IN && e in CallsOf(image, node, insns[v]) ==> e.kind != TailEdge
    ensures ReturnsOk(image, node, f)
  {
    hide InsnMap, ItSet, FlowKnown, StatesKnown, NoClash, StoresOk, ReturnOk, CallsOf;
  }

  lemma FineBoth()
    ensures Fine(Entry(), CallStuck()) && Fine(HopeFindings().IN[0x104], HopeCode()[1]) && Fine(HopeFindings().IN[0x108], HopeCode()[2])
    ensures Fine(Entry(), StuckCode()[0]) && Fine(Entry(), StuckCode()[1])
  {
  }

  lemma HopeReturns(rise: map<int, nat>)
    ensures FlowKnown(Hope(), HopeFindings()) && StatesKnown(Hope(), HopeFindings())
    ensures ReturnsOk(StuckCtx(rise).image, Hope(), HopeFindings())
  {
    hide InsnMap, ItSet, FlowKnown, FlowOk, LoopsOk, CallsOf, NoClash, StatesKnown, Fine, ReturnsOk, FrameOf, WellLaid;
    HopeInsns();
    HopeFlow(rise);
    HopeStates();
    FineBoth();
    StaysInside(StuckCtx(rise).image, Hope(), HopeFindings(), InsnMap(HopeCode()));
  }

  lemma StuckReturns(rise: map<int, nat>)
    ensures FlowKnown(Stuck(), StuckFindings()) && StatesKnown(Stuck(), StuckFindings())
    ensures ReturnsOk(StuckCtx(rise).image, Stuck(), StuckFindings())
  {
    hide InsnMap, ItSet, FlowKnown, FlowOk, LoopsOk, CallsOf, NoClash, StatesKnown, Fine, ReturnsOk, FrameOf, WellLaid;
    StuckInsns();
    StuckFlow(rise);
    StuckStates();
    FineBoth();
    StaysInside(StuckCtx(rise).image, Stuck(), StuckFindings(), InsnMap(StuckCode()));
  }

  lemma BothTaken(rise: map<int, nat>)
    ensures Accepted(StuckCtx(rise).image, Hope(), HopeFindings()) && Accepted(StuckCtx(rise).image, Stuck(), StuckFindings())
  {
    hide InsnMap, ItSet, FrameOf, FlowKnown, FlowOk, LoopsOk, StatesKnown, ReturnsOk, ItBlocksOk, CallsOf;
    HopeInsns();
    StuckInsns();
    HopeFlow(rise);
    StuckFlow(rise);
    HopeReturns(rise);
    StuckReturns(rise);
  }

  lemma CallWellFormed()
    ensures WellFormed(CallStuck())
  {
  }

  lemma HopeCodeOk()
    ensures CodeOk(Hope(), 0x100)
  {
    hide InsnMap, ItSet, WellFormed, WellLaid, FrameOf;
    HopeInsns();
    CallWellFormed();
    MovesWellFormed(HopeCode()[1]);
    PlainWellFormed(HopeCode()[2]);
  }

  lemma StuckCodeOk()
    ensures CodeOk(Stuck(), 0x200)
  {
    hide InsnMap, ItSet, WellFormed, WellLaid, FrameOf;
    StuckInsns();
    PlainWellFormed(StuckCode()[0]);
    PlainWellFormed(StuckCode()[1]);
  }

  lemma HopeBodyOk(rise: map<int, nat>)
    ensures BodyOk(StuckCtx(rise), 0x100)
  {
    hide InsnMap, ItSet, FrameOf, Accepted, CodeOk, ItBlocksOk, WellLaid, CallsOf, FlowKnown, FlowOk, LoopsOk;
    HopeInsns();
    HopeFlow(rise);
    BothTaken(rise);
    HopeCodeOk();
  }

  lemma StuckBodyOk(rise: map<int, nat>)
    ensures BodyOk(StuckCtx(rise), 0x200)
  {
    hide InsnMap, ItSet, FrameOf, Accepted, CodeOk, ItBlocksOk, WellLaid, CallsOf, FlowKnown, FlowOk, LoopsOk;
    StuckInsns();
    StuckFlow(rise);
    BothTaken(rise);
    StuckCodeOk();
  }

  lemma StuckProgramOk(rise: map<int, nat>)
    ensures ProgramOk(StuckCtx(rise))
  {
    hide BodyOk;
    HopeBodyOk(rise);
    StuckBodyOk(rise);
  }

  // ---- no run rises -------------------------------------------------------------------------------

  /** In the call, or in what was called, and sp where it was. */
  ghost predicate Waiting(s: State) {
    && s.Running? && s.it == 0 && s.cpu.sp == BASE && s.acts != [] && s.acts[0].body == 0x100 && s.acts[0].pc == 0x100
    && |s.acts| <= 2 && (|s.acts| == 2 ==> s.acts[1].body == 0x200 && (s.acts[1].pc == 0x200 || s.acts[1].pc == 0x202))
  }

  lemma StuckAt(rise: map<int, nat>)
    ensures Insns(StuckCtx(rise), 0x100) == map[0x100 := CallStuck(), 0x104 := HopeCode()[1], 0x108 := HopeCode()[2]]
    ensures Insns(StuckCtx(rise), 0x200) == map[0x200 := StuckCode()[0], 0x202 := StuckCode()[1]]
    ensures !IsVeneer(StuckCtx(rise), 0x100) && !IsVeneer(StuckCtx(rise), 0x200)
  {
    hide InsnMap;
    HopeInsns();
    StuckInsns();
  }

  lemma WaitsInCall(rise: map<int, nat>, s: State, ch: Choice, s': State)
    requires Waiting(s) && |s.acts| == 1 && Step(StuckCtx(rise), s, ch, s')
    ensures Waiting(s')
  {
    hide Insns, IsVeneer, InsnMap, Exec, UnknownStoresSpare, Live, LoadEffect, WellFormed, Jump, Return, Fallthrough;
    StuckAt(rise);
    assert ch.Execute?;
    CallWellFormed();
    CallKeeps(CallStuck(), s.cpu, ch.mems, ch.after);
  }

  lemma WaitsInLoop(rise: map<int, nat>, s: State, ch: Choice, s': State)
    requires Waiting(s) && |s.acts| == 2 && Step(StuckCtx(rise), s, ch, s')
    ensures Waiting(s')
  {
    hide Insns, IsVeneer, InsnMap, Exec, UnknownStoresSpare, Live, LoadEffect, Call, Return, Fallthrough;
    StuckAt(rise);
    assert ch.Execute?;
    var ins := if s.acts[1].pc == 0x200 then StuckCode()[0] else StuckCode()[1];
    QuietKeeps(ins, s.cpu, ch.mems, ch.after);
  }

  lemma WaitsOn(rise: map<int, nat>, s: State, ch: Choice, s': State)
    requires Waiting(s) && Step(StuckCtx(rise), s, ch, s')
    ensures Waiting(s')
  {
    hide Step, StuckCtx;
    if |s.acts| == 1 {
      WaitsInCall(rise, s, ch, s');
    } else {
      WaitsInLoop(rise, s, ch, s');
    }
  }

  /** Every run stays where it began. */
  lemma {:induction false} NeverRises(rise: map<int, nat>, states: seq<State>, choices: seq<Choice>, k: nat)
    requires IsRun(StuckCtx(rise), states, choices) && k < |states|
    ensures states[k].Running? && states[k].cpu.sp == BASE == StuckCtx(rise).sp0
    ensures Waiting(states[k])
  {
    hide Step;
    if k > 0 {
      NeverRises(rise, states, choices, k - 1);
      assert Step(StuckCtx(rise), states[k - 1], choices[k - 1], states[k - 1 + 1]);
      WaitsOn(rise, states[k - 1], choices[k - 1], states[k]);
    }
  }

  /** The program is accepted, and every bound of its rise leads out of the address space,
      although no run does. */
  lemma RiseNotNeeded(rise: map<int, nat>)
    ensures ProgramOk(StuckCtx(rise)) && 0x100 in StuckCtx(rise).bodies
    ensures RiseOk(StuckCtx(rise), 0x100) ==> 0x100 in rise && BASE + rise[0x100] >= 0x1_0000_0000
  {
    hide Insns, IsVeneer, InsnMap, ProgramOk, CallsOf;
    StuckProgramOk(rise);
    StuckAt(rise);
    assert HopeFindings().IN[0x108].sp == Some(JUMP);
    if RiseOk(StuckCtx(rise), 0x100) {
      assert RiseAt(StuckCtx(rise), 0x100, 0x108);
    }
  }
}
