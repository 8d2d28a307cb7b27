/** A body that copies sp and stores through the copy: weaker findings would justify it,
    but the analysis knows where the copy points and refuses it.  With such stores there
    is no best solution to look for. */
module CopiedSp {
  import opened Graph
  import opened Thumb
  import opened ReturnAnalysis
  import opened BodyRules
  import opened StackLimits
  import opened RisingBody

  // ---- mov r0, sp; str r1, [r0]; bx lr ------------------------------------------------

  function Copy(): Insn {
    Insn(0x300, 2, Seq, None, {0}, 0, false, [], [], None, Some(Arith(0, SP, 0)), 0, false, false)
  }

  function StoreThere(): Insn {
    Insn(0x302, 2, Seq, None, {}, 0, false, [Store(0, Some(0), Some(4), Some(1))], [], None, None, 0, false, false)
  }

  function CopyCode(): seq<Insn> {
    [Copy(), StoreThere(), StackLimits.Plain(0x304, 2, RetLr, None)]
  }

  function Copies(): Node {
    Node(0x300, 0x306, CopyCode(), 0, [])
  }

  function CopyImage(): Image {
    Image(map[0x300 := Copies()], map[])
  }

  /** What the copy holds is known, or not. */
  function CopyFindings(copy: Option<int>): Findings {
    var st := Abs(Some(0), true, {}, Unknown()[0 := copy]);
    Findings({0x300, 0x302, 0x304}, map[0x300 := [0x302], 0x302 := [0x304], 0x304 := []],
             map[0x300 := Entry(), 0x302 := st, 0x304 := st])
  }

  lemma CopyKnown()
    ensures Transfer(Entry(), Copy()) == CopyFindings(Some(0)).IN[0x302]
  {
    assert AfterStores(Entry(), {}, []) == {};
    assert Transfer(Entry(), Copy()).regs == Unknown()[0 := Some(0)];
  }

  lemma StoreChangesNothing(copy: Option<int>)
    requires copy == None || copy == Some(0)
    ensures Transfer(CopyFindings(copy).IN[0x302], StoreThere()) == CopyFindings(copy).IN[0x302]
  {
    var st := CopyFindings(copy).IN[0x302];
    assert AfterStores(st, {}, StoreThere().st) == AfterStores(st, AfterStore(st, {}, StoreThere().st[0]), []);
    assert AfterStore(st, {}, StoreThere().st[0]) == {};
    assert Transfer(st, StoreThere()).regs == st.regs;
  }

  lemma StoreJudged()
    ensures StoresOk(CopyFindings(None).IN[0x302], StoreThere()) && !StoresOk(CopyFindings(Some(0)).IN[0x302], StoreThere())
  {
    assert StoreThere().st[0] in StoreThere().st;
  }

  lemma CopyFlow(copy: Option<int>)
    ensures FlowKnown(Copies(), CopyFindings(copy)) && FlowOk(CopyImage(), Copies(), CopyFindings(copy))
      && LoopsOk(Copies(), CopyFindings(copy))
    ensures WellLaid(CopyCode()) && ItBlocksOk(CopyCode()) && ItSet(CopyCode()) == {}
    ensures InsnMap(CopyCode()) == map[0x300 := Copy(), 0x302 := StoreThere(), 0x304 := CopyCode()[2]]
    ensures forall i :: 0 <= i < 3 ==> CallsOf(CopyImage(), Copies(), CopyCode()[i]) == []
  {
    hide InsnMap, ItSet, Reach, OnCycle, FrameOf, Next, FlowErrs, CallsOf, Closed, ItBlocksOk;
    Three(CopyCode());
    var f, insns, image := CopyFindings(copy), InsnMap(CopyCode()), CopyImage();
    RowGraph(f.succ, 0x300, 0x302, 0x304);
    SeqFlow(image, insns, Copies(), Copy());
    SeqFlow(image, insns, Copies(), StoreThere());
    LeaveFlow(image, insns, Copies(), CopyCode()[2]);
  }

  lemma LowerEdge(insns: map<int, Insn>, succ: Succ, IN: States, a: int, b: int)
    requires a in IN && b in IN && a in insns && a in succ && succ[a] == [b] && IN[a].Ok() && IN[b].Ok()
    requires Leq(IN[b], Transfer(IN[a], insns[a])) && insns[a].target.None?
    ensures NodeHolds(insns, {}, succ, IN, a) && NoClash(insns, {}, succ, IN, a)
  {
    hide Transfer, Leq;
  }

  lemma CopyStates(copy: Option<int>)
    requires copy == None || copy == Some(0)
    ensures FlowKnown(Copies(), CopyFindings(copy)) && StatesKnown(Copies(), CopyFindings(copy))
    ensures forall a :: a in CopyFindings(copy).IN ==>
      NoClash(InsnMap(CopyCode()), {}, CopyFindings(copy).succ, CopyFindings(copy).IN, a)
  {
    hide InsnMap, ItSet, FlowKnown, FlowOk, LoopsOk, Transfer, NodeHolds, NoClash, ItBlocksOk, CallsOf, WellLaid;
    var f, insns := CopyFindings(copy), InsnMap(CopyCode());
    CopyFlow(copy);
    CopyKnown();
    StoreChangesNothing(copy);
    LowerEdge(insns, f.succ, f.IN, 0x300, 0x302);
    LowerEdge(insns, f.succ, f.IN, 0x302, 0x304);
    NoEdge(insns, f.succ, f.IN, 0x304);
  }

  /** The body is accepted with findings that do not know the copy, and not with those that
      follow its instructions exactly, although they too respect every edge. */
  lemma KnowingRefuses()
    ensures Accepted(CopyImage(), Copies(), CopyFindings(None))
    ensures FlowKnown(Copies(), CopyFindings(Some(0))) && StatesKnown(Copies(), CopyFindings(Some(0)))
    ensures var IN := CopyFindings(Some(0)).IN;
      IN[0x300] == Entry() && IN[0x302] == Transfer(IN[0x300], Copy()) && IN[0x304] == Transfer(IN[0x302], StoreThere())
    ensures !Accepted(CopyImage(), Copies(), CopyFindings(Some(0)))
  {
    CopyKnown();
    StoreChangesNothing(Some(0));
    CopyStates(None);
    CopyStates(Some(0));
    hide Transfer, FlowKnown, StatesKnown;
    VagueAccepted();
    ExactRefused();
  }

  lemma VagueAccepted()
    ensures Accepted(CopyImage(), Copies(), CopyFindings(None))
  {
    hide InsnMap, ItSet, FlowKnown, FlowOk, LoopsOk, NoClash, ItBlocksOk, CallsOf, WellLaid, StatesKnown, Fine, ReturnsOk;
    CopyFlow(None);
    CopyStates(None);
    FineCopy();
    RowReturns(CopyImage(), Copies(), CopyFindings(None), InsnMap(CopyCode()), 0x300, 0x302, 0x304);
  }

  lemma ExactRefused()
    ensures !Accepted(CopyImage(), Copies(), CopyFindings(Some(0)))
  {
    hide InsnMap, ItSet, FlowOk, LoopsOk, NoClash, ItBlocksOk, CallsOf, WellLaid, ExtentOk, StoresOk, ReturnOk;
    CopyFlow(Some(0));
    StoreJudged();
    assert 0x302 in CopyFindings(Some(0)).IN;
  }

  lemma FineCopy()
    ensures forall a :: a in {0x300, 0x302, 0x304} ==>
      Fine(CopyFindings(None).IN[a], map[0x300 := Copy(), 0x302 := StoreThere(), 0x304 := CopyCode()[2]][a])
  {
  }
}
