/** What the analysis accepts, without the analysis: a body passes exactly when it has an
    account of sp, lr and the saved return address that holds together from instruction to
    instruction. */
module BodyAccount {
  import opened Graph
  import opened Thumb
  import opened ReturnAnalysis
  import opened BodyRules
  import opened BodyAnalysis

  /** How a body stands before an instruction: where sp is, whether lr holds the return
      address, and which words do. */
  datatype Stand = Stand(sp: int, held: bool, words: set<int>)

  type Account = map<int, Stand>

  // ---- one instruction -------------------------------------------------------

  /** A store through sp touches the word at x. */
  predicate Touches(s: Store, sp: int, x: int) {
    s.base == SP && s.off.Some? && s.n.Some? && x < Wrap(sp + s.off.value) + s.n.value && Wrap(sp + s.off.value) < x + 4
  }

  predicate SavesLr(s: Store, sp: int, x: int) {
    s.base == SP && s.off.Some? && s.n == Some(4) && s.src == Some(LR) && Wrap(sp + s.off.value) == x
  }

  /** The last store to touch x saved lr there. */
  ghost predicate SavedBy(sts: seq<Store>, sp: int, x: int) {
    exists i :: 0 <= i < |sts| && SavesLr(sts[i], sp, x) && forall j :: i < j < |sts| ==> !Touches(sts[j], sp, x)
  }

  ghost predicate Untouched(sts: seq<Store>, sp: int, x: int) {
    forall i :: 0 <= i < |sts| ==> !Touches(sts[i], sp, x)
  }

  /** The last word loaded into lr comes from x. */
  ghost predicate Reloads(ld: seq<Load>, sp: int, x: int) {
    exists i :: ReloadAt(ld, sp, x, i)
  }

  ghost predicate ReloadAt(ld: seq<Load>, sp: int, x: int, i: int) {
    && 0 <= i < |ld| && ld[i].dest == LR && ld[i].n == 4 && ld[i].base == SP && ld[i].off.Some?
    && Wrap(sp + ld[i].off.value) == x && forall j :: i < j < |ld| ==> !(ld[j].dest == LR && ld[j].n == 4)
  }

  /** x holds the return address after the stores of the instruction. */
  ghost predicate Kept(s: Stand, ins: Insn, x: int) {
    (x in s.words && Untouched(ins.st, s.sp, x)) || (s.held && SavedBy(ins.st, s.sp, x))
  }

  /** t claims nothing that the instruction, executed in s, does not leave true. */
  ghost predicate Executed(s: Stand, ins: Insn, t: Stand) {
    && t.sp == s.sp + (if SP in ins.wr then ins.sp else 0)
    && (t.held ==> if LR in ins.wr || IsCall(ins) then exists x :: Reloads(ins.ld, s.sp, x) && Kept(s, ins, x) else s.held)
    && forall x :: x in t.words ==> t.sp <= x && Kept(s, ins, x)
  }

  ghost predicate Skipped(s: Stand, t: Stand) {
    t.sp == s.sp && (t.held ==> s.held) && t.words <= s.words
  }

  /** From an instruction to b: a conditional instruction may be skipped, and if executed
      it goes on only when it does not leave. */
  ghost predicate Follows(s: Stand, ins: Insn, cond: bool, b: int, t: Stand) {
    if ins.target == Some(b) && ins.flow != Seq && ins.flow != It then Executed(s, ins, t)
    else if cond then Skipped(s, t) && (Leaves(ins.flow) || Executed(s, ins, t))
    else Executed(s, ins, t)
  }

  /** Nothing is stored at or above the entry sp. */
  ghost predicate StoresBelow(s: Stand, ins: Insn) {
    forall i :: 0 <= i < |ins.st| && ins.st[i].base == SP && ins.st[i].off.Some? && ins.st[i].n.Some? ==>
      Wrap(s.sp + ins.st[i].off.value) + ins.st[i].n.value <= 0
  }

  /** The first load into pc takes the return address from a word that holds it. */
  ghost predicate PopsBack(s: Stand, ins: Insn) {
    s.sp + ins.sp == 0 && PopsFrom(ins.ld, s.sp, s.words)
  }

  ghost predicate PopsFrom(ld: seq<Load>, sp: int, words: set<int>) {
    exists i :: PopAt(ld, sp, words, i)
  }

  ghost predicate PopAt(ld: seq<Load>, sp: int, words: set<int>, i: int) {
    && 0 <= i < |ld| && ld[i].dest == PC && ld[i].base == SP && ld[i].off.Some?
    && Wrap(sp + ld[i].off.value) in words && forall j :: 0 <= j < i ==> ld[j].dest != PC
  }

  ghost predicate LeavesWell(image: Image, node: Node, s: Stand, ins: Insn) {
    && (ins.flow == RetLr ==> s.held && s.sp == 0)
    && (ins.flow == RetPop ==> PopsBack(s, ins))
    && (TailCalls(image, node, ins) ==> s.held && s.sp == 0)
  }

  // ---- a body ------------------------------------------------------------------

  /** The account is right at instruction a and on the way on from it. */
  ghost predicate Holds(image: Image, node: Node, insns: map<int, Insn>, inIt: set<int>, succ: Succ, acc: Account, a: int)
    requires a in acc && a in insns
  {
    && StoresBelow(acc[a], insns[a]) && LeavesWell(image, node, acc[a], insns[a])
    && forall b :: b in Out(succ, a) ==> b in acc && Follows(acc[a], insns[a], a in inIt, b, acc[b])
  }

  ghost predicate AccountOk(image: Image, node: Node, succ: Succ, acc: Account) {
    && node.addr in acc && acc[node.addr].sp == 0 && acc[node.addr].words == {}
    && acc.Keys <= InsnMap(node.code).Keys
    && forall a :: a in acc ==> Holds(image, node, InsnMap(node.code), ItSet(node.code), succ, acc, a)
  }

  /** Stores at known offsets, and loads of words into lr and of pc, go through sp; stores
      may go through any register that is never sp plus a constant. */
  ghost predicate Plain(insns: map<int, Insn>) {
    exists regs :: Direct(insns, regs) && forall a :: a in insns ==> PlainLoads(insns[a], regs)
  }

  ghost predicate PlainLoads(ins: Insn, regs: set<Reg>) {
    forall i :: 0 <= i < |ins.ld| && (ins.ld[i].dest == PC || ins.ld[i].dest == LR) ==>
      ins.ld[i].base == SP || ins.ld[i].base == PC || ins.ld[i].base !in regs
  }

  function NoRegs(): seq<Option<int>> {
    seq(16, _ => None)
  }

  function AbsOf(s: Stand): (st: Abs)
    ensures st.Ok()
  {
    Abs(Some(s.sp), s.held, s.words, NoRegs())
  }

  function StandOf(st: Abs): Stand
    requires st.sp.Some?
  {
    Stand(st.sp.value, st.ra, st.slots)
  }

  // ---- the stores of an instruction ---------------------------------------------

  /** Only stores through sp are at known positions. */
  ghost predicate SpOnly(st: Abs, sts: seq<Store>)
    requires st.Ok()
  {
    forall s :: s in sts && s.off.Some? && s.n.Some? && s.base != SP ==> Addr(st, s.base, s.off).None?
  }

  lemma OneStore(st: Abs, slots: set<int>, s: Store, x: int)
    requires st.Ok() && st.sp.Some? && SpOnly(st, [s])
    ensures x in AfterStore(st, slots, s) <==>
      (x in slots && !Touches(s, st.sp.value, x)) || (st.ra && SavesLr(s, st.sp.value, x))
  {
    assert s in [s];
  }

  lemma {:induction false} StoresMean(st: Abs, slots: set<int>, sts: seq<Store>, x: int)
    requires st.Ok() && st.sp.Some? && SpOnly(st, sts)
    ensures x in AfterStores(st, slots, sts) <==>
      (x in slots && Untouched(sts, st.sp.value, x)) || (st.ra && SavedBy(sts, st.sp.value, x))
    decreases sts
  {
    hide Touches, SavesLr, AfterStore, Addr;
    if sts != [] {
      var rest, sp := sts[1..], st.sp.value;
      OneStore(st, slots, sts[0], x) by { assert sts[0] in sts; }
      StoresMean(st, AfterStore(st, slots, sts[0]), rest, x);
      UntouchedSplit(sts, sp, x);
      SavedSplit(sts, sp, x);
    }
  }

  lemma UntouchedSplit(sts: seq<Store>, sp: int, x: int)
    requires sts != []
    ensures Untouched(sts, sp, x) <==> !Touches(sts[0], sp, x) && Untouched(sts[1..], sp, x)
  {
    hide Touches;
    var rest := sts[1..];
    assert forall i :: 0 <= i < |rest| ==> rest[i] == sts[i + 1];
    if !Touches(sts[0], sp, x) && Untouched(rest, sp, x) {
      forall i | 0 <= i < |sts|
        ensures !Touches(sts[i], sp, x)
      {
        assert i == 0 || sts[i] == rest[i - 1];
      }
    }
  }

  lemma SavedSplit(sts: seq<Store>, sp: int, x: int)
    requires sts != []
    ensures SavedBy(sts, sp, x) <==> SavedBy(sts[1..], sp, x) || (SavesLr(sts[0], sp, x) && Untouched(sts[1..], sp, x))
  {
    hide Touches, SavesLr;
    var rest := sts[1..];
    assert forall i :: 0 <= i < |rest| ==> rest[i] == sts[i + 1];
    if SavedBy(sts, sp, x) {
      var i :| 0 <= i < |sts| && SavesLr(sts[i], sp, x) && forall j :: i < j < |sts| ==> !Touches(sts[j], sp, x);
      forall j | 0 <= j < |rest| && i <= j
        ensures !Touches(rest[j], sp, x)
      {
        assert rest[j] == sts[j + 1];
      }
      assert i > 0 ==> SavesLr(rest[i - 1], sp, x);
    }
    if SavedBy(rest, sp, x) {
      var i :| 0 <= i < |rest| && SavesLr(rest[i], sp, x) && forall j :: i < j < |rest| ==> !Touches(rest[j], sp, x);
      forall j | i + 1 < j < |sts|
        ensures !Touches(sts[j], sp, x)
      {
        assert sts[j] == rest[j - 1];
      }
      assert SavesLr(sts[i + 1], sp, x);
    }
    if SavesLr(sts[0], sp, x) && Untouched(rest, sp, x) {
      forall j | 0 < j < |sts|
        ensures !Touches(sts[j], sp, x)
      {
        assert sts[j] == rest[j - 1];
      }
    }
  }

  // ---- the loads of an instruction ------------------------------------------------

  ghost predicate SpLoads(st: Abs, ld: seq<Load>)
    requires st.Ok()
  {
    forall l :: l in ld && (l.dest == LR || l.dest == PC) && l.base != SP ==> Addr(st, l.base, l.off).None?
  }

  lemma {:induction false} ReloadMeans(st: Abs, ld: seq<Load>, x: int)
    requires st.Ok() && st.sp.Some? && SpLoads(st, ld)
    ensures LrFrom(st, ld) == Some(x) <==> Reloads(ld, st.sp.value, x)
  {
    if ld != [] {
      var l, init := ld[|ld| - 1], ld[..|ld| - 1];
      assert l in ld && forall i :: 0 <= i < |init| ==> init[i] == ld[i];
      if l.dest == LR && l.n == 4 {
        if Reloads(ld, st.sp.value, x) {
          var i :| ReloadAt(ld, st.sp.value, x, i);
          assert i == |ld| - 1;
        }
        if LrFrom(st, ld) == Some(x) {
          assert ReloadAt(ld, st.sp.value, x, |ld| - 1);
        }
      } else {
        ReloadMeans(st, init, x);
        ReloadsInit(ld, st.sp.value, x);
      }
    }
  }

  lemma ReloadsInit(ld: seq<Load>, sp: int, x: int)
    requires ld != [] && !(ld[|ld| - 1].dest == LR && ld[|ld| - 1].n == 4)
    ensures Reloads(ld, sp, x) <==> Reloads(ld[..|ld| - 1], sp, x)
  {
    var init := ld[..|ld| - 1];
    hide Wrap;
    assert forall i :: 0 <= i < |init| ==> init[i] == ld[i];
    if Reloads(ld, sp, x) {
      var i :| ReloadAt(ld, sp, x, i);
      assert ReloadAt(init, sp, x, i);
    }
    if Reloads(init, sp, x) {
      var i :| ReloadAt(init, sp, x, i);
      forall j | i < j < |ld|
        ensures !(ld[j].dest == LR && ld[j].n == 4)
      {
        assert j < |init| ==> ld[j] == init[j];
      }
      assert ReloadAt(ld, sp, x, i);
    }
  }

  lemma {:induction false} PcLoadMeans(st: Abs, ld: seq<Load>, slots: set<int>)
    requires st.Ok() && st.sp.Some? && SpLoads(st, ld)
    ensures (PcLoad(ld).Some? && Addr(st, PcLoad(ld).value.base, PcLoad(ld).value.off).Some?
             && Addr(st, PcLoad(ld).value.base, PcLoad(ld).value.off).value in slots)
       <==> PopsFrom(ld, st.sp.value, slots)
    decreases ld
  {
    if ld != [] {
      var rest := ld[1..];
      assert ld[0] in ld && forall i :: 0 <= i < |rest| ==> rest[i] == ld[i + 1];
      if ld[0].dest == PC {
        if PopsFrom(ld, st.sp.value, slots) {
          var i :| PopAt(ld, st.sp.value, slots, i);
          assert i == 0;
        } else {
          assert !PopAt(ld, st.sp.value, slots, 0);
        }
      } else {
        PcLoadMeans(st, rest, slots);
        PopsRest(ld, st.sp.value, slots);
      }
    }
  }

  lemma PopsRest(ld: seq<Load>, sp: int, slots: set<int>)
    requires ld != [] && ld[0].dest != PC
    ensures PopsFrom(ld, sp, slots) <==> PopsFrom(ld[1..], sp, slots)
  {
    hide Wrap;
    var rest := ld[1..];
    assert forall i :: 0 <= i < |rest| ==> rest[i] == ld[i + 1];
    if PopsFrom(ld, sp, slots) {
      var i :| PopAt(ld, sp, slots, i);
      assert PopAt(rest, sp, slots, i - 1);
    }
    if PopsFrom(rest, sp, slots) {
      var i :| PopAt(rest, sp, slots, i);
      forall j | 0 <= j < i + 1
        ensures ld[j].dest != PC
      {
        assert j > 0 ==> ld[j] == rest[j - 1];
      }
      assert PopAt(ld, sp, slots, i + 1);
    }
  }

  // ---- the analysis of one instruction, in these terms ---------------------------

  ghost predicate Tame(st: Abs, ins: Insn) {
    st.Ok() && st.sp.Some? && InsnOk(ins) && SpOnly(st, ins.st) && SpLoads(st, ins.ld)
  }

  /** t claims no more than out. */
  ghost predicate Claims(t: Stand, out: Abs) {
    out.sp == Some(t.sp) && (t.held ==> out.ra) && t.words <= out.slots
  }

  lemma KeptMeans(st: Abs, ins: Insn, x: int)
    requires Tame(st, ins)
    ensures x in AfterStores(st, st.slots, ins.st) <==> Kept(StandOf(st), ins, x)
  {
    hide AfterStores, Untouched, SavedBy, SpOnly, SpLoads;
    StoresMean(st, st.slots, ins.st, x);
  }

  lemma ReloadKept(st: Abs, ins: Insn)
    requires Tame(st, ins)
    ensures (LrFrom(st, ins.ld).Some? && LrFrom(st, ins.ld).value in AfterStores(st, st.slots, ins.st))
       <==> exists x :: Reloads(ins.ld, st.sp.value, x) && Kept(StandOf(st), ins, x)
  {
    hide AfterStores, Kept, SpOnly, SpLoads, LrFrom, Reloads;
    if LrFrom(st, ins.ld).Some? {
      ReloadMeans(st, ins.ld, LrFrom(st, ins.ld).value);
      KeptMeans(st, ins, LrFrom(st, ins.ld).value);
    }
    if x :| Reloads(ins.ld, st.sp.value, x) && Kept(StandOf(st), ins, x) {
      ReloadMeans(st, ins.ld, x);
      KeptMeans(st, ins, x);
    }
  }

  /** The transfer leaves exactly what the stores, loads and moves of the instruction leave. */
  lemma ExecutedMeans(st: Abs, ins: Insn, t: Stand)
    requires Tame(st, ins)
    ensures Executed(StandOf(st), ins, t) <==> Claims(t, Transfer(st, ins))
  {
    hide AfterStores, Kept, SpOnly, SpLoads, LrFrom, Reloads;
    ReloadKept(st, ins);
    forall x
      ensures x in AfterStores(st, st.slots, ins.st) <==> Kept(StandOf(st), ins, x)
    {
      KeptMeans(st, ins, x);
    }
    var out := Transfer(st, ins);
    SpStays(st, ins);
    assert out.sp == Some(st.sp.value + (if SP in ins.wr then ins.sp else 0));
    assert forall x :: x in out.slots <==> out.sp.value <= x && Kept(StandOf(st), ins, x);
    if Executed(StandOf(st), ins, t) {
      forall x | x in t.words
        ensures x in out.slots
      {
        assert Kept(StandOf(st), ins, x);
      }
    }
  }

  lemma FollowsMeans(st: Abs, ins: Insn, cond: bool, b: int, t: Stand)
    requires Tame(st, ins)
    ensures Follows(StandOf(st), ins, cond, b, t) <==>
      !EdgeClash(ins, cond, st, b) && Claims(t, EdgeState(ins, cond, st, b))
  {
    ExecutedMeans(st, ins, t);
    SpStays(st, ins);
    hide Executed, Transfer, SpOnly, SpLoads;
  }

  lemma SpStays(st: Abs, ins: Insn)
    requires st.Ok() && st.sp.Some? && InsnOk(ins)
    ensures Transfer(st, ins).sp.Some?
  {
  }

  lemma StoresMeanBelow(st: Abs, ins: Insn)
    requires Tame(st, ins)
    ensures StoresBelow(StandOf(st), ins) <==> StoresOk(st, ins)
  {
    hide SpLoads;
    if StoresBelow(StandOf(st), ins) {
      forall s | s in ins.st && Addr(st, s.base, s.off).Some? && s.n.Some?
        ensures Addr(st, s.base, s.off).value + s.n.value <= 0
      {
        var i :| 0 <= i < |ins.st| && ins.st[i] == s;
      }
    }
    if StoresOk(st, ins) {
      forall i | 0 <= i < |ins.st| && ins.st[i].base == SP && ins.st[i].off.Some? && ins.st[i].n.Some?
        ensures Wrap(st.sp.value + ins.st[i].off.value) + ins.st[i].n.value <= 0
      {
        assert ins.st[i] in ins.st;
      }
    }
  }

  lemma LeavesMean(image: Image, node: Node, st: Abs, ins: Insn)
    requires Tame(st, ins)
    ensures LeavesWell(image, node, StandOf(st), ins) <==>
      ReturnOk(st, ins) && (TailCalls(image, node, ins) ==> HandOverOk(st))
  {
    hide SpOnly, SpLoads, Addr, PopsFrom, TailCalls;
    PcLoadMeans(st, ins.ld, st.slots);
    assert ins.flow == RetPop ==> ins.flow != RetLr;
  }

  // ---- plain bodies ------------------------------------------------------------------

  lemma PlainTame(insns: map<int, Insn>, a: int, st: Abs, regs: set<Reg>)
    requires a in insns && Direct(insns, regs) && PlainLoads(insns[a], regs)
    requires st.Ok() && st.sp.Some? && Within(st, regs) && InsnOk(insns[a])
    ensures Tame(st, insns[a])
  {
    var ins := insns[a];
    assert DirectStores(ins, regs);
    forall s | s in ins.st && s.off.Some? && s.n.Some? && s.base != SP
      ensures Addr(st, s.base, s.off).None?
    {
    }
    forall l | l in ins.ld && (l.dest == LR || l.dest == PC) && l.base != SP
      ensures Addr(st, l.base, l.off).None?
    {
      var i :| 0 <= i < |ins.ld| && ins.ld[i] == l;
    }
  }

  lemma EdgeWithin(insns: map<int, Insn>, a: int, cond: bool, st: Abs, b: int, regs: set<Reg>)
    requires a in insns && Direct(insns, regs) && st.Ok() && Within(st, regs)
    ensures Within(EdgeState(insns[a], cond, st, b), regs)
  {
    hide Direct;
    TransferWithin(insns, a, st, regs);
    hide Transfer;
  }

  /** A position is never claimed of a register that cannot have one. */
  lemma {:induction false} WalkWithin(insns: map<int, Insn>, inIt: set<int>, succ: Succ, IN: States, p: seq<int>,
    regs: set<Reg>)
    requires Direct(insns, regs) && IsWalk(succ, p) && Fixpoint(insns, inIt, succ, IN)
    requires p[0] in IN && IN[p[0]].Ok() && Leq(IN[p[0]], Entry())
    ensures p[|p| - 1] in IN && IN[p[|p| - 1]].Ok() && Within(IN[p[|p| - 1]], regs)
  {
    hide Direct, EdgeState;
    var b, q := p[|p| - 1], p[..|p| - 1];
    if |p| > 1 {
      var a := q[|q| - 1];
      forall i | 0 <= i < |q| - 1
        ensures Graph.Edge(succ, q[i], q[i + 1])
      {
        assert Graph.Edge(succ, p[i], p[i + 1]);
      }
      assert Graph.Edge(succ, p[|p| - 2], p[|p| - 2 + 1]);
      WalkWithin(insns, inIt, succ, IN, q, regs);
      assert NodeHolds(insns, inIt, succ, IN, a) && EdgeHolds(insns, inIt, IN, a, b);
      EdgeWithin(insns, a, a in inIt, IN[a], b, regs);
      LowerWithin(IN[b], EdgeState(insns[a], a in inIt, IN[a], b), regs);
    } else {
      LowerWithin(IN[b], Entry(), regs);
    }
  }

  lemma LowerWithin(x: Abs, y: Abs, regs: set<Reg>)
    requires x.Ok() && y.Ok() && Leq(x, y) && Within(y, regs)
    ensures Within(x, regs)
  {
    forall r: Reg | r !in regs
      ensures x.regs[r].None?
    {
      assert LeqOpt(x.regs[r], y.regs[r]);
    }
  }

  // ---- findings and accounts ------------------------------------------------------------

  /** The rules of a body that are not about sp, lr or stores. */
  ghost predicate FlowRules(image: Image, node: Node, f: Findings) {
    ExtentOk(image, node) && ItBlocksOk(node.code) && FlowKnown(node, f) && FlowOk(image, node, f) && LoopsOk(node, f)
  }

  function StatesOf(acc: Account, seen: set<int>): States {
    map a | a in acc && a in seen :: AbsOf(acc[a])
  }

  lemma AbsTame(insns: map<int, Insn>, a: int, s: Stand, regs: set<Reg>)
    requires a in insns && Direct(insns, regs) && PlainLoads(insns[a], regs) && InsnOk(insns[a])
    ensures Tame(AbsOf(s), insns[a]) && StandOf(AbsOf(s)) == s
  {
    hide Direct, PlainLoads;
    PlainTame(insns, a, AbsOf(s), regs);
  }

  lemma InsnsOk(image: Image, node: Node, a: int)
    requires WellLaid(node.code) && ExtentOk(image, node) && a in InsnMap(node.code)
    ensures InsnOk(InsnMap(node.code)[a])
  {
    hide InsnMap, Overlapped, InsnOk;
    InsnMapKeys(node.code, a);
  }

  ghost predicate Justified(image: Image, node: Node, insns: map<int, Insn>, inIt: set<int>, succ: Succ, IN: States, a: int)
    requires a in IN && IN[a].Ok() && a in insns
  {
    && NodeHolds(insns, inIt, succ, IN, a) && NoClash(insns, inIt, succ, IN, a)
    && StoresOk(IN[a], insns[a]) && ReturnOk(IN[a], insns[a]) && (TailCalls(image, node, insns[a]) ==> HandOverOk(IN[a]))
  }

  lemma ClaimsLeq(t: Stand, out: Abs)
    requires out.Ok() && Claims(t, out)
    ensures Leq(AbsOf(t), out)
  {
  }

  lemma LeqClaims(x: Abs, out: Abs)
    requires x.Ok() && out.Ok() && x.sp.Some? && Leq(x, out)
    ensures Claims(StandOf(x), out)
  {
  }

  lemma HoldsJustifies(image: Image, node: Node, insns: map<int, Insn>, inIt: set<int>, succ: Succ, acc: Account,
    seen: set<int>, a: int, regs: set<Reg>)
    requires a in acc && a in seen && a in insns && Closed(succ, seen) && Holds(image, node, insns, inIt, succ, acc, a)
    requires Direct(insns, regs) && PlainLoads(insns[a], regs) && InsnOk(insns[a])
    ensures a in StatesOf(acc, seen) && Justified(image, node, insns, inIt, succ, StatesOf(acc, seen), a)
  {
    hide Direct, PlainLoads, InsnOk, Tame, AbsOf, StandOf, Follows, Claims, EdgeState, EdgeClash, StoresBelow, LeavesWell,
      TailCalls, HandOverOk, StoresOk, ReturnOk, Leq;
    var J, st, ins := StatesOf(acc, seen), AbsOf(acc[a]), insns[a];
    AbsTame(insns, a, acc[a], regs);
    StoresMeanBelow(st, ins);
    LeavesMean(image, node, st, ins);
    forall b | b in Out(succ, a)
      ensures EdgeHolds(insns, inIt, J, a, b) && !EdgeClash(ins, a in inIt, st, b)
    {
      assert Graph.Edge(succ, a, b);
      FollowsMeans(st, ins, a in inIt, b, acc[b]);
      ClaimsLeq(acc[b], EdgeState(ins, a in inIt, st, b));
    }
  }

  lemma JustifiedHolds(image: Image, node: Node, insns: map<int, Insn>, inIt: set<int>, succ: Succ, IN: States,
    acc: Account, a: int, regs: set<Reg>)
    requires a in IN && a in insns && acc.Keys == IN.Keys
    requires forall b :: b in IN ==> IN[b].Ok() && IN[b].sp.Some? && acc[b] == StandOf(IN[b])
    requires Justified(image, node, insns, inIt, succ, IN, a) && Within(IN[a], regs)
    requires Direct(insns, regs) && PlainLoads(insns[a], regs) && InsnOk(insns[a])
    ensures Holds(image, node, insns, inIt, succ, acc, a)
  {
    hide Direct, PlainLoads, InsnOk, Tame, StandOf, Follows, Claims, EdgeState, EdgeClash, StoresBelow, LeavesWell,
      TailCalls, HandOverOk, StoresOk, ReturnOk, Leq, Within;
    PlainTame(insns, a, IN[a], regs);
    StoresMeanBelow(IN[a], insns[a]);
    LeavesMean(image, node, IN[a], insns[a]);
    forall b | b in Out(succ, a)
      ensures b in acc && Follows(acc[a], insns[a], a in inIt, b, acc[b])
    {
      assert EdgeHolds(insns, inIt, IN, a, b) && !EdgeClash(insns[a], a in inIt, IN[a], b);
      LeqClaims(IN[b], EdgeState(insns[a], a in inIt, IN[a], b));
      FollowsMeans(IN[a], insns[a], a in inIt, b, acc[b]);
    }
  }

  /** States that justify every instruction they are given for make a body accepted. */
  lemma JustifiedAccepted(image: Image, node: Node, g: Findings)
    requires FlowRules(image, node, g) && g.IN.Keys <= g.seen && g.seen <= InsnMap(node.code).Keys
    requires forall a :: a in g.IN ==> g.IN[a].Ok() && g.IN[a].sp.Some?
    requires node.addr in g.IN && Leq(g.IN[node.addr], Entry())
    requires forall a :: a in g.IN ==> Justified(image, node, InsnMap(node.code), ItSet(node.code), g.succ, g.IN, a)
    ensures Accepted(image, node, g)
  {
    hide InsnMap, ItSet, ItBlocksOk, ExtentOk, FlowKnown, FlowOk, LoopsOk, NodeHolds, NoClash, StoresOk, ReturnOk,
      HandOverOk, TailCalls, Leq;
  }

  lemma AccountJustifies(image: Image, node: Node, f: Findings, acc: Account, a: int)
    requires WellLaid(node.code) && ExtentOk(image, node) && FlowKnown(node, f) && Plain(InsnMap(node.code))
    requires AccountOk(image, node, f.succ, acc) && a in acc && a in f.seen
    ensures a in InsnMap(node.code)
      && Justified(image, node, InsnMap(node.code), ItSet(node.code), f.succ, StatesOf(acc, f.seen), a)
  {
    var insns, inIt := InsnMap(node.code), ItSet(node.code);
    var regs :| Direct(insns, regs) && forall a :: a in insns ==> PlainLoads(insns[a], regs);
    hide InsnMap, ItSet, Direct, PlainLoads, ExtentOk, FlowErrs, Reach, Next, NodeHolds, NoClash, InsnOk, StoresBelow,
      LeavesWell, Follows, Justified;
    InsnsOk(image, node, a);
    assert Holds(image, node, insns, inIt, f.succ, acc, a);
    HoldsJustifies(image, node, insns, inIt, f.succ, acc, f.seen, a, regs);
  }

  /** An account is as good as findings. */
  lemma AccountAccepts(image: Image, node: Node, f: Findings, acc: Account)
    requires WellLaid(node.code) && FlowRules(image, node, f) && Plain(InsnMap(node.code))
      && AccountOk(image, node, f.succ, acc)
    ensures Accepted(image, node, Findings(f.seen, f.succ, StatesOf(acc, f.seen)))
  {
    var g := Findings(f.seen, f.succ, StatesOf(acc, f.seen));
    forall a | a in g.IN
      ensures a in InsnMap(node.code) && Justified(image, node, InsnMap(node.code), ItSet(node.code), g.succ, g.IN, a)
    {
      AccountJustifies(image, node, f, acc, a);
    }
    EntryIn(image, node, f, acc);
    SameRules(image, node, f, g);
    hide Justified, AccountOk, Plain, FlowRules;
    JustifiedAccepted(image, node, g);
  }

  lemma EntryIn(image: Image, node: Node, f: Findings, acc: Account)
    requires FlowKnown(node, f) && AccountOk(image, node, f.succ, acc)
    ensures node.addr in StatesOf(acc, f.seen) && Leq(StatesOf(acc, f.seen)[node.addr], Entry())
    ensures f.seen <= InsnMap(node.code).Keys
  {
    hide InsnMap, ItSet, Leq, Reach, Next, Holds;
    EntryBelow(acc[node.addr]);
  }

  lemma SameRules(image: Image, node: Node, f: Findings, g: Findings)
    requires FlowRules(image, node, f) && g.seen == f.seen && g.succ == f.succ
    ensures FlowRules(image, node, g)
  {
    hide InsnMap, ItSet, Reach, Next, OnCycle, FlowErrs, ExtentOk, ItBlocksOk;
  }

  lemma EntryBelow(s: Stand)
    requires s.sp == 0 && s.words == {}
    ensures Leq(AbsOf(s), Entry())
  {
  }

  lemma AcceptedParts(image: Image, node: Node, f: Findings)
    requires Accepted(image, node, f)
    ensures forall a :: a in f.IN ==> f.IN[a].Ok() && f.IN[a].sp.Some? && Reach(f.succ, node.addr, a) && a in InsnMap(node.code)
    ensures forall a :: a in f.IN ==> Justified(image, node, InsnMap(node.code), ItSet(node.code), f.succ, f.IN, a)
    ensures node.addr in f.IN && Leq(f.IN[node.addr], Entry())
      && Fixpoint(InsnMap(node.code), ItSet(node.code), f.succ, f.IN)
  {
    hide InsnMap, ItSet, ItBlocksOk, ExtentOk, FlowErrs, OnCycle, Reach, Next, NodeHolds, NoClash, StoresOk, ReturnOk,
      HandOverOk, CallsOf, Leq, Closed;
  }

  /** Findings are as good as an account. */
  lemma AcceptedAccount(image: Image, node: Node, f: Findings) returns (acc: Account)
    requires WellLaid(node.code) && ExtentOk(image, node) && Plain(InsnMap(node.code))
    requires Accepted(image, node, f)
    ensures AccountOk(image, node, f.succ, acc)
  {
    hide InsnMap, ItSet, Direct, PlainLoads, InsnOk, StoresBelow, LeavesWell, Follows, Within, Leq, Accepted, Justified,
      ExtentOk, NodeHolds, IsWalk, Holds;
    AcceptedParts(image, node, f);
    var insns, inIt, IN := InsnMap(node.code), ItSet(node.code), f.IN;
    var regs :| Direct(insns, regs) && forall a :: a in insns ==> PlainLoads(insns[a], regs);
    acc := map a | a in IN :: StandOf(IN[a]);
    forall a | a in IN
      ensures a in insns && Holds(image, node, insns, inIt, f.succ, acc, a)
    {
      InsnsOk(image, node, a);
      var p :| WalkBetween(f.succ, node.addr, a, p);
      WalkWithin(insns, inIt, f.succ, IN, p, regs);
      JustifiedHolds(image, node, insns, inIt, f.succ, IN, acc, a, regs);
    }
    EntryAccount(IN[node.addr]);
    forall a | a in acc.Keys
      ensures a in insns.Keys
    {
      assert a in IN;
    }
  }

  lemma EntryAccount(st: Abs)
    requires st.Ok() && st.sp.Some? && Leq(st, Entry())
    ensures StandOf(st).sp == 0 && StandOf(st).words == {}
  {
  }

  /** The verdict on a plain body: nothing is refused if and only if its extent, its IT
      blocks, its flow and its loops are in order and it has an account. */
  lemma PassesIff(image: Image, node: Node, info: Info, f: Findings)
    requires WellLaid(node.code) && BodyVerdict(image, node, info, f) && Plain(InsnMap(node.code))
    ensures info.frameErrs == [] && info.flowErrs == [] <==>
      FlowRules(image, node, f) && exists acc :: AccountOk(image, node, f.succ, acc)
  {
    hide FlowKnown, FlowOk, LoopsOk, ExtentOk, ItBlocksOk, AccountOk, InsnMap, StatesKnown, ReturnsOk, EdgesExact, FrameOf;
    if info.frameErrs == [] && info.flowErrs == [] {
      var acc := AcceptedAccount(image, node, f);
    }
    if FlowRules(image, node, f) && exists acc :: AccountOk(image, node, f.succ, acc) {
      var acc :| AccountOk(image, node, f.succ, acc);
      AccountAccepts(image, node, f, acc);
      PlainDirect(InsnMap(node.code));
    }
  }

  lemma PlainDirect(insns: map<int, Insn>)
    requires Plain(insns)
    ensures exists regs :: Direct(insns, regs)
  {
    hide Direct, PlainLoads;
  }
}
