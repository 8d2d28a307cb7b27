/** Calls, tail calls, veneers, returns and interrupts keep the invariant of a run. */
module RunTransfers {
  import opened Graph
  import opened Thumb
  import opened Machine
  import opened ReturnAnalysis
  import opened BodyRules
  import opened ItBlocks
  import opened StepSoundness
  import opened Runs
  import opened RunInvariant
  import opened RunSteps

  // ---- tail calls and veneers -----------------------------------------------------

  /** The running body hands sp and lr on as it got them. */
  lemma HandsOver(c: Ctx, cpu: Cpu, it: nat, acts: seq<Act>, after: Cpu, t: int)
    requires ActsOk(c, acts) && TopOk(c, cpu, it, acts[|acts| - 1]) && Saved(c, acts, cpu.mem)
    requires TopAbs(c, acts[|acts| - 1]).ra && TopAbs(c, acts[|acts| - 1]).sp == Some(0)
    requires after.Ok() && after.sp == cpu.sp && after.regs[LR] == cpu.regs[LR] && after.mem == cpu.mem
    requires t in c.bodies && t in c.depth && acts[|acts| - 1].body in c.depth && c.depth[t] <= c.depth[acts[|acts| - 1].body]
    requires ProgramOk(c)
    ensures RunOk(c, Running(after, 0, acts[|acts| - 1 := Act(t, t, after.sp, after.regs[LR], acts[|acts| - 1].kept)]))
  {
    hide ProgramOk, Waits, Saved, OuterKept, ItPlace, Placed, Shown, TopAbs, SlotsOk;
    var n := |acts| - 1;
    var act := acts[n];
    assert act.base == after.sp && act.link == after.regs[LR] by { hide SlotsHold, RegsHold; }
    var top := Enters(c, t, after, act.kept);
    OuterSame(c, acts, cpu.mem);
    SavedAfter(c, acts, top, cpu.mem, after.mem);
    ActsAfter(c, acts, top);
  }

  // ---- calls --------------------------------------------------------------------------

  lemma CallKeeps(ins: Insn, cpu: Cpu, mems: seq<Mem>, after: Cpu)
    requires WellFormed(ins) && ins.flow == Bl && Exec(ins, cpu, mems, after)
    ensures after.sp == cpu.sp && after.mem == cpu.mem
    ensures forall r: Reg :: r != SP && r != PC && r != LR ==> after.regs[r] == cpu.regs[r]
  {
    forall r: Reg | r != SP && r != PC && r != LR
      ensures after.regs[r] == cpu.regs[r]
    {
      assert RegEffect(ins, cpu, r, after.regs[r]);
    }
  }

  /** The registers at a call, as far as the callee keeps them. */
  lemma CallKept(st: Abs, base: int, link: int, cpu: Cpu, kept: seq<int>)
    requires Sim(st, base, link, cpu) && |kept| == 16
    requires forall r: Reg :: r != SP && r != PC && r != LR ==> kept[r] == cpu.regs[r]
    ensures KeptHold(st, base, kept)
  {
    hide SlotsHold, U32;
  }

  lemma CallTarget(c: Ctx, b: int, a: int, ins: Insn)
    requires Reached(c, b, a, ins) && ins.flow == Bl
    ensures ins.target.Some? && ins.target.value in c.bodies && ins.target.value in c.depth && b in c.depth
    ensures FrameOf(c.image.nodes[b].code) + c.depth[ins.target.value] <= c.depth[b]
    ensures c.findings[b].IN[a].sp.value + FrameOf(c.image.nodes[b].code) >= 0
  {
    FlowFacts(c, b, a, ins);
    hide WellFormed, CodeOk, ItBlocksOk, NodeHolds, ReturnOk, StoresOk, ItSet, FlowErrs, CallsOf, FrameOf;
    assert Edge(ins.target.value, CallEdge, a) in CallsOf(c.image, c.image.nodes[b], ins);
  }

  lemma CallFall(c: Ctx, b: int, a: int, ins: Insn, it: nat)
    requires Reached(c, b, a, ins) && ins.flow == Bl && ItPlace(c.image.nodes[b].code, a, it)
    ensures ins.Fall() !in ItSet(c.image.nodes[b].code)
    ensures Graph.Edge(c.findings[b].succ, a, ins.Fall())
  {
    FlowFacts(c, b, a, ins);
    PlaceFacts(c, b, a, ins, it);
    hide ItSet, Reached, FallOk;
  }

  lemma CallWaits(c: Ctx, cpu: Cpu, it: nat, acts: seq<Act>, ins: Insn, mems: seq<Mem>, after: Cpu, callee: Act)
    requires TopRuns(c, cpu, it, acts, ins) && Exec(ins, cpu, mems, after) && ins.flow == Bl && ins.target.Some?
    requires callee == Act(ins.target.value, ins.target.value, after.sp, ins.Fall(), after.regs)
    ensures Waits(c, acts[|acts| - 1], callee) && callee.body in c.bodies
  {
    var act := acts[|acts| - 1];
    TopReached(c, cpu, it, acts, ins);
    TopFacts(c, act, ins);
    CallTarget(c, act.body, act.pc, ins);
    CallFall(c, act.body, act.pc, ins, it);
    ReachedFacts(c, act.body, act.pc, ins);
    CallKeeps(ins, cpu, mems, after);
    CallKept(TopAbs(c, act), act.base, act.link, cpu, after.regs);
    assert !IsVeneer(c, act.body);
    hide Saved, WellFormed, Reached, StoresOk, ItSet, Exec, ItPlace, KeptHold, Waits, FrameOf, SlotsHold, RegsHold;
    WaitsFrom(c, cpu, act, callee, ins);
  }

  lemma WaitsFrom(c: Ctx, cpu: Cpu, act: Act, callee: Act, ins: Insn)
    requires Placed(c, act) && !IsVeneer(c, act.body) && act.pc in Insns(c, act.body)
    requires ins == Insns(c, act.body)[act.pc] && ins.flow == Bl && act.body in c.image.nodes
    requires ins.Fall() !in ItSet(c.image.nodes[act.body].code)
    requires Graph.Edge(c.findings[act.body].succ, act.pc, ins.Fall())
    requires callee.link == ins.Fall() && SlotsOk(TopAbs(c, act))
    requires callee.base == cpu.sp == act.base + TopAbs(c, act).sp.value
    requires act.body in c.depth && callee.body in c.depth
    requires FrameOf(c.image.nodes[act.body].code) + c.depth[callee.body] <= c.depth[act.body]
    requires TopAbs(c, act).sp.value + FrameOf(c.image.nodes[act.body].code) >= 0
    requires KeptHold(TopAbs(c, act), act.base, callee.kept)
    ensures Waits(c, act, callee)
  {
    hide KeptHold, FrameOf, SlotsOk, ItSet;
  }

  lemma Calls(c: Ctx, cpu: Cpu, it: nat, acts: seq<Act>, ins: Insn, mems: seq<Mem>, after: Cpu, callee: Act)
    requires TopRuns(c, cpu, it, acts, ins) && Exec(ins, cpu, mems, after) && ins.flow == Bl && ins.target.Some?
    requires after.regs[LR] == ins.Fall()
    requires callee == Act(ins.target.value, ins.target.value, after.sp, ins.Fall(), after.regs)
    requires ProgramOk(c)
    ensures RunOk(c, Running(after, 0, acts + [callee]))
  {
    TopNonempty(c, cpu, it, acts, ins);
    TopReached(c, cpu, it, acts, ins);
    hide ProgramOk, Waits, Saved, ItPlace, Placed, Shown, TopAbs, SlotsOk, Reached, Sim, Exec;
    CallWaits(c, cpu, it, acts, ins, mems, after, callee);
    var top := Enters(c, ins.target.value, after, after.regs);
    assert callee == top;
    CallActs(c, acts, callee);
    ReachedFacts(c, acts[|acts| - 1].body, acts[|acts| - 1].pc, ins);
    CallKeeps(ins, cpu, mems, after);
    SimSlots(TopAbs(c, callee), callee.base, callee.link, after);
    CallSaved(c, acts, callee, cpu.mem);
  }

  lemma SimSlots(st: Abs, base: int, link: int, cpu: Cpu)
    requires Sim(st, base, link, cpu)
    ensures SlotsHold(st.slots, base, link, cpu.mem)
  {
  }

  lemma CallActs(c: Ctx, acts: seq<Act>, callee: Act)
    requires ActsOk(c, acts) && Waits(c, acts[|acts| - 1], callee) && Placed(c, callee)
    ensures ActsOk(c, acts + [callee])
  {
    hide Waits, Placed;
    var acts' := acts + [callee];
    forall i | 0 <= i < |acts'| - 1
      ensures Waits(c, acts'[i], acts'[i + 1])
    {
      if i < |acts| - 1 {
        assert Waits(c, acts[i], acts[i + 1]);
      }
    }
  }

  lemma CallAlive(c: Ctx, acts: seq<Act>, callee: Act, i: int)
    requires acts != [] && 0 <= i < |acts| && AliveAbove(c, acts + [callee], i)
    requires Dead(TopAbs(c, acts[|acts| - 1])) ==> Dead(CallAbs(c, acts[|acts| - 1]))
    ensures AliveAbove(c, acts, i)
  {
    hide Dead, TopAbs, CallAbs;
    var acts' := acts + [callee];
    forall j | i < j < |acts|
      ensures !Dead(Shown(c, acts, j))
    {
      assert !Dead(Shown(c, acts', j));
    }
  }

  lemma CallSaved(c: Ctx, acts: seq<Act>, callee: Act, mem: Mem)
    requires acts != [] && Saved(c, acts, mem) && Waits(c, acts[|acts| - 1], callee)
    requires SlotsHold(TopAbs(c, callee).slots, callee.base, callee.link, mem)
    requires ProgramOk(c)
    ensures Saved(c, acts + [callee], mem)
  {
    hide Waits, TopAbs, CallAbs, ProgramOk, AliveAbove, SlotsOk;
    var n := |acts| - 1;
    var acts' := acts + [callee];
    CallAbsFacts(c, acts[n], callee);
    forall i | 0 <= i < |acts'| && AliveAbove(c, acts', i)
      ensures SlotsHold(Shown(c, acts', i).slots, acts'[i].base, acts'[i].link, mem)
    {
      if i <= n {
        CallAlive(c, acts, callee, i);
        assert SlotsHold(Shown(c, acts, i).slots, acts[i].base, acts[i].link, mem);
      }
    }
  }

  // ---- returns ---------------------------------------------------------------------------

  lemma PcLoadIn(ld: seq<Load>)
    requires PcLoad(ld).Some?
    ensures PcLoad(ld).value in ld && PcLoad(ld).value.dest == PC
  {
  }

  lemma OnlyPcLoad(ins: Insn)
    requires WellFormed(ins) && ins.flow == RetPop && PcLoad(ins.ld).Some?
    ensures PcLoad(ins.ld).value.n == 4
  {
    PcLoadIn(ins.ld);
    var l :| l in ins.ld && l.dest == PC && l.n == 4;
    var i :| 0 <= i < |ins.ld| && ins.ld[i] == l;
    var j :| 0 <= j < |ins.ld| && ins.ld[j] == PcLoad(ins.ld).value;
    assert i == j;
  }

  /** The word popped into pc comes from a live saved word. */
  lemma PopWord(st: Abs, base: int, link: int, cpu: Cpu, l: Load, to: int)
    requires Sim(st, base, link, cpu) && Addr(st, l.base, l.off).Some? && Addr(st, l.base, l.off).value in st.slots
    requires l.n == 4 && LoadEffect(cpu, l, to)
    ensures to == link
  {
    hide WordAt, Addr, U32;
    AddrSound(st, base, cpu, l.base, l.off);
    WordSame(cpu.mem, cpu.Reg(l.base) + l.off.value, base + Addr(st, l.base, l.off).value);
  }

  lemma PopExact(st: Abs, base: int, link: int, ins: Insn, cpu: Cpu, to: int)
    requires Sim(st, base, link, cpu) && WellFormed(ins) && ReturnOk(st, ins) && ins.flow == RetPop
    requires forall l :: l in ins.ld && l.dest == PC ==> LoadEffect(cpu, l, to)
    ensures to == link && st.slots != {} && st.sp.Some? && cpu.sp + ins.sp == base
  {
    hide WellFormed, PcLoad, RegsHold, SlotsHold, Addr, LoadEffect;
    PcLoadIn(ins.ld);
    OnlyPcLoad(ins);
    PopWord(st, base, link, cpu, PcLoad(ins.ld).value, to);
  }

  /** An accepted return leaves with sp where the body was called and goes to the
      return address, whether that is in lr or popped from the stack. */
  lemma ReturnExact(st: Abs, base: int, link: int, ins: Insn, cpu: Cpu, mems: seq<Mem>, after: Cpu, to: int)
    requires Sim(st, base, link, cpu) && WellFormed(ins) && Exec(ins, cpu, mems, after) && ReturnOk(st, ins)
    requires ins.flow == RetLr || ins.flow == RetPop
    requires ins.flow == RetLr ==> to == after.regs[LR]
    requires forall l :: l in ins.ld && l.dest == PC && ins.flow == RetPop ==> LoadEffect(cpu, l, to)
    ensures after.sp == base && to == link && after.mem == cpu.mem && !Dead(st)
  {
    hide SlotsHold, RegsHold, WordAt, StoreEffect;
    if ins.flow == RetLr {
      assert RegEffect(ins, cpu, LR, after.regs[LR]);
    } else {
      PopExact(st, base, link, ins, cpu, to);
    }
  }

  lemma CallRegs(st: Abs, ins: Insn, base: int, kept: seq<int>, after: Cpu)
    requires st.Ok() && after.Ok() && WellFormed(ins) && ins.flow == Bl && KeptHold(st, base, kept)
    requires forall r :: 4 <= r <= 11 ==> after.regs[r] == kept[r]
    ensures RegsHold(Transfer(st, ins), base, after)
  {
    hide AfterStores, LrFrom, U32;
    forall r: Reg | r != SP && r != PC && Transfer(st, ins).regs[r].Some?
      ensures U32(after.regs[r]) == U32(base + Transfer(st, ins).regs[r].value)
    {
      assert Transfer(st, ins).regs[r] == RegAfter(st, ins, r);
      assert 4 <= r <= 11;
    }
  }

  /** The caller finds what the analysis says of the call. */
  lemma CallReturned(c: Ctx, act: Act, next: Act, after: Cpu)
    requires Waits(c, act, next) && after.Ok() && after.sp == next.base
    requires forall r :: 4 <= r <= 11 ==> after.regs[r] == next.kept[r]
    requires SlotsHold(CallAbs(c, act).slots, act.base, act.link, after.mem)
    requires ProgramOk(c)
    ensures Sim(CallAbs(c, act), act.base, act.link, after)
  {
    hide ProgramOk, SlotsHold, KeptHold, ItSet;
    CallAbsFacts(c, act, next);
    var ins := ReachedInsn(c, act.body, act.pc);
    ReachedFacts(c, act.body, act.pc, ins);
    hide Reached, Transfer, WellFormed, RegsHold;
    CallRegs(TopAbs(c, act), ins, act.base, next.kept, after);
  }

  lemma Resumes(c: Ctx, act: Act, next: Act, after: Cpu) returns (ins: Insn)
    requires Waits(c, act, next) && Sim(CallAbs(c, act), act.base, act.link, after)
    requires ProgramOk(c)
    ensures Placed(c, act.(pc := next.link)) && TopOk(c, after, 0, act.(pc := next.link))
    ensures Dead(CallAbs(c, act)) ==> Dead(TopAbs(c, act.(pc := next.link)))
  {
    hide ProgramOk, SlotsHold, Sim, KeptHold, ItSet;
    CallAbsFacts(c, act, next);
    ins := ReachedInsn(c, act.body, act.pc);
    ReachedFacts(c, act.body, act.pc, ins);
    BodyNode(c, act.body, act.pc, ins);
    hide Reached, Transfer, EdgeState, Leaves;
    var st, fall := TopAbs(c, act), ins.Fall();
    var cond := act.pc in ItSet(c.image.nodes[act.body].code);
    CallTakes(ins, cond, fall);
    ExecutedEdge(st, act.base, act.link, ins, cond, after, fall);
    TransferSlots(st, ins, act.base, act.link, after);
    SlotsSubset(EdgeState(ins, cond, st, fall).slots, Transfer(st, ins).slots, after.sp, act.base);
    Arrives(c, after, act, ins, fall, EdgeState(ins, cond, st, fall));
  }

  lemma BodyNode(c: Ctx, b: int, a: int, ins: Insn)
    requires Reached(c, b, a, ins)
    ensures b in c.image.nodes && (SP in ins.wr ==> ins.spKnown)
  {
  }

  lemma CallTakes(ins: Insn, cond: bool, b: int)
    requires ins.flow == Bl
    ensures TakesEdge(ins, cond, b)
  {
  }

  lemma ReturnAlive(c: Ctx, acts: seq<Act>, top: Act, i: int)
    requires |acts| > 1 && 0 <= i < |acts| - 1
    requires !Dead(TopAbs(c, acts[|acts| - 1]))
    requires Dead(CallAbs(c, acts[|acts| - 2])) ==> Dead(TopAbs(c, top))
    requires AliveAbove(c, acts[..|acts| - 1][|acts| - 2 := top], i)
    ensures AliveAbove(c, acts, i)
  {
    hide Dead, TopAbs, CallAbs;
    var acts' := acts[..|acts| - 1][|acts| - 2 := top];
    forall j | i < j < |acts|
      ensures !Dead(Shown(c, acts, j))
    {
      if j < |acts| - 1 {
        assert !Dead(Shown(c, acts', j));
      }
    }
  }

  lemma ReturnSaved(c: Ctx, acts: seq<Act>, top: Act, mem: Mem)
    requires |acts| > 1 && Saved(c, acts, mem)
    requires !Dead(TopAbs(c, acts[|acts| - 1]))
    requires Dead(CallAbs(c, acts[|acts| - 2])) ==> Dead(TopAbs(c, top))
    requires SlotsHold(TopAbs(c, top).slots, top.base, top.link, mem)
    ensures Saved(c, acts[..|acts| - 1][|acts| - 2 := top], mem)
  {
    hide Dead, TopAbs, CallAbs, AliveAbove, SlotsHold;
    var n := |acts| - 1;
    var acts' := acts[..n][n - 1 := top];
    forall i | 0 <= i < |acts'| && AliveAbove(c, acts', i)
      ensures SlotsHold(Shown(c, acts', i).slots, acts'[i].base, acts'[i].link, mem)
    {
      if i < n - 1 {
        ReturnAlive(c, acts, top, i);
        assert SlotsHold(Shown(c, acts, i).slots, acts[i].base, acts[i].link, mem);
      }
    }
  }

  lemma ReturnActs(c: Ctx, acts: seq<Act>, top: Act)
    requires |acts| > 1 && ActsOk(c, acts) && Placed(c, top) && top == acts[|acts| - 2].(pc := top.pc)
    ensures ActsOk(c, acts[..|acts| - 1][|acts| - 2 := top])
  {
    var n := |acts| - 1;
    var acts' := acts[..n][n - 1 := top];
    forall i | 0 <= i < n - 1
      ensures Waits(c, acts'[i], acts'[i + 1])
    {
      assert Waits(c, acts[i], acts[i + 1]);
    }
  }

  lemma CallerSaved(c: Ctx, acts: seq<Act>, mem: Mem)
    requires |acts| > 1 && Saved(c, acts, mem) && !Dead(TopAbs(c, acts[|acts| - 1]))
    ensures SlotsHold(CallAbs(c, acts[|acts| - 2]).slots, acts[|acts| - 2].base, acts[|acts| - 2].link, mem)
  {
    hide Dead, TopAbs, CallAbs, SlotsHold;
    var n := |acts| - 1;
    assert AliveAbove(c, acts, n - 1);
    assert Shown(c, acts, n - 1) == CallAbs(c, acts[n - 1]);
  }

  lemma ReturnsToCaller(c: Ctx, acts: seq<Act>, after: Cpu)
    requires |acts| > 1 && after.Ok() && after.sp == acts[|acts| - 1].base
    requires !Dead(TopAbs(c, acts[|acts| - 1])) && Saved(c, acts, after.mem)
    requires |acts[|acts| - 1].kept| == 16 && forall r :: 4 <= r <= 11 ==> after.regs[r] == acts[|acts| - 1].kept[r]
    requires ActsOk(c, acts)
    requires ProgramOk(c)
    ensures RunOk(c, Running(after, 0, acts[..|acts| - 1][|acts| - 2 := acts[|acts| - 2].(pc := acts[|acts| - 1].link)]))
  {
    hide ProgramOk, Waits, Dead, ActsOk, TopAbs, Placed, Saved, SlotsHold, CallAbs, Sim, TopOk;
    var n := |acts| - 1;
    ActsWait(c, acts, n - 1);
    CallerSaved(c, acts, after.mem);
    CallReturned(c, acts[n - 1], acts[n], after);
    var ins := Resumes(c, acts[n - 1], acts[n], after);
    var top := acts[n - 1].(pc := acts[n].link);
    TopSlots(c, after, 0, top);
    ReturnActs(c, acts, top);
    ReturnSaved(c, acts, top, after.mem);
  }

  lemma TopSlots(c: Ctx, cpu: Cpu, it: nat, act: Act)
    requires TopOk(c, cpu, it, act)
    ensures SlotsHold(TopAbs(c, act).slots, act.base, act.link, cpu.mem)
  {
    hide TopAbs, ItPlace, SlotsHold;
  }

  lemma Returns(c: Ctx, cpu: Cpu, acts: seq<Act>, after: Cpu, to: int, s': State)
    requires ActsOk(c, acts) && Saved(c, acts, cpu.mem) && after.Ok()
    requires after.sp == acts[|acts| - 1].base && to == acts[|acts| - 1].link && after.mem == cpu.mem
    requires !Dead(TopAbs(c, acts[|acts| - 1]))
    requires Return(after, 0, acts, to, s')
    requires ProgramOk(c)
    ensures RunOk(c, s')
  {
    hide ProgramOk, Saved, Dead, TopAbs, Waits, Placed, TopOk;
    if |acts| > 1 {
      ReturnsToCaller(c, acts, after);
    }
  }

  // ---- the running body -----------------------------------------------------------------------

  /** sp of the running body is within its frame below its entry. */
  lemma TopSp(c: Ctx, cpu: Cpu, it: nat, act: Act)
    requires Placed(c, act) && TopOk(c, cpu, it, act)
    requires ProgramOk(c)
    ensures act.body in c.depth && cpu.sp + c.depth[act.body] >= act.base
  {
    hide SlotsHold, RegsHold, ItPlace, Accepted;
    assert BodyOk(c, act.body);
    if !IsVeneer(c, act.body) {
      var ins := ReachedInsn(c, act.body, act.pc);
      ReachedSp(c, act.body, act.pc, ins);
    }
  }

  lemma ReachedSp(c: Ctx, b: int, a: int, ins: Insn)
    requires Reached(c, b, a, ins)
    ensures b in c.findings && a in c.findings[b].IN && b in c.depth && c.findings[b].IN[a].sp.Some?
    ensures c.findings[b].IN[a].sp.value + c.depth[b] >= 0
  {
    hide WellFormed, CodeOk, ItBlocksOk, NodeHolds, ReturnOk, StoresOk, FlowErrs, CallsOf;
  }
}
