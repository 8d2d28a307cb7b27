/** Each kind of step of a run keeps the invariant. */
module RunSteps {
  import opened Graph
  import opened Thumb
  import opened Machine
  import opened ReturnAnalysis
  import opened BodyRules
  import opened ItBlocks
  import opened StepSoundness
  import opened Runs
  import opened RunInvariant

  /** The saved words of the activations below the running one are unchanged. */
  ghost predicate OuterKept(c: Ctx, acts: seq<Act>, m: Mem, m': Mem) {
    forall i, x :: 0 <= i < |acts| - 1 && AliveAbove(c, acts, i) && x in Shown(c, acts, i).slots ==>
      WordAt(m', acts[i].base + x) == WordAt(m, acts[i].base + x)
  }

  ghost predicate TopRuns(c: Ctx, cpu: Cpu, it: nat, acts: seq<Act>, ins: Insn) {
    && ActsOk(c, acts) && TopOk(c, cpu, it, acts[|acts| - 1]) && Saved(c, acts, cpu.mem)
    && Reached(c, acts[|acts| - 1].body, acts[|acts| - 1].pc, ins)
  }

  /** Saved words at or above sp. */
  ghost predicate SlotsFrom(slots: set<int>, sp: int, base: int) {
    forall x :: x in slots ==> sp <= base + x
  }

  lemma TopFacts(c: Ctx, act: Act, ins: Insn)
    requires Reached(c, act.body, act.pc, ins)
    ensures TopAbs(c, act).Ok() && TopAbs(c, act) == c.findings[act.body].IN[act.pc]
    ensures WellFormed(ins) && StoresOk(TopAbs(c, act), ins)
  {
    hide WellFormed, CodeOk, ItBlocksOk, NodeHolds, ReturnOk, StoresOk;
  }

  /** The stores of an executed instruction leave the outer activations alone. */
  lemma StoresKeepOuter(c: Ctx, cpu: Cpu, it: nat, acts: seq<Act>, ins: Insn, mems: seq<Mem>, after: Cpu)
    requires TopRuns(c, cpu, it, acts, ins) && Exec(ins, cpu, mems, after)
    requires TopAbs(c, acts[|acts| - 1]).Ok() && UnknownStoresSpare(TopAbs(c, acts[|acts| - 1]), ins, mems, Live(c, acts))
    requires ProgramOk(c)
    ensures OuterKept(c, acts, cpu.mem, after.mem)
  {
    hide ProgramOk, Saved, AliveAbove, Live, Reached, Sim, SlotsOk, WellFormed, StoresOk, UnknownStoresSpare, StoresEffect, WordAt, RegEffect, Shown, TopAbs, Waits, ItPlace;
    var n := |acts| - 1;
    var act := acts[n];
    TopFacts(c, act, ins);
    forall i, x | 0 <= i < n && AliveAbove(c, acts, i) && x in Shown(c, acts, i).slots
      ensures WordAt(after.mem, acts[i].base + x) == WordAt(cpu.mem, acts[i].base + x)
    {
      OuterPlace(c, acts, i, x);
      LiveHas(c, acts, i, x);
      OuterWordKept(TopAbs(c, act), act.base, act.link, cpu, ins, mems, Live(c, acts), acts[i].base + x);
    }
  }

  /** What the analysis says after the executed instruction is true. */
  lemma ExecutedTop(c: Ctx, cpu: Cpu, it: nat, acts: seq<Act>, ins: Insn, mems: seq<Mem>, after: Cpu)
    requires TopRuns(c, cpu, it, acts, ins) && Exec(ins, cpu, mems, after) && !IsCall(ins)
    requires TopAbs(c, acts[|acts| - 1]).Ok() && UnknownStoresSpare(TopAbs(c, acts[|acts| - 1]), ins, mems, Live(c, acts))
    ensures Sim(Transfer(TopAbs(c, acts[|acts| - 1]), ins), acts[|acts| - 1].base, acts[|acts| - 1].link, after)
    ensures SlotsBelow(Transfer(TopAbs(c, acts[|acts| - 1]), ins).slots)
  {
    hide Saved, Live, Reached, Sim, WellFormed, StoresOk, UnknownStoresSpare, Exec, Transfer, TopAbs, Waits, ItPlace;
    var n := |acts| - 1;
    var act := acts[n];
    TopFacts(c, act, ins);
    forall x | x in TopAbs(c, act).slots
      ensures act.base + x in Live(c, acts)
    {
      LiveHas(c, acts, n, x);
    }
    TransferSound(TopAbs(c, act), act.base, act.link, ins, cpu, mems, after, Live(c, acts));
  }

  /** The outer activations stay saved when the running one moves on, replaced or not,
      with the same base and return address. */
  lemma SavedAfter(c: Ctx, acts: seq<Act>, top: Act, m: Mem, m': Mem)
    requires acts != [] && Saved(c, acts, m) && OuterKept(c, acts, m, m')
    requires Dead(TopAbs(c, acts[|acts| - 1])) ==> Dead(TopAbs(c, top))
    requires SlotsHold(TopAbs(c, top).slots, top.base, top.link, m')
    ensures Saved(c, acts[|acts| - 1 := top], m')
  {
    var n := |acts| - 1;
    var acts' := acts[n := top];
    forall i | 0 <= i < |acts'| && AliveAbove(c, acts', i)
      ensures SlotsHold(Shown(c, acts', i).slots, acts'[i].base, acts'[i].link, m')
    {
      if i < n {
        assert AliveAbove(c, acts, i) by { AliveSame(c, acts, top, i); }
        assert Shown(c, acts', i) == Shown(c, acts, i);
        assert SlotsHold(Shown(c, acts, i).slots, acts[i].base, acts[i].link, m);
      }
    }
  }

  lemma AliveSame(c: Ctx, acts: seq<Act>, top: Act, i: int)
    requires acts != [] && 0 <= i < |acts| - 1
    requires Dead(TopAbs(c, acts[|acts| - 1])) ==> Dead(TopAbs(c, top))
    requires AliveAbove(c, acts[|acts| - 1 := top], i)
    ensures AliveAbove(c, acts, i)
  {
    var acts' := acts[|acts| - 1 := top];
    forall j | i < j < |acts|
      ensures !Dead(Shown(c, acts, j))
    {
      assert !Dead(Shown(c, acts', j));
    }
  }

  lemma ActsAfter(c: Ctx, acts: seq<Act>, top: Act)
    requires ActsOk(c, acts) && Placed(c, top)
    requires top.base == acts[|acts| - 1].base && top.link == acts[|acts| - 1].link && top.kept == acts[|acts| - 1].kept
    requires top.body in c.depth && acts[|acts| - 1].body in c.depth && c.depth[top.body] <= c.depth[acts[|acts| - 1].body]
    ensures ActsOk(c, acts[|acts| - 1 := top])
  {
    var n := |acts| - 1;
    var acts' := acts[n := top];
    forall i | 0 <= i < n
      ensures Waits(c, acts'[i], acts'[i + 1])
    {
      assert Waits(c, acts[i], acts[i + 1]);
    }
  }

  /** What is found at b claims no more than the edge to it brings. */
  lemma EdgeArrives(c: Ctx, body: int, a: int, ins: Insn, b: int)
    requires Reached(c, body, a, ins) && b in Out(c.findings[body].succ, a)
    ensures a in c.findings[body].IN && b in c.findings[body].IN && c.findings[body].IN[a].Ok() && c.findings[body].IN[b].Ok()
    ensures Leq(c.findings[body].IN[b], EdgeState(ins, a in ItSet(c.image.nodes[body].code), c.findings[body].IN[a], b))
    ensures !IsVeneer(c, body)
  {
    hide EdgeState, Leq, IsVeneer, Insns, WellFormed, CodeOk, ItBlocksOk, ReturnOk, StoresOk, ItSet, Overlapped, HandOverOk, TailCalls, FrameOf, FlowErrs, Next, CallsOf;
    assert EdgeHolds(Insns(c, body), ItSet(c.image.nodes[body].code), c.findings[body].IN, a, b);
  }

  lemma LowerFrom(st: Abs, es: Abs, sp: int, base: int, link: int, cpu: Cpu)
    requires st.Ok() && es.Ok() && Leq(st, es) && st.sp.Some? && cpu.sp == sp && Sim(st, base, link, cpu)
    requires SlotsBelow(es.slots) && SlotsFrom(es.slots, sp, base)
    ensures SlotsOk(st) && (Dead(es) ==> Dead(st))
  {
    hide SlotsHold, RegsHold;
  }

  /** The state on an edge to b, and so the state at b. */
  lemma Arrives(c: Ctx, cpu: Cpu, act: Act, ins: Insn, b: int, es: Abs)
    requires Reached(c, act.body, act.pc, ins) && ProgramOk(c) && act.body in c.bodies
    requires b in Out(c.findings[act.body].succ, act.pc)
    requires es == EdgeState(ins, act.pc in ItSet(c.image.nodes[act.body].code), c.findings[act.body].IN[act.pc], b)
    requires Sim(es, act.base, act.link, cpu) && SlotsBelow(es.slots)
    requires SlotsFrom(es.slots, cpu.sp, act.base)
    ensures Placed(c, act.(pc := b))
    ensures Sim(TopAbs(c, act.(pc := b)), act.base, act.link, cpu) && SlotsOk(TopAbs(c, act.(pc := b)))
    ensures Dead(es) ==> Dead(TopAbs(c, act.(pc := b)))
  {
    EdgeArrives(c, act.body, act.pc, ins, b);
    FoundThere(c, act.body, act.pc, b, ins);
    hide Reached, ProgramOk, EdgeState, Sim, SlotsBelow, SlotsFrom, SlotsOk, Dead, Leq, IsVeneer, Out, ItSet;
    var st := c.findings[act.body].IN[b];
    SimWeaker(st, es, act.base, act.link, cpu);
    LowerFrom(st, es, cpu.sp, act.base, act.link, cpu);
  }

  lemma FoundThere(c: Ctx, body: int, a: int, b: int, ins: Insn)
    requires Reached(c, body, a, ins) && ProgramOk(c) && body in c.bodies && b in c.findings[body].IN
    ensures c.findings[body].IN[b].Ok() && c.findings[body].IN[b].sp.Some?
  {
    assert body in c.findings && !IsVeneer(c, body);
    hide Reached, ProgramOk, IsVeneer;
    var ins' := ReachedInsn(c, body, b);
    ReachedFacts(c, body, b, ins');
  }

  // ---- where an accepted instruction can go ----------------------------------------

  lemma FlowFacts(c: Ctx, b: int, a: int, ins: Insn)
    requires Reached(c, b, a, ins)
    ensures ins.flow !in {Trap, Secure, IndCall, IndJump, LitPc, Undef}
    ensures Branches(ins.flow) ==> ins.target.Some?
    ensures Branches(ins.flow) && Inside(c.image.nodes[b], ins.target.value) ==>
      ins.target.value in Out(c.findings[b].succ, a) && ins.target.value !in ItSet(c.image.nodes[b].code)
    ensures Branches(ins.flow) && !Inside(c.image.nodes[b], ins.target.value) ==>
      Edge(ins.target.value, TailEdge, a) in CallsOf(c.image, c.image.nodes[b], ins) && ins.target.value in c.image.nodes
    ensures ins.flow == Bl ==>
      ins.target.Some? && ins.target.value in c.image.nodes && Edge(ins.target.value, CallEdge, a) in CallsOf(c.image, c.image.nodes[b], ins)
    ensures Falls(ins, a in ItSet(c.image.nodes[b].code)) ==>
      ins.Fall() in Out(c.findings[b].succ, a) && FallOk(Insns(c, b), ItSet(c.image.nodes[b].code), ins)
  {
    hide WellFormed, CodeOk, ItBlocksOk, NodeHolds, ReturnOk, StoresOk, ItSet, Overlapped, HandOverOk, TailCalls, FrameOf;
    var node, insns, inIt := c.image.nodes[b], Insns(c, b), ItSet(c.image.nodes[b].code);
    assert TransferErrs(ins) == [] && TargetErrs(c.image, insns, inIt, node, ins) == [] && FallErrs(insns, inIt, ins) == [];
  }

  lemma PlaceFacts(c: Ctx, b: int, a: int, ins: Insn, it: nat)
    requires Reached(c, b, a, ins) && ItPlace(c.image.nodes[b].code, a, it)
    ensures it > 0 <==> a in ItSet(c.image.nodes[b].code)
    ensures FallOk(Insns(c, b), ItSet(c.image.nodes[b].code), ins) ==>
      ItPlace(c.image.nodes[b].code, ins.Fall(), ItNext(ins, it))
    ensures ins.flow !in {Seq, It, Undef, Trap} ==> ItNext(ins, it) == 0
    ensures ins.flow in {Bcc, Cbz, Le, Wls} ==> it == 0
  {
    hide WellFormed, ItBlocksOk, NodeHolds, ReturnOk, StoresOk, ItSet, Overlapped, HandOverOk, TailCalls, FrameOf, FlowErrs, ItPlace;
    var code := c.image.nodes[b].code;
    var i :| 0 <= i < |code| && code[i] == ins;
    PlaceConditional(code, a, it);
    if ins.flow !in {Seq, It, Undef, Trap} {
      LastPlace(code, i, it);
    }
    if FallOk(Insns(c, b), ItSet(code), ins) {
      FallPlace(code, i, it);
    }
  }

  /** The running body goes on at b. */
  lemma GoesOn(c: Ctx, cpu: Cpu, it: nat, acts: seq<Act>, ins: Insn, after: Cpu, it': nat, b: int, es: Abs)
    requires TopRuns(c, cpu, it, acts, ins)
    requires b in Out(c.findings[acts[|acts| - 1].body].succ, acts[|acts| - 1].pc)
    requires es == EdgeState(ins, acts[|acts| - 1].pc in ItSet(c.image.nodes[acts[|acts| - 1].body].code), TopAbs(c, acts[|acts| - 1]), b)
    requires Sim(es, acts[|acts| - 1].base, acts[|acts| - 1].link, after) && SlotsBelow(es.slots)
    requires SlotsFrom(es.slots, after.sp, acts[|acts| - 1].base)
    requires Dead(TopAbs(c, acts[|acts| - 1])) ==> Dead(es)
    requires OuterKept(c, acts, cpu.mem, after.mem)
    requires ItPlace(c.image.nodes[acts[|acts| - 1].body].code, b, it')
    requires ProgramOk(c)
    ensures RunOk(c, Running(after, it', acts[|acts| - 1 := acts[|acts| - 1].(pc := b)]))
  {
    hide ProgramOk, Waits, Saved, OuterKept, EdgeState, ItPlace, SlotsBelow;
    var n := |acts| - 1;
    var act := acts[n];
    var top := act.(pc := b);
    TopFacts(c, act, ins);
    Arrives(c, after, act, ins, b, es);
    hide Reached, Shown;
    SavedAfter(c, acts, top, cpu.mem, after.mem);
    BaseBound(c, acts, n);
    ActsAfter(c, acts, top);
  }

  // ---- steps inside a body -----------------------------------------------------------

  lemma TransferSlots(st: Abs, ins: Insn, base: int, link: int, after: Cpu)
    requires st.Ok() && st.sp.Some? && (SP in ins.wr ==> ins.spKnown) && Sim(Transfer(st, ins), base, link, after)
    ensures SlotsFrom(Transfer(st, ins).slots, after.sp, base)
  {
    hide AfterStores, LrFrom, RegAfter, SlotsHold, RegsHold;
  }

  lemma ExecutedGoesOn(c: Ctx, cpu: Cpu, it: nat, acts: seq<Act>, ins: Insn, mems: seq<Mem>, after: Cpu, b: int)
    requires TopRuns(c, cpu, it, acts, ins) && Exec(ins, cpu, mems, after) && !IsCall(ins)
    requires TopAbs(c, acts[|acts| - 1]).Ok() && UnknownStoresSpare(TopAbs(c, acts[|acts| - 1]), ins, mems, Live(c, acts))
    requires b in Out(c.findings[acts[|acts| - 1].body].succ, acts[|acts| - 1].pc)
    requires TakesEdge(ins, acts[|acts| - 1].pc in ItSet(c.image.nodes[acts[|acts| - 1].body].code), b)
    requires ItPlace(c.image.nodes[acts[|acts| - 1].body].code, b, ItNext(ins, it))
    requires ins.target.Some? ==> ins.flow != Seq && ins.flow != It
    requires ProgramOk(c)
    ensures RunOk(c, Running(after, ItNext(ins, it), acts[|acts| - 1 := acts[|acts| - 1].(pc := b)]))
  {
    TopNonempty(c, cpu, it, acts, ins);
    hide *;
    var act := acts[|acts| - 1];
    var st, cond := TopAbs(c, act), act.pc in ItSet(c.image.nodes[act.body].code);
    TopReached(c, cpu, it, acts, ins);
    TopFacts(c, act, ins);
    SpFacts(c, act, ins);
    StoresKeepOuter(c, cpu, it, acts, ins, mems, after);
    ExecutedTop(c, cpu, it, acts, ins, mems, after);
    ExecutedEdge(st, act.base, act.link, ins, cond, after, b);
    TransferSlots(st, ins, act.base, act.link, after);
    if Dead(st) {
      DeadStays(st, ins, cond, b);
    }
    SlotsSubset(EdgeState(ins, cond, st, b).slots, Transfer(st, ins).slots, after.sp, act.base);
    GoesOn(c, cpu, it, acts, ins, after, ItNext(ins, it), b, EdgeState(ins, cond, st, b));
  }

  lemma TopNonempty(c: Ctx, cpu: Cpu, it: nat, acts: seq<Act>, ins: Insn)
    requires TopRuns(c, cpu, it, acts, ins)
    ensures acts != [] && acts[|acts| - 1].body in c.image.nodes
  {
    hide Saved, Waits, TopOk;
  }

  lemma TopReached(c: Ctx, cpu: Cpu, it: nat, acts: seq<Act>, ins: Insn)
    requires TopRuns(c, cpu, it, acts, ins)
    ensures Reached(c, acts[|acts| - 1].body, acts[|acts| - 1].pc, ins)
    ensures Sim(TopAbs(c, acts[|acts| - 1]), acts[|acts| - 1].base, acts[|acts| - 1].link, cpu)
    ensures SlotsBelow(TopAbs(c, acts[|acts| - 1]).slots)
    ensures SlotsFrom(TopAbs(c, acts[|acts| - 1]).slots, cpu.sp, acts[|acts| - 1].base)
    ensures SlotsOk(TopAbs(c, acts[|acts| - 1])) && Placed(c, acts[|acts| - 1])
    ensures ItPlace(c.image.nodes[acts[|acts| - 1].body].code, acts[|acts| - 1].pc, it)
  {
    hide Saved, Reached, Waits, Shown, SlotsHold, RegsHold;
  }

  lemma SlotsSubset(a: set<int>, b: set<int>, sp: int, base: int)
    requires a <= b && SlotsBelow(b) && SlotsFrom(b, sp, base)
    ensures SlotsBelow(a) && SlotsFrom(a, sp, base)
  {
  }

  lemma SpFacts(c: Ctx, act: Act, ins: Insn)
    requires Reached(c, act.body, act.pc, ins)
    ensures TopAbs(c, act).sp.Some? && (SP in ins.wr ==> ins.spKnown)
  {
    hide WellFormed, CodeOk, ItBlocksOk, NodeHolds, ReturnOk, StoresOk;
  }

  lemma SkippedGoesOn(c: Ctx, cpu: Cpu, it: nat, acts: seq<Act>, ins: Insn, b: int)
    requires TopRuns(c, cpu, it, acts, ins)
    requires acts[|acts| - 1].pc in ItSet(c.image.nodes[acts[|acts| - 1].body].code)
    requires b in Out(c.findings[acts[|acts| - 1].body].succ, acts[|acts| - 1].pc)
    requires ins.target == Some(b) ==> ins.flow == B
    requires ItPlace(c.image.nodes[acts[|acts| - 1].body].code, b, ItNext(ins, it))
    requires ProgramOk(c)
    ensures RunOk(c, Running(cpu, ItNext(ins, it), acts[|acts| - 1 := acts[|acts| - 1].(pc := b)]))
  {
    TopNonempty(c, cpu, it, acts, ins);
    hide *;
    var act := acts[|acts| - 1];
    var st := TopAbs(c, act);
    TopReached(c, cpu, it, acts, ins);
    TopFacts(c, act, ins);
    SkippedEdge(st, act.base, act.link, ins, cpu, b);
    if Dead(st) {
      DeadStays(st, ins, true, b);
    }
    OuterSame(c, acts, cpu.mem);
    SlotsSubset(EdgeState(ins, true, st, b).slots, st.slots, cpu.sp, act.base);
    GoesOn(c, cpu, it, acts, ins, cpu, ItNext(ins, it), b, EdgeState(ins, true, st, b));
  }

  lemma OuterSame(c: Ctx, acts: seq<Act>, m: Mem)
    ensures OuterKept(c, acts, m, m)
  {
  }

  // ---- entering a body ------------------------------------------------------------------

  lemma Enters(c: Ctx, t: int, cpu: Cpu, kept: seq<int>) returns (top: Act)
    requires t in c.bodies && cpu.Ok()
    requires ProgramOk(c)
    ensures top == Act(t, t, cpu.sp, cpu.regs[LR], kept)
    ensures Placed(c, top) && TopOk(c, cpu, 0, top)
  {
    hide WellFormed, WellLaid, Accepted, CalleesOk, Calm;
    top := Act(t, t, cpu.sp, cpu.regs[LR], kept);
    assert BodyOk(c, t);
    EntryPlace(c.image.nodes[t].code, t);
    EntrySim(cpu);
    if !IsVeneer(c, t) {
      EntryState(c, t);
      hide ProgramOk;
      var ins := ReachedInsn(c, t, t);
      ReachedFacts(c, t, t, ins);
      SimWeaker(c.findings[t].IN[t], Entry(), cpu.sp, cpu.regs[LR], cpu);
    }
  }

  lemma EntryState(c: Ctx, t: int)
    requires t in c.image.nodes && t in c.findings && c.image.nodes[t].addr == t
    requires Accepted(c.image, c.image.nodes[t], c.findings[t])
    ensures t in c.findings[t].IN && c.findings[t].IN[t].Ok() && Leq(c.findings[t].IN[t], Entry())
  {
    hide ExtentOk, ItBlocksOk, FlowOk, LoopsOk, ReturnsOk, Fixpoint, Leq;
  }

  lemma EntrySim(cpu: Cpu)
    requires cpu.Ok()
    ensures Sim(Entry(), cpu.sp, cpu.regs[LR], cpu) && SlotsOk(Entry())
  {
  }
}
