/** The theorem the stack gate is for: no run of an accepted program uses more stack
    below its root than the bound, and every return goes to its caller with sp
    restored. */
module StackSafety {
  import opened Graph
  import opened Thumb
  import opened Machine
  import opened ReturnAnalysis
  import opened BodyRules
  import opened ItBlocks
  import opened StepSoundness
  import opened Runs
  import opened RunInvariant
  import opened RunSteps
  import opened RunTransfers
  import opened RunHeights

  // ---- one step ---------------------------------------------------------------------

  lemma VeneerStep(c: Ctx, cpu: Cpu, it: nat, acts: seq<Act>, ch: Choice, s': State)
    requires ActsOk(c, acts) && TopOk(c, cpu, it, acts[|acts| - 1]) && Saved(c, acts, cpu.mem)
    requires IsVeneer(c, acts[|acts| - 1].body) && !ch.Interrupt?
    requires Step(c, Running(cpu, it, acts), ch, s')
    requires ProgramOk(c)
    ensures RunOk(c, s')
  {
    hide Waits, Saved, SlotsHold, RegsHold, Live, UnknownStoresSpare, Exec, ItPlace, ProgramOk;
    var act := acts[|acts| - 1];
    var ins, t := VeneerFacts(c, act.body, it);
    hide IsVeneer, Insns;
    assert ch.Execute?;
    QuietKeeps(ins, cpu, ch.mems, ch.after);
    HandsOver(c, cpu, it, acts, ch.after, t);
  }

  lemma FallthroughStep(c: Ctx, cpu: Cpu, it: nat, acts: seq<Act>, ins: Insn, mems: seq<Mem>, after: Cpu, s': State)
    requires TopRuns(c, cpu, it, acts, ins) && Exec(ins, cpu, mems, after)
    requires TopAbs(c, acts[|acts| - 1]).Ok() && UnknownStoresSpare(TopAbs(c, acts[|acts| - 1]), ins, mems, Live(c, acts))
    requires ins.flow in {Seq, It, Bcc, Cbz, Wls} || (ins.flow == Le && !ins.forever)
    requires Fallthrough(after, ItNext(ins, it), acts, ins, s')
    requires ProgramOk(c)
    ensures RunOk(c, s')
  {
    hide TopRuns, Reached, Exec, UnknownStoresSpare, Live, RunOk, ProgramOk, ItPlace, ItSet, FallOk, TopAbs, Insns, Next, FlowErrs;
    TopNonempty(c, cpu, it, acts, ins);
    TopReached(c, cpu, it, acts, ins);
    var act := acts[|acts| - 1];
    FlowFacts(c, act.body, act.pc, ins);
    PlaceFacts(c, act.body, act.pc, ins, it);
    NoTarget(c, act.body, act.pc, ins);
    ExecutedGoesOn(c, cpu, it, acts, ins, mems, after, ins.Fall());
  }

  lemma SkipStep(c: Ctx, cpu: Cpu, it: nat, acts: seq<Act>, ins: Insn, s': State)
    requires TopRuns(c, cpu, it, acts, ins) && it > 0
    requires Fallthrough(cpu, ItNext(ins, it), acts, ins, s')
    requires ProgramOk(c)
    ensures RunOk(c, s')
  {
    TopNonempty(c, cpu, it, acts, ins);
    TopReached(c, cpu, it, acts, ins);
    var act := acts[|acts| - 1];
    FlowFacts(c, act.body, act.pc, ins);
    PlaceFacts(c, act.body, act.pc, ins, it);
    SkipTarget(c, act.body, act.pc, ins, it);
    hide TopRuns, Reached, RunOk, ProgramOk, ItPlace, ItSet, FallOk, TopAbs;
    SkippedGoesOn(c, cpu, it, acts, ins, ins.Fall());
  }

  /** A conditional call does not go to the instruction after it: that lies inside the
      body, and no function may begin there. */
  lemma SkipTarget(c: Ctx, b: int, a: int, ins: Insn, it: nat)
    requires Reached(c, b, a, ins) && ItPlace(c.image.nodes[b].code, a, it) && it > 0
    ensures ins.target == Some(ins.Fall()) ==> ins.flow == B
    ensures ins.flow !in {Bcc, Cbz, Le, Wls}
  {
    FlowFacts(c, b, a, ins);
    PlaceFacts(c, b, a, ins, it);
    NoTarget(c, b, a, ins);
    if FallOk(Insns(c, b), ItSet(c.image.nodes[b].code), ins) {
      FallInside(c, b, a, ins);
    }
    TargetFlows(c, b, a, ins);
    hide WellFormed, ItBlocksOk, NodeHolds, ReturnOk, StoresOk, FlowErrs, CallsOf, CodeOk, ItSet, ItPlace, Next;
  }

  lemma FallInside(c: Ctx, b: int, a: int, ins: Insn)
    requires Reached(c, b, a, ins) && ins.Fall() in Insns(c, b)
    ensures Inside(c.image.nodes[b], ins.Fall()) && ins.Fall() !in c.image.nodes
  {
    hide WellFormed, ItBlocksOk, NodeHolds, ReturnOk, StoresOk, FlowErrs, CallsOf, ItSet, Next, FallOk;
    var node := c.image.nodes[b];
    var i :| 0 <= i < |node.code| && node.code[i] == ins;
    InsnMapKeys(node.code, ins.Fall());
    var j :| 0 <= j < |node.code| && node.code[j].addr == ins.Fall();
    Ordered(node.code, 0, i);
    assert node.code[j] in node.code && node.code[j].size > 0 && node.code[i].size > 0;
  }

  /** Only transfers of control with an immediate have a target. */
  lemma TargetFlows(c: Ctx, b: int, a: int, ins: Insn)
    requires Reached(c, b, a, ins)
    ensures ins.target.Some? ==> ins.flow in {B, Bcc, Cbz, Le, Wls, Bl}
  {
    FlowFacts(c, b, a, ins);
    NoTarget(c, b, a, ins);
    hide Reached;
  }

  lemma JumpStep(c: Ctx, cpu: Cpu, it: nat, acts: seq<Act>, ins: Insn, mems: seq<Mem>, after: Cpu, s': State)
    requires TopRuns(c, cpu, it, acts, ins) && Exec(ins, cpu, mems, after)
    requires TopAbs(c, acts[|acts| - 1]).Ok() && UnknownStoresSpare(TopAbs(c, acts[|acts| - 1]), ins, mems, Live(c, acts))
    requires Branches(ins.flow) && ins.target.Some? && acts[|acts| - 1].body in c.image.nodes && after.Ok()
    requires Jump(c, after, ItNext(ins, it), acts, ins.target.value, s')
    requires ProgramOk(c)
    ensures RunOk(c, s')
  {
    TopNonempty(c, cpu, it, acts, ins);
    TopReached(c, cpu, it, acts, ins);
    var act := acts[|acts| - 1];
    var t := ins.target.value;
    FlowFacts(c, act.body, act.pc, ins);
    PlaceFacts(c, act.body, act.pc, ins, it);
    BranchFacts(c, act.body, act.pc, ins);
    TopFacts(c, act, ins);
    hide TopRuns, Reached, UnknownStoresSpare, Live, RunOk, ProgramOk, ItSet, FallOk, TopAbs, CallsOf, Exec, NoData;
    if Inside(c.image.nodes[act.body], t) {
      assert ItPlace(c.image.nodes[act.body].code, t, 0);
      hide ItPlace;
      ExecutedGoesOn(c, cpu, it, acts, ins, mems, after, t);
    } else {
      QuietKeeps(ins, cpu, mems, after);
      hide ItPlace;
      TopParts(c, cpu, it, acts, ins);
      HandsOver(c, cpu, it, acts, after, t);
    }
  }

  lemma CallStep(c: Ctx, cpu: Cpu, it: nat, acts: seq<Act>, ins: Insn, mems: seq<Mem>, after: Cpu, s': State)
    requires TopRuns(c, cpu, it, acts, ins) && Exec(ins, cpu, mems, after) && ins.flow == Bl && after.Ok()
    requires Call(c, after, ItNext(ins, it), acts, ins, s')
    requires ProgramOk(c)
    ensures RunOk(c, s')
  {
    TopNonempty(c, cpu, it, acts, ins);
    TopReached(c, cpu, it, acts, ins);
    var act := acts[|acts| - 1];
    FlowFacts(c, act.body, act.pc, ins);
    PlaceFacts(c, act.body, act.pc, ins, it);
    hide TopRuns, Reached, RunOk, ProgramOk, ItSet, FallOk, TopAbs, CallsOf, Exec, ItPlace, Insns, Next;
    Calls(c, cpu, it, acts, ins, mems, after, Act(ins.target.value, ins.target.value, after.sp, ins.Fall(), after.regs));
  }

  lemma ReturnStep(c: Ctx, cpu: Cpu, it: nat, acts: seq<Act>, ins: Insn, mems: seq<Mem>, after: Cpu, to: int, s': State)
    requires TopRuns(c, cpu, it, acts, ins) && Exec(ins, cpu, mems, after) && after.Ok()
    requires ins.flow == RetLr || ins.flow == RetPop
    requires ins.flow == RetLr ==> to == after.regs[LR]
    requires forall l :: l in ins.ld && l.dest == PC && ins.flow == RetPop ==> LoadEffect(cpu, l, to)
    requires Return(after, ItNext(ins, it), acts, to, s')
    requires ProgramOk(c)
    ensures RunOk(c, s')
    ensures after.sp == acts[|acts| - 1].base && to == acts[|acts| - 1].link
  {
    TopNonempty(c, cpu, it, acts, ins);
    TopReached(c, cpu, it, acts, ins);
    var act := acts[|acts| - 1];
    TopFacts(c, act, ins);
    PlaceFacts(c, act.body, act.pc, ins, it);
    ReturnFact(c, act.body, act.pc, ins);
    TopParts(c, cpu, it, acts, ins);
    hide TopRuns, Reached, RunOk, ProgramOk, ItSet, FallOk, TopAbs, Exec, ItPlace, Insns, ReturnOk, LoadEffect, Return, Sim, ActsOk, Saved, TopOk;
    ReturnExact(TopAbs(c, act), act.base, act.link, ins, cpu, mems, after, to);
    Returns(c, cpu, acts, after, to, s');
  }

  lemma ReturnFact(c: Ctx, b: int, a: int, ins: Insn)
    requires Reached(c, b, a, ins)
    ensures c.findings[b].IN[a].Ok() && ReturnOk(c.findings[b].IN[a], ins)
  {
    hide WellFormed, CodeOk, ItBlocksOk, NodeHolds, ReturnOk, StoresOk, FlowErrs, CallsOf;
  }

  /** Every step of a run of an accepted program keeps the invariant; an interrupt, where
      all words that hold return addresses lie above sp. */
  lemma StepKeeps(c: Ctx, s: State, ch: Choice, s': State)
    requires RunOk(c, s) && Step(c, s, ch, s')
    requires ch.Interrupt? ==> AllAbove(c, s.acts, s.cpu.sp)
    requires ProgramOk(c)
    ensures RunOk(c, s')
  {
    hide ProgramOk, Waits, Saved, ItPlace, Live, UnknownStoresSpare, Exec, RunOk, AllAbove;
    RunParts(c, s);
    var acts := s.acts;
    var act := acts[|acts| - 1];
    match ch {
      case Interrupt(mem) =>
        InterruptKeeps(c, s.cpu, s.it, acts, mem);
      case _ =>
        if IsVeneer(c, act.body) {
          VeneerStep(c, s.cpu, s.it, acts, ch, s');
        } else {
          BodyStep(c, s.cpu, s.it, acts, ch, s');
        }
    }
  }

  lemma BodyStep(c: Ctx, cpu: Cpu, it: nat, acts: seq<Act>, ch: Choice, s': State)
    requires ActsOk(c, acts) && TopOk(c, cpu, it, acts[|acts| - 1]) && Saved(c, acts, cpu.mem)
    requires !IsVeneer(c, acts[|acts| - 1].body) && !ch.Interrupt?
    requires Step(c, Running(cpu, it, acts), ch, s')
    requires ProgramOk(c)
    ensures RunOk(c, s')
  {
    hide ProgramOk, Waits, Saved, ItPlace, Live, UnknownStoresSpare, Exec, RunOk, Goes, Fallthrough, TopOk, WellFormed, IsVeneer;
    var act := acts[|acts| - 1];
    var ins := ReachedInsn(c, act.body, act.pc);
    ReachedFacts(c, act.body, act.pc, ins);
    BodyNode(c, act.body, act.pc, ins);
    TopFacts(c, act, ins);
    hide Reached, ActsOk, TopAbs;
    if ch.Skip? {
      SkipStep(c, cpu, it, acts, ins, s');
    } else {
      AfterOk(ins, cpu, ch.mems, ch.after);
      GoesStep(c, cpu, it, acts, ins, ch.mems, ch.after, ch.taken, ch.to, s');
    }
  }

  lemma GoesStep(c: Ctx, cpu: Cpu, it: nat, acts: seq<Act>, ins: Insn, mems: seq<Mem>, after: Cpu, taken: bool, to: int, s': State)
    requires acts != [] && after.Ok() && acts[|acts| - 1].body in c.image.nodes
    requires TopRuns(c, cpu, it, acts, ins)
    requires Exec(ins, cpu, mems, after)
    requires TopAbs(c, acts[|acts| - 1]).Ok() && UnknownStoresSpare(TopAbs(c, acts[|acts| - 1]), ins, mems, Live(c, acts))
    requires forall l :: l in ins.ld && l.dest == PC ==> LoadEffect(cpu, l, to)
    requires Goes(c, ins, after, ItNext(ins, it), acts, taken, to, s')
    requires ProgramOk(c)
    ensures RunOk(c, s')
  {
    hide ProgramOk, TopRuns, ItPlace, ItSet, Live, UnknownStoresSpare, Exec, RunOk, Jump, Call, Return, Fallthrough, Reached, FallOk, CallsOf, LoadEffect, TopAbs;
    TopFlow(c, cpu, it, acts, ins);
    match ins.flow {
      case Bl => CallStep(c, cpu, it, acts, ins, mems, after, s');
      case RetLr => ReturnStep(c, cpu, it, acts, ins, mems, after, after.regs[LR], s');
      case RetPop => ReturnStep(c, cpu, it, acts, ins, mems, after, to, s');
      case B => JumpStep(c, cpu, it, acts, ins, mems, after, s');
      case Seq => FallthroughStep(c, cpu, it, acts, ins, mems, after, s');
      case It => FallthroughStep(c, cpu, it, acts, ins, mems, after, s');
      case _ =>
        if taken || (ins.flow == Le && ins.forever) {
          JumpStep(c, cpu, it, acts, ins, mems, after, s');
        } else {
          FallthroughStep(c, cpu, it, acts, ins, mems, after, s');
        }
    }
  }

  // ---- whole runs -----------------------------------------------------------------------

  lemma StartOk(c: Ctx, s: State)
    requires Starts(c, s)
    requires ProgramOk(c)
    ensures RunOk(c, s)
  {
    hide BodyOk, Calm, Sim, SlotsOk, ItPlace, TopAbs, Placed;
    var act := Enters(c, c.root, s.cpu, s.cpu.regs);
    assert BodyOk(c, c.root);
    TopSlots(c, s.cpu, 0, act);
    RootDepth(c);
    hide TopOk, SlotsHold;
    assert Saved(c, s.acts, s.cpu.mem);
  }

  lemma RootDepth(c: Ctx)
    requires ProgramOk(c)
    ensures c.root in c.depth && c.root in c.bodies
  {
    hide CodeOk, Accepted, CalleesOk, Calm;
    assert BodyOk(c, c.root);
  }

  /** The activations, and as far as they rise, lie below the words that hold return
      addresses. */
  ghost predicate Low(c: Ctx, s: State) {
    s.Running? ==> Heights(c, s.acts) && Spared(c, s.acts)
  }

  lemma StartLow(c: Ctx, s: State)
    requires Starts(c, s) && Calm(c)
    requires ProgramOk(c)
    ensures Low(c, s)
  {
    hide BodyOk, Spares;
    assert c.root in c.bodies && RiseOk(c, c.root);
  }

  lemma StepLow(c: Ctx, s: State, ch: Choice, s': State)
    requires RunOk(c, s) && Low(c, s) && Step(c, s, ch, s') && Calm(c)
    requires ProgramOk(c)
    ensures Low(c, s')
  {
    hide RunOk, RiseOk, Spares, Heights, Spared, ProgramOk;
    assert s.Running? by { hide Exec, UnknownStoresSpare, Goes; }
    if s'.Running? {
      HeightsKept(c, s, ch, s');
    }
  }

  lemma InterruptAbove(c: Ctx, s: State, ch: Choice, s': State)
    requires RunOk(c, s) && Low(c, s) && Step(c, s, ch, s') && Calm(c)
    requires ProgramOk(c)
    ensures s.Running? && AllAbove(c, s.acts, s.cpu.sp)
  {
    hide RunOk, Calm, Heights, Spared, ProgramOk, ActsOk, TopOk, Saved, AllAbove;
    assert s.Running? by { hide Exec, UnknownStoresSpare, Goes; }
    RunParts(c, s);
    CalmAbove(c, s.cpu, s.it, s.acts);
  }

  lemma OnlyAsync(c: Ctx, s: State, ch: Choice, s': State)
    requires Step(c, s, ch, s')
    ensures ch.Interrupt? ==> c.async
  {
    hide Exec, UnknownStoresSpare, Goes;
  }

  lemma AsyncCalm(c: Ctx)
    requires ProgramOk(c)
    ensures c.async ==> Calm(c)
  {
    hide BodyOk, Calm;
  }

  lemma {:induction false} RunKeeps(c: Ctx, states: seq<State>, choices: seq<Choice>, k: nat)
    requires IsRun(c, states, choices) && k < |states|
    requires ProgramOk(c)
    ensures RunOk(c, states[k]) && (c.async ==> Low(c, states[k]))
  {
    hide ProgramOk, RunOk, Starts, Step, Calm, Low, AllAbove;
    AsyncCalm(c);
    if k == 0 {
      StartOk(c, states[0]);
      if c.async {
        StartLow(c, states[0]);
      }
    } else {
      RunKeeps(c, states, choices, k - 1);
      var s, ch, s' := states[k - 1], choices[k - 1], states[k];
      assert Step(c, states[k - 1], choices[k - 1], states[k - 1 + 1]);
      OnlyAsync(c, s, ch, s');
      if c.async {
        InterruptAbove(c, s, ch, s');
        StepLow(c, s, ch, s');
      }
      StepKeeps(c, s, ch, s');
    }
  }

  lemma DepthNow(c: Ctx, s: State)
    requires RunOk(c, s) && s.Running?
    requires ProgramOk(c)
    ensures c.root in c.depth && s.cpu.sp + c.depth[c.root] >= c.sp0
  {
    hide ProgramOk, RunOk, TopOk, Saved;
    RunParts(c, s);
    var n := |s.acts| - 1;
    BaseBound(c, s.acts, n);
    TopSp(c, s.cpu, s.it, s.acts[n]);
  }

  /** The stack bound: along every run from the root, to any depth of calls, sp is
      never lower than its start minus the bound of the root. */
  lemma WholeRunStackBound(c: Ctx, states: seq<State>, choices: seq<Choice>, k: nat)
    requires IsRun(c, states, choices) && k < |states| && states[k].Running?
    requires ProgramOk(c)
    ensures c.root in c.depth && states[k].cpu.sp + c.depth[c.root] >= c.sp0
  {
    hide ProgramOk, RunOk, IsRun;
    RunKeeps(c, states, choices, k);
    DepthNow(c, states[k]);
  }

  /** Control never goes astray, and the root returns to its own caller with sp where
      it was. */
  lemma WholeRunReturns(c: Ctx, states: seq<State>, choices: seq<Choice>, k: nat)
    requires IsRun(c, states, choices) && k < |states|
    requires ProgramOk(c)
    ensures states[k] != Wild
    ensures states[k].Done? ==> states[k].end.sp == c.sp0 && states[k].to == c.lr0
  {
    hide ProgramOk, IsRun;
    RunKeeps(c, states, choices, k);
  }

  /** The instruction the running body executes next, unless it is a veneer. */
  ghost predicate Executes(c: Ctx, s: State, ch: Choice, ins: Insn) {
    && s.Running? && s.acts != [] && ch.Execute?
    && !IsVeneer(c, s.acts[|s.acts| - 1].body)
    && s.acts[|s.acts| - 1].pc in Insns(c, s.acts[|s.acts| - 1].body)
    && ins == Insns(c, s.acts[|s.acts| - 1].body)[s.acts[|s.acts| - 1].pc]
  }

  /** Every return of every activation, at any depth: sp is where the activation was
      called, and control goes to the address it was called with. */
  lemma EveryReturnExact(c: Ctx, states: seq<State>, choices: seq<Choice>, k: nat, ins: Insn)
    requires IsRun(c, states, choices) && k < |choices| && Executes(c, states[k], choices[k], ins)
    requires ins.flow == RetLr || ins.flow == RetPop
    requires ProgramOk(c)
    ensures choices[k].after.sp == states[k].acts[|states[k].acts| - 1].base
    ensures (if ins.flow == RetLr then choices[k].after.Ok() && choices[k].after.regs[LR] == states[k].acts[|states[k].acts| - 1].link
             else choices[k].to == states[k].acts[|states[k].acts| - 1].link)
  {
    hide ProgramOk, RunOk, Starts, Saved, ItPlace, Live, UnknownStoresSpare, Exec, IsVeneer, Sim, SlotsOk, Waits;
    RunKeeps(c, states, choices, k);
    assert Step(c, states[k], choices[k], states[k + 1]);
    RunParts(c, states[k]);
    var s := states[k];
    var act := s.acts[|s.acts| - 1];
    var found := ReachedInsn(c, act.body, act.pc);
    ReachedFacts(c, act.body, act.pc, found);
    TopFacts(c, act, ins);
    ReturnFact(c, act.body, act.pc, ins);
    hide Reached, Goes, WellFormed, ReturnOk, LoadEffect;
    AfterOk(ins, s.cpu, choices[k].mems, choices[k].after);
    ReturnExact(TopAbs(c, act), act.base, act.link, ins, s.cpu, choices[k].mems, choices[k].after,
                if ins.flow == RetLr then choices[k].after.regs[LR] else choices[k].to);
  }

  /** Every tail call hands over sp and lr as the activation got them. */
  lemma EveryTailCallExact(c: Ctx, states: seq<State>, choices: seq<Choice>, k: nat, ins: Insn)
    requires IsRun(c, states, choices) && k < |choices| && Executes(c, states[k], choices[k], ins)
    requires states[k].acts[|states[k].acts| - 1].body in c.image.nodes
    requires TailCalls(c.image, c.image.nodes[states[k].acts[|states[k].acts| - 1].body], ins)
    requires ProgramOk(c)
    ensures choices[k].after.sp == states[k].acts[|states[k].acts| - 1].base
    ensures choices[k].after.Ok() && choices[k].after.regs[LR] == states[k].acts[|states[k].acts| - 1].link
  {
    hide ProgramOk, RunOk, Starts, Saved, ItPlace, Live, UnknownStoresSpare, Exec, IsVeneer, SlotsOk, Waits, SlotsHold, RegsHold;
    RunKeeps(c, states, choices, k);
    assert Step(c, states[k], choices[k], states[k + 1]);
    RunParts(c, states[k]);
    var s := states[k];
    var act := s.acts[|s.acts| - 1];
    var found := ReachedInsn(c, act.body, act.pc);
    ReachedFacts(c, act.body, act.pc, found);
    TopFacts(c, act, ins);
    BranchFacts(c, act.body, act.pc, ins);
    TailFacts(c, act.body, act.pc, ins);
    hide Reached, Goes, WellFormed, NoData;
    QuietKeeps(ins, s.cpu, choices[k].mems, choices[k].after);
  }

  lemma TailFacts(c: Ctx, b: int, a: int, ins: Insn)
    requires Reached(c, b, a, ins) && TailCalls(c.image, c.image.nodes[b], ins)
    ensures ins.flow in {B, Bcc, Cbz} && HandOverOk(c.findings[b].IN[a])
  {
    hide WellFormed, CodeOk, ItBlocksOk, NodeHolds, ReturnOk, StoresOk, FlowErrs, ItSet;
  }
}
