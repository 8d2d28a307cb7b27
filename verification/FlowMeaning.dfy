/** What is refused of the flow of an instruction, and what it is said to call, told by
    where the machine can go from it. */
module FlowMeaning {
  import opened Thumb
  import opened Machine
  import opened BodyRules
  import opened Runs

  /** A way on from an instruction of the running activation: falling through, which is
      also what skipping it and coming back from a call amount to, or not.  Where a return
      of the body itself goes is the caller's matter. */
  ghost predicate WayOn(c: Ctx, ins: Insn, cond: bool, acts: seq<Act>, fell: bool, s': State)
    requires acts != [] && acts[|acts| - 1].body in c.image.nodes
  {
    if fell then
      && (cond || ins.flow in {Seq, It, Bl, Bcc, Cbz, Wls} || (ins.flow == Le && !ins.forever))
      && exists after: Cpu, it :: after.Ok() && Fallthrough(after, it, acts, ins, s')
    else
      && ins.flow !in {Seq, It, RetLr, RetPop}
      && exists after: Cpu, it, to :: after.Ok() && Goes(c, ins, after, it, acts, true, to, s')
  }

  /** The running activation is at the entry of a function. */
  predicate AtEntry(c: Ctx, s: State) {
    s.Running? && s.acts != [] && s.acts[|s.acts| - 1].pc == s.acts[|s.acts| - 1].body
      && s.acts[|s.acts| - 1].body in c.image.nodes
  }

  /** Control is still in the program: at the entry of a function, or at an instruction of
      the body, and inside an IT block only by falling from the one before. */
  ghost predicate StaysIn(c: Ctx, insns: map<int, Insn>, inIt: set<int>, ins: Insn, acts: seq<Act>, fell: bool, s': State)
    requires acts != []
  {
    || (!fell && AtEntry(c, s'))
    || (s'.Running? && |s'.acts| == |acts| && s'.acts[|acts| - 1].body == acts[|acts| - 1].body
        && s'.acts[|acts| - 1].pc in insns
        && (s'.acts[|acts| - 1].pc in inIt ==> fell && (ins.flow == It || ins.addr in inIt)))
  }

  /** A loop instruction that would leave the body, even for another function. */
  predicate LoopOut(node: Node, ins: Insn) {
    ins.flow in {Le, Wls} && ins.target.Some? && !Inside(node, ins.target.value)
  }

  /** The running activation stands at `ins` of `node`, which is no veneer. */
  predicate StandsAt(c: Ctx, node: Node, ins: Insn, acts: seq<Act>) {
    && acts != [] && acts[|acts| - 1].body == node.addr && acts[|acts| - 1].pc == ins.addr
    && node.addr in c.image.nodes && c.image.nodes[node.addr] == node && !IsVeneer(c, node.addr)
  }

  function SomeCpu(lr: int): (cpu: Cpu)
    ensures cpu.Ok() && cpu.regs[LR] == lr
  {
    Cpu(0, seq(16, i => if i == LR then lr else 0), _ => 0)
  }

  // ---- one step ------------------------------------------------------------------

  lemma FallsTo(c: Ctx, node: Node, insns: map<int, Insn>, inIt: set<int>, ins: Insn, acts: seq<Act>, s': State)
    requires StandsAt(c, node, ins, acts) && WayOn(c, ins, ins.addr in inIt, acts, true, s')
    ensures StaysIn(c, insns, inIt, ins, acts, true, s') <==> FallOk(insns, inIt, ins)
  {
    hide IsVeneer;
  }

  lemma CanFall(c: Ctx, node: Node, inIt: set<int>, ins: Insn, acts: seq<Act>) returns (s': State)
    requires StandsAt(c, node, ins, acts)
    requires ins.addr in inIt || ins.flow in {Seq, It, Bl, Bcc, Cbz, Wls} || (ins.flow == Le && !ins.forever)
    ensures WayOn(c, ins, ins.addr in inIt, acts, true, s')
  {
    hide IsVeneer;
    s' := Running(SomeCpu(0), 0, acts[|acts| - 1 := acts[|acts| - 1].(pc := ins.Fall())]);
    assert Fallthrough(SomeCpu(0), 0, acts, ins, s');
  }

  /** Some way on that is no falling through, and whether it stays in the program. */
  lemma CanGo(c: Ctx, node: Node, insns: map<int, Insn>, inIt: set<int>, ins: Insn, acts: seq<Act>) returns (s': State)
    requires StandsAt(c, node, ins, acts) && ins.flow !in {Seq, It, RetLr, RetPop, Undef}
    ensures WayOn(c, ins, ins.addr in inIt, acts, false, s')
    ensures StaysIn(c, insns, inIt, ins, acts, false, s') ==>
      TransferErrs(ins) == [] && (LoopOut(node, ins) || TargetErrs(c.image, insns, inIt, node, ins) == [])
  {
    hide IsVeneer;
    var cpu := SomeCpu(ins.Fall());
    if (ins.flow == Bl || Branches(ins.flow)) && ins.target.Some? {
      var t, n := ins.target.value, |acts| - 1;
      if ins.flow == Bl {
        s' := if t in c.image.nodes then Running(cpu, 0, acts + [Act(t, t, cpu.sp, ins.Fall(), cpu.regs)]) else Wild;
      } else if Inside(node, t) {
        s' := Running(cpu, 0, acts[n := acts[n].(pc := t)]);
      } else if t in c.image.nodes {
        s' := Running(cpu, 0, acts[n := Act(t, t, cpu.sp, cpu.regs[LR], acts[n].kept)]);
      } else {
        s' := Wild;
      }
    } else {
      s' := Wild;
    }
    assert Goes(c, ins, cpu, 0, acts, true, 0, s');
  }

  lemma GoesTo(c: Ctx, node: Node, insns: map<int, Insn>, inIt: set<int>, ins: Insn, acts: seq<Act>, s': State)
    requires StandsAt(c, node, ins, acts) && ins.flow != Undef && WayOn(c, ins, ins.addr in inIt, acts, false, s')
    requires TransferErrs(ins) == [] && TargetErrs(c.image, insns, inIt, node, ins) == []
    ensures StaysIn(c, insns, inIt, ins, acts, false, s')
  {
    hide IsVeneer;
  }

  /** An instruction is refused for its flow exactly when some way on from it leaves the
      program or gets into an IT block from outside; and a loop instruction also when it
      leaves its body. */
  lemma FlowExact(c: Ctx, node: Node, insns: map<int, Insn>, inIt: set<int>, ins: Insn, acts: seq<Act>)
    requires StandsAt(c, node, ins, acts) && ins.flow != Undef
    ensures FlowErrs(c.image, insns, inIt, node, ins) == [] <==>
      !LoopOut(node, ins) && forall fell, s' :: WayOn(c, ins, ins.addr in inIt, acts, fell, s') ==>
        StaysIn(c, insns, inIt, ins, acts, fell, s')
  {
    hide WayOn, StaysIn, IsVeneer, TargetErrs, FallOk;
    var errs := FlowErrs(c.image, insns, inIt, node, ins);
    if errs == [] {
      LoopRefused(c.image, insns, inIt, node, ins);
      forall fell, s' | WayOn(c, ins, ins.addr in inIt, acts, fell, s')
        ensures StaysIn(c, insns, inIt, ins, acts, fell, s')
      {
        if fell {
          FellFalls(c, node, inIt, ins, acts, s');
          FallsTo(c, node, insns, inIt, ins, acts, s');
        } else {
          GoesTo(c, node, insns, inIt, ins, acts, s');
        }
      }
    } else if FallErrs(insns, inIt, ins) != [] && ins.flow !in {IndCall, Trap, Secure} {
      var s' := CanFall(c, node, inIt, ins, acts);
      FallsTo(c, node, insns, inIt, ins, acts, s');
    } else if ins.flow in {Seq, It, RetLr, RetPop} {
      NoTarget(c.image, insns, inIt, node, ins);
    } else {
      var s' := CanGo(c, node, insns, inIt, ins, acts);
      IndirectErrs(ins);
    }
  }

  lemma IndirectErrs(ins: Insn)
    ensures ins.flow in {IndCall, Trap, Secure} ==> TransferErrs(ins) != []
  {
  }

  lemma NoTarget(image: Image, insns: map<int, Insn>, inIt: set<int>, node: Node, ins: Insn)
    requires ins.flow in {Seq, It, RetLr, RetPop}
    ensures TransferErrs(ins) == [] && TargetErrs(image, insns, inIt, node, ins) == []
  {
  }

  lemma LoopRefused(image: Image, insns: map<int, Insn>, inIt: set<int>, node: Node, ins: Insn)
    requires TargetErrs(image, insns, inIt, node, ins) == []
    ensures !LoopOut(node, ins)
  {
  }

  lemma FellFalls(c: Ctx, node: Node, inIt: set<int>, ins: Insn, acts: seq<Act>, s': State)
    requires StandsAt(c, node, ins, acts) && WayOn(c, ins, ins.addr in inIt, acts, true, s') && TransferErrs(ins) == []
      && ins.flow != Undef
    ensures Falls(ins, ins.addr in inIt)
  {
    hide IsVeneer;
  }

  // ---- calls --------------------------------------------------------------------------

  /** The step starts the function that the edge names: on top of the running activation
      for a call, in its place for a tail call. */
  predicate Begins(c: Ctx, ins: Insn, acts: seq<Act>, e: BodyRules.Edge, s': State) {
    && AtEntry(c, s') && s'.acts[|s'.acts| - 1].body == e.callee && e.at == ins.addr
    && ((e.kind == CallEdge && |s'.acts| == |acts| + 1) || (e.kind == TailEdge && |s'.acts| == |acts|))
  }

  /** The edges of an instruction that is not refused are exactly the functions that a way
      on from it begins. */
  lemma CallsExact(c: Ctx, node: Node, insns: map<int, Insn>, inIt: set<int>, ins: Insn, acts: seq<Act>, e: BodyRules.Edge)
    requires StandsAt(c, node, ins, acts) && ins.flow != Undef && FlowErrs(c.image, insns, inIt, node, ins) == []
    ensures e in CallsOf(c.image, node, ins) <==>
      exists s' :: WayOn(c, ins, ins.addr in inIt, acts, false, s') && Begins(c, ins, acts, e, s')
  {
    hide IsVeneer;
    if e in CallsOf(c.image, node, ins) {
      var cpu, t, n := SomeCpu(ins.Fall()), ins.target.value, |acts| - 1;
      var s' := if ins.flow == Bl then Running(cpu, 0, acts + [Act(t, t, cpu.sp, ins.Fall(), cpu.regs)])
                else Running(cpu, 0, acts[n := Act(t, t, cpu.sp, cpu.regs[LR], acts[n].kept)]);
      assert Goes(c, ins, cpu, 0, acts, true, 0, s');
      assert WayOn(c, ins, ins.addr in inIt, acts, false, s') && Begins(c, ins, acts, e, s');
    }
    if s' :| WayOn(c, ins, ins.addr in inIt, acts, false, s') && Begins(c, ins, acts, e, s') {
      BegunIs(c, node, insns, inIt, ins, acts, e, s');
    }
  }

  lemma BegunIs(c: Ctx, node: Node, insns: map<int, Insn>, inIt: set<int>, ins: Insn, acts: seq<Act>, e: BodyRules.Edge,
    s': State)
    requires StandsAt(c, node, ins, acts) && ins.flow != Undef && FlowErrs(c.image, insns, inIt, node, ins) == []
    requires WayOn(c, ins, ins.addr in inIt, acts, false, s') && Begins(c, ins, acts, e, s')
    ensures e in CallsOf(c.image, node, ins)
  {
    hide IsVeneer, FallErrs;
    assert ins.flow in {Bl, B, Bcc, Cbz, Le, Wls};
  }

  // ---- veneers and IT blocks ------------------------------------------------------------

  /** A literal names a function exactly when it is the function's entry with the Thumb bit
      set. */
  lemma ThumbEntryExact(image: Image, a: int, t: int)
    ensures ThumbEntry(image, a) == Some(t) <==>
      a in image.words && image.words[a] == t + 1 && t % 2 == 0 && t in image.nodes
  {
  }

  /** What may stand in an IT block: anywhere what neither branches nor opens a block, and
      at its end a transfer too that has no condition of its own. */
  lemma MayStand(ins: Insn, m: int, itlen: int)
    ensures !BadInIt(ins, m, itlen) <==>
      || ins.flow in {Seq, Undef, Trap}
      || (m == itlen && ins.flow in {B, Bl, IndCall, IndJump, RetLr, RetPop, LitPc, Secure})
  {
    match ins.flow {
      case Seq | It | Bcc | Cbz | Le | Wls | Trap | Undef =>
      case Bl | IndCall | B | RetLr | RetPop | IndJump | LitPc | Secure =>
    }
  }
}
