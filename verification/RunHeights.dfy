/** How high sp gets: each step of a run moves the activations in one of few ways, so a
    bound of the rise of every body bounds where the activations lie; and when an
    interrupt leaves all return addresses alone. */
module RunHeights {
  import opened Graph
  import opened Thumb
  import opened Machine
  import opened ReturnAnalysis
  import opened BodyRules
  import opened ItBlocks
  import opened StepSoundness
  import opened Runs
  import opened RunInvariant
  import opened RunSteps
  import opened RunTransfers

  // ---- facts of one transfer of control --------------------------------------------------

  /** A branch keeps sp, lr and memory. */
  lemma QuietKeeps(ins: Insn, cpu: Cpu, mems: seq<Mem>, after: Cpu)
    requires NoData(ins) && SP !in ins.wr && LR !in ins.wr && Exec(ins, cpu, mems, after)
    ensures after.Ok() && after.sp == cpu.sp && after.regs[LR] == cpu.regs[LR] && after.mem == cpu.mem
  {
    assert RegEffect(ins, cpu, LR, after.regs[LR]);
  }

  /** An accepted veneer: a load of pc from a literal that names another function. */
  lemma VeneerFacts(c: Ctx, b: int, it: nat) returns (ins: Insn, t: int)
    requires b in c.bodies && IsVeneer(c, b)
    requires b in c.image.nodes && ItPlace(c.image.nodes[b].code, b, it)
    requires ProgramOk(c)
    ensures it == 0 && b in Insns(c, b) && ins == Insns(c, b)[b] && ins.flow == LitPc && ins.target.Some?
    ensures NoData(ins) && SP !in ins.wr && LR !in ins.wr
    ensures ThumbEntry(c.image, ins.target.value) == Some(t) && t in c.image.nodes && !Inside(c.image.nodes[b], t)
    ensures t in c.bodies && t in c.depth && b in c.depth && c.depth[t] <= c.depth[b]
  {
    hide CalleesOk, Accepted, Calm, WellFormed, ItSet, ItPlace;
    assert BodyOk(c, b);
    var node := c.image.nodes[b];
    ins := Insns(c, b)[b];
    InsnMapKeys(node.code, b);
    EntryPlace(node.code, b);
    PlaceConditional(node.code, b, 0);
    PlaceConditional(node.code, b, it);
    t := ThumbEntry(c.image, ins.target.value).value;
  }

  lemma NoTarget(c: Ctx, b: int, a: int, ins: Insn)
    requires Reached(c, b, a, ins)
    ensures ins.flow in {Seq, It, RetLr, RetPop} ==> ins.target.None?
  {
    hide WellFormed, ItBlocksOk, NodeHolds, ReturnOk, StoresOk, FlowErrs, CallsOf, WellLaid;
  }

  lemma BranchFacts(c: Ctx, b: int, a: int, ins: Insn)
    requires Reached(c, b, a, ins)
    ensures ins.flow in {B, Bcc, Cbz} ==> NoData(ins) && SP !in ins.wr && LR !in ins.wr
    ensures Branches(ins.flow) && ins.target.Some? && !Inside(c.image.nodes[b], ins.target.value) ==>
      && ins.flow in {B, Bcc, Cbz} && HandOverOk(c.findings[b].IN[a])
      && ins.target.value in c.bodies && ins.target.value in c.depth && b in c.depth && c.depth[ins.target.value] <= c.depth[b]
  {
    FlowFacts(c, b, a, ins);
    hide ItBlocksOk, NodeHolds, ReturnOk, StoresOk, CodeOk, ItSet, FrameOf, FlowErrs;
    if Branches(ins.flow) && ins.target.Some? && !Inside(c.image.nodes[b], ins.target.value) {
      assert Edge(ins.target.value, TailEdge, a) in CallsOf(c.image, c.image.nodes[b], ins);
    }
  }

  lemma AfterOk(ins: Insn, cpu: Cpu, mems: seq<Mem>, after: Cpu)
    requires Exec(ins, cpu, mems, after)
    ensures after.Ok()
  {
  }

  lemma TopFlow(c: Ctx, cpu: Cpu, it: nat, acts: seq<Act>, ins: Insn)
    requires TopRuns(c, cpu, it, acts, ins)
    ensures acts != []
    ensures ins.flow !in {Trap, Secure, IndCall, IndJump, LitPc, Undef} && (Branches(ins.flow) ==> ins.target.Some?)
  {
    TopNonempty(c, cpu, it, acts, ins);
    TopReached(c, cpu, it, acts, ins);
    hide TopRuns;
    FlowFacts(c, acts[|acts| - 1].body, acts[|acts| - 1].pc, ins);
  }

  lemma TopParts(c: Ctx, cpu: Cpu, it: nat, acts: seq<Act>, ins: Insn)
    requires TopRuns(c, cpu, it, acts, ins)
    ensures ActsOk(c, acts) && TopOk(c, cpu, it, acts[|acts| - 1]) && Saved(c, acts, cpu.mem)
  {
    hide ActsOk, TopOk, Saved, Reached;
  }

  lemma RunParts(c: Ctx, s: State)
    requires RunOk(c, s) && s.Running?
    ensures ActsOk(c, s.acts) && TopOk(c, s.cpu, s.it, s.acts[|s.acts| - 1]) && Saved(c, s.acts, s.cpu.mem)
    ensures s.acts != []
  {
    hide TopOk, Saved, Waits;
  }

  // ---- what a step does to the activations -------------------------------------------------

  /** Only the place of the last one differs. */
  ghost predicate TopMoves(x: seq<Act>, y: seq<Act>) {
    x != [] && |y| == |x| && y[..|x| - 1] == x[..|x| - 1] && y[|x| - 1] == x[|x| - 1].(pc := y[|x| - 1].pc)
  }

  /** The activation hands over to body t: as a veneer, or by a tail call. */
  ghost predicate Hands(c: Ctx, act: Act, t: int) {
    && act.body in c.image.nodes && act.pc in Insns(c, act.body)
    && if IsVeneer(c, act.body) then ThumbEntry(c.image, Insns(c, act.body)[act.body].target.value) == Some(t)
       else
         && act.body in c.findings && act.pc in c.findings[act.body].IN && c.findings[act.body].IN[act.pc].sp == Some(0)
         && BodyRules.Edge(t, TailEdge, act.pc) in CallsOf(c.image, c.image.nodes[act.body], Insns(c, act.body)[act.pc])
  }

  ghost predicate Replaced(c: Ctx, x: seq<Act>, y: seq<Act>) {
    && x != [] && |y| == |x| && y[..|x| - 1] == x[..|x| - 1]
    && y[|x| - 1].base == x[|x| - 1].base && Hands(c, x[|x| - 1], y[|x| - 1].body)
  }

  /** The last one calls, from where the analysis knows sp. */
  ghost predicate CallsFrom(c: Ctx, act: Act, callee: Act) {
    && act.body in c.image.nodes && act.pc in Insns(c, act.body) && !IsVeneer(c, act.body)
    && act.body in c.findings && act.pc in c.findings[act.body].IN
    && c.findings[act.body].IN[act.pc].Ok() && c.findings[act.body].IN[act.pc].sp.Some?
    && callee.base == act.base + c.findings[act.body].IN[act.pc].sp.value
    && BodyRules.Edge(callee.body, CallEdge, act.pc) in CallsOf(c.image, c.image.nodes[act.body], Insns(c, act.body)[act.pc])
  }

  ghost predicate Called(c: Ctx, x: seq<Act>, y: seq<Act>) {
    x != [] && |y| == |x| + 1 && y[..|x|] == x && CallsFrom(c, x[|x| - 1], y[|x|])
  }

  ghost predicate Moves(c: Ctx, x: seq<Act>, y: seq<Act>) {
    y == x || TopMoves(x, y) || Replaced(c, x, y) || Called(c, x, y) || (|x| > 1 && TopMoves(x[..|x| - 1], y))
  }

  /** sp of the running body, as the analysis knows it. */
  lemma TopBase(c: Ctx, cpu: Cpu, it: nat, act: Act)
    requires TopOk(c, cpu, it, act)
    ensures TopAbs(c, act).sp.Some? && cpu.sp == act.base + TopAbs(c, act).sp.value
  {
    hide SlotsHold, RegsHold, ItPlace;
  }

  lemma JumpMoves(c: Ctx, cpu: Cpu, it: nat, acts: seq<Act>, ins: Insn, mems: seq<Mem>, after: Cpu, s': State)
    requires TopRuns(c, cpu, it, acts, ins) && Exec(ins, cpu, mems, after)
    requires Branches(ins.flow) && ins.target.Some? && acts[|acts| - 1].body in c.image.nodes && after.Ok()
    requires Jump(c, after, ItNext(ins, it), acts, ins.target.value, s') && s'.Running?
    ensures Moves(c, acts, s'.acts)
  {
    hide TopRuns, Reached, Exec, Insns, IsVeneer, TopOk, ActsOk, Saved, CallsOf, FlowErrs, Next;
    TopNonempty(c, cpu, it, acts, ins);
    TopReached(c, cpu, it, acts, ins);
    TopParts(c, cpu, it, acts, ins);
    var act := acts[|acts| - 1];
    BranchFacts(c, act.body, act.pc, ins);
    ReachedFacts(c, act.body, act.pc, ins);
    NotVeneer(c, act.body, act.pc, ins);
    TopBase(c, cpu, it, act);
    if !Inside(c.image.nodes[act.body], ins.target.value) {
      QuietKeeps(ins, cpu, mems, after);
      TailEdgeOf(c, act.body, act.pc, ins);
      assert Replaced(c, acts, s'.acts);
    } else {
      assert TopMoves(acts, s'.acts);
    }
  }

  lemma NotVeneer(c: Ctx, b: int, a: int, ins: Insn)
    requires Reached(c, b, a, ins)
    ensures !IsVeneer(c, b) && b in c.image.nodes
  {
    hide WellFormed, CodeOk, ItBlocksOk, NodeHolds, ReturnOk, StoresOk, FlowErrs, CallsOf, IsVeneer;
  }

  lemma TailEdgeOf(c: Ctx, b: int, a: int, ins: Insn)
    requires Reached(c, b, a, ins) && Branches(ins.flow) && ins.target.Some? && !Inside(c.image.nodes[b], ins.target.value)
    ensures BodyRules.Edge(ins.target.value, TailEdge, a) in CallsOf(c.image, c.image.nodes[b], ins)
    ensures c.findings[b].IN[a].sp == Some(0)
  {
    BranchFacts(c, b, a, ins);
    FlowFacts(c, b, a, ins);
    hide ItBlocksOk, NodeHolds, ReturnOk, StoresOk, CodeOk, ItSet, FrameOf, FlowErrs, WellFormed;
  }

  lemma CallEdgeOf(c: Ctx, b: int, a: int, ins: Insn)
    requires Reached(c, b, a, ins) && ins.flow == Bl
    ensures ins.target.Some? && ins.target.value in c.image.nodes ==>
      BodyRules.Edge(ins.target.value, CallEdge, a) in CallsOf(c.image, c.image.nodes[b], ins)
  {
    hide ItBlocksOk, NodeHolds, ReturnOk, StoresOk, CodeOk, ItSet, FrameOf, FlowErrs, WellFormed;
  }

  lemma CallMoves(c: Ctx, cpu: Cpu, it: nat, acts: seq<Act>, ins: Insn, mems: seq<Mem>, after: Cpu, s': State)
    requires TopRuns(c, cpu, it, acts, ins) && Exec(ins, cpu, mems, after) && ins.flow == Bl && after.Ok()
    requires Call(c, after, ItNext(ins, it), acts, ins, s') && s'.Running?
    ensures Moves(c, acts, s'.acts)
  {
    hide TopRuns, Exec, Insns, IsVeneer, TopOk, ActsOk, Saved, WellFormed, Reached, CallsOf;
    TopNonempty(c, cpu, it, acts, ins);
    TopReached(c, cpu, it, acts, ins);
    TopParts(c, cpu, it, acts, ins);
    var act := acts[|acts| - 1];
    ReachedFacts(c, act.body, act.pc, ins);
    NotVeneer(c, act.body, act.pc, ins);
    CallEdgeOf(c, act.body, act.pc, ins);
    TopBase(c, cpu, it, act);
    CallKeeps(ins, cpu, mems, after);
    assert CallsFrom(c, act, s'.acts[|acts|]);
    assert Called(c, acts, s'.acts);
  }

  lemma FallMoves(c: Ctx, after: Cpu, it: nat, acts: seq<Act>, ins: Insn, s': State)
    requires acts != [] && Fallthrough(after, it, acts, ins, s')
    ensures Moves(c, acts, s'.acts)
  {
    assert TopMoves(acts, s'.acts);
  }

  lemma GoesMoves(c: Ctx, cpu: Cpu, it: nat, acts: seq<Act>, ins: Insn, mems: seq<Mem>, after: Cpu, taken: bool, to: int, s': State)
    requires acts != [] && after.Ok() && acts[|acts| - 1].body in c.image.nodes
    requires TopRuns(c, cpu, it, acts, ins) && Exec(ins, cpu, mems, after) && s'.Running?
    requires Goes(c, ins, after, ItNext(ins, it), acts, taken, to, s')
    ensures Moves(c, acts, s'.acts)
  {
    hide TopRuns, ItSet, Exec, Jump, Call, Reached, Called, Replaced, TopAbs;
    TopFlow(c, cpu, it, acts, ins);
    match ins.flow {
      case Bl => CallMoves(c, cpu, it, acts, ins, mems, after, s');
      case RetLr => assert TopMoves(acts[..|acts| - 1], s'.acts);
      case RetPop => assert TopMoves(acts[..|acts| - 1], s'.acts);
      case B => JumpMoves(c, cpu, it, acts, ins, mems, after, s');
      case Seq => FallMoves(c, after, ItNext(ins, it), acts, ins, s');
      case It => FallMoves(c, after, ItNext(ins, it), acts, ins, s');
      case _ =>
        if taken || (ins.flow == Le && ins.forever) {
          JumpMoves(c, cpu, it, acts, ins, mems, after, s');
        } else {
          FallMoves(c, after, ItNext(ins, it), acts, ins, s');
        }
    }
  }

  lemma VeneerMoves(c: Ctx, s: State, ch: Choice, s': State)
    requires RunOk(c, s) && Step(c, s, ch, s') && s'.Running? && !ch.Interrupt? && IsVeneer(c, s.acts[|s.acts| - 1].body)
    requires ProgramOk(c)
    ensures Moves(c, s.acts, s'.acts)
  {
    hide Waits, Saved, SlotsHold, RegsHold, Live, UnknownStoresSpare, Exec, ItPlace, ProgramOk;
    RunParts(c, s);
    var act := s.acts[|s.acts| - 1];
    var ins, t := VeneerFacts(c, act.body, s.it);
    TopBase(c, s.cpu, s.it, act);
    hide IsVeneer, Insns;
    assert ch.Execute?;
    QuietKeeps(ins, s.cpu, ch.mems, ch.after);
    assert Replaced(c, s.acts, s'.acts);
  }

  /** Every step of a run moves the activations in one of these ways. */
  lemma StepMoves(c: Ctx, s: State, ch: Choice, s': State)
    requires RunOk(c, s) && Step(c, s, ch, s') && s'.Running?
    requires ProgramOk(c)
    ensures Moves(c, s.acts, s'.acts)
  {
    hide ProgramOk, Waits, Saved, ItPlace, Live, UnknownStoresSpare, Exec, RunOk, Goes, WellFormed, TopOk, Moves;
    RunParts(c, s);
    var act := s.acts[|s.acts| - 1];
    if ch.Interrupt? {
      assert Moves(c, s.acts, s'.acts) by { SameMoves(c, s.acts); }
    } else if IsVeneer(c, act.body) {
      VeneerMoves(c, s, ch, s');
    } else {
      BodyMoves(c, s, ch, s');
    }
  }

  lemma SameMoves(c: Ctx, acts: seq<Act>)
    ensures Moves(c, acts, acts)
  {
  }

  lemma BodyMoves(c: Ctx, s: State, ch: Choice, s': State)
    requires RunOk(c, s) && Step(c, s, ch, s') && s'.Running? && !ch.Interrupt? && !IsVeneer(c, s.acts[|s.acts| - 1].body)
    requires ProgramOk(c)
    ensures Moves(c, s.acts, s'.acts)
  {
    hide ProgramOk, Waits, Saved, ItPlace, Live, UnknownStoresSpare, Exec, RunOk, Goes, WellFormed, IsVeneer, TopOk, Called, Replaced;
    RunParts(c, s);
    var acts := s.acts;
    var act := acts[|acts| - 1];
    var ins := ReachedInsn(c, act.body, act.pc);
    ReachedFacts(c, act.body, act.pc, ins);
    BodyNode(c, act.body, act.pc, ins);
    hide Reached, ActsOk, TopAbs;
    if ch.Skip? {
      assert TopMoves(acts, s'.acts);
    } else {
      AfterOk(ins, s.cpu, ch.mems, ch.after);
      GoesMoves(c, s.cpu, s.it, acts, ins, ch.mems, ch.after, ch.taken, ch.to, s');
    }
  }

  // ---- how high the activations lie --------------------------------------------------------------

  /** Each activation, and as far as it may rise, lies below what the one before it may
      reach. */
  ghost predicate Heights(c: Ctx, acts: seq<Act>) {
    && acts != [] && c.root in c.rise && (forall i :: 0 <= i < |acts| ==> acts[i].body in c.rise)
    && acts[0].base + c.rise[acts[0].body] <= c.sp0 + c.rise[c.root]
    && forall i :: 0 < i < |acts| ==>
         acts[i].base + c.rise[acts[i].body] <= acts[i - 1].base + c.rise[acts[i - 1].body]
  }

  /** And below the words that hold the return address of the one before it. */
  ghost predicate Spared(c: Ctx, acts: seq<Act>)
    requires forall i :: 0 <= i < |acts| ==> acts[i].body in c.rise
  {
    forall i :: 0 < i < |acts| ==> SparesWords(c, acts[i - 1], acts[i])
  }

  ghost predicate SparesWords(c: Ctx, act: Act, next: Act)
    requires next.body in c.rise
  {
    forall x :: x in CallAbs(c, act).slots ==> next.base + c.rise[next.body] <= act.base + x
  }

  lemma HandsLower(c: Ctx, act: Act, t: int)
    requires Hands(c, act, t) && RiseOk(c, act.body)
    ensures t in c.rise && c.rise[t] <= c.rise[act.body]
  {
    hide IsVeneer, Insns, CallsOf;
    if !IsVeneer(c, act.body) {
      assert RiseAt(c, act.body, act.pc);
    }
  }

  lemma CallsLower(c: Ctx, act: Act, callee: Act)
    requires CallsFrom(c, act, callee) && RiseOk(c, act.body)
    ensures callee.body in c.rise && act.body in c.rise && callee.base + c.rise[callee.body] <= act.base + c.rise[act.body]
    ensures Spares(c, act.body) ==> SparesWords(c, act, callee)
  {
    hide IsVeneer, Insns, CallsOf, Transfer;
    assert RiseAt(c, act.body, act.pc);
    assert Spares(c, act.body) ==> SparesAt(c, act.body, act.pc);
    var e := BodyRules.Edge(callee.body, CallEdge, act.pc);
    assert e in CallsOf(c.image, c.image.nodes[act.body], Insns(c, act.body)[act.pc]) && e.kind == CallEdge && e.callee == callee.body;
  }

  ghost predicate Lower(c: Ctx, x: Act, y: Act) {
    x.body in c.rise && y.body in c.rise && y.base + c.rise[y.body] <= x.base + c.rise[x.body]
  }

  /** The last activation gives way to one that may reach no higher. */
  lemma LastLower(c: Ctx, x: seq<Act>, y: seq<Act>)
    requires x != [] && |y| == |x| && y[..|x| - 1] == x[..|x| - 1] && Heights(c, x) && Lower(c, x[|x| - 1], y[|x| - 1])
    ensures Heights(c, y) && (Spared(c, x) ==> Spared(c, y))
  {
    hide CallAbs;
    Same(x, y, |x| - 1);
    if Spared(c, x) {
      forall i | 0 < i < |y|
        ensures SparesWords(c, y[i - 1], y[i])
      {
        assert SparesWords(c, x[i - 1], x[i]);
      }
    }
  }

  lemma OneMore(c: Ctx, x: seq<Act>, y: seq<Act>)
    requires x != [] && |y| == |x| + 1 && y[..|x|] == x && Heights(c, x) && Lower(c, x[|x| - 1], y[|x|])
    ensures Heights(c, y) && (Spared(c, x) && SparesWords(c, x[|x| - 1], y[|x|]) ==> Spared(c, y))
  {
    hide CallAbs, SparesWords;
    Same(x, y, |x|);
  }

  lemma OneLess(c: Ctx, x: seq<Act>)
    requires |x| > 1 && Heights(c, x)
    ensures Heights(c, x[..|x| - 1]) && (Spared(c, x) ==> Spared(c, x[..|x| - 1]))
  {
    hide CallAbs, SparesWords;
  }

  lemma MovesKeep(c: Ctx, x: seq<Act>, y: seq<Act>)
    requires Moves(c, x, y) && Heights(c, x)
    requires RiseOk(c, x[|x| - 1].body)
    ensures Heights(c, y)
    ensures Spares(c, x[|x| - 1].body) && Spared(c, x) ==> Spared(c, y)
  {
    var n := |x| - 1;
    HeightsBodies(c, x);
    hide Hands, CallsFrom, RiseOk, Spares, CallAbs, Heights, Spared, SparesWords;
    if Replaced(c, x, y) {
      HandsLower(c, x[n], y[n].body);
      LastLower(c, x, y);
    } else if Called(c, x, y) {
      CallsLower(c, x[n], y[n + 1]);
      OneMore(c, x, y);
    } else if TopMoves(x, y) {
      LastLower(c, x, y);
    } else if |x| > 1 && TopMoves(x[..n], y) {
      OneLess(c, x);
      assert x[..n][n - 1] == x[n - 1];
      LastLower(c, x[..n], y);
    }
  }

  lemma HeightsBodies(c: Ctx, acts: seq<Act>)
    requires Heights(c, acts)
    ensures acts != [] && forall i :: 0 <= i < |acts| ==> acts[i].body in c.rise
  {
  }

  lemma Same(x: seq<Act>, y: seq<Act>, n: nat)
    requires n <= |x| && n <= |y| && y[..n] == x[..n]
    ensures forall i :: 0 <= i < n ==> y[i] == x[i]
  {
    forall i | 0 <= i < n
      ensures y[i] == x[i]
    {
      assert y[..n][i] == x[..n][i];
    }
  }

  lemma TopBody(c: Ctx, s: State)
    requires RunOk(c, s) && s.Running?
    ensures s.acts != [] && s.acts[|s.acts| - 1].body in c.bodies
  {
    hide TopOk, Saved, Waits;
  }

  /** Every step keeps the activations under the rise of the root. */
  lemma HeightsKept(c: Ctx, s: State, ch: Choice, s': State)
    requires RunOk(c, s) && s.Running? && Step(c, s, ch, s') && s'.Running? && Heights(c, s.acts)
    requires forall b :: b in c.bodies ==> RiseOk(c, b)
    requires ProgramOk(c)
    ensures Heights(c, s'.acts)
    ensures (forall b :: b in c.bodies ==> Spares(c, b)) && Spared(c, s.acts) ==> Spared(c, s'.acts)
  {
    hide ProgramOk, RunOk, Step, Moves, RiseOk, Spares, Spared, Heights;
    TopBody(c, s);
    StepMoves(c, s, ch, s');
    MovesKeep(c, s.acts, s'.acts);
  }

  lemma {:induction false} HeightsFall(c: Ctx, acts: seq<Act>, i: nat, k: nat)
    requires Heights(c, acts) && i <= k < |acts|
    ensures acts[k].base + c.rise[acts[k].body] <= acts[i].base + c.rise[acts[i].body] <= c.sp0 + c.rise[c.root]
  {
    if i < k {
      HeightsFall(c, acts, i, k - 1);
    } else if i > 0 {
      HeightsFall(c, acts, i - 1, i - 1);
    }
  }

  /** The running body is at most as high as its rise. */
  lemma TopRise(c: Ctx, cpu: Cpu, it: nat, act: Act)
    requires Placed(c, act) && TopOk(c, cpu, it, act) && RiseOk(c, act.body)
    requires ProgramOk(c)
    ensures cpu.sp <= act.base + c.rise[act.body]
  {
    hide SlotsHold, RegsHold, ItPlace, ProgramOk, RiseOk, TopOk;
    TopBase(c, cpu, it, act);
    assert act.body in c.rise by { RiseHas(c, act.body); }
    if !IsVeneer(c, act.body) {
      var ins := ReachedInsn(c, act.body, act.pc);
      ReachedFacts(c, act.body, act.pc, ins);
      PlaceRise(c, act.body, act.pc);
    }
  }

  lemma RiseHas(c: Ctx, b: int)
    requires RiseOk(c, b)
    ensures b in c.rise
  {
  }

  lemma PlaceRise(c: Ctx, b: int, a: int)
    requires RiseOk(c, b) && !IsVeneer(c, b) && b in c.findings && a in c.findings[b].IN && a in Insns(c, b)
    requires c.findings[b].IN[a].sp.Some?
    ensures c.findings[b].IN[a].sp.value <= c.rise[b]
  {
    assert RiseAt(c, b, a);
  }

  // ---- interrupts ---------------------------------------------------------------------------

  /** Every word that holds the return address of an activation that can still be returned
      to lies at or above sp. */
  ghost predicate AllAbove(c: Ctx, acts: seq<Act>, sp: int) {
    forall i, x :: 0 <= i < |acts| && AliveAbove(c, acts, i) && x in Shown(c, acts, i).slots ==> sp <= acts[i].base + x
  }

  /** When no body that is called rises above the caller's saved words, all of them lie at
      or above sp, at any depth. */
  lemma CalmAbove(c: Ctx, cpu: Cpu, it: nat, acts: seq<Act>)
    requires ActsOk(c, acts) && TopOk(c, cpu, it, acts[|acts| - 1]) && Heights(c, acts) && Spared(c, acts) && Calm(c)
    requires ProgramOk(c)
    ensures AllAbove(c, acts, cpu.sp)
  {
    hide ProgramOk, Waits, AliveAbove, ItPlace, RegsHold, Spared, RiseOk, Spares, Heights, SlotsHold, CallAbs;
    var n := |acts| - 1;
    TopRise(c, cpu, it, acts[n]);
    forall i, x | 0 <= i < |acts| && AliveAbove(c, acts, i) && x in Shown(c, acts, i).slots
      ensures cpu.sp <= acts[i].base + x
    {
      if i < n {
        OneSpared(c, acts, i, x);
        HeightsFall(c, acts, i + 1, n);
      }
    }
  }

  lemma OneSpared(c: Ctx, acts: seq<Act>, i: nat, x: int)
    requires Heights(c, acts) && Spared(c, acts) && i < |acts| - 1 && x in CallAbs(c, acts[i]).slots
    ensures acts[i + 1].base + c.rise[acts[i + 1].body] <= acts[i].base + x
  {
    hide CallAbs;
    assert SparesWords(c, acts[i + 1 - 1], acts[i + 1]);
  }

  /** An interrupt keeps the invariant where all those words are above sp. */
  lemma InterruptKeeps(c: Ctx, cpu: Cpu, it: nat, acts: seq<Act>, mem: Mem)
    requires ActsOk(c, acts) && TopOk(c, cpu, it, acts[|acts| - 1]) && Saved(c, acts, cpu.mem)
    requires KeptFrom(cpu.sp, cpu.mem, mem) && AllAbove(c, acts, cpu.sp)
    requires ProgramOk(c)
    ensures RunOk(c, Running(cpu.(mem := mem), it, acts))
  {
    hide ProgramOk, Waits, Shown, Saved, AliveAbove, WordAt, ItPlace, RegsHold, TopAbs;
    var n := |acts| - 1;
    var act := acts[n];
    TopSp(c, cpu, it, act);
    DepthFalls(c, acts, n);
    forall x | x in TopAbs(c, act).slots
      ensures WordAt(mem, act.base + x) == act.link
    {
      assert WordAt(cpu.mem, act.base + x) == act.link;
    }
    forall i, x | 0 <= i < n && AliveAbove(c, acts, i) && x in Shown(c, acts, i).slots
      ensures WordAt(mem, acts[i].base + x) == WordAt(cpu.mem, acts[i].base + x)
    {
      OuterBelow(c, acts, i, x);
      BaseSpan(c, acts, i, n);
      DepthFalls(c, acts, i);
    }
    assert OuterKept(c, acts, cpu.mem, mem);
    hide TopOk, ActsOk, SlotsHold;
    assert acts[n := act] == acts;
    InterruptTop(c, cpu, it, act, mem);
    SavedAfter(c, acts, act, cpu.mem, mem);
  }

  lemma InterruptTop(c: Ctx, cpu: Cpu, it: nat, act: Act, mem: Mem)
    requires TopOk(c, cpu, it, act) && SlotsHold(TopAbs(c, act).slots, act.base, act.link, mem)
    ensures TopOk(c, cpu.(mem := mem), it, act)
  {
    hide TopAbs, ItPlace, SlotsHold;
  }

  lemma OuterBelow(c: Ctx, acts: seq<Act>, i: nat, x: int)
    requires i < |acts| - 1 && x in Shown(c, acts, i).slots
    requires ActsOk(c, acts)
    requires ProgramOk(c)
    ensures acts[i].base + x + 4 <= acts[i].base
  {
    hide Waits, ProgramOk;
    ActsWait(c, acts, i);
    CallAbsFacts(c, acts[i], acts[i + 1]);
  }

  /** Memory with the byte at p changed. */
  function Spoilt(m: Mem, p: int): Mem {
    q => if q == U32(p) then (m(q) + 1) % 256 else m(q)
  }

  lemma SpoiltWord(m: Mem, p: int)
    ensures WordAt(Spoilt(m, p), p) != WordAt(m, p)
  {
    U32Distinct(p, p + 1);
    U32Distinct(p, p + 2);
    U32Distinct(p, p + 3);
  }

  /** Only words around p change, and none of those from sp up, when p is below sp. */
  lemma SpoiltBelow(m: Mem, p: int, sp: int)
    requires p < sp <= p + 0x8000_0000
    ensures KeptFrom(sp, m, Spoilt(m, p))
  {
    forall q | sp <= q && q + 4 <= sp + 0x8000_0000
      ensures WordAt(Spoilt(m, p), q) == WordAt(m, q)
    {
      U32Distinct(p, q);
      U32Distinct(p, q + 1);
      U32Distinct(p, q + 2);
      U32Distinct(p, q + 3);
    }
  }

  lemma LostWord(c: Ctx, cpu: Cpu, it: nat, acts: seq<Act>, i: nat, x: int)
    requires ActsOk(c, acts) && TopOk(c, cpu, it, acts[|acts| - 1]) && Saved(c, acts, cpu.mem)
    requires cpu.sp < acts[|acts| - 1].base + 0x8000_0000
    requires i < |acts| && AliveAbove(c, acts, i) && x in Shown(c, acts, i).slots && acts[i].base + x < cpu.sp
    requires ProgramOk(c)
    ensures KeptFrom(cpu.sp, cpu.mem, Spoilt(cpu.mem, acts[i].base + x))
    ensures !RunOk(c, Running(cpu.(mem := Spoilt(cpu.mem, acts[i].base + x)), it, acts))
  {
    hide ProgramOk, Waits, AliveAbove, WordAt, ItPlace, RegsHold, KeptFrom, Spoilt;
    var p := acts[i].base + x;
    assert i < |acts| - 1;
    OuterPlace(c, acts, i, x);
    SpoiltBelow(cpu.mem, p, cpu.sp);
    SpoiltWord(cpu.mem, p);
  }

  /** Exactly then: sp not being half the address space above the body's entry, every
      interrupt keeps the invariant if and only if no word that holds the return address of
      an activation that can still be returned to lies below sp. */
  lemma InterruptExact(c: Ctx, cpu: Cpu, it: nat, acts: seq<Act>)
    requires ActsOk(c, acts) && TopOk(c, cpu, it, acts[|acts| - 1]) && Saved(c, acts, cpu.mem)
    requires cpu.sp < acts[|acts| - 1].base + 0x8000_0000
    requires ProgramOk(c)
    ensures (forall mem :: KeptFrom(cpu.sp, cpu.mem, mem) ==> RunOk(c, Running(cpu.(mem := mem), it, acts)))
       <==> AllAbove(c, acts, cpu.sp)
  {
    hide ProgramOk, ActsOk, TopOk, Saved, KeptFrom, RunOk, Spoilt, AliveAbove, Shown;
    if AllAbove(c, acts, cpu.sp) {
      forall mem | KeptFrom(cpu.sp, cpu.mem, mem)
        ensures RunOk(c, Running(cpu.(mem := mem), it, acts))
      {
        InterruptKeeps(c, cpu, it, acts, mem);
      }
    } else {
      var i: nat, x :| i < |acts| && AliveAbove(c, acts, i) && x in Shown(c, acts, i).slots && !(cpu.sp <= acts[i].base + x);
      LostWord(c, cpu, it, acts, i, x);
    }
  }
}
