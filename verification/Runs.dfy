/** Whole runs of a linked image: steps inside a body, calls, tail calls, veneers and
    returns, to any depth, with interrupts in between. */
module Runs {
  import opened Thumb
  import opened Machine
  import opened ReturnAnalysis
  import opened BodyRules
  import opened ItBlocks
  import opened StepSoundness

  /** One activation.  `base`, `link` and `kept` record sp, lr and the registers at
      its call; nothing the machine does depends on `base`. */
  datatype Act = Act(body: int, pc: int, base: int, link: int, kept: seq<int>)

  /** `it` counts the conditional instructions still to come.  Wild: control went
      where the image does not say, or back to anything but the return address. */
  datatype State =
    | Running(cpu: Cpu, it: nat, acts: seq<Act>)
    | Done(end: Cpu, to: int)
    | Wild

  /** What the machine or its surroundings choose in one step. */
  datatype Choice =
    | Interrupt(mem: Mem)
    | Skip
    | Execute(mems: seq<Mem>, after: Cpu, taken: bool, to: int)

  /** A program and what its analysis found: the findings of each body, the bodies the
      root reaches, a bound of the stack below each, and of how far sp rises above its
      entry, the bodies it calls included. */
  datatype Ctx = Ctx(
    image: Image,
    findings: map<int, Findings>,
    bodies: set<int>,
    depth: map<int, nat>,
    rise: map<int, nat>,
    root: int,
    sp0: int,
    lr0: int,
    async: bool)  // interrupts use the running stack

  function Insns(c: Ctx, body: int): map<int, Insn> {
    if body in c.image.nodes then InsnMap(c.image.nodes[body].code) else map[]
  }

  predicate IsVeneer(c: Ctx, body: int) {
    && body in c.image.nodes && body in Insns(c, body)
    && VeneerShape(c.image.nodes[body], Insns(c, body)[body])
  }

  /** What the analysis says where an activation stands. */
  function TopAbs(c: Ctx, act: Act): Abs {
    if !IsVeneer(c, act.body) && act.body in c.findings && act.pc in c.findings[act.body].IN
    then c.findings[act.body].IN[act.pc] else Entry()
  }

  /** What it says after the call an activation is waiting for. */
  function CallAbs(c: Ctx, act: Act): Abs {
    if TopAbs(c, act).Ok() && act.pc in Insns(c, act.body)
    then Transfer(TopAbs(c, act), Insns(c, act.body)[act.pc]) else Entry()
  }

  function Shown(c: Ctx, acts: seq<Act>, i: int): Abs
    requires 0 <= i < |acts|
  {
    if i == |acts| - 1 then TopAbs(c, acts[i]) else CallAbs(c, acts[i])
  }

  /** The positions of the words that hold return addresses, of all activations. */
  ghost function Live(c: Ctx, acts: seq<Act>): set<int> {
    if acts == [] then {}
    else Waiting(c, acts[..|acts| - 1]) + Places(TopAbs(c, acts[|acts| - 1]).slots, acts[|acts| - 1].base)
  }

  ghost function Waiting(c: Ctx, acts: seq<Act>): set<int> {
    if acts == [] then {}
    else Waiting(c, acts[..|acts| - 1]) + Places(CallAbs(c, acts[|acts| - 1]).slots, acts[|acts| - 1].base)
  }

  ghost function Places(slots: set<int>, base: int): set<int> {
    set x | x in slots :: base + x
  }

  // ---- steps -----------------------------------------------------------------

  /** An interrupt may leave anything below sp; what is at or above sp stays. */
  ghost predicate KeptFrom(sp: int, m: Mem, m': Mem) {
    forall p :: sp <= p && p + 4 <= sp + 0x8000_0000 ==> WordAt(m', p) == WordAt(m, p)
  }

  /** Control goes to t: inside the body, or to the entry of a function. */
  ghost predicate Jump(c: Ctx, after: Cpu, it: nat, acts: seq<Act>, t: int, s': State)
    requires acts != [] && after.Ok() && acts[|acts| - 1].body in c.image.nodes
  {
    var n := |acts| - 1;
    if Inside(c.image.nodes[acts[n].body], t) then s' == Running(after, it, acts[n := acts[n].(pc := t)])
    else if t in c.image.nodes then
      s' == Running(after, it, acts[n := Act(t, t, after.sp, after.regs[LR], acts[n].kept)])
    else s' == Wild
  }

  ghost predicate Call(c: Ctx, after: Cpu, it: nat, acts: seq<Act>, ins: Insn, s': State)
    requires acts != [] && after.Ok()
  {
    if ins.target.Some? && ins.target.value in c.image.nodes then
      && after.regs[LR] == ins.Fall()
      && s' == Running(after, it, acts + [Act(ins.target.value, ins.target.value, after.sp, ins.Fall(), after.regs)])
    else s' == Wild
  }

  /** Control goes back to address `to`.  The assumption on callees: r4 to r11 are as
      they were at the call (section 6.1.1 of AAPCS32). */
  ghost predicate Return(after: Cpu, it: nat, acts: seq<Act>, to: int, s': State)
    requires acts != [] && after.Ok()
  {
    var n := |acts| - 1;
    if n == 0 then s' == Done(after, to)
    else if to == acts[n].link then
      && |acts[n].kept| == 16 && (forall r :: 4 <= r <= 11 ==> after.regs[r] == acts[n].kept[r])
      && s' == Running(after, it, acts[..n][n - 1 := acts[n - 1].(pc := to)])
    else s' == Wild
  }

  ghost predicate Fallthrough(after: Cpu, it: nat, acts: seq<Act>, ins: Insn, s': State)
    requires acts != []
  {
    s' == Running(after, it, acts[|acts| - 1 := acts[|acts| - 1].(pc := ins.Fall())])
  }

  ghost predicate Goes(c: Ctx, ins: Insn, after: Cpu, it: nat, acts: seq<Act>, taken: bool, to: int, s': State)
    requires acts != [] && after.Ok() && acts[|acts| - 1].body in c.image.nodes
  {
    match ins.flow
    case Seq => Fallthrough(after, it, acts, ins, s')
    case It => Fallthrough(after, it, acts, ins, s')
    case B => if ins.target.Some? then Jump(c, after, it, acts, ins.target.value, s') else s' == Wild
    case Bl => Call(c, after, it, acts, ins, s')
    case RetLr => Return(after, it, acts, after.regs[LR], s')
    case RetPop => Return(after, it, acts, to, s')
    case LitPc =>
      if IsVeneer(c, acts[|acts| - 1].body) && acts[|acts| - 1].pc == acts[|acts| - 1].body
         && ins.target.Some? && ThumbEntry(c.image, ins.target.value).Some?
      then Jump(c, after, it, acts, ThumbEntry(c.image, ins.target.value).value, s')
      else s' == Wild
    case Trap => s' == Wild
    case Secure => s' == Wild
    case Undef => s' == Wild
    case IndCall => s' == Wild
    case IndJump => s' == Wild
    case _ =>  // Bcc, Cbz, Le, Wls
      if ins.target.None? then s' == Wild
      else if taken || (ins.flow == Le && ins.forever) then Jump(c, after, it, acts, ins.target.value, s')
      else Fallthrough(after, it, acts, ins, s')
  }

  ghost predicate Step(c: Ctx, s: State, ch: Choice, s': State) {
    && s.Running? && s.acts != [] && s.cpu.Ok()
    && var n := |s.acts| - 1;
       var act := s.acts[n];
       match ch
       case Interrupt(mem) =>
         c.async && KeptFrom(s.cpu.sp, s.cpu.mem, mem) && s' == Running(s.cpu.(mem := mem), s.it, s.acts)
       case Skip =>
         && act.pc in Insns(c, act.body) && s.it > 0
         && Fallthrough(s.cpu, ItNext(Insns(c, act.body)[act.pc], s.it), s.acts, Insns(c, act.body)[act.pc], s')
       case Execute(mems, after, taken, to) =>
         if act.pc !in Insns(c, act.body) then s' == Wild
         else
           var ins := Insns(c, act.body)[act.pc];
           && Exec(ins, s.cpu, mems, after)
           && (TopAbs(c, act).Ok() ==> UnknownStoresSpare(TopAbs(c, act), ins, mems, Live(c, s.acts)))
           && (forall l :: l in ins.ld && l.dest == PC ==> LoadEffect(s.cpu, l, to))
           && Goes(c, ins, after, ItNext(ins, s.it), s.acts, taken, to, s')
  }

  /** At the entry of the root: anything in the registers and in memory. */
  ghost predicate Starts(c: Ctx, s: State) {
    && s.Running? && s.cpu.Ok() && s.it == 0
    && s.cpu.sp == c.sp0 && s.cpu.regs[LR] == c.lr0
    && s.acts == [Act(c.root, c.root, c.sp0, c.lr0, s.cpu.regs)]
  }

  ghost predicate IsRun(c: Ctx, states: seq<State>, choices: seq<Choice>) {
    && |states| == |choices| + 1 && Starts(c, states[0])
    && forall i :: 0 <= i < |choices| ==> Step(c, states[i], choices[i], states[i + 1])
  }
}
