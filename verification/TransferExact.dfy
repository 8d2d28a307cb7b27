/** The analysis forgets no more than it must: where it gives up the position of a register,
    or the address of an access, no position would be right. */
module TransferExact {
  import opened Thumb
  import opened Machine
  import opened ReturnAnalysis
  import opened BodyRules
  import opened StepSoundness

  /** A processor that is as the state says, with x in every register it does not know. */
  function Sample(st: Abs, base: int, x: int, b: Byte): (cpu: Cpu)
    requires st.Ok()
    ensures cpu.Ok()
  {
    Cpu(if st.sp.Some? then base + st.sp.value else x,
        seq(16, i requires 0 <= i < 16 => if st.regs[i].Some? then base + st.regs[i].value else x),
        _ => b)
  }

  ghost predicate Agrees(st: Abs, base: int, cpu: Cpu) {
    st.Ok() && cpu.Ok() && (st.sp.Some? ==> cpu.sp == base + st.sp.value) && RegsHold(st, base, cpu)
  }

  lemma SampleAgrees(st: Abs, base: int, x: int, b: Byte)
    requires st.Ok()
    ensures Agrees(st, base, Sample(st, base, x, b))
  {
  }

  lemma NotBoth(c: int, v: int)
    ensures U32(c) != U32(v) || U32(c + 1) != U32(v)
    ensures U32(0) != U32(v) || U32(0x101_0101) != U32(v)
  {
    U32Distinct(c, c + 1);
  }

  lemma ConstantWord(b: Byte, p: int)
    ensures WordAt(_ => b, p) == b * 0x101_0101
  {
  }

  /** After an instruction that ran in a processor the state speaks of, r need not be at
      position w. */
  ghost predicate Elsewhere(st: Abs, base: int, ins: Insn, r: Reg, w: int) {
    exists cpu, v :: Agrees(st, base, cpu) && RegEffect(ins, cpu, r, v) && U32(v) != U32(base + w)
  }

  lemma Shows(st: Abs, base: int, ins: Insn, r: Reg, w: int, cpu: Cpu, v: int)
    requires Agrees(st, base, cpu) && RegEffect(ins, cpu, r, v) && U32(v) != U32(base + w)
    ensures Elsewhere(st, base, ins, r, w)
  {
  }

  /** A loaded register holds whatever was in memory. */
  lemma LoadedUnknown(st: Abs, base: int, ins: Insn, r: Reg, w: int)
    requires st.Ok() && r in Loaded(ins.ld)
    ensures Elsewhere(st, base, ins, r, w)
  {
    hide RegsHold, U32, WordAt;
    NotBoth(0, base + w);
    var b: Byte := if U32(0) != U32(base + w) then 0 else 1;
    var cpu, v := Sample(st, base, 0, b), b * 0x101_0101;
    SampleAgrees(st, base, 0, b);
    forall l | l in ins.ld && l.dest == r
      ensures LoadEffect(cpu, l, v)
    {
      if l.n == 4 && l.off.Some? && l.base != PC {
        ConstantWord(b, cpu.Reg(l.base) + l.off.value);
      }
    }
    Shows(st, base, ins, r, w, cpu, v);
  }

  /** v0 and v1 are what r holds when the unknown registers hold 0 and 1. */
  lemma OneOfTwo(st: Abs, base: int, ins: Insn, r: Reg, w: int, v0: int, v1: int)
    requires st.Ok() && v1 == v0 + 1
    requires RegEffect(ins, Sample(st, base, 0, 0), r, v0) && RegEffect(ins, Sample(st, base, 1, 0), r, v1)
    ensures Elsewhere(st, base, ins, r, w)
  {
    hide RegEffect, U32, Sample, Agrees;
    SampleAgrees(st, base, 0, 0);
    SampleAgrees(st, base, 1, 0);
    NotBoth(v0, base + w);
    if U32(v0) != U32(base + w) {
      Shows(st, base, ins, r, w, Sample(st, base, 0, 0), v0);
    } else {
      Shows(st, base, ins, r, w, Sample(st, base, 1, 0), v1);
    }
  }

  /** The value that makes the effect of an instruction on r true in a given processor. */
  function After(ins: Insn, cpu: Cpu, r: Reg, free: int): int
    requires cpu.Ok()
  {
    if ins.wb.Some? && ins.wb.value.base == r then
      if ins.wb.value.delta.Some? then cpu.regs[r] + ins.wb.value.delta.value else free
    else if ins.arith.Some? && ins.arith.value.rd == r then
      if ins.arith.value.rn != PC then cpu.Reg(ins.arith.value.rn) + ins.arith.value.imm else free
    else if r in ins.wr then free
    else cpu.regs[r]
  }

  /** A register is given up only where no position is right in every processor the state
      speaks of. */
  lemma ForgetsOnlyUnknown(st: Abs, base: int, ins: Insn, r: Reg, w: int)
    requires st.Ok() && r != SP && r != PC && !IsCall(ins) && RegAfter(st, ins, r).None?
    ensures Elsewhere(st, base, ins, r, w)
  {
    if r in Loaded(ins.ld) {
      LoadedUnknown(st, base, ins, r, w);
    } else {
      var c0, c1 := Sample(st, base, 0, 0), Sample(st, base, 1, 0);
      assert RegEffect(ins, c0, r, After(ins, c0, r, 0)) && RegEffect(ins, c1, r, After(ins, c1, r, 1));
      assert After(ins, c1, r, 1) == After(ins, c0, r, 0) + 1;
      OneOfTwo(st, base, ins, r, w, After(ins, c0, r, 0), After(ins, c1, r, 1));
    }
  }

  /** The same for the address of an access through a register at a constant offset. */
  lemma AddressUnknown(st: Abs, base: int, b: Reg, off: int, w: int) returns (cpu: Cpu)
    requires st.Ok() && b != PC && Addr(st, b, Some(off)).None?
    ensures Agrees(st, base, cpu) && U32(cpu.Reg(b) + off) != U32(base + w)
  {
    var c0, c1 := Sample(st, base, 0, 0), Sample(st, base, 1, 0);
    SampleAgrees(st, base, 0, 0);
    SampleAgrees(st, base, 1, 0);
    NotBoth(c0.Reg(b) + off, base + w);
    assert c1.Reg(b) + off == c0.Reg(b) + off + 1;
    cpu := if U32(c0.Reg(b) + off) != U32(base + w) then c0 else c1;
  }

  /** Over a call the analysis keeps the registers that a callee must give back, and no
      others. */
  lemma CallKeeps(st: Abs, ins: Insn, r: Reg)
    requires st.Ok() && ins.flow == Bl && WellFormed(ins) && r != SP && r != PC
    ensures RegAfter(st, ins, r) == if 4 <= r <= 11 then st.regs[r] else None
  {
    assert 4 <= r <= 11 <==> r !in CALL_CLOBBERS;
  }
}
