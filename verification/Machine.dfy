/** What an instruction does to sp, the core registers and memory, as far as the
    decoder says; everything it does not say may happen. */
module Machine {
  import opened Thumb

  type Byte = b: int | 0 <= b < 256

  /** Memory, by 32-bit address. */
  type Mem = int -> Byte

  /** sp is kept as an unbounded position whose address is U32(sp), so that a change
      of sp by a constant moves it by that constant.  Entries SP and PC of `regs`
      are not used. */
  datatype Cpu = Cpu(sp: int, regs: seq<int>, mem: Mem)
  {
    predicate Ok() {
      |regs| == 16
    }

    function Reg(r: Reg): int
      requires Ok()
    {
      if r == SP then sp else regs[r]
    }
  }

  /** The little-endian word at position p. */
  function WordAt(mem: Mem, p: int): int {
    mem(U32(p)) + 0x100 * mem(U32(p + 1)) + 0x1_0000 * mem(U32(p + 2)) + 0x100_0000 * mem(U32(p + 3))
  }

  /** Address q is one of the n bytes from position p. */
  predicate Hits(p: int, n: nat, q: int) {
    U32(q - p) < n
  }

  /** One store: bytes outside it keep their values; a full word from a core
      register arrives.  At an unknown offset or of an unknown size, anything. */
  ghost predicate StoreEffect(cpu: Cpu, s: Store, m: Mem, m': Mem)
    requires cpu.Ok()
  {
    s.off.Some? && s.n.Some? && s.base != PC ==>
      var p := cpu.Reg(s.base) + s.off.value;
      && (forall q :: !Hits(p, s.n.value, q) ==> m'(q) == m(q))
      && (s.src.Some? && s.src.value != SP && s.src.value != PC && s.n.value == 4 ==>
            WordAt(m', p) == cpu.regs[s.src.value])
  }

  ghost predicate StoresEffect(cpu: Cpu, sts: seq<Store>, mems: seq<Mem>)
    requires cpu.Ok()
  {
    && |mems| == |sts| + 1
    && forall i :: 0 <= i < |sts| ==> StoreEffect(cpu, sts[i], mems[i], mems[i + 1])
  }

  ghost predicate LoadEffect(cpu: Cpu, l: Load, v: int)
    requires cpu.Ok()
  {
    l.n == 4 && l.off.Some? && l.base != PC ==> v == WordAt(cpu.mem, cpu.Reg(l.base) + l.off.value)
  }

  /** The value v that register r holds after the instruction. */
  ghost predicate RegEffect(ins: Insn, cpu: Cpu, r: Reg, v: int)
    requires cpu.Ok()
  {
    if r in Loaded(ins.ld) then forall l :: l in ins.ld && l.dest == r ==> LoadEffect(cpu, l, v)
    else if ins.wb.Some? && ins.wb.value.base == r then
      ins.wb.value.delta.Some? ==> U32(v) == U32(cpu.regs[r] + ins.wb.value.delta.value)
    else if ins.arith.Some? && ins.arith.value.rd == r then
      ins.arith.value.rn != PC ==> U32(v) == U32(cpu.Reg(ins.arith.value.rn) + ins.arith.value.imm)
    else r in ins.wr || v == cpu.regs[r]
  }

  /** The instruction takes cpu to cpu', storing through the memories `mems`. */
  ghost predicate Exec(ins: Insn, cpu: Cpu, mems: seq<Mem>, cpu': Cpu) {
    && cpu.Ok() && cpu'.Ok()
    && StoresEffect(cpu, ins.st, mems) && mems[0] == cpu.mem && mems[|ins.st|] == cpu'.mem
    && (if SP in ins.wr then ins.spKnown ==> cpu'.sp == cpu.sp + ins.sp else cpu'.sp == cpu.sp)
    && forall r: Reg :: r != SP && r != PC ==> RegEffect(ins, cpu, r, cpu'.regs[r])
  }

  /** What the decoder guarantees of every instruction whose encoding has a defined
      effect. */
  ghost predicate WellFormed(ins: Insn) {
    && (ins.ld == [] || ins.st == [])
    && (forall i, j :: 0 <= i < j < |ins.ld| ==> ins.ld[i].dest != ins.ld[j].dest)
    && (forall s, t :: s in ins.st && t in ins.st ==>
          (s.base == t.base && (s.off.Some? && s.n.Some? <==> t.off.Some? && t.n.Some?)))
    && Loaded(ins.ld) <= ins.wr
    && (ins.wb.Some? ==> ins.wb.value.base in ins.wr)
    && (ins.arith.Some? ==> ins.arith.value.rd in ins.wr)
    && (ins.flow in {B, Bcc, Cbz, It, RetLr} ==> ins.wr == {} && NoData(ins))
    && (ins.flow == Bl ==> ins.wr == {LR} && NoData(ins))
    && (ins.flow == RetPop ==> (SP in ins.wr && ins.spKnown && ins.st == []
          && exists l :: l in ins.ld && l.dest == PC && l.n == 4))
  }

  ghost predicate NoData(ins: Insn) {
    ins.st == [] && ins.ld == [] && ins.wb.None? && ins.arith.None?
  }

  // ---- addresses -----------------------------------------------------------

  lemma U32Multiple(v: int, k: int)
    ensures U32(v + k * 0x1_0000_0000) == U32(v)
  {
  }

  lemma U32Add(x: int, y: int, c: int)
    requires U32(x) == U32(y)
    ensures U32(x + c) == U32(y + c)
  {
    var k := x / 0x1_0000_0000 - y / 0x1_0000_0000;
    assert x + c == y + c + k * 0x1_0000_0000;
    U32Multiple(y + c, k);
  }

  /** Distinct positions less than 2^32 apart have distinct addresses. */
  lemma U32Distinct(x: int, y: int)
    requires x != y && -0x1_0000_0000 < x - y < 0x1_0000_0000
    ensures U32(x) != U32(y)
  {
  }

  /** A word outside the bytes of a store keeps its value. */
  lemma WordKept(m: Mem, m': Mem, p: int, n: nat, x: int)
    requires forall q :: !Hits(p, n, q) ==> m'(q) == m(q)
    requires x + 4 <= p || p + n <= x
    requires -0x1_0000_0000 <= x - (p + n) && x + 4 - p <= 0x1_0000_0000
    ensures WordAt(m', x) == WordAt(m, x)
  {
    ByteKept(m, m', p, n, x);
    ByteKept(m, m', p, n, x + 1);
    ByteKept(m, m', p, n, x + 2);
    ByteKept(m, m', p, n, x + 3);
  }

  lemma ByteKept(m: Mem, m': Mem, p: int, n: nat, x: int)
    requires forall q :: !Hits(p, n, q) ==> m'(q) == m(q)
    requires x < p || p + n <= x
    requires -0x1_0000_0000 <= x - (p + n) && x - p < 0x1_0000_0000
    ensures m'(U32(x)) == m(U32(x))
  {
    assert U32(U32(x) - p) == U32(x - p) by {
      U32Add(U32(x), x, -p);
    }
    assert !Hits(p, n, U32(x));
  }

  /** Positions with the same address show the same word. */
  lemma WordSame(m: Mem, x: int, y: int)
    requires U32(x) == U32(y)
    ensures WordAt(m, x) == WordAt(m, y)
  {
    U32Add(x, y, 1);
    U32Add(x, y, 2);
    U32Add(x, y, 3);
  }

  lemma HitsSame(p: int, p': int, n: nat)
    requires U32(p) == U32(p')
    ensures forall q :: Hits(p, n, q) <==> Hits(p', n, q)
  {
    forall q
      ensures Hits(p, n, q) <==> Hits(p', n, q)
    {
      U32Sub(q, p, p');
    }
  }

  lemma U32Sub(q: int, x: int, y: int)
    requires U32(x) == U32(y)
    ensures U32(q - x) == U32(q - y)
  {
    var k := y / 0x1_0000_0000 - x / 0x1_0000_0000;
    assert q - x == q - y + k * 0x1_0000_0000;
    U32Multiple(q - y, k);
  }
}
