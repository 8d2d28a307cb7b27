/** One instruction of one body: what the analysis says after it is true of what the
    machine does. */
module StepSoundness {
  import opened Thumb
  import opened Machine
  import opened ReturnAnalysis
  import opened BodyRules

  /** A state of the analysis is true of a processor, for a body called with sp at
      `base` and the return address `link`. */
  ghost predicate Sim(st: Abs, base: int, link: int, cpu: Cpu) {
    && st.Ok() && cpu.Ok()
    && (st.sp.Some? ==> cpu.sp == base + st.sp.value)
    && (st.ra ==> cpu.regs[LR] == link)
    && SlotsHold(st.slots, base, link, cpu.mem)
    && RegsHold(st, base, cpu)
  }

  ghost predicate SlotsHold(slots: set<int>, base: int, link: int, mem: Mem) {
    forall x :: x in slots ==> WordAt(mem, base + x) == link
  }

  ghost predicate RegsHold(st: Abs, base: int, cpu: Cpu)
    requires st.Ok() && cpu.Ok()
  {
    forall r: Reg :: r != SP && r != PC && st.regs[r].Some? ==> U32(cpu.regs[r]) == U32(base + st.regs[r].value)
  }

  /** Saved words lie below the entry sp, within half the address space. */
  ghost predicate SlotsBelow(slots: set<int>) {
    forall x :: x in slots ==> -0x8000_0000 <= x <= -4
  }

  /** The assumption the analysis makes of a store whose position it does not know:
      it leaves the live words, at the positions `live`, as they are. */
  ghost predicate UnknownStoresSpare(st: Abs, ins: Insn, mems: seq<Mem>, live: set<int>)
    requires st.Ok() && |mems| == |ins.st| + 1
  {
    forall i, p :: 0 <= i < |ins.st| && !(Addr(st, ins.st[i].base, ins.st[i].off).Some? && ins.st[i].n.Some?) && p in live ==>
      WordAt(mems[i + 1], p) == WordAt(mems[i], p)
  }

  lemma AddrSound(st: Abs, base: int, cpu: Cpu, b: Reg, off: Option<int>)
    requires st.Ok() && cpu.Ok() && (st.sp.Some? ==> cpu.sp == base + st.sp.value) && RegsHold(st, base, cpu)
    requires Addr(st, b, off).Some?
    ensures b != PC && off.Some?
    ensures U32(cpu.Reg(b) + off.value) == U32(base + Addr(st, b, off).value)
  {
    var v := Val(st, b).value;
    assert U32(cpu.Reg(b)) == U32(base + v);
    U32Add(cpu.Reg(b), base + v, off.value);
    var w := Wrap(v + off.value);
    var k := (w - (v + off.value)) / 0x1_0000_0000;
    assert base + w == base + v + off.value + k * 0x1_0000_0000;
    U32Multiple(base + v + off.value, k);
  }

  // ---- stores --------------------------------------------------------------

  ghost predicate Known(st: Abs, s: Store)
    requires st.Ok()
  {
    Addr(st, s.base, s.off).Some? && s.n.Some?
  }

  /** A store at a known position below the entry sp: words it does not overlap stay,
      and so do words from the entry sp up. */
  lemma KnownStoreKeeps(st: Abs, base: int, cpu: Cpu, s: Store, m: Mem, m': Mem, x: int)
    requires st.Ok() && cpu.Ok() && (st.sp.Some? ==> cpu.sp == base + st.sp.value) && RegsHold(st, base, cpu)
    requires Known(st, s) && Addr(st, s.base, s.off).value + s.n.value <= 0
    requires StoreEffect(cpu, s, m, m')
    requires x + 4 <= Addr(st, s.base, s.off).value || Addr(st, s.base, s.off).value + s.n.value <= x
    requires -0x8000_0000 <= x && x + 4 <= 0x8000_0000
    ensures WordAt(m', base + x) == WordAt(m, base + x)
  {
    var a := Addr(st, s.base, s.off).value;
    AddrSound(st, base, cpu, s.base, s.off);
    var p := cpu.Reg(s.base) + s.off.value;
    HitsSame(p, base + a, s.n.value);
    assert forall q :: !Hits(base + a, s.n.value, q) ==> !Hits(p, s.n.value, q);
    WordKept(m, m', base + a, s.n.value, base + x);
  }

  lemma KnownStoreSound(st: Abs, base: int, link: int, cpu: Cpu, s: Store, slots: set<int>, m: Mem, m': Mem)
    requires st.Ok() && cpu.Ok() && (st.sp.Some? ==> cpu.sp == base + st.sp.value) && RegsHold(st, base, cpu)
    requires st.ra ==> cpu.regs[LR] == link
    requires Known(st, s) && Addr(st, s.base, s.off).value + s.n.value <= 0
    requires StoreEffect(cpu, s, m, m') && SlotsHold(slots, base, link, m) && SlotsBelow(slots)
    ensures SlotsHold(AfterStore(st, slots, s), base, link, m') && SlotsBelow(AfterStore(st, slots, s))
  {
    hide WordAt, Hits, U32, Wrap;
    var a := Addr(st, s.base, s.off).value;
    forall x | x in AfterStore(st, slots, s)
      ensures WordAt(m', base + x) == link && -0x8000_0000 <= x <= -4
    {
      if x in slots && !Overlaps(x, a, s.n.value) {
        KnownStoreKeeps(st, base, cpu, s, m, m', x);
      } else {
        SavedLr(st, base, cpu, s, m, m');
      }
    }
  }

  lemma SavedLr(st: Abs, base: int, cpu: Cpu, s: Store, m: Mem, m': Mem)
    requires st.Ok() && cpu.Ok() && (st.sp.Some? ==> cpu.sp == base + st.sp.value) && RegsHold(st, base, cpu)
    requires Known(st, s) && s.src == Some(LR) && s.n == Some(4) && StoreEffect(cpu, s, m, m')
    ensures WordAt(m', base + Addr(st, s.base, s.off).value) == cpu.regs[LR]
    ensures -0x8000_0000 <= Addr(st, s.base, s.off).value
  {
    AddrSound(st, base, cpu, s.base, s.off);
    WordSame(m', cpu.Reg(s.base) + s.off.value, base + Addr(st, s.base, s.off).value);
  }

  lemma {:induction false} KnownStoresSound(st: Abs, base: int, link: int, cpu: Cpu, sts: seq<Store>, slots: set<int>, mems: seq<Mem>)
    requires st.Ok() && cpu.Ok() && (st.sp.Some? ==> cpu.sp == base + st.sp.value) && RegsHold(st, base, cpu)
    requires st.ra ==> cpu.regs[LR] == link
    requires forall s :: s in sts ==> Known(st, s) && Addr(st, s.base, s.off).value + s.n.value <= 0
    requires StoresEffect(cpu, sts, mems) && SlotsHold(slots, base, link, mems[0]) && SlotsBelow(slots)
    ensures SlotsHold(AfterStores(st, slots, sts), base, link, mems[|sts|]) && SlotsBelow(AfterStores(st, slots, sts))
    decreases sts
  {
    if sts != [] {
      assert StoreEffect(cpu, sts[0], mems[0], mems[0 + 1]);
      KnownStoreSound(st, base, link, cpu, sts[0], slots, mems[0], mems[1]);
      TailEffect(cpu, sts, mems);
      KnownStoresSound(st, base, link, cpu, sts[1..], AfterStore(st, slots, sts[0]), mems[1..]);
    }
  }

  lemma TailEffect(cpu: Cpu, sts: seq<Store>, mems: seq<Mem>)
    requires cpu.Ok() && sts != [] && StoresEffect(cpu, sts, mems)
    ensures StoresEffect(cpu, sts[1..], mems[1..])
  {
    forall i | 0 <= i < |sts[1..]|
      ensures StoreEffect(cpu, sts[1..][i], mems[1..][i], mems[1..][i + 1])
    {
      assert StoreEffect(cpu, sts[i + 1], mems[i + 1], mems[i + 1 + 1]);
    }
  }

  /** Stores at unknown positions are not checked against the saved words. */
  lemma {:induction false} UnknownStoresSame(st: Abs, slots: set<int>, sts: seq<Store>)
    requires st.Ok() && forall s :: s in sts ==> !Known(st, s)
    ensures AfterStores(st, slots, sts) == slots
    decreases sts
  {
    if sts != [] {
      assert !Known(st, sts[0]);
      UnknownStoresSame(st, slots, sts[1..]);
    }
  }

  /** A live word survives a run of stores that each leave it. */
  lemma {:induction false} WordThrough(mems: seq<Mem>, p: int, k: nat)
    requires k < |mems| && forall i :: 0 <= i < k ==> WordAt(mems[i + 1], p) == WordAt(mems[i], p)
    ensures WordAt(mems[k], p) == WordAt(mems[0], p)
  {
    if k > 0 {
      assert WordAt(mems[k - 1 + 1], p) == WordAt(mems[k - 1], p);
      WordThrough(mems, p, k - 1);
    }
  }

  lemma AllKnownOrNone(st: Abs, ins: Insn)
    requires st.Ok() && WellFormed(ins)
    ensures (forall s :: s in ins.st ==> Known(st, s)) || (forall s :: s in ins.st ==> !Known(st, s))
  {
  }

  /** The saved words after the stores of an instruction hold the return address. */
  lemma StoresSound(st: Abs, base: int, link: int, cpu: Cpu, ins: Insn, mems: seq<Mem>, live: set<int>)
    requires Sim(st, base, link, cpu) && SlotsBelow(st.slots) && WellFormed(ins) && StoresOk(st, ins)
    requires StoresEffect(cpu, ins.st, mems) && mems[0] == cpu.mem
    requires (forall x :: x in st.slots ==> base + x in live) && UnknownStoresSpare(st, ins, mems, live)
    ensures SlotsHold(AfterStores(st, st.slots, ins.st), base, link, mems[|ins.st|])
    ensures SlotsBelow(AfterStores(st, st.slots, ins.st))
  {
    AllKnownOrNone(st, ins);
    hide WordAt, StoreEffect, WellFormed, Addr, RegsHold, UnknownStoresSpare;
    if forall s :: s in ins.st ==> Known(st, s) {
      KnownStoresSound(st, base, link, cpu, ins.st, st.slots, mems);
    } else {
      UnknownStoresSame(st, st.slots, ins.st);
      forall x | x in st.slots
        ensures WordAt(mems[|ins.st|], base + x) == link
      {
        SparedWord(st, ins, mems, live, base + x);
      }
    }
  }

  lemma SparedWord(st: Abs, ins: Insn, mems: seq<Mem>, live: set<int>, p: int)
    requires st.Ok() && |mems| == |ins.st| + 1 && UnknownStoresSpare(st, ins, mems, live) && p in live
    requires forall s :: s in ins.st ==> !Known(st, s)
    ensures WordAt(mems[|ins.st|], p) == WordAt(mems[0], p)
  {
    hide WordAt, Addr;
    forall i | 0 <= i < |ins.st|
      ensures WordAt(mems[i + 1], p) == WordAt(mems[i], p)
    {
      assert ins.st[i] in ins.st && !Known(st, ins.st[i]);
    }
    WordThrough(mems, p, |ins.st|);
  }

  /** Words of callers, at or above the entry sp, survive the stores of a body that
      never stores there. */
  lemma OuterWordKept(st: Abs, base: int, link: int, cpu: Cpu, ins: Insn, mems: seq<Mem>, live: set<int>, p: int)
    requires Sim(st, base, link, cpu) && WellFormed(ins) && StoresOk(st, ins)
    requires StoresEffect(cpu, ins.st, mems)
    requires p in live && UnknownStoresSpare(st, ins, mems, live)
    requires base <= p && p + 4 <= base + 0x8000_0000
    ensures WordAt(mems[|ins.st|], p) == WordAt(mems[0], p)
  {
    forall i | 0 <= i < |ins.st|
      ensures WordAt(mems[i + 1], p) == WordAt(mems[i], p)
    {
      var s := ins.st[i];
      assert s in ins.st && StoreEffect(cpu, s, mems[i], mems[i + 1]);
      if Known(st, s) {
        KnownStoreKeeps(st, base, cpu, s, mems[i], mems[i + 1], p - base);
      }
    }
    WordThrough(mems, p, |ins.st|);
  }

  // ---- one instruction -----------------------------------------------------

  lemma LrFromLoad(st: Abs, ld: seq<Load>) returns (l: Load)
    requires st.Ok() && LrFrom(st, ld).Some?
    ensures l in ld && l.dest == LR && l.n == 4 && Addr(st, l.base, l.off) == LrFrom(st, ld)
  {
    l := ld[|ld| - 1];
    if !(l.dest == LR && l.n == 4) {
      l := LrFromLoad(st, ld[..|ld| - 1]);
    }
  }

  /** A word loaded into lr from a saved word is the return address. */
  lemma ReloadedLr(st: Abs, base: int, link: int, ins: Insn, cpu: Cpu, v: int)
    requires Sim(st, base, link, cpu) && RegEffect(ins, cpu, LR, v)
    requires LrFrom(st, ins.ld).Some? && LrFrom(st, ins.ld).value in st.slots
    ensures v == link
  {
    var l := LrFromLoad(st, ins.ld);
    var x := LrFrom(st, ins.ld).value;
    hide LrFrom, Val;
    AddrSound(st, base, cpu, l.base, l.off);
    assert l.dest in Loaded(ins.ld) && LoadEffect(cpu, l, v);
    WordSame(cpu.mem, cpu.Reg(l.base) + l.off.value, base + x);
  }

  lemma LrSound(st: Abs, base: int, link: int, ins: Insn, cpu: Cpu, mems: seq<Mem>, cpu': Cpu)
    requires Sim(st, base, link, cpu) && WellFormed(ins) && !IsCall(ins) && Exec(ins, cpu, mems, cpu')
    ensures Transfer(st, ins).ra ==> cpu'.regs[LR] == link
  {
    hide SlotsHold, RegsHold, WordAt, StoresEffect;
    assert RegEffect(ins, cpu, LR, cpu'.regs[LR]);
    if LR in ins.wr {
      if Transfer(st, ins).ra {
        LoadsNoStores(st, ins);
        ReloadedLr(st, base, link, ins, cpu, cpu'.regs[LR]);
      }
    }
  }

  lemma LoadsNoStores(st: Abs, ins: Insn)
    requires st.Ok() && WellFormed(ins) && LrFrom(st, ins.ld).Some?
    ensures ins.st == [] && AfterStores(st, st.slots, ins.st) == st.slots
  {
  }

  lemma RegSound(st: Abs, base: int, link: int, ins: Insn, cpu: Cpu, mems: seq<Mem>, cpu': Cpu, r: Reg)
    requires Sim(st, base, link, cpu) && WellFormed(ins) && !IsCall(ins) && Exec(ins, cpu, mems, cpu')
    requires r != SP && r != PC && RegAfter(st, ins, r).Some?
    ensures U32(cpu'.regs[r]) == U32(base + RegAfter(st, ins, r).value)
  {
    assert RegEffect(ins, cpu, r, cpu'.regs[r]);
    assert r !in Loaded(ins.ld);
    if ins.wb.Some? && ins.wb.value.base == r {
      AddrSound(st, base, cpu, r, ins.wb.value.delta);
    } else if ins.arith.Some? && ins.arith.value.rd == r {
      AddrSound(st, base, cpu, ins.arith.value.rn, Some(ins.arith.value.imm));
    }
  }

  /** What the analysis says after an executed instruction is true after it. */
  lemma TransferSound(st: Abs, base: int, link: int, ins: Insn, cpu: Cpu, mems: seq<Mem>, cpu': Cpu, live: set<int>)
    requires Sim(st, base, link, cpu) && SlotsBelow(st.slots) && WellFormed(ins) && StoresOk(st, ins)
    requires !IsCall(ins) && Exec(ins, cpu, mems, cpu')
    requires (forall x :: x in st.slots ==> base + x in live) && UnknownStoresSpare(st, ins, mems, live)
    ensures Sim(Transfer(st, ins), base, link, cpu') && SlotsBelow(Transfer(st, ins).slots)
  {
    StoresSound(st, base, link, cpu, ins, mems, live);
    LrSound(st, base, link, ins, cpu, mems, cpu');
    var out := Transfer(st, ins);
    forall r: Reg | r != SP && r != PC && out.regs[r].Some?
      ensures U32(cpu'.regs[r]) == U32(base + out.regs[r].value)
    {
      RegSound(st, base, link, ins, cpu, mems, cpu', r);
    }
    hide WordAt, StoreEffect, Addr, WellFormed, StoresOk, AfterStores, LrFrom, RegAfter, RegEffect;
  }

  lemma SimWeaker(a: Abs, b: Abs, base: int, link: int, cpu: Cpu)
    requires a.Ok() && b.Ok() && Leq(a, b) && Sim(b, base, link, cpu)
    ensures Sim(a, base, link, cpu)
  {
    hide WordAt, U32;
    forall r: Reg | r != SP && r != PC && a.regs[r].Some?
      ensures U32(cpu.regs[r]) == U32(base + a.regs[r].value)
    {
      assert LeqOpt(a.regs[r], b.regs[r]);
    }
  }

  /** The instruction is executed and control goes to b. */
  ghost predicate TakesEdge(ins: Insn, cond: bool, b: int) {
    ins.target == Some(b) || !(cond && Leaves(ins.flow))
  }

  lemma ExecutedEdge(st: Abs, base: int, link: int, ins: Insn, cond: bool, cpu': Cpu, b: int)
    requires st.Ok() && Sim(Transfer(st, ins), base, link, cpu')
    requires TakesEdge(ins, cond, b) && (ins.target.Some? ==> ins.flow != Seq && ins.flow != It)
    ensures Sim(EdgeState(ins, cond, st, b), base, link, cpu')
    ensures EdgeState(ins, cond, st, b).slots <= Transfer(st, ins).slots
    ensures Dead(Transfer(st, ins)) ==> Dead(EdgeState(ins, cond, st, b))
  {
    hide Sim, Leq, Transfer;
    MeetLeq(Transfer(st, ins), st);
    assert Meet(Transfer(st, ins), st).slots <= Transfer(st, ins).slots;
    if EdgeState(ins, cond, st, b) != Transfer(st, ins) {
      SimWeaker(Meet(Transfer(st, ins), st), Transfer(st, ins), base, link, cpu');
    }
  }

  /** A branch changes nothing. */
  lemma BranchKeeps(st: Abs, ins: Insn)
    requires st.Ok() && WellFormed(ins) && ins.flow == B
    ensures Leq(Transfer(st, ins), st)
  {
    assert AfterStores(st, st.slots, []) == st.slots;
    assert forall r: Reg :: RegAfter(st, ins, r) == st.regs[r];
  }

  /** An instruction of an IT block that is not executed changes nothing either. */
  lemma SkippedEdge(st: Abs, base: int, link: int, ins: Insn, cpu: Cpu, b: int)
    requires st.Ok() && Sim(st, base, link, cpu) && WellFormed(ins)
    requires ins.target == Some(b) ==> ins.flow == B
    ensures Sim(EdgeState(ins, true, st, b), base, link, cpu)
    ensures EdgeState(ins, true, st, b).slots <= st.slots
  {
    hide Sim, Transfer, WellFormed;
    if ins.target == Some(b) {
      BranchKeeps(st, ins);
      SimWeaker(Transfer(st, ins), st, base, link, cpu);
    } else {
      MeetLeq(Transfer(st, ins), st);
      if !Leaves(ins.flow) {
        SimWeaker(Meet(Transfer(st, ins), st), st, base, link, cpu);
      }
    }
  }

  // ---- states without any hold on the return address ------------------------

  /** The body has lost its return address: it can never be accepted to leave. */
  predicate Dead(st: Abs) {
    !st.ra && st.slots == {}
  }

  lemma {:induction false} NoNewSlots(st: Abs, sts: seq<Store>)
    requires st.Ok() && !st.ra
    ensures AfterStores(st, {}, sts) == {}
    decreases sts
  {
    if sts != [] {
      assert AfterStore(st, {}, sts[0]) == {};
      NoNewSlots(st, sts[1..]);
    }
  }

  /** Losing the return address is for good. */
  lemma DeadStays(st: Abs, ins: Insn, cond: bool, b: int)
    requires st.Ok() && Dead(st)
    ensures Dead(Transfer(st, ins)) && Dead(EdgeState(ins, cond, st, b))
  {
    NoNewSlots(st, ins.st);
  }
}
