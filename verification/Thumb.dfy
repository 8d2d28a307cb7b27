/** What the decoder says of one Thumb instruction. */
module Thumb {

  datatype Option<+T> = None | Some(value: T)

  /** A core register, by number. */
  type Reg = r: int | 0 <= r < 16 witness 0

  const SP: Reg := 13
  const LR: Reg := 14
  const PC: Reg := 15

  datatype Flow =
    | Seq | It | Bl | IndCall | B | Bcc | Cbz | Le | Wls
    | RetLr | RetPop | IndJump | LitPc | Trap | Secure | Undef

  /** A store of n bytes at base + off; an absent value is not a known constant.
      Without a source register the bytes may or may not be written. */
  datatype Store = Store(base: Reg, off: Option<int>, n: Option<nat>, src: Option<Reg>)

  datatype Load = Load(dest: Reg, base: Reg, off: Option<int>, n: nat)

  datatype Writeback = Writeback(base: Reg, delta: Option<int>)

  /** rd = rn + imm. */
  datatype Arith = Arith(rd: Reg, rn: Reg, imm: int)

  datatype Insn = Insn(
    addr: int,
    size: nat,
    flow: Flow,
    target: Option<int>,
    wr: set<Reg>,
    sp: int,
    spKnown: bool,
    st: seq<Store>,
    ld: seq<Load>,
    wb: Option<Writeback>,
    arith: Option<Arith>,
    itlen: nat,
    forever: bool,
    crossing: bool)  // a branch through r0-r12, which a named crossing may take
  {
    function Fall(): int {
      addr + size
    }
  }

  /** The registers that loads write. */
  function Loaded(ld: seq<Load>): set<Reg> {
    set l | l in ld :: l.dest
  }

  function Wrap(v: int): (w: int)
    ensures -0x8000_0000 <= w < 0x8000_0000
    ensures (w - v) % 0x1_0000_0000 == 0
  {
    (v + 0x8000_0000) % 0x1_0000_0000 - 0x8000_0000
  }

  /** The 32-bit address of an unbounded position. */
  function U32(v: int): int {
    v % 0x1_0000_0000
  }
}
