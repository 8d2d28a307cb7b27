/** The CRC of a block: sixteen bits, polynomial 0x1021, from 0, most significant bit
    first. */
module Crc16 {

  // ---- the register ------------------------------------------------------------------

  function Plus(c: bv16, d: bv16): bv16 {
    c ^ d
  }

  predicate Hot(c: bv16) {
    c & 0x8000 != 0
  }

  function Up(c: bv16): bv16 {
    c << 1
  }

  function Poly(): bv16 {
    0x1021
  }

  /** One bit of the division: the register moves up and is reduced. */
  function Shift(c: bv16): bv16 {
    if Hot(c) then Plus(Up(c), Poly()) else Up(c)
  }

  function ShiftN(n: nat, c: bv16): bv16 {
    if n == 0 then c else ShiftN(n - 1, Shift(c))
  }

  function Wide(b: bv8): bv16 {
    (b as bv16) << 8
  }

  /** One byte of the message. */
  function AddByte(c: bv16, b: bv8): bv16 {
    ShiftN(8, Plus(c, Wide(b)))
  }

  function Crc(c: bv16, p: seq<bv8>): bv16
    decreases |p|
  {
    if p == [] then c else Crc(AddByte(c, p[0]), p[1..])
  }

  function Hi(c: bv16): bv8 {
    ((c >> 8) & 0xff) as bv8
  }

  function Lo(c: bv16): bv8 {
    (c & 0xff) as bv8
  }

  function Join(hi: bv8, lo: bv8): bv16 {
    ((hi as bv16) << 8) | (lo as bv16)
  }

  // ---- arithmetic without carries: one fact about bits each --------------------------

  lemma PlusAssoc(a: bv16, b: bv16, c: bv16)
    ensures Plus(Plus(a, b), c) == Plus(a, Plus(b, c))
  {
  }

  lemma PlusComm(a: bv16, b: bv16)
    ensures Plus(a, b) == Plus(b, a)
  {
  }

  lemma PlusSelf(a: bv16)
    ensures Plus(a, a) == 0
  {
  }

  lemma PlusZero(a: bv16)
    ensures Plus(a, 0) == a
  {
  }

  lemma PlusCancels(a: bv16, b: bv16)
    ensures Plus(a, b) == 0 <==> a == b
  {
    if Plus(a, b) == 0 {
      SameBits(a, b);
    } else {
      PlusSelf(a);
    }
  }

  lemma SameBits(a: bv16, b: bv16)
    requires a ^ b == 0
    ensures a == b
  {
  }

  /** (a + b) + (c + d) == (a + c) + (b + d). */
  lemma PlusSwap(a: bv16, b: bv16, c: bv16, d: bv16)
    ensures Plus(Plus(a, b), Plus(c, d)) == Plus(Plus(a, c), Plus(b, d))
  {
    hide Plus;
    PlusAssoc(a, b, Plus(c, d));
    PlusAssoc(b, c, d);
    PlusComm(b, c);
    PlusAssoc(c, b, d);
    PlusAssoc(a, c, Plus(b, d));
  }

  lemma UpPlus(c: bv16, d: bv16)
    ensures Up(Plus(c, d)) == Plus(Up(c), Up(d))
  {
  }

  lemma HotPlus(c: bv16, d: bv16)
    ensures Hot(Plus(c, d)) <==> Hot(c) != Hot(d)
  {
    HotBit(c);
    HotBit(d);
    HotBits(c, d);
    hide Plus;
  }

  lemma HotBit(c: bv16)
    ensures c & 0x8000 == 0 || c & 0x8000 == 0x8000
  {
  }

  lemma HotBits(c: bv16, d: bv16)
    ensures Plus(c, d) & 0x8000 == (c & 0x8000) ^ (d & 0x8000)
  {
  }

  lemma WidePlus(a: bv8, b: bv8)
    ensures Wide(a ^ b) == Plus(Wide(a), Wide(b))
  {
  }

  lemma ShiftZero(c: bv16)
    ensures Shift(c) == 0 <==> c == 0
  {
  }

  lemma JoinSplit(c: bv16, hi: bv8, lo: bv8)
    ensures Join(Hi(c), Lo(c)) == c
    ensures Hi(Join(hi, lo)) == hi && Lo(Join(hi, lo)) == lo
  {
  }

  // ---- sequences of bytes --------------------------------------------------------------

  lemma {:induction false} CrcAppend(c: bv16, p: seq<bv8>, q: seq<bv8>)
    ensures Crc(c, p + q) == Crc(Crc(c, p), q)
    decreases |p|
  {
    hide AddByte;
    if p == [] {
      assert p + q == q;
    } else {
      assert (p + q)[1..] == p[1..] + q;
      CrcAppend(AddByte(c, p[0]), p[1..], q);
    }
  }

  lemma CrcOne(c: bv16, b: bv8)
    ensures Crc(c, [b]) == AddByte(c, b)
  {
    hide AddByte;
    assert [b][1..] == [];
    assert Crc(AddByte(c, b), []) == AddByte(c, b);
  }

  /** The loop over a buffer. */
  method Compute(p: array<bv8>, at: nat, n: nat) returns (crc: bv16)
    requires at + n <= p.Length
    ensures crc == Crc(0, p[at..at + n])
  {
    hide ShiftN, Shift, Plus, Hot, Up, Wide;
    crc := 0;
    for i := 0 to n
      invariant crc == Crc(0, p[at..at + i])
    {
      ghost var before := crc;
      crc := crc ^ ((p[at + i] as bv16) << 8);
      ghost var start := crc;
      Mixed(before, p[at + i], crc);
      for b := 0 to 8
        invariant ShiftN(8 - b, crc) == ShiftN(8, start)
      {
        ShiftStep(8 - b, crc);
        crc := if crc & 0x8000 != 0 then (crc << 1) ^ 0x1021 else crc << 1;
      }
      ShiftNone(crc);
      assert p[at..at + i + 1] == p[at..at + i] + [p[at + i]];
      CrcAppend(0, p[at..at + i], [p[at + i]]);
      CrcOne(before, p[at + i]);
    }
  }

  lemma Mixed(c: bv16, b: bv8, mixed: bv16)
    requires mixed == c ^ ((b as bv16) << 8)
    ensures ShiftN(8, mixed) == AddByte(c, b)
  {
    hide ShiftN;
  }

  lemma ShiftStep(n: nat, c: bv16)
    requires n > 0
    ensures ShiftN(n, c) == ShiftN(n - 1, if c & 0x8000 != 0 then (c << 1) ^ 0x1021 else c << 1)
  {
  }

  lemma ShiftNone(c: bv16)
    ensures ShiftN(0, c) == c
  {
  }

  // ---- linear over exclusive or --------------------------------------------------------

  function Xor(p: seq<bv8>, q: seq<bv8>): (r: seq<bv8>)
    requires |p| == |q|
    ensures |r| == |p|
  {
    seq(|p|, i requires 0 <= i < |p| => p[i] ^ q[i])
  }

  lemma ShiftXor(c: bv16, d: bv16)
    ensures Shift(Plus(c, d)) == Plus(Shift(c), Shift(d))
  {
    hide Plus, Hot, Up, Poly;
    var x, y, k := Up(c), Up(d), Poly();
    HotPlus(c, d);
    UpPlus(c, d);
    PlusAssoc(x, y, k);
    PlusAssoc(x, k, y);
    PlusComm(k, y);
    PlusSwap(x, k, y, k);
    PlusSelf(k);
    PlusZero(Plus(x, y));
  }

  lemma {:induction false} ShiftNXor(n: nat, c: bv16, d: bv16)
    ensures ShiftN(n, Plus(c, d)) == Plus(ShiftN(n, c), ShiftN(n, d))
  {
    hide Shift, Plus;
    if n > 0 {
      ShiftXor(c, d);
      ShiftNXor(n - 1, Shift(c), Shift(d));
    }
  }

  lemma AddByteXor(c: bv16, d: bv16, a: bv8, b: bv8)
    ensures AddByte(Plus(c, d), a ^ b) == Plus(AddByte(c, a), AddByte(d, b))
  {
    hide ShiftN, Plus, Wide;
    WidePlus(a, b);
    PlusSwap(c, d, Wide(a), Wide(b));
    ShiftNXor(8, Plus(c, Wide(a)), Plus(d, Wide(b)));
  }

  /** The CRC is linear: of the exclusive or of two messages of one length it is the
      exclusive or of theirs. */
  lemma {:induction false} CrcXor(c: bv16, d: bv16, p: seq<bv8>, q: seq<bv8>)
    requires |p| == |q|
    ensures Crc(Plus(c, d), Xor(p, q)) == Plus(Crc(c, p), Crc(d, q))
    decreases |p|
  {
    hide AddByte, Plus;
    if p != [] {
      AddByteXor(c, d, p[0], q[0]);
      assert Xor(p, q)[1..] == Xor(p[1..], q[1..]);
      CrcXor(AddByte(c, p[0]), AddByte(d, q[0]), p[1..], q[1..]);
    }
  }

  // ---- the check of a received block ------------------------------------------------------

  lemma {:induction false} ShiftNZero(n: nat, c: bv16)
    ensures ShiftN(n, c) == 0 <==> c == 0
  {
    hide Shift;
    if n > 0 {
      ShiftZero(c);
      ShiftNZero(n - 1, Shift(c));
    }
  }

  lemma {:induction false} ShiftNMore(m: nat, n: nat, c: bv16)
    ensures ShiftN(m + n, c) == ShiftN(n, ShiftN(m, c))
  {
    hide Shift;
    if m > 0 {
      ShiftNMore(m - 1, n, Shift(c));
    }
  }

  /** Eight steps move a low byte into the high byte. */
  lemma MovesUp(x: bv16)
    requires x & 0xff00 == 0
    ensures ShiftN(8, x) == x << 8
  {
    Moves(x);
    hide Shift, ShiftN;
    ShiftSplit(8, x);
    ShiftSplit(7, x << 1);
    ShiftSplit(6, x << 2);
    ShiftSplit(5, x << 3);
    ShiftSplit(4, x << 4);
    ShiftSplit(3, x << 5);
    ShiftSplit(2, x << 6);
    ShiftSplit(1, x << 7);
    ShiftNone(x << 8);
  }

  lemma ShiftSplit(n: nat, c: bv16)
    requires n > 0
    ensures ShiftN(n, c) == ShiftN(n - 1, Shift(c))
  {
  }

  lemma Moves(x: bv16)
    requires x & 0xff00 == 0
    ensures Shift(x) == x << 1 && Shift(x << 1) == x << 2
    ensures Shift(x << 2) == x << 3 && Shift(x << 3) == x << 4
    ensures Shift(x << 4) == x << 5 && Shift(x << 5) == x << 6
    ensures Shift(x << 6) == x << 7 && Shift(x << 7) == x << 8
  {
  }

  /** The register after its own two bytes is 0; after any other two it is not. */
  lemma Residue(c: bv16, hi: bv8, lo: bv8)
    ensures Crc(c, [hi, lo]) == 0 <==> c == Join(hi, lo)
  {
    hide ShiftN, Plus, Wide, Join;
    var first := Plus(c, Wide(hi));
    var second := ShiftN(8, first);
    CrcOne(c, hi);
    CrcOne(second, lo);
    CrcAppend(c, [hi], [lo]);
    assert [hi] + [lo] == [hi, lo];
    ShiftNZero(8, Plus(second, Wide(lo)));
    var low := lo as bv16;
    assert ShiftN(8, low) == Wide(lo) by { LowIsLow(lo); MovesUp(low); WideIs(lo); }
    ShiftNXor(8, first, low);
    ShiftNZero(8, Plus(first, low));
    JoinIs(hi, lo);
    PlusAssoc(c, Wide(hi), low);
    PlusCancels(c, Join(hi, lo));
  }

  lemma LowIsLow(lo: bv8)
    ensures (lo as bv16) & 0xff00 == 0
  {
  }

  lemma WideIs(lo: bv8)
    ensures Wide(lo) == (lo as bv16) << 8
  {
  }

  lemma JoinIs(hi: bv8, lo: bv8)
    ensures Join(hi, lo) == Plus(Wide(hi), lo as bv16)
  {
  }

  /** A block followed by its two CRC bytes divides without remainder, and only then does
      the receiver's comparison hold. */
  lemma CheckIsResidue(data: seq<bv8>, hi: bv8, lo: bv8)
    ensures Crc(0, data) == Join(hi, lo) <==> Crc(0, data + [hi, lo]) == 0
  {
    hide Join, AddByte;
    CrcAppend(0, data, [hi, lo]);
    Residue(Crc(0, data), hi, lo);
  }

  // ---- the standard's own check ------------------------------------------------------

  function ShiftEight(c: bv16): bv16 {
    Shift(Shift(Shift(Shift(Shift(Shift(Shift(Shift(c))))))))
  }

  lemma ShiftsTwo(n: nat, c: bv16)
    ensures ShiftN(n + 2, c) == ShiftN(n, Shift(Shift(c)))
  {
    ShiftStep(n + 2, c);
    ShiftStep(n + 1, Shift(c));
  }

  lemma AddsEight(c: bv16, b: bv8)
    ensures AddByte(c, b) == ShiftEight(Plus(c, Wide(b)))
  {
    hide Shift, Plus, Wide;
    var c0 := Plus(c, Wide(b));
    var c4 := Shift(Shift(Shift(Shift(c0))));
    ShiftsTwo(6, c0);
    ShiftsTwo(4, Shift(Shift(c0)));
    ShiftsTwo(2, c4);
    ShiftsTwo(0, Shift(Shift(c4)));
    ShiftNone(ShiftEight(c0));
  }

  lemma ThreeBytes(c: bv16, x: bv8, y: bv8, z: bv8)
    ensures Crc(c, [x, y, z]) == AddByte(AddByte(AddByte(c, x), y), z)
  {
    hide AddByte, Crc;
    CrcOne(c, x);
    CrcOne(AddByte(c, x), y);
    CrcOne(AddByte(AddByte(c, x), y), z);
    CrcAppend(c, [x], [y]);
    CrcAppend(c, [x, y], [z]);
    assert [x] + [y] == [x, y] && [x, y] + [z] == [x, y, z];
  }

  lemma NineSteps()
    ensures AddByte(0, 0x31) == 0x2672 && AddByte(0x2672, 0x32) == 0x20B5 && AddByte(0x20B5, 0x33) == 0x9752
    ensures AddByte(0x9752, 0x34) == 0xD789 && AddByte(0xD789, 0x35) == 0x546C && AddByte(0x546C, 0x36) == 0x20E4
    ensures AddByte(0x20E4, 0x37) == 0x86D6 && AddByte(0x86D6, 0x38) == 0x9015 && AddByte(0x9015, 0x39) == 0x31C3
  {
    AddsEight(0, 0x31);
    AddsEight(0x2672, 0x32);
    AddsEight(0x20B5, 0x33);
    AddsEight(0x9752, 0x34);
    AddsEight(0xD789, 0x35);
    AddsEight(0x546C, 0x36);
    AddsEight(0x20E4, 0x37);
    AddsEight(0x86D6, 0x38);
    AddsEight(0x9015, 0x39);
  }

  /** The value every catalogue gives for the nine digits. */
  lemma CheckValue()
    ensures Crc(0, [0x31, 0x32, 0x33, 0x34, 0x35, 0x36, 0x37, 0x38, 0x39]) == 0x31C3
  {
    hide AddByte, Crc;
    NineSteps();
    ThreeBytes(0, 0x31, 0x32, 0x33);
    ThreeBytes(0x9752, 0x34, 0x35, 0x36);
    ThreeBytes(0x20E4, 0x37, 0x38, 0x39);
    CrcAppend(0, [0x31, 0x32, 0x33], [0x34, 0x35, 0x36]);
    CrcAppend(0, [0x31, 0x32, 0x33] + [0x34, 0x35, 0x36], [0x37, 0x38, 0x39]);
    assert [0x31 as bv8, 0x32, 0x33] + [0x34, 0x35, 0x36] + [0x37, 0x38, 0x39] == [0x31, 0x32, 0x33, 0x34, 0x35, 0x36, 0x37, 0x38, 0x39];
  }
}
