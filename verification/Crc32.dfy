/** CRC-32, a nibble at a time from a table of sixteen remainders: the same as the
    bit-serial division it abbreviates, and resumable at any point. */
module Crc32 {

  // ---- the division, bit by bit -----------------------------------------------------------

  function Plus(c: bv32, d: bv32): bv32 {
    c ^ d
  }

  predicate Odd(c: bv32) {
    c & 1 != 0
  }

  function Down(c: bv32): bv32 {
    c >> 1
  }

  function Poly(): bv32 {
    0xEDB8_8320
  }

  /** One bit, reflected: the lowest first. */
  function Shift(c: bv32): bv32 {
    if Odd(c) then Plus(Down(c), Poly()) else Down(c)
  }

  function Shift4(c: bv32): bv32 {
    Shift(Shift(Shift(Shift(c))))
  }

  function Flip(c: bv32): bv32 {
    !c
  }

  /** Eight bits for every byte, added at the bottom. */
  function Bytes(c: bv32, p: seq<bv8>): bv32
    decreases |p|
  {
    if p == [] then c else Bytes(Shift4(Shift4(Plus(c, p[0] as bv32))), p[1..])
  }

  /** The standard value: complemented at both ends. */
  function Crc(start: bv32, p: seq<bv8>): bv32 {
    Flip(Bytes(Flip(start), p))
  }

  // ---- the table ---------------------------------------------------------------------------

  function Nibble(k: bv32): bv32 {
    if k == 0 then 0x0000_0000 else if k == 1 then 0x1DB7_1064
    else if k == 2 then 0x3B6E_20C8 else if k == 3 then 0x26D9_30AC
    else if k == 4 then 0x76DC_4190 else if k == 5 then 0x6B6B_51F4
    else if k == 6 then 0x4DB2_6158 else if k == 7 then 0x5005_713C
    else if k == 8 then 0xEDB8_8320 else if k == 9 then 0xF00F_9344
    else if k == 10 then 0xD6D6_A3E8 else if k == 11 then 0xCB61_B38C
    else if k == 12 then 0x9B64_C2B0 else if k == 13 then 0x86D3_D2D4
    else if k == 14 then 0xA00A_E278 else 0xBDBD_F21C
  }

  lemma TableLow()
    ensures Shift4(0) == Nibble(0) && Shift4(1) == Nibble(1) && Shift4(2) == Nibble(2) && Shift4(3) == Nibble(3)
    ensures Shift4(4) == Nibble(4) && Shift4(5) == Nibble(5) && Shift4(6) == Nibble(6) && Shift4(7) == Nibble(7)
  {
  }

  lemma TableMiddle()
    ensures Shift4(8) == Nibble(8) && Shift4(9) == Nibble(9) && Shift4(10) == Nibble(10) && Shift4(11) == Nibble(11)
  {
  }

  lemma TableHigh()
    ensures Shift4(12) == Nibble(12) && Shift4(13) == Nibble(13)
    ensures Shift4(14) == Nibble(14)
  {
  }

  lemma TableLast()
    ensures Shift4(15) == Nibble(15)
  {
  }

  /** A value of four bits is one of sixteen. */
  lemma Sixteen(k: bv32)
    requires k & 0xffff_fff0 == 0
    ensures k <= 15
  {
  }

  /** Every entry is the remainder of its index. */
  lemma TableExact(k: bv32)
    requires k & 0xffff_fff0 == 0
    ensures Nibble(k) == Shift4(k)
  {
    hide Shift4;
    Sixteen(k);
    TableLow();
    TableMiddle();
    TableHigh();
    TableLast();
  }

  // ---- one fact about bits each ----------------------------------------------------------------

  lemma DownPlus(a: bv32, b: bv32)
    ensures Down(Plus(a, b)) == Plus(Down(a), Down(b))
  {
  }

  lemma OddBit(a: bv32)
    ensures a & 1 == 0 || a & 1 == 1
  {
  }

  lemma OddBits(a: bv32, b: bv32)
    ensures Plus(a, b) & 1 == (a & 1) ^ (b & 1)
  {
  }

  lemma OddPlus(a: bv32, b: bv32)
    ensures Odd(Plus(a, b)) <==> Odd(a) != Odd(b)
  {
    hide Plus;
    OddBit(a);
    OddBit(b);
    OddBits(a, b);
  }

  lemma PlusAssoc(a: bv32, b: bv32, c: bv32)
    ensures Plus(Plus(a, b), c) == Plus(a, Plus(b, c))
  {
  }

  lemma PlusComm(a: bv32, b: bv32)
    ensures Plus(a, b) == Plus(b, a)
  {
  }

  lemma PlusTwice(a: bv32, b: bv32)
    ensures Plus(Plus(a, b), b) == a
  {
  }

  lemma FlipTwice(a: bv32)
    ensures Flip(Flip(a)) == a
  {
  }

  /** Even bits at the bottom: shifts only move the word down. */
  lemma HighMoves(h: bv32)
    requires h & 0xf == 0
    ensures !Odd(h) && !Odd(h >> 1) && !Odd(h >> 2) && !Odd(h >> 3)
    ensures Down(h) == h >> 1 && Down(h >> 1) == h >> 2 && Down(h >> 2) == h >> 3 && Down(h >> 3) == h >> 4
  {
  }

  lemma SplitNibble(c: bv32)
    ensures Plus(c & 0xffff_fff0, c & 0xf) == c
    ensures (c & 0xffff_fff0) & 0xf == 0 && (c & 0xf) & 0xffff_fff0 == 0
    ensures (c & 0xffff_fff0) >> 4 == c >> 4
  {
  }

  // ---- the table is the division ------------------------------------------------------------------

  lemma ShiftPlus(a: bv32, b: bv32)
    ensures Shift(Plus(a, b)) == Plus(Shift(a), Shift(b))
  {
    hide Plus, Odd, Down, Poly;
    var x, y, k := Down(a), Down(b), Poly();
    OddPlus(a, b);
    DownPlus(a, b);
    PlusAssoc(x, y, k);
    PlusAssoc(x, k, y);
    PlusComm(k, y);
    PlusAssoc(Plus(x, k), y, k);
    PlusTwice(Plus(x, y), k);
  }

  lemma Shift4Plus(a: bv32, b: bv32)
    ensures Shift4(Plus(a, b)) == Plus(Shift4(a), Shift4(b))
  {
    hide Plus, Shift;
    ShiftPlus(a, b);
    ShiftPlus(Shift(a), Shift(b));
    ShiftPlus(Shift(Shift(a)), Shift(Shift(b)));
    ShiftPlus(Shift(Shift(Shift(a))), Shift(Shift(Shift(b))));
  }

  lemma HighShift(h: bv32)
    requires h & 0xf == 0
    ensures Shift4(h) == h >> 4
  {
    hide Plus, Odd, Down;
    HighMoves(h);
  }

  /** One lookup does four bits. */
  lemma NibbleStep(c: bv32)
    ensures Plus(c >> 4, Nibble(c & 0xf)) == Shift4(c)
  {
    hide Plus, Nibble, Shift4;
    SplitNibble(c);
    HighShift(c & 0xffff_fff0);
    TableExact(c & 0xf);
    Shift4Plus(c & 0xffff_fff0, c & 0xf);
  }

  lemma {:induction false} BytesJoin(c: bv32, p: seq<bv8>, q: seq<bv8>)
    ensures Bytes(c, p + q) == Bytes(Bytes(c, p), q)
    decreases |p|
  {
    hide Plus, Shift4;
    if p == [] {
      assert p + q == q;
    } else {
      assert (p + q)[1..] == p[1..] + q;
      BytesJoin(Shift4(Shift4(Plus(c, p[0] as bv32))), p[1..], q);
    }
  }

  /** The loop: two lookups for every byte. */
  method Update(start: bv32, p: array<bv8>, n: nat) returns (crc: bv32)
    requires n <= p.Length
    ensures crc == Crc(start, p[..n])
  {
    hide Plus, Nibble, Shift4, Flip;
    crc := Flip(start);
    for i := 0 to n
      invariant crc == Bytes(Flip(start), p[..i])
    {
      ghost var before := crc;
      crc := Plus(crc, p[i] as bv32);
      NibbleStep(crc);
      crc := Plus(crc >> 4, Nibble(crc & 0xf));
      NibbleStep(crc);
      crc := Plus(crc >> 4, Nibble(crc & 0xf));
      assert p[..i + 1] == p[..i] + [p[i]];
      BytesJoin(Flip(start), p[..i], [p[i]]);
      OneByte(before, p[i]);
    }
    crc := Flip(crc);
  }

  lemma OneByte(c: bv32, b: bv8)
    ensures Bytes(c, [b]) == Shift4(Shift4(Plus(c, b as bv32)))
  {
    hide Plus, Shift4;
    assert [b][1..] == [];
  }

  /** The CRC of a stream can be taken chunk by chunk, and an empty chunk changes nothing. */
  lemma Resumes(start: bv32, p: seq<bv8>, q: seq<bv8>)
    ensures Crc(start, p + q) == Crc(Crc(start, p), q)
    ensures Crc(start, []) == start
  {
    hide Flip, Plus, Shift4;
    BytesJoin(Flip(start), p, q);
    FlipTwice(Bytes(Flip(start), p));
    FlipTwice(start);
  }

  /** The value every catalogue gives for the nine digits. */
  lemma CheckValue()
    ensures Crc(0, [0x31, 0x32, 0x33, 0x34, 0x35, 0x36, 0x37, 0x38, 0x39]) == 0xCBF4_3926
  {
  }
}
