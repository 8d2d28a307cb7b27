/** Which damage to a block its CRC always shows: every burst of at most sixteen bits and
    every odd number of bits, anywhere in a block of any length. */
module CrcDetection {
  import opened Crc16

  // ---- bits --------------------------------------------------------------------------

  function Down(c: bv16): bv16 {
    c >> 1
  }

  predicate Odd(c: bv16) {
    c & 1 != 0
  }

  function Top(b: bool): bv16 {
    if b then 0x8000 else 0
  }

  /** The n highest bits of a word, highest first. */
  function TopBits(n: nat, w: bv16): (bits: seq<bool>)
    ensures |bits| == n
  {
    if n == 0 then [] else [Hot(w)] + TopBits(n - 1, Up(w))
  }

  /** A message as the line carries it. */
  function MessageBits(p: seq<bv8>): (bits: seq<bool>)
    ensures |bits| == 8 * |p|
    decreases |p|
  {
    if p == [] then [] else TopBits(8, Wide(p[0])) + MessageBits(p[1..])
  }

  /** The division bit by bit. */
  function CrcBits(c: bv16, bits: seq<bool>): bv16
    decreases |bits|
  {
    if bits == [] then c else CrcBits(Shift(Plus(c, Top(bits[0]))), bits[1..])
  }

  /** At most 16 bits, at the top of a word. */
  function Word(bits: seq<bool>): bv16
    decreases |bits|
  {
    if bits == [] then 0 else Plus(Top(bits[0]), Down(Word(bits[1..])))
  }

  /** The k lowest bits are 0. */
  predicate LowClear(w: bv16, k: nat) {
    k > 0 ==> !Odd(w) && LowClear(Down(w), k - 1)
  }

  // ---- one fact about bits each --------------------------------------------------------

  lemma DownPlus(a: bv16, b: bv16)
    ensures Down(Plus(a, b)) == Plus(Down(a), Down(b))
  {
  }

  lemma OddPlus(a: bv16, b: bv16)
    ensures !Odd(a) && !Odd(b) ==> !Odd(Plus(a, b))
  {
    if !Odd(a) && !Odd(b) {
      EvenPlus(a, b);
    }
  }

  lemma EvenPlus(a: bv16, b: bv16)
    requires a & 1 == 0 && b & 1 == 0
    ensures Plus(a, b) & 1 == 0
  {
  }

  lemma ShiftDown(w: bv16)
    requires !Odd(w)
    ensures Shift(Down(w)) == w
  {
    NotHotDown(w);
    EvenBack(w);
  }

  lemma NotHotDown(w: bv16)
    ensures !Hot(Down(w))
  {
  }

  lemma EvenBack(w: bv16)
    requires w & 1 == 0
    ensures (w >> 1) << 1 == w
  {
  }

  lemma DownUp(w: bv16)
    ensures Down(Up(w)) == Plus(w, Top(Hot(w))) && Plus(Top(Hot(w)), Down(Up(w))) == w && !Odd(Up(w))
  {
    hide Down, Up, Plus, Hot, Odd;
    if Hot(w) {
      HighSet(w);
    } else {
      HighClear(w);
      PlusZero(w);
      PlusComm(0, w);
    }
    UpEven(w);
  }

  lemma HighSet(w: bv16)
    requires Hot(w)
    ensures Down(Up(w)) == Plus(w, 0x8000)
    ensures Plus(0x8000, Down(Up(w))) == w
  {
  }

  lemma HighClear(w: bv16)
    requires !Hot(w)
    ensures Down(Up(w)) == w
  {
  }

  lemma UpEven(w: bv16)
    ensures !Odd(Up(w))
  {
  }

  lemma HotTop(b: bool)
    ensures Hot(Top(b)) <==> b
  {
  }

  lemma OnlyEvenZero(w: bv16)
    requires !Odd(w) && Down(w) == 0
    ensures w == 0
  {
    EvenBack(w);
  }

  // ---- low bits that stay clear -----------------------------------------------------------

  lemma {:induction false} ClearPlus(a: bv16, b: bv16, k: nat)
    requires LowClear(a, k) && LowClear(b, k)
    ensures LowClear(Plus(a, b), k)
    decreases k
  {
    hide Plus, Down, Odd;
    if k > 0 {
      OddPlus(a, b);
      DownPlus(a, b);
      ClearPlus(Down(a), Down(b), k - 1);
    }
  }

  lemma {:induction false} ClearLess(a: bv16, j: nat, k: nat)
    requires LowClear(a, k) && j <= k
    ensures LowClear(a, j)
    decreases k
  {
    hide Down, Odd;
    if j > 0 {
      ClearLess(Down(a), j - 1, k - 1);
    }
  }

  lemma {:induction false} ClearZero(k: nat)
    ensures LowClear(0, k)
  {
    if k > 0 {
      ClearZero(k - 1);
    }
  }

  lemma ClearTop(b: bool, k: nat)
    requires k <= 15
    ensures LowClear(Top(b), k)
  {
    if b {
      assert LowClear(0x1, 0);
      assert LowClear(0x2, 1);
      assert LowClear(0x4, 2);
      assert LowClear(0x8, 3);
      assert LowClear(0x10, 4);
      assert LowClear(0x20, 5);
      assert LowClear(0x40, 6);
      assert LowClear(0x80, 7);
      assert LowClear(0x100, 8);
      assert LowClear(0x200, 9);
      assert LowClear(0x400, 10);
      assert LowClear(0x800, 11);
      assert LowClear(0x1000, 12);
      assert LowClear(0x2000, 13);
      assert LowClear(0x4000, 14);
      assert LowClear(0x8000, 15);
      ClearLess(0x8000, k, 15);
    } else {
      ClearZero(k);
    }
  }

  lemma {:induction false} WordClear(bits: seq<bool>)
    requires |bits| <= 16
    ensures LowClear(Word(bits), 16 - |bits|)
    decreases |bits|
  {
    hide Plus, Down, Odd, Top;
    if bits == [] {
      ClearZero(16);
    } else {
      WordClear(bits[1..]);
      ClearTop(bits[0], 16 - |bits|);
      ClearPlus(Top(bits[0]), Down(Word(bits[1..])), 16 - |bits|);
    }
  }

  lemma {:induction false} WordZero(bits: seq<bool>)
    requires |bits| <= 16
    ensures Word(bits) == 0 ==> forall i :: 0 <= i < |bits| ==> !bits[i]
    decreases |bits|
  {
    hide Plus, Down, Odd, Hot, Top;
    if bits != [] && Word(bits) == 0 {
      var rest := bits[1..];
      WordClear(rest);
      WordZero(rest);
      PlusCancels(Top(bits[0]), Down(Word(rest)));
      HotTop(bits[0]);
      NotHotDown(Word(rest));
      assert Top(false) == 0 by { TopFalse(); }
      OnlyEvenZero(Word(rest));
      assert forall i :: 0 < i < |bits| ==> bits[i] == rest[i - 1];
    }
  }

  lemma TopFalse()
    ensures Top(false) == 0
  {
  }

  // ---- the division, a word at a time --------------------------------------------------------

  /** Up to 16 bits at once: added at the top, then as many shifts. */
  lemma {:induction false} Fold(c: bv16, bits: seq<bool>)
    requires |bits| <= 16
    ensures CrcBits(c, bits) == ShiftN(|bits|, Plus(c, Word(bits)))
    decreases |bits|
  {
    hide Plus, Down, Odd, Hot, Top, Shift;
    if bits == [] {
      PlusZero(c);
    } else {
      var rest, t := bits[1..], Top(bits[0]);
      WordClear(rest);
      Fold(Shift(Plus(c, t)), rest);
      ShiftDown(Word(rest));
      PlusAssoc(c, t, Down(Word(rest)));
      ShiftXor(Plus(c, t), Down(Word(rest)));
    }
  }

  lemma {:induction false} CrcBitsAppend(c: bv16, x: seq<bool>, y: seq<bool>)
    ensures CrcBits(c, x + y) == CrcBits(CrcBits(c, x), y)
    decreases |x|
  {
    hide Shift, Top, Plus;
    if x == [] {
      assert x + y == y;
    } else {
      assert (x + y)[1..] == x[1..] + y;
      CrcBitsAppend(Shift(Plus(c, Top(x[0]))), x[1..], y);
    }
  }

  lemma {:induction false} WordOfTopBits(n: nat, w: bv16)
    requires n <= 16 && LowClear(w, 16 - n)
    ensures Word(TopBits(n, w)) == w
  {
    hide Plus, Down, Odd, Hot, Top, Up;
    if n == 0 {
      AllClear(w);
    } else {
      DownUp(w);
      ClearTop(Hot(w), 16 - n);
      ClearPlus(w, Top(Hot(w)), 16 - n);
      assert LowClear(Up(w), 17 - n);
      WordOfTopBits(n - 1, Up(w));
      assert TopBits(n, w)[1..] == TopBits(n - 1, Up(w));
    }
  }

  lemma AllClear(w: bv16)
    requires LowClear(w, 16)
    ensures w == 0
  {
    hide Down, Odd;
    var w4 := Four(w, 16);
    var w8 := Four(w4, 12);
    var w12 := Four(w8, 8);
    var w16 := Four(w12, 4);
    assert w16 == 0 by { FourDown(w); FourDown(w4); FourDown(w8); FourDown(w12); Gone(w); }
  }

  /** Four clear bits down: what is left is 0 only if the word was. */
  lemma Four(w: bv16, k: nat) returns (d: bv16)
    requires k >= 4 && LowClear(w, k)
    ensures d == Down(Down(Down(Down(w)))) && LowClear(d, k - 4)
    ensures d == 0 ==> w == 0
  {
    hide Down, Odd;
    var w1 := Down(w);
    assert LowClear(w1, k - 1);
    var w2 := Down(w1);
    assert LowClear(w2, k - 2);
    var w3 := Down(w2);
    assert LowClear(w3, k - 3);
    d := Down(w3);
    if d == 0 {
      OnlyEvenZero(w3);
      OnlyEvenZero(w2);
      OnlyEvenZero(w1);
      OnlyEvenZero(w);
    }
  }

  lemma FourDown(w: bv16)
    ensures Down(Down(Down(Down(w)))) == w >> 4
  {
  }

  lemma Gone(w: bv16)
    ensures (((w >> 4) >> 4) >> 4) >> 4 == 0
  {
  }

  lemma ClearWide(b: bv8)
    ensures LowClear(Wide(b), 8)
  {
    var x := b as bv16;
    WideSteps(x);
    assert LowClear(x, 0);
    assert LowClear(x << 1, 1);
    assert LowClear(x << 2, 2);
    assert LowClear(x << 3, 3);
    assert LowClear(x << 4, 4);
    assert LowClear(x << 5, 5);
    assert LowClear(x << 6, 6);
    assert LowClear(x << 7, 7);
  }

  lemma WideSteps(x: bv16)
    requires x & 0xff00 == 0
    ensures (x << 1) >> 1 == x
  {
  }

  lemma ByteOfBits(c: bv16, b: bv8)
    ensures CrcBits(c, TopBits(8, Wide(b))) == AddByte(c, b)
  {
    hide Plus, ShiftN, Wide;
    ClearWide(b);
    WordOfTopBits(8, Wide(b));
    Fold(c, TopBits(8, Wide(b)));
  }

  /** Byte by byte and bit by bit are the same division. */
  lemma {:induction false} MessageDivides(c: bv16, p: seq<bv8>)
    ensures CrcBits(c, MessageBits(p)) == Crc(c, p)
    decreases |p|
  {
    hide AddByte, Wide;
    if p != [] {
      ByteOfBits(c, p[0]);
      CrcBitsAppend(c, TopBits(8, Wide(p[0])), MessageBits(p[1..]));
      MessageDivides(AddByte(c, p[0]), p[1..]);
    }
  }

  // ---- bursts -----------------------------------------------------------------------------

  /** Some bit of the error is set, and all that are lie in 16 in a row from bit k on. */
  ghost predicate Burst(bits: seq<bool>, k: nat) {
    && (exists i :: 0 <= i < |bits| && bits[i])
    && (forall i :: 0 <= i < |bits| && bits[i] ==> k <= i < k + 16)
  }

  lemma {:induction false} Zeros(c: bv16, bits: seq<bool>)
    requires forall i :: 0 <= i < |bits| ==> !bits[i]
    ensures CrcBits(c, bits) == ShiftN(|bits|, c)
    decreases |bits|
  {
    hide Plus, Shift;
    if bits != [] {
      PlusZero(c);
      Zeros(Shift(c), bits[1..]);
    }
  }

  /** An error of at most 16 bits alone. */
  lemma ShortLeaves(bits: seq<bool>, i: nat)
    requires i < |bits| <= 16 && bits[i]
    ensures CrcBits(0, bits) != 0
  {
    hide Plus, Top, Shift, ShiftN;
    Fold(0, bits);
    WordZero(bits);
    PlusZero(Word(bits));
    PlusComm(0, Word(bits));
    ShiftNZero(|bits|, Word(bits));
  }

  /** An error between two stretches without one. */
  lemma BetweenZeros(before: seq<bool>, burst: seq<bool>, after: seq<bool>, i: nat)
    requires i < |burst| <= 16 && burst[i]
    requires (forall j :: 0 <= j < |before| ==> !before[j]) && (forall j :: 0 <= j < |after| ==> !after[j])
    ensures CrcBits(0, before + (burst + after)) != 0
  {
    hide CrcBits, ShiftN;
    CrcBitsAppend(0, before, burst + after);
    Zeros(0, before);
    ShiftNZero(|before|, 0);
    CrcBitsAppend(0, burst, after);
    ShortLeaves(burst, i);
    Zeros(CrcBits(0, burst), after);
    ShiftNZero(|after|, CrcBits(0, burst));
  }

  lemma Quiet(bits: seq<bool>, k: nat, lo: nat, hi: nat)
    requires Burst(bits, k) && lo <= hi <= |bits| && (hi <= k || k + 16 <= lo)
    ensures forall j :: 0 <= j < hi - lo ==> !bits[lo..hi][j]
  {
    forall j | 0 <= j < hi - lo
      ensures !bits[lo..hi][j]
    {
      assert bits[lo..hi][j] == bits[lo + j];
    }
  }

  lemma BurstLeaves(bits: seq<bool>, k: nat)
    requires Burst(bits, k)
    ensures CrcBits(0, bits) != 0
  {
    var i :| 0 <= i < |bits| && bits[i];
    assert k <= i < k + 16;
    hide CrcBits, Burst;
    var end := if k + 16 <= |bits| then k + 16 else |bits|;
    Quiet(bits, k, 0, k);
    if k + 16 <= |bits| {
      Quiet(bits, k, end, |bits|);
    }
    assert bits == bits[0..k] + (bits[k..end] + bits[end..|bits|]);
    BetweenZeros(bits[0..k], bits[k..end], bits[end..|bits|], i - k);
  }

  /** A block and its CRC hit by an error that divides to something else than 0 does not
      pass the receiver's comparison. */
  lemma ErrorShows(data: seq<bv8>, error: seq<bv8>, got: seq<bv8>)
    requires |error| == |data| + 2
    requires got == Xor(data + [Hi(Crc(0, data)), Lo(Crc(0, data))], error)
    requires Crc(0, error) != 0
    ensures Crc(0, got[..|data|]) != Join(got[|data|], got[|data| + 1])
  {
    hide Crc, Join, Hi, Lo, Plus;
    var crc, n := Crc(0, data), |data|;
    var sent := data + [Hi(crc), Lo(crc)];
    JoinSplit(crc, Hi(crc), Lo(crc));
    CheckIsResidue(data, Hi(crc), Lo(crc));
    assert Plus(0, 0) == 0 by { PlusZero(0); }
    CrcXor(0, 0, sent, error);
    PlusZero(Crc(0, error));
    PlusComm(0, Crc(0, error));
    assert got == got[..n] + [got[n], got[n + 1]];
    CheckIsResidue(got[..n], got[n], got[n + 1]);
  }

  /** Every burst of at most 16 bits in a block and its CRC is detected, whatever the
      length of the block and wherever the burst lies. */
  lemma BurstDetected(data: seq<bv8>, error: seq<bv8>, got: seq<bv8>, k: nat)
    requires |error| == |data| + 2 && Burst(MessageBits(error), k)
    requires got == Xor(data + [Hi(Crc(0, data)), Lo(Crc(0, data))], error)
    ensures Crc(0, got[..|data|]) != Join(got[|data|], got[|data| + 1])
  {
    hide Crc, Join, Hi, Lo;
    BurstLeaves(MessageBits(error), k);
    MessageDivides(0, error);
    ErrorShows(data, error, got);
  }

  // ---- parity -------------------------------------------------------------------------------

  /** An odd number of the bits is set. */
  function Parity(bits: seq<bool>): bool
    decreases |bits|
  {
    bits != [] && (bits[0] != Parity(bits[1..]))
  }

  function WordParity(n: nat, w: bv16): bool {
    n > 0 && (Hot(w) != WordParity(n - 1, Up(w)))
  }

  lemma {:induction false} ParityPlus(n: nat, a: bv16, b: bv16)
    ensures WordParity(n, Plus(a, b)) == (WordParity(n, a) != WordParity(n, b))
  {
    hide Plus, Hot, Up;
    if n > 0 {
      HotPlus(a, b);
      UpPlus(a, b);
      ParityPlus(n - 1, Up(a), Up(b));
    }
  }

  lemma {:induction false} ParityZero(n: nat)
    ensures !WordParity(n, 0)
  {
    if n > 0 {
      ParityZero(n - 1);
    }
  }

  /** One more bit below a word that has been moved up 16 times is 0. */
  lemma {:induction false} ParityLast(n: nat, w: bv16)
    requires n <= 16 && LowClear(w, 16 - n)
    ensures WordParity(n + 1, w) == WordParity(n, w)
  {
    hide Plus, Hot, Up, Down, Odd;
    if n == 0 {
      AllClear(w);
      assert !Hot(0) by { HotTop(false); TopFalse(); }
    } else {
      UpClear(n, w);
      ParityLast(n - 1, Up(w));
    }
  }

  lemma UpClear(n: nat, w: bv16)
    requires 0 < n <= 16 && LowClear(w, 16 - n)
    ensures LowClear(Up(w), 17 - n)
  {
    hide Plus, Hot, Up, Down, Odd, Top;
    DownUp(w);
    ClearTop(Hot(w), 16 - n);
    ClearPlus(w, Top(Hot(w)), 16 - n);
  }

  lemma PolyParity()
    ensures WordParity(16, Poly())
  {
    assert !WordParity(0, 0);
    ParityZero(0);
    assert WordParity(1, 0x8000);
    assert WordParity(5, 0x0800) by { assert WordParity(1, 0x8000); assert WordParity(2, 0x4000); assert WordParity(3, 0x2000); assert WordParity(4, 0x1000); }
  }

  /** A shift keeps the parity of the register: the polynomial has an even number of terms. */
  lemma ShiftParity(c: bv16)
    ensures WordParity(16, Shift(c)) == WordParity(16, c)
  {
    hide Plus, Hot, Up, Poly;
    ParityLast(16, c);
    assert WordParity(17, c) == (Hot(c) != WordParity(16, Up(c)));
    ParityPlus(16, Up(c), Poly());
    PolyParity();
  }

  lemma TopParity(b: bool)
    ensures WordParity(16, Top(b)) == b
  {
    ParityZero(16);
    if b {
      assert Up(0x8000) == 0;
      ParityZero(15);
    }
  }

  lemma {:induction false} BitsParity(c: bv16, bits: seq<bool>)
    ensures WordParity(16, CrcBits(c, bits)) == (WordParity(16, c) != Parity(bits))
    decreases |bits|
  {
    hide Plus, Shift, Top, WordParity;
    if bits != [] {
      var t := Top(bits[0]);
      ShiftParity(Plus(c, t));
      ParityPlus(16, c, t);
      TopParity(bits[0]);
      BitsParity(Shift(Plus(c, t)), bits[1..]);
    }
  }

  /** Every odd number of wrong bits is detected, wherever they are. */
  lemma OddErrorDetected(data: seq<bv8>, error: seq<bv8>, got: seq<bv8>)
    requires |error| == |data| + 2 && Parity(MessageBits(error))
    requires got == Xor(data + [Hi(Crc(0, data)), Lo(Crc(0, data))], error)
    ensures Crc(0, got[..|data|]) != Join(got[|data|], got[|data| + 1])
  {
    hide Crc, Join, Hi, Lo, WordParity;
    ParityZero(16);
    BitsParity(0, MessageBits(error));
    MessageDivides(0, error);
    ErrorShows(data, error, got);
  }
}
