/** Block 0: the file's name and its size in decimal, as the sender writes it and the
    receiver reads it. */
module YmodemBlock0 {
  import opened Thumb
  import opened YmodemWire

  const U32_MAX: nat := 0xffff_ffff
  const NAME_MAX: nat := 100

  // ---- decimal numbers --------------------------------------------------------------------

  function DigitOf(d: nat): bv8
    requires d < 10
  {
    (0x30 + d) as bv8
  }

  predicate IsDigit(b: bv8) {
    0x30 <= b <= 0x39
  }

  function DigitValue(b: bv8): (d: nat)
    ensures d < 10
  {
    DigitRange(b);
    if IsDigit(b) then b as int - 0x30 else 0
  }

  lemma DigitRange(b: bv8)
    ensures IsDigit(b) <==> 0x30 <= b as int <= 0x39
  {
  }

  lemma DigitBack(d: nat)
    requires d < 10
    ensures IsDigit(DigitOf(d)) && DigitValue(DigitOf(d)) == d
  {
    assert ((0x30 + d) as bv8) as int == 0x30 + d;
    DigitRange(DigitOf(d));
  }

  function Decimal(v: nat): (s: seq<bv8>)
    ensures |s| > 0
  {
    if v < 10 then [DigitOf(v)] else Decimal(v / 10) + [DigitOf(v % 10)]
  }

  ghost predicate AllDigits(s: seq<bv8>) {
    forall i :: 0 <= i < |s| ==> IsDigit(s[i])
  }

  /** The number a string of digits spells. */
  ghost function Value(s: seq<bv8>): nat {
    if s == [] then 0 else 10 * Value(s[..|s| - 1]) + DigitValue(s[|s| - 1])
  }

  lemma {:induction false} DecimalSpells(v: nat)
    ensures AllDigits(Decimal(v)) && Value(Decimal(v)) == v
  {
    hide IsDigit, DigitValue, DigitOf;
    DigitBack(v % 10);
    if v < 10 {
      assert [DigitOf(v)][..0] == [];
    } else {
      DecimalSpells(v / 10);
      var s := Decimal(v);
      assert s[..|s| - 1] == Decimal(v / 10) && s[|s| - 1] == DigitOf(v % 10);
    }
  }

  ghost function Pow10(n: nat): nat {
    if n == 0 then 1 else 10 * Pow10(n - 1)
  }

  lemma {:induction false} DecimalLength(v: nat, n: nat)
    requires n > 0 && v < Pow10(n)
    ensures |Decimal(v)| <= n
    decreases n
  {
    if v >= 10 {
      DecimalLength(v / 10, n - 1);
    }
  }

  /** No 32-bit number has more than ten digits. */
  lemma TenDigits(v: nat)
    requires v <= U32_MAX
    ensures |Decimal(v)| <= 10
  {
    assert Pow10(10) == 10_000_000_000 by {
      assert Pow10(3) == 1000;
      assert Pow10(6) == 1000 * Pow10(3);
      assert Pow10(9) == 1000 * Pow10(6);
    }
    DecimalLength(v, 10);
  }

  function Reversed(s: seq<bv8>): (r: seq<bv8>)
    ensures |r| == |s|
  {
    if s == [] then [] else [s[|s| - 1]] + Reversed(s[..|s| - 1])
  }

  lemma ReversedMore(s: seq<bv8>, b: bv8)
    ensures Reversed(s + [b]) == [b] + Reversed(s)
  {
    assert (s + [b])[..|s|] == s;
  }

  /** The digits come out of the division last first and are copied in order. */
  method PrintDecimal(v: nat) returns (out: seq<bv8>)
    requires v <= U32_MAX
    ensures out == Decimal(v) && |out| <= 10
  {
    hide DigitOf, Decimal, Reversed;
    TenDigits(v);
    if v == 0 {
      ZeroDigit();
      return [DigitOf(0)];
    }
    ReversedNone();
    var tmp := new bv8[10];
    var n, left := 0, v;
    while left > 0
      invariant 0 <= n <= 10 && Decimal(v) == (if left > 0 then Decimal(left) else []) + Reversed(tmp[..n])
    {
      var d := DigitOf(left % 10);
      DigitsLeft(left, Reversed(tmp[..n]));
      ReversedMore(tmp[..n], d);
      ghost var before := tmp[..n];
      tmp[n] := d;
      n, left := n + 1, left / 10;
      assert tmp[..n] == before + [d];
    }
    out := [];
    for i := 0 to n
      invariant out + Reversed(tmp[..n - i]) == Decimal(v)
    {
      assert tmp[..n - i] == tmp[..n - i - 1] + [tmp[n - 1 - i]];
      ReversedMore(tmp[..n - i - 1], tmp[n - 1 - i]);
      out := out + [tmp[n - 1 - i]];
    }
    ReversedNone();
  }

  lemma ZeroDigit()
    ensures Decimal(0) == [DigitOf(0)]
  {
  }

  lemma ReversedNone()
    ensures Reversed([]) == []
  {
  }

  lemma DigitsLeft(left: nat, done: seq<bv8>)
    requires left > 0
    ensures Decimal(left) + done == (if left / 10 > 0 then Decimal(left / 10) else []) + ([DigitOf(left % 10)] + done)
    ensures |done| + (if left / 10 > 0 then 1 else 0) < |Decimal(left) + done|
  {
  }

  // ---- writing block 0 ------------------------------------------------------------------------

  const DEFAULT_NAME: seq<bv8> := [0x66, 0x69, 0x6c, 0x65, 0x2e, 0x62, 0x69, 0x6e]

  /** The name that goes into block 0. */
  function SentName(name: seq<bv8>): (n: seq<bv8>)
    ensures 0 < |n| <= NAME_MAX
  {
    var full := if name == [] then DEFAULT_NAME else name;
    if |full| <= NAME_MAX then full else full[..NAME_MAX]
  }

  function Zeros(n: nat): (z: seq<bv8>)
    ensures |z| == n && forall i :: 0 <= i < n ==> z[i] == 0
  {
    seq(n, _ => 0)
  }

  function Block0(name: seq<bv8>, size: nat): (data: seq<bv8>)
    requires size <= U32_MAX
    ensures |data| == BLOCK0_LEN
  {
    TenDigits(size);
    var head := SentName(name) + [0] + Decimal(size);
    head + Zeros(BLOCK0_LEN - |head|)
  }

  lemma EndsInZeros(s: seq<bv8>, head: seq<bv8>)
    requires |head| <= |s| && s[..|head|] == head && forall j :: |head| <= j < |s| ==> s[j] == 0
    ensures s == head + Zeros(|s| - |head|)
  {
  }

  /** memset of the bytes from `from` to `to`. */
  method Fill(buf: array<bv8>, from: nat, to: nat, b: bv8)
    requires from <= to <= buf.Length
    modifies buf
    ensures forall j :: from <= j < to ==> buf[j] == b
    ensures forall j :: 0 <= j < buf.Length && !(from <= j < to) ==> buf[j] == old(buf[j])
  {
    for i := from to to
      invariant forall j :: from <= j < i ==> buf[j] == b
      invariant forall j :: 0 <= j < buf.Length && !(from <= j < i) ==> buf[j] == old(buf[j])
    {
      buf[i] := b;
    }
  }

  /** As much of p as there is room for. */
  function Fitting(p: seq<bv8>, room: nat): (q: seq<bv8>)
    ensures |q| <= room
  {
    if |p| <= room then p else p[..room]
  }

  /** Copies p into the buffer from place i on, not past `limit`. */
  method Copy(buf: array<bv8>, i: nat, p: seq<bv8>, limit: nat) returns (next: nat)
    requires i <= limit <= buf.Length
    modifies buf
    ensures next == i + |Fitting(p, limit - i)| && buf[i..next] == Fitting(p, limit - i)
    ensures forall j :: 0 <= j < buf.Length && !(i <= j < next) ==> buf[j] == old(buf[j])
  {
    next := i;
    var k := 0;
    while k < |p| && next < limit
      invariant 0 <= k <= |p| && next == i + k <= limit
      invariant buf[i..next] == p[..k]
      invariant forall j :: 0 <= j < buf.Length && !(i <= j < next) ==> buf[j] == old(buf[j])
    {
      buf[next] := p[k];
      next, k := next + 1, k + 1;
    }
    assert p[..k] == Fitting(p, limit - i);
  }

  /** Zeros, then the name and its NUL; returns the place after it. */
  method PutName(buf: array<bv8>, at: nat, name: seq<bv8>) returns (i: nat)
    requires at + BLOCK0_LEN <= buf.Length
    modifies buf
    ensures i == at + |SentName(name)| + 1 && buf[at..i] == SentName(name) + [0]
    ensures forall j :: i <= j < at + BLOCK0_LEN ==> buf[j] == 0
    ensures forall j :: 0 <= j < buf.Length && !(at <= j < at + BLOCK0_LEN) ==> buf[j] == old(buf[j])
  {
    hide Fitting, SentName;
    FitsName(name);
    Fill(buf, at, at + BLOCK0_LEN, 0);
    i := Copy(buf, at, if name != [] then name else DEFAULT_NAME, at + NAME_MAX);
    assert buf[at..i] == SentName(name);
    buf[i] := 0;
    i := i + 1;
    assert buf[at..i] == buf[at..i - 1] + [0];
    assert buf[at..i - 1] == SentName(name);
  }

  /** Fills 128 bytes of the buffer in place: zeros, then the name, its NUL and the
      digits, as far as they fit. */
  method BuildBlock0(buf: array<bv8>, at: nat, name: seq<bv8>, size: nat)
    requires at + BLOCK0_LEN <= buf.Length && size <= U32_MAX
    modifies buf
    ensures buf[at..at + BLOCK0_LEN] == Block0(name, size)
    ensures forall j :: 0 <= j < buf.Length && !(at <= j < at + BLOCK0_LEN) ==> buf[j] == old(buf[j])
  {
    hide Decimal, Zeros, Fitting, SentName, Block0;
    FitsSize(name, size);
    var k := PutName(buf, at, name);
    var num := PrintDecimal(size);
    var i := Copy(buf, k, num, at + BLOCK0_LEN - 1);
    assert buf[at..k] == SentName(name) + [0];
    ghost var s := buf[at..at + BLOCK0_LEN];
    Part(buf[..], at, at + BLOCK0_LEN, at, k);
    Part(buf[..], at, at + BLOCK0_LEN, k, i);
    Assembled(s, name, size);
  }

  lemma Part(s: seq<bv8>, a: nat, b: nat, x: nat, y: nat)
    requires a <= x <= y <= b <= |s|
    ensures s[a..b][x - a..y - a] == s[x..y]
  {
    forall j | 0 <= j < y - x
      ensures s[a..b][x - a..y - a][j] == s[x..y][j]
    {
      assert s[a..b][x - a + j] == s[x + j];
    }
  }

  lemma FitsName(name: seq<bv8>)
    ensures Fitting(if name != [] then name else DEFAULT_NAME, NAME_MAX) == SentName(name)
  {
  }

  lemma FitsSize(name: seq<bv8>, size: nat)
    requires size <= U32_MAX
    ensures Fitting(Decimal(size), BLOCK0_LEN - 1 - (|SentName(name)| + 1)) == Decimal(size)
    ensures |SentName(name)| + 1 + |Decimal(size)| <= BLOCK0_LEN - 1
  {
    hide Decimal;
    TenDigits(size);
  }

  /** The parts of block 0 in their places. */
  lemma Assembled(s: seq<bv8>, name: seq<bv8>, size: nat)
    requires size <= U32_MAX && |s| == BLOCK0_LEN
    requires var k, d := |SentName(name)| + 1, Decimal(size);
      && k + |d| <= BLOCK0_LEN && s[..k] == SentName(name) + [0] && s[k..k + |d|] == d
      && forall j :: k + |d| <= j < BLOCK0_LEN ==> s[j] == 0
    ensures s == Block0(name, size)
  {
    hide Decimal, SentName, Zeros;
    var k, d := |SentName(name)| + 1, Decimal(size);
    var head := SentName(name) + [0] + d;
    assert s[..|head|] == s[..k] + s[k..k + |d|];
    EndsInZeros(s, head);
  }

  // ---- reading it ---------------------------------------------------------------------------------

  /** `declared` is false when block 0 named no size. */
  datatype FileInfo = FileInfo(name: seq<bv8>, size: nat, declared: bool)

  function NulAt(data: seq<bv8>, i: nat): (k: nat)
    requires |data| >= BLOCK0_LEN && i <= BLOCK0_LEN
    ensures i <= k <= BLOCK0_LEN && (k < BLOCK0_LEN ==> data[k] == 0)
    ensures forall j :: i <= j < k ==> data[j] != 0
    decreases BLOCK0_LEN - i
  {
    if i < BLOCK0_LEN && data[i] != 0 then NulAt(data, i + 1) else i
  }

  function ParseSize(data: seq<bv8>, i: nat, size: nat, declared: bool): Option<(nat, bool)>
    requires |data| >= BLOCK0_LEN && i <= BLOCK0_LEN && size <= U32_MAX
    decreases BLOCK0_LEN - i
  {
    if i < BLOCK0_LEN && IsDigit(data[i]) then
      var d := DigitValue(data[i]);
      if size > (U32_MAX - d) / 10 then None else ParseSize(data, i + 1, size * 10 + d, true)
    else Some((size, declared))
  }

  function ParseBlock0(data: seq<bv8>): Option<FileInfo>
    requires |data| >= BLOCK0_LEN
  {
    var k := NulAt(data, 0);
    if k >= BLOCK0_LEN then None
    else
      match ParseSize(data, k + 1, 0, false)
      case None => None
      case Some((size, declared)) => Some(FileInfo(data[..k], size, declared))
  }

  /** Copies the name up to its NUL, as much of it as the buffer holds. */
  method ReadName(data: array<bv8>, name: array<bv8>) returns (i: nat)
    requires data.Length >= BLOCK0_LEN && name.Length == BLOCK0_LEN && name != data
    modifies name
    ensures i == NulAt(data[..], 0)
    ensures i < BLOCK0_LEN ==> name[..i] == data[..i] && name[i] == 0
  {
    hide NulAt;
    ghost var d := data[..];
    i := 0;
    var n := 0;
    NulStep(d, 0);
    while i < BLOCK0_LEN && data[i] != 0
      invariant 0 <= i <= BLOCK0_LEN && d == data[..] && NulAt(d, 0) == NulAt(d, i)
      invariant n == (if i < name.Length then i else name.Length - 1)
      invariant forall j :: 0 <= j < n ==> name[j] == data[j]
    {
      if n + 1 < name.Length {
        name[n] := data[i];
        n := n + 1;
      }
      i := i + 1;
      NulStep(d, i);
    }
    name[n] := 0;
  }

  lemma NulStep(data: seq<bv8>, i: nat)
    requires |data| >= BLOCK0_LEN && i <= BLOCK0_LEN
    ensures NulAt(data, i) == if i < BLOCK0_LEN && data[i] != 0 then NulAt(data, i + 1) else i
  {
  }

  /** Reads the decimal size; refuses one that does not fit 32 bits. */
  method ReadSize(data: array<bv8>, from: nat) returns (ok: bool, size: nat, declared: bool)
    requires data.Length >= BLOCK0_LEN && from <= BLOCK0_LEN
    ensures ParseSize(data[..], from, 0, false) == if ok then Some((size, declared)) else None
  {
    hide IsDigit, DigitValue;
    size, declared, ok := 0, false, true;
    var i := from;
    while i < BLOCK0_LEN && IsDigit(data[i])
      invariant from <= i <= BLOCK0_LEN && size <= U32_MAX
      invariant ParseSize(data[..], from, 0, false) == ParseSize(data[..], i, size, declared)
    {
      var d := DigitValue(data[i]);
      if size > (U32_MAX - d) / 10 {
        ok := false;
        return;
      }
      size, declared, i := size * 10 + d, true, i + 1;
    }
  }

  /** The whole of block 0: the name goes to `name`, NUL-terminated. */
  method Parse(data: array<bv8>, name: array<bv8>) returns (ok: bool, len: nat, size: nat, declared: bool)
    requires data.Length >= BLOCK0_LEN && name.Length == BLOCK0_LEN && name != data
    modifies name
    ensures ok <==> ParseBlock0(data[..]).Some?
    ensures ok ==> len < name.Length && name[len] == 0 && ParseBlock0(data[..]) == Some(FileInfo(name[..len], size, declared))
  {
    hide ParseSize, NulAt;
    size, declared, ok := 0, false, false;
    len := ReadName(data, name);
    if len >= BLOCK0_LEN {
      return;
    }
    ok, size, declared := ReadSize(data, len + 1);
    assert data[..][..len] == data[..len];
  }

  /** The digits from place i on. */
  ghost function DigitRun(data: seq<bv8>, i: nat): seq<bv8>
    requires |data| >= BLOCK0_LEN && i <= BLOCK0_LEN
    decreases BLOCK0_LEN - i
  {
    if i < BLOCK0_LEN && IsDigit(data[i]) then [data[i]] + DigitRun(data, i + 1) else []
  }

  /** All of them, and no more. */
  lemma {:induction false} RunIsAll(data: seq<bv8>, i: nat)
    requires |data| >= BLOCK0_LEN && i <= BLOCK0_LEN
    ensures var run := DigitRun(data, i);
      && AllDigits(run) && i + |run| <= BLOCK0_LEN && run == data[i..i + |run|]
      && (i + |run| < BLOCK0_LEN ==> !IsDigit(data[i + |run|]))
    decreases BLOCK0_LEN - i
  {
    hide IsDigit;
    if i < BLOCK0_LEN && IsDigit(data[i]) {
      RunIsAll(data, i + 1);
    }
  }

  lemma ValueStep(s: seq<bv8>, b: bv8)
    ensures Value(s + [b]) == 10 * Value(s) + DigitValue(b)
  {
    assert (s + [b])[..|s|] == s;
  }

  lemma {:induction false} ValueGrows(s: seq<bv8>, t: seq<bv8>)
    ensures Value(s) <= Value(s + t)
    decreases |t|
  {
    hide DigitValue;
    if t == [] {
      assert s + t == s;
    } else {
      ValueStep(s, t[0]);
      ValueGrows(s + [t[0]], t[1..]);
      assert s + [t[0]] + t[1..] == s + t;
    }
  }

  /** The result for a run of digits. */
  ghost function SizeOfRun(run: seq<bv8>): Option<(nat, bool)> {
    if Value(run) > U32_MAX then None else Some((Value(run), run != []))
  }

  lemma TooMuch(v: nat, d: nat)
    requires d < 10
    ensures v > (U32_MAX - d) / 10 <==> 10 * v + d > U32_MAX
  {
  }

  lemma DigitRunStep(data: seq<bv8>, i: nat)
    requires |data| >= BLOCK0_LEN && i <= BLOCK0_LEN
    ensures DigitRun(data, i) == if i < BLOCK0_LEN && IsDigit(data[i]) then [data[i]] + DigitRun(data, i + 1) else []
  {
    hide IsDigit, AllDigits;
  }

  lemma ParseStep(data: seq<bv8>, i: nat, size: nat, declared: bool)
    requires |data| >= BLOCK0_LEN && i <= BLOCK0_LEN && size <= U32_MAX
    ensures ParseSize(data, i, size, declared) ==
      if !(i < BLOCK0_LEN && IsDigit(data[i])) then Some((size, declared))
      else if 10 * size + DigitValue(data[i]) > U32_MAX then None
      else ParseSize(data, i + 1, 10 * size + DigitValue(data[i]), true)
  {
    hide IsDigit, DigitValue;
    if i < BLOCK0_LEN {
      TooMuch(size, DigitValue(data[i]));
    }
  }

  /** Reading on after the digits `done`: the size is the value of all of them, or it is
      refused because that value needs more than 32 bits. */
  lemma {:induction false} ParsesRun(data: seq<bv8>, i: nat, done: seq<bv8>)
    requires |data| >= BLOCK0_LEN && i <= BLOCK0_LEN && Value(done) <= U32_MAX
    ensures ParseSize(data, i, Value(done), done != []) == SizeOfRun(done + DigitRun(data, i))
    decreases BLOCK0_LEN - i
  {
    hide IsDigit, DigitValue, Value, AllDigits, ParseSize, DigitRun;
    ParseStep(data, i, Value(done), done != []);
    DigitRunStep(data, i);
    if i < BLOCK0_LEN && IsDigit(data[i]) {
      var run := DigitRun(data, i + 1);
      var more := done + [data[i]];
      ValueStep(done, data[i]);
      assert more + run == done + DigitRun(data, i);
      if Value(more) > U32_MAX {
        ValueGrows(more, run);
      } else {
        ParsesRun(data, i + 1, more);
      }
    } else {
      assert done + DigitRun(data, i) == done;
    }
  }

  /** A size is refused exactly when the digits spell more than 32 bits hold; otherwise it
      is what they spell. */
  lemma SizeExact(data: seq<bv8>)
    requires |data| >= BLOCK0_LEN
    ensures var k := NulAt(data, 0);
      ParseBlock0(data) ==
        if k == BLOCK0_LEN || Value(DigitRun(data, k + 1)) > U32_MAX then None
        else Some(FileInfo(data[..k], Value(DigitRun(data, k + 1)), DigitRun(data, k + 1) != []))
  {
    hide IsDigit, DigitValue, ParseSize, DigitRun, NulAt, Value;
    var k := NulAt(data, 0);
    if k < BLOCK0_LEN {
      FromNothing(data, k + 1);
    }
  }

  lemma FromNothing(data: seq<bv8>, i: nat)
    requires |data| >= BLOCK0_LEN && i <= BLOCK0_LEN
    ensures ParseSize(data, i, 0, false) == SizeOfRun(DigitRun(data, i))
  {
    hide IsDigit, DigitValue, ParseSize, DigitRun, SizeOfRun;
    assert Value([]) == 0;
    ParsesRun(data, i, []);
    assert [] + DigitRun(data, i) == DigitRun(data, i);
  }

  /** What the sender wrote is what the receiver reads: the name, cut to 100 bytes, and
      every 32-bit size. */
  lemma Block0RoundTrip(name: seq<bv8>, size: nat)
    requires size <= U32_MAX && forall i :: 0 <= i < |name| ==> name[i] != 0
    ensures ParseBlock0(Block0(name, size)) == Some(FileInfo(SentName(name), size, true))
  {
    hide Decimal, IsDigit, DigitValue, Value, DigitRun, NulAt, SentName, ParseBlock0, Block0;
    DecimalSpells(size);
    NameOfBlock0(name, size);
    SizeOfBlock0(name, size);
    SizeExact(Block0(name, size));
  }

  lemma NameOfBlock0(name: seq<bv8>, size: nat)
    requires size <= U32_MAX && forall i :: 0 <= i < |name| ==> name[i] != 0
    ensures NulAt(Block0(name, size), 0) == |SentName(name)| && Block0(name, size)[..|SentName(name)|] == SentName(name)
  {
    hide Decimal, NulAt, SentName, Zeros;
    var data, n := Block0(name, size), SentName(name);
    TenDigits(size);
    NoNulInName(name);
    assert data[..|n|] == n && data[|n|] == 0;
    assert forall j :: 0 <= j < |n| ==> data[j] == n[j];
    NulFound(data, 0, |n|);
  }

  lemma SizeOfBlock0(name: seq<bv8>, size: nat)
    requires size <= U32_MAX
    ensures DigitRun(Block0(name, size), |SentName(name)| + 1) == Decimal(size)
  {
    hide Decimal, IsDigit, SentName, Value, DigitRun;
    var data, i := Block0(name, size), |SentName(name)| + 1;
    TenDigits(size);
    DecimalSpells(size);
    assert data[i..i + |Decimal(size)|] == Decimal(size) && data[i + |Decimal(size)|] == 0;
    RunIs(data, i, Decimal(size));
  }

  lemma NoNulInName(name: seq<bv8>)
    requires forall i :: 0 <= i < |name| ==> name[i] != 0
    ensures forall i :: 0 <= i < |SentName(name)| ==> SentName(name)[i] != 0
  {
  }

  lemma {:induction false} NulFound(data: seq<bv8>, i: nat, k: nat)
    requires |data| >= BLOCK0_LEN && i <= k < BLOCK0_LEN && data[k] == 0
    requires forall j :: i <= j < k ==> data[j] != 0
    ensures NulAt(data, i) == k
    decreases k - i
  {
    if i < k {
      NulFound(data, i + 1, k);
    }
  }

  /** The run of digits ends where the zeros begin. */
  lemma {:induction false} RunIs(data: seq<bv8>, i: nat, digits: seq<bv8>)
    requires |data| >= BLOCK0_LEN && i + |digits| < BLOCK0_LEN && AllDigits(digits)
    requires data[i..i + |digits|] == digits && data[i + |digits|] == 0
    ensures DigitRun(data, i) == digits
    decreases |digits|
  {
    hide IsDigit;
    ZeroNoDigit();
    if digits != [] {
      assert data[i] == digits[0];
      assert data[i + 1..i + |digits|] == digits[1..];
      RunIs(data, i + 1, digits[1..]);
    }
  }

  lemma ZeroNoDigit()
    ensures !IsDigit(0)
  {
  }

  /** The closing block: no name, no size. */
  lemma NullBlockParses()
    ensures ParseBlock0(Zeros(BLOCK0_LEN)) == Some(FileInfo([], 0, false))
  {
    hide IsDigit, DigitValue;
    ZeroNoDigit();
    assert NulAt(Zeros(BLOCK0_LEN), 0) == 0;
  }
}
