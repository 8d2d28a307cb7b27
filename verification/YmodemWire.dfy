/** What a YMODEM receiver reads: header hunting, block bodies and their checks, over any
    sequence of bytes, timeouts and aborts. */
module YmodemWire {
  import opened Crc16
  import opened CrcDetection

  const SOH: bv8 := 0x01
  const STX: bv8 := 0x02
  const EOT: bv8 := 0x04
  const ACK: bv8 := 0x06
  const BS: bv8 := 0x08
  const NAK: bv8 := 0x15
  const CAN: bv8 := 0x18
  const CPMEOF: bv8 := 0x1a
  const CRC_C: bv8 := 0x43

  const DATA_MAX: nat := 1024
  const BLOCK0_LEN: nat := 128
  const DISCARD_MAX: nat := 8192

  const CANCEL: seq<bv8> := [CAN, CAN, CAN, CAN, CAN, BS, BS, BS, BS, BS, BS, BS, BS]

  /** What one read of the line yields.  When the input has run out, only timeouts. */
  datatype Event = Got(b: bv8) | TimedOut | Aborted

  type Input = seq<Event>

  function First(input: Input): Event {
    if input == [] then TimedOut else input[0]
  }

  function Rest(input: Input): (rest: Input)
    ensures |rest| <= |input| && (input != [] ==> |rest| < |input|)
  {
    if input == [] then [] else input[1..]
  }

  function Bytes(p: seq<bv8>): (input: Input)
    ensures |input| == |p|
  {
    seq(|p|, i requires 0 <= i < |p| => Got(p[i]))
  }

  // ---- hunting for a header --------------------------------------------------------------

  datatype Header = Start(kind: bv8) | NoHeader | Cancelled

  predicate IsStart(b: bv8) {
    b == SOH || b == STX || b == EOT
  }

  /** At most n bytes are discarded.  A CAN takes the next event with it. */
  function WaitHeader(input: Input, n: nat): (r: (Header, Input))
    ensures |r.1| <= |input| && (input != [] && n > 0 ==> |r.1| < |input|)
    ensures input == [] ==> r.0 == NoHeader
    ensures r.0.Start? ==> IsStart(r.0.kind)
    decreases n
  {
    if n == 0 then (NoHeader, input)
    else
      var rest := Rest(input);
      match First(input)
      case TimedOut => (NoHeader, rest)
      case Aborted => (Cancelled, rest)
      case Got(b) =>
        if IsStart(b) then (Start(b), rest)
        else if b == CAN then
          if First(rest) == Got(CAN) then (Cancelled, Rest(rest)) else WaitHeader(Rest(rest), n - 1)
        else WaitHeader(rest, n - 1)
  }

  /** Swallows what is there, up to and with the first event that is no byte. */
  function Drain(input: Input, n: nat): (rest: Input)
    ensures |rest| <= |input|
    decreases n
  {
    if n == 0 then input
    else if First(input).Got? then Drain(Rest(input), n - 1)
    else Rest(input)
  }

  // ---- the body of a block --------------------------------------------------------------

  datatype Read = Full(bytes: seq<bv8>) | Short | Stopped

  function ReadBytes(input: Input, n: nat): (r: (Read, Input))
    ensures |r.1| <= |input| && (r.0.Full? ==> |r.0.bytes| == n && |r.1| == |input| - n)
    decreases n
  {
    if n == 0 then (Full([]), input)
    else
      match First(input)
      case TimedOut => (Short, Rest(input))
      case Aborted => (Stopped, Rest(input))
      case Got(b) =>
        var (more, rest) := ReadBytes(Rest(input), n - 1);
        (if more.Full? then Full([b] + more.bytes) else more, rest)
  }

  datatype Body = Intact(num: bv8, data: seq<bv8>) | Damaged | Halted

  function SizeOf(kind: bv8): nat {
    if kind == STX then DATA_MAX else BLOCK0_LEN
  }

  function Not(b: bv8): bv8 {
    !b
  }

  predicate CrcFits(data: seq<bv8>, check: seq<bv8>)
    requires |check| == 2
  {
    Crc(0, data) == Join(check[0], check[1])
  }

  function Lost(r: Read): Body {
    if r.Stopped? then Halted else Damaged
  }

  function ReadBody(input: Input, kind: bv8): (r: (Body, Input))
    ensures |r.1| <= |input|
    ensures r.0.Intact? ==> |r.0.data| == SizeOf(kind)
  {
    var (num, i1) := ReadBytes(input, 1);
    if !num.Full? then (Lost(num), i1)
    else
      var (inv, i2) := ReadBytes(i1, 1);
      if !inv.Full? then (Lost(inv), i2)
      else if inv.bytes[0] != Not(num.bytes[0]) then (Damaged, i2)
      else
        var (data, i3) := ReadBytes(i2, SizeOf(kind));
        if !data.Full? then (Lost(data), i3)
        else
          var (check, i4) := ReadBytes(i3, 2);
          if !check.Full? then (Lost(check), i4)
          else if !CrcFits(data.bytes, check.bytes) then (Damaged, i4)
          else (Intact(num.bytes[0], data.bytes), i4)
  }

  /** What a receiver gets for one wait: nothing in time, the end of the transfer (an
      abort or two CANs), the end of the file, a block, or a block that fails a check. */
  datatype Item = Quiet | Stop | FileEnd | Block(num: bv8, data: seq<bv8>) | Bad

  function NextItem(input: Input): (r: (Item, Input))
    ensures |r.1| <= |input| && (input != [] ==> |r.1| < |input|)
    ensures input == [] ==> r.0 == Quiet
    ensures r.0.Block? ==> |r.0.data| == BLOCK0_LEN || |r.0.data| == DATA_MAX
  {
    var (h, rest) := WaitHeader(input, DISCARD_MAX);
    match h
    case NoHeader => (Quiet, rest)
    case Cancelled => (Stop, rest)
    case Start(kind) =>
      if kind == EOT then (FileEnd, rest)
      else
        var (body, after) := ReadBody(rest, kind);
        (match body
         case Halted => Stop
         case Damaged => Bad
         case Intact(num, data) => Block(num, data), after)
  }

  // ---- frames ------------------------------------------------------------------------------

  /** A block as a sender puts it on the line. */
  function Frame(kind: bv8, num: bv8, data: seq<bv8>): (f: seq<bv8>)
    ensures |f| == |data| + 5
  {
    [kind, num, Not(num)] + data + [Hi(Crc(0, data)), Lo(Crc(0, data))]
  }

  predicate IsFrame(kind: bv8, data: seq<bv8>) {
    (kind == SOH || kind == STX) && |data| == SizeOf(kind)
  }

  lemma {:induction false} ReadsBytes(p: seq<bv8>, rest: Input)
    ensures ReadBytes(Bytes(p) + rest, |p|) == (Full(p), rest)
    decreases |p|
  {
    var input := Bytes(p) + rest;
    if p == [] {
      assert input == rest;
    } else {
      assert input[1..] == Bytes(p[1..]) + rest;
      ReadsBytes(p[1..], rest);
      assert p == [p[0]] + p[1..];
    }
  }

  lemma ReadsOne(b: bv8, rest: Input)
    ensures ReadBytes([Got(b)] + rest, 1) == (Full([b]), rest)
  {
    assert Bytes([b]) == [Got(b)];
    ReadsBytes([b], rest);
  }

  /** The body of a block with any two bytes in place of its check. */
  lemma ReadsBody(kind: bv8, num: bv8, data: seq<bv8>, check: seq<bv8>, rest: Input)
    requires |data| == SizeOf(kind) && |check| == 2
    ensures ReadBody(Bytes([num, Not(num)] + data + check) + rest, kind)
         == (if CrcFits(data, check) then Intact(num, data) else Damaged, rest)
  {
    hide ReadBytes, Not, CrcFits;
    var i3 := Bytes(check) + rest;
    var i2 := Bytes(data) + i3;
    var i1 := [Got(Not(num))] + i2;
    assert Bytes([num, Not(num)] + data + check) + rest == [Got(num)] + i1;
    ReadsOne(num, i1);
    ReadsOne(Not(num), i2);
    ReadsBytes(data, i3);
    ReadsBytes(check, rest);
  }

  lemma StartsAtOnce(kind: bv8, rest: Input)
    requires IsStart(kind)
    ensures WaitHeader([Got(kind)] + rest, DISCARD_MAX) == (Start(kind), rest)
  {
    assert ([Got(kind)] + rest)[1..] == rest;
  }

  // ---- noise and cancels ---------------------------------------------------------------------

  /** Bytes that neither start anything nor are a CAN. */
  predicate IsNoise(noise: seq<bv8>) {
    forall i :: 0 <= i < |noise| ==> !IsStart(noise[i]) && noise[i] != CAN
  }

  /** The first events are an answer to the wait: silence, an abort, a start byte or two
      CANs. */
  predicate Answers(input: Input) {
    !First(input).Got? || IsStart(First(input).b) || (First(input) == Got(CAN) && First(Rest(input)) == Got(CAN))
  }

  /** Every byte of noise costs one of the discards, and nothing else. */
  lemma {:induction false} NoiseCosts(noise: seq<bv8>, input: Input, n: nat)
    requires IsNoise(noise)
    ensures WaitHeader(Bytes(noise) + input, |noise| + n) == WaitHeader(input, n)
    decreases |noise|
  {
    hide IsStart;
    var all := Bytes(noise) + input;
    if noise == [] {
      assert all == input;
    } else {
      assert all[0] == Got(noise[0]) && all[1..] == Bytes(noise[1..]) + input;
      NoiseCosts(noise[1..], input, n);
    }
  }

  /** A single CAN costs one discard, and the event after it goes with it. */
  lemma SingleCan(e: Event, input: Input, n: nat)
    requires e != Got(CAN)
    ensures WaitHeader([Got(CAN), e] + input, n + 1) == WaitHeader(input, n)
  {
    var all := [Got(CAN), e] + input;
    assert all[1..][1..] == input;
    CanIsNoStart();
  }

  lemma CanIsNoStart()
    ensures !IsStart(CAN) && !IsStart(BS)
  {
  }

  lemma AnswersAtOnce(input: Input, n: nat)
    requires Answers(input) && n > 0
    ensures WaitHeader(input, n) == WaitHeader(input, 1)
  {
    CanIsNoStart();
    hide IsStart;
  }

  /** Noise in front changes nothing, as long as it is less than the limit; at the limit
      the wait is over. */
  lemma NoiseIgnored(noise: seq<bv8>, input: Input)
    requires IsNoise(noise)
    ensures |noise| < DISCARD_MAX && Answers(input) ==> NextItem(Bytes(noise) + input) == NextItem(input)
    ensures |noise| >= DISCARD_MAX ==> NextItem(Bytes(noise) + input) == (Quiet, Bytes(noise[DISCARD_MAX..]) + input)
  {
    hide ReadBody, WaitHeader, Answers;
    if |noise| < DISCARD_MAX {
      NoiseCosts(noise, input, DISCARD_MAX - |noise|);
      if Answers(input) {
        AnswersAtOnce(input, DISCARD_MAX - |noise|);
        AnswersAtOnce(input, DISCARD_MAX);
      }
    } else {
      var rest := Bytes(noise[DISCARD_MAX..]) + input;
      assert Bytes(noise) + input == Bytes(noise[..DISCARD_MAX]) + rest;
      NoiseCosts(noise[..DISCARD_MAX], rest, 0);
      NoDiscards(rest);
    }
  }

  lemma NoDiscards(input: Input)
    ensures WaitHeader(input, 0) == (NoHeader, input)
  {
  }

  /** Two CANs in a row end the transfer, whatever noise came before. */
  lemma CancelIsRead(noise: seq<bv8>, rest: Input)
    requires IsNoise(noise) && |noise| < DISCARD_MAX
    ensures NextItem(Bytes(noise) + ([Got(CAN), Got(CAN)] + rest)) == (Stop, rest)
  {
    hide ReadBody;
    var input := [Got(CAN), Got(CAN)] + rest;
    CanIsNoStart();
    assert input[1..][1..] == rest && WaitHeader(input, 1) == (Cancelled, rest);
    AnswersAtOnce(input, DISCARD_MAX);
    NoiseIgnored(noise, input);
  }

  /** A frame cut short, or not there at all: an abort ends the transfer, silence is a bad
      block once its header has come. */
  lemma FrameCut(kind: bv8, num: bv8, data: seq<bv8>, k: nat, e: Event, rest: Input)
    requires IsFrame(kind, data) && k < |Frame(kind, num, data)| && !e.Got?
    ensures NextItem(Bytes(Frame(kind, num, data)[..k]) + ([e] + rest))
         == (if e.Aborted? then Stop else if k == 0 then Quiet else Bad, rest)
  {
    hide ReadBody, Not, Crc, Hi, Lo;
    var input := [e] + rest;
    assert input[1..] == rest;
    if k == 0 {
      assert Bytes(Frame(kind, num, data)[..0]) + input == input;
      AnswersAtOnce(input, DISCARD_MAX);
    } else {
      var body := Frame(kind, num, data)[1..];
      var here := Bytes(body[..k - 1]) + input;
      assert Bytes(Frame(kind, num, data)[..k]) + input == [Got(kind)] + here;
      StartsAtOnce(kind, here);
      KindsDiffer(kind);
      BodyCut(kind, num, data, k - 1, e, rest);
    }
  }

  lemma {:induction false} ReadsPart(p: seq<bv8>, n: nat, e: Event, rest: Input)
    requires |p| < n && !e.Got?
    ensures ReadBytes(Bytes(p) + ([e] + rest), n) == (if e.Aborted? then Stopped else Short, rest)
    decreases |p|
  {
    var input := Bytes(p) + ([e] + rest);
    if p == [] {
      assert input == [e] + rest && input[1..] == rest;
    } else {
      assert input[1..] == Bytes(p[1..]) + ([e] + rest);
      ReadsPart(p[1..], n - 1, e, rest);
    }
  }

  function Ends(e: Event): Body {
    if e.Aborted? then Halted else Damaged
  }

  lemma CutInData(kind: bv8, num: bv8, part: seq<bv8>, e: Event, rest: Input)
    requires |part| < SizeOf(kind) && !e.Got?
    ensures ReadBody([Got(num)] + ([Got(Not(num))] + (Bytes(part) + ([e] + rest))), kind) == (Ends(e), rest)
  {
    hide ReadBytes, Not, CrcFits;
    var i3 := Bytes(part) + ([e] + rest);
    ReadsOne(num, [Got(Not(num))] + i3);
    ReadsOne(Not(num), i3);
    ReadsPart(part, SizeOf(kind), e, rest);
  }

  lemma CutInCheck(kind: bv8, num: bv8, data: seq<bv8>, part: seq<bv8>, e: Event, rest: Input)
    requires |data| == SizeOf(kind) && |part| < 2 && !e.Got?
    ensures ReadBody([Got(num)] + ([Got(Not(num))] + (Bytes(data) + (Bytes(part) + ([e] + rest)))), kind) == (Ends(e), rest)
  {
    hide ReadBytes, Not, CrcFits;
    var i4 := Bytes(part) + ([e] + rest);
    ReadsOne(num, [Got(Not(num))] + (Bytes(data) + i4));
    ReadsOne(Not(num), Bytes(data) + i4);
    ReadsBytes(data, i4);
    ReadsPart(part, 2, e, rest);
  }

  lemma CutInNumber(kind: bv8, num: bv8, both: bool, e: Event, rest: Input)
    requires !e.Got?
    ensures ReadBody((if both then [Got(num)] else []) + ([e] + rest), kind) == (Ends(e), rest)
  {
    hide ReadBytes, Not, CrcFits;
    assert Bytes([]) + ([e] + rest) == [e] + rest == [] + ([e] + rest);
    ReadsPart([], 1, e, rest);
    ReadsOne(num, [e] + rest);
  }

  /** The first k bytes of a body, in its pieces. */
  lemma BodyCut(kind: bv8, num: bv8, data: seq<bv8>, k: nat, e: Event, rest: Input)
    requires IsFrame(kind, data) && k < |data| + 4 && !e.Got?
    ensures ReadBody(Bytes(Frame(kind, num, data)[1..][..k]) + ([e] + rest), kind) == (Ends(e), rest)
  {
    hide ReadBytes, ReadBody, Not, Crc, Hi, Lo;
    var check := [Hi(Crc(0, data)), Lo(Crc(0, data))];
    var body, input := Frame(kind, num, data)[1..], [e] + rest;
    assert body == [num, Not(num)] + data + check;
    if k < 2 {
      assert Bytes(body[..k]) + input == (if k == 1 then [Got(num)] else []) + input;
      CutInNumber(kind, num, k == 1, e, rest);
    } else if k - 2 < |data| {
      var part := data[..k - 2];
      assert Bytes(body[..k]) + input == [Got(num)] + ([Got(Not(num))] + (Bytes(part) + input));
      CutInData(kind, num, part, e, rest);
    } else {
      var part := check[..k - 2 - |data|];
      assert body[..k] == [num, Not(num)] + data + part;
      assert Bytes(body[..k]) + input == [Got(num)] + ([Got(Not(num))] + (Bytes(data) + (Bytes(part) + input)));
      CutInCheck(kind, num, data, part, e, rest);
    }
  }

  /** A frame is read as the block it carries, and nothing after it is touched. */
  lemma FrameIsRead(kind: bv8, num: bv8, data: seq<bv8>, rest: Input)
    requires IsFrame(kind, data)
    ensures NextItem(Bytes(Frame(kind, num, data)) + rest) == (Block(num, data), rest)
  {
    hide ReadBody, WaitHeader, Not, Crc, Hi, Lo;
    var check := [Hi(Crc(0, data)), Lo(Crc(0, data))];
    var body := Bytes([num, Not(num)] + data + check) + rest;
    assert Bytes(Frame(kind, num, data)) + rest == [Got(kind)] + body;
    StartsAtOnce(kind, body);
    ReadsBody(kind, num, data, check, rest);
    assert CrcFits(data, check) by { JoinSplit(Crc(0, data), 0, 0); }
    KindsDiffer(kind);
  }

  lemma KindsDiffer(kind: bv8)
    requires kind == SOH || kind == STX
    ensures kind != EOT && IsStart(kind)
  {
  }

  lemma EotIsRead(rest: Input)
    ensures NextItem([Got(EOT)] + rest) == (FileEnd, rest)
  {
    hide ReadBody, WaitHeader;
    StartsAtOnce(EOT, rest);
  }

  /** A frame whose data or check was hit by a burst of at most 16 bits, or by an odd
      number of wrong bits, is read as a bad block. */
  lemma DamageIsSeen(kind: bv8, num: bv8, data: seq<bv8>, error: seq<bv8>, k: nat, rest: Input)
    requires IsFrame(kind, data) && |error| == |data| + 2
    requires Burst(MessageBits(error), k) || Parity(MessageBits(error))
    ensures NextItem(Bytes([kind, num, Not(num)] + Xor(Frame(kind, num, data)[3..], error)) + rest) == (Bad, rest)
  {
    hide ReadBody, WaitHeader, Not, Crc, Hi, Lo, Join, Burst, Parity, MessageBits;
    var sent, n := data + [Hi(Crc(0, data)), Lo(Crc(0, data))], |data|;
    assert Frame(kind, num, data)[3..] == sent;
    var got := Xor(sent, error);
    if Parity(MessageBits(error)) {
      OddErrorDetected(data, error, got);
    } else {
      BurstDetected(data, error, got, k);
    }
    SplitIsRead(kind, num, got, n, rest);
  }

  /** A header followed by n bytes and two that do not check them. */
  lemma SplitIsRead(kind: bv8, num: bv8, got: seq<bv8>, n: nat, rest: Input)
    requires (kind == SOH || kind == STX) && n == SizeOf(kind) && |got| == n + 2
    requires Crc(0, got[..n]) != Join(got[n], got[n + 1])
    ensures NextItem(Bytes([kind, num, Not(num)] + got) + rest) == (Bad, rest)
  {
    hide ReadBody, WaitHeader, Not, Crc, Join;
    var check := got[n..];
    var body := Bytes([num, Not(num)] + got[..n] + check) + rest;
    assert got == got[..n] + check;
    assert Bytes([kind, num, Not(num)] + got) + rest == [Got(kind)] + body;
    StartsAtOnce(kind, body);
    ReadsBody(kind, num, got[..n], check, rest);
    KindsDiffer(kind);
  }

  // ---- what an accepted block proves of the input ---------------------------------------------

  lemma {:induction false} ReadCame(input: Input, n: nat)
    requires ReadBytes(input, n).0.Full?
    ensures input == Bytes(ReadBytes(input, n).0.bytes) + ReadBytes(input, n).1
    decreases n
  {
    if n > 0 {
      ReadCame(Rest(input), n - 1);
      var (more, rest) := ReadBytes(Rest(input), n - 1);
      assert Bytes([input[0].b] + more.bytes) == [input[0]] + Bytes(more.bytes);
    } else {
      assert Bytes([]) + input == input;
    }
  }

  lemma FrameTail(kind: bv8, num: bv8, data: seq<bv8>, check: seq<bv8>)
    requires |check| == 2 && CrcFits(data, check)
    ensures Frame(kind, num, data)[1..] == [num] + [Not(num)] + data + check
  {
    hide Not, Crc, Hi, Lo, Join;
    JoinSplit(0, check[0], check[1]);
    assert check == [Hi(Crc(0, data)), Lo(Crc(0, data))];
  }

  lemma BytesJoin(p: seq<bv8>, q: seq<bv8>, r: seq<bv8>, s: seq<bv8>, rest: Input)
    ensures Bytes(p) + (Bytes(q) + (Bytes(r) + (Bytes(s) + rest))) == Bytes(p + q + r + s) + rest
  {
  }

  lemma BodyCame(input: Input, kind: bv8)
    requires ReadBody(input, kind).0.Intact?
    ensures var b := ReadBody(input, kind);
      input == Bytes(Frame(kind, b.0.num, b.0.data)[1..]) + b.1
  {
    hide ReadBytes, Not, CrcFits, Frame;
    var (num, i1) := ReadBytes(input, 1);
    var (inv, i2) := ReadBytes(i1, 1);
    var (data, i3) := ReadBytes(i2, SizeOf(kind));
    var (check, i4) := ReadBytes(i3, 2);
    ReadCame(input, 1);
    ReadCame(i1, 1);
    ReadCame(i2, SizeOf(kind));
    ReadCame(i3, 2);
    FrameTail(kind, num.bytes[0], data.bytes, check.bytes);
    assert num.bytes == [num.bytes[0]] && inv.bytes == [Not(num.bytes[0])];
    BytesJoin(num.bytes, inv.bytes, data.bytes, check.bytes, i4);
  }

  lemma {:induction false} HeaderCame(input: Input, n: nat)
    requires WaitHeader(input, n).0.Start?
    ensures var h := WaitHeader(input, n);
      |h.1| < |input| && input[|input| - |h.1| - 1..] == [Got(h.0.kind)] + h.1
    decreases n
  {
    hide IsStart;
    var rest := Rest(input);
    if First(input).Got? && !IsStart(input[0].b) {
      if input[0].b == CAN {
        HeaderCame(Rest(rest), n - 1);
      } else {
        HeaderCame(rest, n - 1);
      }
    }
  }

  /** A block that a receiver accepts arrived byte for byte: its header, its number and
      complement, its data and the matching check, just before what is left. */
  lemma BlockCame(input: Input) returns (kind: bv8, at: nat)
    requires NextItem(input).0.Block?
    ensures var r := NextItem(input);
      && IsFrame(kind, r.0.data) && at + |r.0.data| + 5 + |r.1| == |input|
      && input[at..] == Bytes(Frame(kind, r.0.num, r.0.data)) + r.1
  {
    hide ReadBody, WaitHeader, Not, Crc, Hi, Lo;
    var (h, rest) := WaitHeader(input, DISCARD_MAX);
    kind := h.kind;
    HeaderCame(input, DISCARD_MAX);
    at := |input| - |rest| - 1;
    var b := ReadBody(rest, kind);
    BodyCame(rest, kind);
    var f := Frame(kind, b.0.num, b.0.data);
    assert Bytes(f) == [Got(kind)] + Bytes(f[1..]);
    assert input[at..] == [Got(kind)] + (Bytes(f[1..]) + b.1);
  }

  // ---- what a stop proves of the input ---------------------------------------------------------

  /** `rest` is the end of the input. */
  predicate AtEnd(input: Input, rest: Input) {
    |rest| <= |input| && input[|input| - |rest|..] == rest
  }

  lemma EndOfEnd(a: Input, b: Input, c: Input)
    requires AtEnd(a, b) && AtEnd(b, c)
    ensures AtEnd(a, c)
  {
    assert forall i :: 0 <= i < |b| ==> a[|a| - |b| + i] == b[i];
  }

  lemma AllAtEnd(input: Input)
    ensures AtEnd(input, input)
  {
  }

  lemma RestAtEnd(input: Input)
    ensures AtEnd(input, Rest(input))
  {
  }

  lemma {:induction false} ReadAtEnd(input: Input, n: nat)
    ensures AtEnd(input, ReadBytes(input, n).1)
    decreases n
  {
    hide AtEnd;
    AllAtEnd(input);
    RestAtEnd(input);
    if n > 0 && First(input).Got? {
      ReadAtEnd(Rest(input), n - 1);
      EndOfEnd(input, Rest(input), ReadBytes(Rest(input), n - 1).1);
    }
  }

  /** Just before `rest` stood an abort or two CANs. */
  predicate StopBefore(input: Input, rest: Input) {
    && |rest| < |input| && AtEnd(input, rest)
    && (input[|input| - |rest| - 1] == Aborted
        || (|rest| + 1 < |input| && input[|input| - |rest| - 1] == Got(CAN) && input[|input| - |rest| - 2] == Got(CAN)))
  }

  lemma StopDeeper(input: Input, inner: Input, rest: Input)
    requires StopBefore(inner, rest) && AtEnd(input, inner)
    ensures StopBefore(input, rest)
  {
    var d := |input| - |inner|;
    assert forall i :: 0 <= i < |inner| ==> input[d + i] == inner[i];
    EndOfEnd(input, inner, rest);
  }

  lemma {:induction false} HeaderStop(input: Input, n: nat)
    requires WaitHeader(input, n).0 == Cancelled
    ensures StopBefore(input, WaitHeader(input, n).1)
    decreases n
  {
    hide IsStart;
    var rest := Rest(input);
    if First(input).Got? {
      if First(input).b != CAN {
        HeaderStop(rest, n - 1);
        StopDeeper(input, rest, WaitHeader(input, n).1);
      } else if First(rest) != Got(CAN) {
        HeaderStop(Rest(rest), n - 1);
        StopDeeper(input, Rest(rest), WaitHeader(input, n).1);
      }
    }
  }

  lemma {:induction false} ReadStop(input: Input, n: nat)
    requires ReadBytes(input, n).0.Stopped?
    ensures StopBefore(input, ReadBytes(input, n).1)
    decreases n
  {
    if First(input).Got? {
      ReadStop(Rest(input), n - 1);
      StopDeeper(input, Rest(input), ReadBytes(input, n).1);
    }
  }

  lemma BodyStop(input: Input, kind: bv8)
    requires ReadBody(input, kind).0 == Halted
    ensures StopBefore(input, ReadBody(input, kind).1)
  {
    hide ReadBytes, Not, CrcFits, StopBefore, AtEnd;
    var (num, i1) := ReadBytes(input, 1);
    var (inv, i2) := ReadBytes(i1, 1);
    var (data, i3) := ReadBytes(i2, SizeOf(kind));
    var (check, i4) := ReadBytes(i3, 2);
    ReadAtEnd(input, 1);
    ReadAtEnd(i1, 1);
    ReadAtEnd(i2, SizeOf(kind));
    EndOfEnd(input, i1, i2);
    EndOfEnd(input, i2, i3);
    if num.Stopped? {
      ReadStop(input, 1);
    } else if inv.Stopped? {
      ReadStop(i1, 1);
      StopDeeper(input, i1, i2);
    } else if data.Stopped? {
      ReadStop(i2, SizeOf(kind));
      StopDeeper(input, i2, i3);
    } else {
      ReadStop(i3, 2);
      StopDeeper(input, i3, i4);
    }
  }

  /** The transfer is stopped by nothing but an abort or two CANs in a row, read last. */
  lemma StopCame(input: Input)
    requires NextItem(input).0 == Stop
    ensures StopBefore(input, NextItem(input).1)
  {
    hide ReadBody, WaitHeader, StopBefore;
    var (h, rest) := WaitHeader(input, DISCARD_MAX);
    if h == Cancelled {
      HeaderStop(input, DISCARD_MAX);
    } else {
      HeaderCame(input, DISCARD_MAX);
      assert input[|input| - |rest| - 1..][1..] == input[|input| - |rest|..];
      BodyStop(rest, h.kind);
      StopDeeper(input, rest, NextItem(input).1);
    }
  }
}
