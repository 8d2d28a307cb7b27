/** Faults that the protocol repairs: what the receiver answers to each, how many in a row it
    and the sender put up with, and that a transfer disturbed no more than that delivers the
    file. */
module YmodemRetry {
  import opened Thumb
  import opened Crc16
  import opened CrcDetection
  import opened YmodemWire
  import opened YmodemBlock0
  import opened YmodemReceiver
  import opened YmodemContract
  import opened YmodemSender
  import opened YmodemLink
  import opened YmodemSafety
  import opened YmodemRecvCode
  import opened YmodemSendCode
  import opened YmodemRoundTrip

  // ---- what can come instead of a packet ---------------------------------------------------

  /** Nothing; a piece of line that reads as a bad block; what was there before, once more:
      the last block, or an EOT. */
  datatype Trouble = Silent | Spoilt(line: Input) | Repeated

  /** A bad block, with all that would be drained after it. */
  ghost predicate Spoils(x: Input) {
    forall rest :: SpoiltBefore(x, rest)
  }

  ghost predicate SpoiltBefore(x: Input, rest: Input) {
    NextItem(x + rest).0 == Bad && Drain(NextItem(x + rest).1, DISCARD_MAX) == rest
  }

  lemma {:induction false} DrainsTo(noise: seq<bv8>, e: Event, rest: Input, n: nat)
    requires |noise| < n && !e.Got?
    ensures Drain(Bytes(noise) + ([e] + rest), n) == rest
    decreases |noise|
  {
    var input := Bytes(noise) + ([e] + rest);
    if noise == [] {
      assert input == [e] + rest && input[1..] == rest;
    } else {
      assert input[1..] == Bytes(noise[1..]) + ([e] + rest);
      DrainsTo(noise[1..], e, rest, n - 1);
    }
  }

  /** A frame hit by a burst or an odd number of wrong bits is such a piece, with anything
      behind it that is drained. */
  lemma DamagedSpoils(kind: bv8, num: bv8, data: seq<bv8>, error: seq<bv8>, k: nat, junk: seq<bv8>)
    requires IsFrame(kind, data) && |error| == |data| + 2 && |junk| < DISCARD_MAX
    requires Burst(MessageBits(error), k) || Parity(MessageBits(error))
    ensures Spoils(Bytes([kind, num, Not(num)] + Xor(Frame(kind, num, data)[3..], error)) + (Bytes(junk) + [TimedOut]))
  {
    hide NextItem, Drain, Burst, Parity, MessageBits, Not, Frame, Xor;
    var got := Bytes([kind, num, Not(num)] + Xor(Frame(kind, num, data)[3..], error));
    forall rest
      ensures SpoiltBefore(got + (Bytes(junk) + [TimedOut]), rest)
    {
      var after := Bytes(junk) + ([TimedOut] + rest);
      assert got + (Bytes(junk) + [TimedOut]) + rest == got + after;
      DamageIsSeen(kind, num, data, error, k, after);
      DrainsTo(junk, TimedOut, rest, DISCARD_MAX);
    }
  }

  /** So is a frame that breaks off after its header. */
  lemma CutSpoils(kind: bv8, num: bv8, data: seq<bv8>, k: nat)
    requires IsFrame(kind, data) && 0 < k < |Frame(kind, num, data)|
    ensures Spoils(Bytes(Frame(kind, num, data)[..k]) + [TimedOut, TimedOut])
  {
    hide NextItem, Drain, Frame;
    var got := Bytes(Frame(kind, num, data)[..k]);
    forall rest
      ensures SpoiltBefore(got + [TimedOut, TimedOut], rest)
    {
      assert got + [TimedOut, TimedOut] + rest == got + ([TimedOut] + ([TimedOut] + rest));
      FrameCut(kind, num, data, k, TimedOut, [TimedOut] + rest);
      assert [TimedOut] + rest == Bytes([]) + ([TimedOut] + rest);
      DrainsTo([], TimedOut, rest, DISCARD_MAX);
    }
  }

  // ---- what the receiver makes of it --------------------------------------------------------

  function Limit(p: Phase): nat {
    if p.Handshake? then 40 else 10
  }

  /** Where one trouble takes the receiver, and what it answers.  Among the data blocks only
      silences in a row are counted; before and after them bad blocks are too. */
  function Answer(p: Phase, t: Trouble): (Phase, seq<seq<bv8>>)
    requires !p.Ended?
  {
    match (p, t)
    case (Receiving(a, due, prompt, declared, remaining), Silent) =>
      if a == 10 then (Ended(ErrTimeout), []) else (Receiving(a + 1, due, prompt, declared, remaining), [[prompt]])
    case (Receiving(a, due, _, declared, remaining), Spoilt(_)) => (Receiving(0, due, NAK, declared, remaining), [[NAK]])
    case (Receiving(a, due, _, declared, remaining), Repeated) => (Receiving(0, due, NAK, declared, remaining), [[ACK]])
    case (Handshake(a), Repeated) => (p, [[ACK], [CRC_C]])
    case (Handshake(a), _) => if a == 40 then (Ended(ErrTimeout), []) else (Handshake(a + 1), [[CRC_C]])
    case (Closing(a), Repeated) => (p, [[ACK]])
    case (Closing(a), _) => if a == 10 then (Ended(ErrTimeout), []) else (Closing(a + 1),
      [if t.Silent? then [CRC_C] else [NAK]])
  }

  /** What a trouble looks like on the line, where `again` is the repetition. */
  function LineOf(t: Trouble, again: Input): Input {
    match t
    case Silent => [TimedOut]
    case Spoilt(x) => x
    case Repeated => again
  }

  /** `again` is what a sender that got no acknowledgement sends once more. */
  ghost predicate IsAgain(p: Phase, again: Input) {
    if p.Receiving? then exists kind, data :: IsFrame(kind, data) && again == Bytes(Frame(kind, NumBefore(p.due), data))
    else again == [Got(EOT)]
  }

  function Counted(p: Phase): nat {
    match p
    case Handshake(a) => a
    case Receiving(a, _, _, _, _) => a
    case Closing(a) => a
    case Ended(_) => 0
  }

  function ItemFor(p: Phase, t: Trouble, data: seq<bv8>): Item {
    match t
    case Silent => Quiet
    case Spoilt(_) => Bad
    case Repeated => if p.Receiving? then Block(NumBefore(p.due), data) else FileEnd
  }

  lemma SilenceIsQuiet(rest: Input)
    ensures NextItem([TimedOut] + rest) == (Quiet, rest)
  {
    assert ([TimedOut] + rest)[1..] == rest;
  }

  lemma ReadsTrouble(p: Phase, t: Trouble, again: Input, rest: Input) returns (after: Input, data: seq<bv8>)
    requires !p.Ended? && IsAgain(p, again) && (t.Spoilt? ==> Spoils(t.line))
    ensures NextItem(LineOf(t, again) + rest) == (ItemFor(p, t, data), after) && |data| >= BLOCK0_LEN
    ensures if t.Spoilt? then Drain(after, DISCARD_MAX) == rest else after == rest
  {
    hide NextItem, Drain, Frame;
    after, data := rest, NullBlock();
    match t {
      case Silent => SilenceIsQuiet(rest);
      case Spoilt(x) =>
        assert SpoiltBefore(x, rest);
        after := NextItem(x + rest).1;
      case Repeated =>
        if p.Receiving? {
          var kind, d :| IsFrame(kind, d) && again == Bytes(Frame(kind, NumBefore(p.due), d));
          FrameIsRead(kind, NumBefore(p.due), d, rest);
          data := d;
        } else {
          EotIsRead(rest);
        }
    }
  }

  function Singles(outs: seq<Out>): seq<seq<bv8>> {
    if outs == [] then [] else [[outs[0].b]] + Singles(outs[1..])
  }

  lemma {:induction false} EmitsAll(outs: seq<Out>, next: Phase, w: World)
    requires Willing(w)
    ensures Emit(outs, next, w) == (next, w.(sent := w.sent + Singles(outs)))
    decreases |outs|
  {
    if outs == [] {
      assert w.sent + [] == w.sent;
    } else {
      EmitsAll(outs[1..], next, Put(w, [outs[0].b]));
      assert w.sent + [[outs[0].b]] + Singles(outs[1..]) == w.sent + ([[outs[0].b]] + Singles(outs[1..]));
    }
  }

  /** The table against the machine's plans. */
  lemma AnswerPlanned(p: Phase, t: Trouble, data: seq<bv8>)
    requires !p.Ended? && Counted(p) <= Limit(p) && |data| >= BLOCK0_LEN
    ensures var plan := On(p, ItemFor(p, t, data));
      && plan.drain == t.Spoilt? && plan.call.None? && plan.next == Answer(p, t).0 && Singles(plan.outs) == Answer(p, t).1
  {
    hide NumBefore;
    NumbersDiffer();
    var plan := On(p, ItemFor(p, t, data));
    SinglesOne(plan.outs);
  }

  lemma NumbersDiffer()
    ensures forall b :: NumBefore(b) != b
  {
    forall b
      ensures NumBefore(b) != b
    {
      NumbersMove(b);
    }
  }

  lemma SinglesOne(outs: seq<Out>)
    ensures |outs| == 1 ==> Singles(outs) == [[outs[0].b]]
    ensures |outs| == 2 ==> Singles(outs) == [[outs[0].b], [outs[1].b]]
  {
    if |outs| == 2 {
      assert outs[1..][1..] == [];
      assert Singles(outs[1..]) == [[outs[1].b]];
    } else if |outs| == 1 {
      assert outs[1..] == [];
    }
  }

  /** One trouble, one answer: the rest of the line is as it was. */
  lemma OneTrouble(p: Phase, t: Trouble, again: Input, w: World, rest: Input)
    requires !p.Ended? && Counted(p) <= Limit(p) && IsAgain(p, again) && (t.Spoilt? ==> Spoils(t.line))
    requires Willing(w) && w.input == LineOf(t, again) + rest
    ensures Step(p, w) == (Answer(p, t).0, w.(input := rest, sent := w.sent + Answer(p, t).1))
  {
    hide NextItem, Drain, Emit, IsAgain, Spoils, On, Answer, LineOf, ItemFor;
    var after, data := ReadsTrouble(p, t, again, rest);
    AnswerPlanned(p, t, data);
    var plan := On(p, ItemFor(p, t, data));
    EmitsAll(plan.outs, plan.next, w.(input := rest));
  }

  // ---- troubles in a row ------------------------------------------------------------------------

  function Lines(ts: seq<Trouble>, again: Input): Input {
    if ts == [] then [] else LineOf(ts[0], again) + Lines(ts[1..], again)
  }

  /** Where a row of troubles takes the receiver, and all it answers. */
  function AnswerAll(p: Phase, ts: seq<Trouble>): (Phase, seq<seq<bv8>>)
    requires !p.Ended?
    decreases |ts|
  {
    if ts == [] then (p, [])
    else
      var (q, out) := Answer(p, ts[0]);
      if q.Ended? then (q, out)
      else
        var (r, more) := AnswerAll(q, ts[1..]);
        (r, out + more)
  }

  ghost predicate AllSpoil(ts: seq<Trouble>) {
    forall i :: 0 <= i < |ts| && ts[i].Spoilt? ==> Spoils(ts[i].line)
  }

  lemma AnswerKeeps(p: Phase, t: Trouble, again: Input)
    requires !p.Ended? && Counted(p) <= Limit(p) && IsAgain(p, again)
    ensures var q := Answer(p, t).0;
      q == Ended(ErrTimeout) || (!q.Ended? && Counted(q) <= Limit(q) && IsAgain(q, again) && Limit(q) == Limit(p))
  {
    hide Frame, NumBefore;
  }

  /** A row of troubles is answered one by one; then the run goes on as if they had not
      been, or it has timed out. */
  lemma {:induction false} Endures(p: Phase, ts: seq<Trouble>, again: Input, w: World, rest: Input)
    requires !p.Ended? && Counted(p) <= Limit(p) && IsAgain(p, again) && AllSpoil(ts)
    requires Willing(w) && w.input == Lines(ts, again) + rest
    ensures var (q, out) := AnswerAll(p, ts);
      if q.Ended? then q.result == ErrTimeout && Run(p, w).0 == ErrTimeout && Run(p, w).1.calls == w.calls
        && Run(p, w).1.sent == w.sent + out
      else Run(p, w) == Run(q, w.(input := rest, sent := w.sent + out)) && IsAgain(q, again)
    decreases |ts|
  {
    hide Step, IsAgain, Spoils, Answer, LineOf, Counted, Limit;
    if ts == [] {
      assert w.input == rest && w.sent + [] == w.sent;
    } else {
      var more := Lines(ts[1..], again) + rest;
      assert w.input == LineOf(ts[0], again) + more;
      OneTrouble(p, ts[0], again, w, more);
      AnswerKeeps(p, ts[0], again);
      RunOnce(p, w);
      var (q, out) := Answer(p, ts[0]);
      var w' := w.(input := more, sent := w.sent + out);
      if q.Ended? {
        RunEnded(q.result, w');
      } else {
        forall i | 0 <= i < |ts[1..]| && ts[1..][i].Spoilt?
          ensures Spoils(ts[1..][i].line)
        {
          assert ts[1..][i] == ts[i + 1];
        }
        Endures(q, ts[1..], again, w', rest);
        var later := AnswerAll(q, ts[1..]).1;
        assert w.sent + out + later == w.sent + (out + later);
      }
    }
  }

  lemma RunOnce(p: Phase, w: World)
    requires !p.Ended?
    ensures Run(p, w) == Run(Step(p, w).0, Step(p, w).1)
  {
    hide Step;
  }

  /** The troubles that count before and after the data. */
  function Costs(ts: seq<Trouble>): nat {
    if ts == [] then 0 else (if ts[0].Repeated? then 0 else 1) + Costs(ts[1..])
  }

  /** What is answered before the data, or after it. */
  function SaidAround(closing: bool, ts: seq<Trouble>): seq<seq<bv8>> {
    if ts == [] then []
    else
      (if ts[0].Repeated? then (if closing then [[ACK]] else [[ACK], [CRC_C]])
       else if closing && ts[0].Spoilt? then [[NAK]]
       else [[CRC_C]])
      + SaidAround(closing, ts[1..])
  }

  /** Before the data and after it: as many as the limit, in all. */
  lemma {:induction false} Patience(p: Phase, ts: seq<Trouble>)
    requires (p.Handshake? || p.Closing?) && Counted(p) <= Limit(p)
    ensures var q := AnswerAll(p, ts).0;
      if Counted(p) + Costs(ts) > Limit(p) then q == Ended(ErrTimeout)
      else
        && q == (if p.Handshake? then Handshake(p.attempts + Costs(ts)) else Closing(p.attempts + Costs(ts)))
        && AnswerAll(p, ts).1 == SaidAround(p.Closing?, ts)
    decreases |ts|
  {
    if ts != [] {
      var q := Answer(p, ts[0]).0;
      if !q.Ended? {
        Patience(q, ts[1..]);
      }
    }
  }

  /** Among the data: no more silences in a row than the limit, a of them so far. */
  predicate Bearable(ts: seq<Trouble>, a: nat) {
    if ts == [] then true
    else if ts[0].Silent? then a < 10 && Bearable(ts[1..], a + 1)
    else Bearable(ts[1..], 0)
  }

  /** What is answered among the data; `prompt` goes out on silence. */
  function Said(prompt: bv8, ts: seq<Trouble>): seq<seq<bv8>>
    decreases |ts|
  {
    if ts == [] then []
    else
      match ts[0]
      case Silent => [[prompt]] + Said(prompt, ts[1..])
      case Spoilt(_) => [[NAK]] + Said(NAK, ts[1..])
      case Repeated => [[ACK]] + Said(NAK, ts[1..])
  }

  lemma {:induction false} DataPatience(p: Phase, ts: seq<Trouble>)
    requires p.Receiving? && p.attempts <= 10
    ensures var q := AnswerAll(p, ts).0;
      if Bearable(ts, p.attempts) then
        && q.Receiving? && q.due == p.due && q.declared == p.declared && q.remaining == p.remaining
        && AnswerAll(p, ts).1 == Said(p.prompt, ts)
      else q == Ended(ErrTimeout)
    decreases |ts|
  {
    if ts != [] {
      var q := Answer(p, ts[0]).0;
      if !q.Ended? {
        DataPatience(q, ts[1..]);
      }
    }
  }

  /** Ten of any kind are borne among the data. */
  lemma {:induction false} FewBearable(ts: seq<Trouble>, a: nat)
    requires a + |ts| <= 10
    ensures Bearable(ts, a)
    decreases |ts|
  {
    if ts != [] {
      FewBearable(ts[1..], if ts[0].Silent? then a + 1 else 0);
    }
  }

  // ---- a whole file -------------------------------------------------------------------------------

  /** The data packets, EOT and the closing block, each behind its troubles. */
  function DataLine(due: bv8, f: seq<bv8>, again: Input, ts: seq<seq<Trouble>>): Input
    requires |ts| == |DataPackets(due, f)| + 2
    decreases |f|
  {
    if f == [] then Lines(ts[0], again) + (Bytes([EOT]) + (Lines(ts[1], [Got(EOT)]) + Bytes(NullPacketOf())))
    else
      var packet := DataPacketOf(due, f[..Want(|f|)]);
      Lines(ts[0], again) + (Bytes(packet) + DataLine(NumAfter(due), f[Want(|f|)..], Bytes(packet), ts[1..]))
  }

  function FileLine(file: File, f: seq<bv8>, ts: seq<seq<Trouble>>): Input
    requires |ts| == |DataPackets(1, f)| + 3
  {
    Lines(ts[0], [Got(EOT)]) + (Bytes(HeaderPacketOf(file)) + DataLine(1, f, Bytes(HeaderPacketOf(file)), ts[1..]))
  }

  /** What the receiver puts on the line from the first of n data packets on. */
  function DataAnswers(prompt: bv8, n: nat, ts: seq<seq<Trouble>>): seq<seq<bv8>>
    requires |ts| == n + 2
    decreases n
  {
    if n == 0 then Said(prompt, ts[0]) + ([[ACK], [CRC_C]] + (SaidAround(true, ts[1]) + [[ACK]]))
    else Said(prompt, ts[0]) + ([[ACK]] + DataAnswers(NAK, n - 1, ts[1..]))
  }

  function FileAnswers(n: nat, ts: seq<seq<Trouble>>): seq<seq<bv8>>
    requires |ts| == n + 3
  {
    [[CRC_C]] + (SaidAround(false, ts[0]) + ([[ACK], [CRC_C]] + DataAnswers(CRC_C, n, ts[1..])))
  }

  lemma Appended(s: seq<seq<bv8>>, a: seq<seq<bv8>>, b: seq<seq<bv8>>, c: seq<seq<bv8>>)
    ensures s + a + b + c == s + (a + (b + c))
  {
  }

  /** What is borne from the first data packet on. */
  ghost predicate DataMild(ts: seq<seq<Trouble>>)
    requires ts != []
  {
    && (forall i :: 0 <= i < |ts| ==> AllSpoil(ts[i]))
    && (forall i :: 0 <= i < |ts| - 1 ==> Bearable(ts[i], 0))
    && Costs(ts[|ts| - 1]) <= 10
  }

  lemma MildTail(ts: seq<seq<Trouble>>)
    requires |ts| >= 2 && DataMild(ts)
    ensures DataMild(ts[1..]) && AllSpoil(ts[0]) && Bearable(ts[0], 0)
  {
    hide AllSpoil, Bearable;
    var rest := ts[1..];
    assert forall i :: 0 <= i < |rest| ==> rest[i] == ts[i + 1];
  }

  lemma EndsDespite(p: Phase, again: Input, ts: seq<seq<Trouble>>, w: World)
    requires p.Receiving? && p.attempts == 0 && p.declared && p.remaining == 0 && Willing(w)
    requires |ts| == 2 && DataMild(ts) && IsAgain(p, again)
    requires w.input == Lines(ts[0], again) + (Bytes([EOT]) + (Lines(ts[1], [Got(EOT)]) + Bytes(NullPacketOf())))
    ensures Run(p, w).0 == Done && Run(p, w).1.calls == w.calls
    ensures Run(p, w).1.sent == w.sent + DataAnswers(p.prompt, 0, ts)
  {
    hide Run, Emit, NextItem, Frame, Lines, AllSpoil, Answer, YmodemBlock0.Zeros, Bearable, AnswerAll, Costs, Said,
      SaidAround;
    var last := Bytes(NullPacketOf());
    var rest := Lines(ts[1], [Got(EOT)]) + last;
    Endures(p, ts[0], again, w, Bytes([EOT]) + rest);
    DataPatience(p, ts[0]);
    var (q, out) := AnswerAll(p, ts[0]);
    var w0 := w.(input := Bytes([EOT]) + rest, sent := w.sent + out);
    assert Bytes([EOT]) == [Got(EOT)];
    EotIsRead(rest);
    FileEnds(q, w0, rest);
    var w1 := w0.(input := rest);
    SayTwice(ACK, CRC_C, Closing(0), w1);
    SayThen(CRC_C, Closing(0), Put(w1, [ACK]));
    var w2 := Put(Put(w1, [ACK]), [CRC_C]);
    Endures(Closing(0), ts[1], [Got(EOT)], w2, last);
    Patience(Closing(0), ts[1]);
    var (q3, out3) := AnswerAll(Closing(0), ts[1]);
    var w3 := w2.(input := last, sent := w2.sent + out3);
    assert last + [] == last;
    FrameIsRead(SOH, 0, NullBlock(), []);
    LastBlock(q3.attempts, w3, 0, NullBlock(), []);
    assert w0.sent + [[ACK]] + [[CRC_C]] == w0.sent + [[ACK], [CRC_C]];
    Appended(w0.sent, [[ACK], [CRC_C]], out3, [[ACK]]);
    assert w.sent + out + ([[ACK], [CRC_C]] + (out3 + [[ACK]])) == w.sent + (out + ([[ACK], [CRC_C]] + (out3 + [[ACK]])));
  }

  lemma NumbersBack(b: bv8)
    ensures NumBefore(NumAfter(b)) == b && NumBefore(1) == 0
  {
  }

  lemma DataAgain(due: bv8, chunk: seq<bv8>, p: Phase)
    requires |chunk| <= DATA_MAX && p.Receiving? && p.due == NumAfter(due)
    ensures IsAgain(p, Bytes(DataPacketOf(due, chunk)))
  {
    hide Frame, NumAfter, NumBefore;
    NumbersBack(due);
    assert IsFrame(KindOf(Padded(chunk)), Padded(chunk));
  }

  lemma {:induction false} DataDespite(p: Phase, f: seq<bv8>, again: Input, ts: seq<seq<Trouble>>, w: World)
    requires p.Receiving? && p.attempts == 0 && p.declared && p.remaining == |f| && Willing(w)
    requires |ts| == |DataPackets(p.due, f)| + 2 && DataMild(ts) && IsAgain(p, again)
    requires w.input == DataLine(p.due, f, again, ts)
    ensures Run(p, w).0 == Done && Run(p, w).1.calls == w.calls + FileWrites(f)
    ensures Run(p, w).1.sent == w.sent + DataAnswers(p.prompt, |DataPackets(p.due, f)|, ts)
    decreases |f|
  {
    hide Run, Emit, NextItem, Frame, Padded, Taken, NumAfter, NumBefore, IsAgain, Lines, DataMild, AnswerAll, AllSpoil,
      Bearable, Said, SaidAround;
    if f == [] {
      EndsDespite(p, again, ts, w);
      assert w.calls + [] == w.calls;
    } else {
      var c, more, due := f[..Want(|f|)], f[Want(|f|)..], NumAfter(p.due);
      var packet := DataPacketOf(p.due, c);
      var rest := DataLine(due, more, Bytes(packet), ts[1..]);
      MildTail(ts);
      Endures(p, ts[0], again, w, Bytes(packet) + rest);
      DataPatience(p, ts[0]);
      var (q, out) := AnswerAll(p, ts[0]);
      var w0 := w.(input := Bytes(packet) + rest, sent := w.sent + out);
      DataItem(p.due, c, rest);
      NumbersMove(p.due);
      BlockComes(q, w0, p.due, Padded(c), rest);
      TakesChunk(c, |f|);
      var next := Receiving(0, due, NAK, true, |more|);
      var w1 := CallSink(w0.(input := rest), Write(c));
      SayThen(ACK, next, w1);
      DataAgain(p.due, c, next);
      DataDespite(next, more, Bytes(packet), ts[1..], Put(w1, [ACK]));
      assert w.calls + [Write(c)] + FileWrites(more) == w.calls + ([Write(c)] + FileWrites(more));
      Appended(w.sent, out, [[ACK]], DataAnswers(NAK, |DataPackets(due, more)|, ts[1..]));
    }
  }

  /** The receiver, on the packets of a file each behind its troubles: as long as they are
      no more than it puts up with, success and the very same calls of the sink. */
  lemma ReceivesDespite(file: File, f: seq<bv8>, ts: seq<seq<Trouble>>)
    requires NameOk(file) && |f| == file.size && |ts| == |DataPackets(1, f)| + 3
    requires AllSpoil(ts[0]) && Costs(ts[0]) <= 40 && DataMild(ts[1..])
    ensures var (r, w) := Receive(World(FileLine(file, f, ts), [], [], [], []));
      && r == Done && w.calls == [Begin(SentName(file.name), file.size)] + FileWrites(f) && Written(w.calls) == f
      && w.sent == FileAnswers(|DataPackets(1, f)|, ts)
  {
    hide Run, Emit, NextItem, Frame, Block0, ParseBlock0, SentName, DataPackets, Written, FileWrites, DataLine, Lines,
      AllSpoil, Costs, DataMild, AnswerAll, NumBefore, SaidAround, DataAnswers;
    var header := HeaderPacketOf(file);
    var rest := DataLine(1, f, Bytes(header), ts[1..]);
    var w := World(FileLine(file, f, ts), [], [], [], []);
    EmitLast(CRC_C, true, Handshake(0), w);
    var w1 := Put(w, [CRC_C]);
    Endures(Handshake(0), ts[0], [Got(EOT)], w1, Bytes(header) + rest);
    Patience(Handshake(0), ts[0]);
    var (q, out) := AnswerAll(Handshake(0), ts[0]);
    var w0 := w1.(input := Bytes(header) + rest, sent := w1.sent + out);
    FrameIsRead(SOH, 0, Block0(file.name, file.size), rest);
    RunStep(q, w0, Block(0, Block0(file.name, file.size)), rest);
    HeaderPlan(file, q.attempts);
    var begin := Begin(SentName(file.name), file.size);
    var next := Receiving(0, 1, CRC_C, true, file.size);
    var w2 := CallSink(w0.(input := rest), begin);
    SayTwice(ACK, CRC_C, next, w2);
    SayThen(CRC_C, next, Put(w2, [ACK]));
    HeaderAgain(file, next);
    DataDespite(next, f, Bytes(header), ts[1..], Put(Put(w2, [ACK]), [CRC_C]));
    assert [] + [begin] == [begin];
    WritesJoin(f);
    WrittenJoin([begin], FileWrites(f));
    BeginWrites(begin);
    assert w1.sent == [[CRC_C]];
    assert w2.sent + [[ACK]] + [[CRC_C]] == w2.sent + [[ACK], [CRC_C]];
    Appended([[CRC_C]], out, [[ACK], [CRC_C]], DataAnswers(CRC_C, |DataPackets(1, f)|, ts[1..]));
  }

  lemma HeaderAgain(file: File, p: Phase)
    requires p.Receiving? && p.due == 1
    ensures IsAgain(p, Bytes(HeaderPacketOf(file)))
  {
    hide Frame, NumBefore, Block0;
    NumbersBack(0);
    assert IsFrame(SOH, Block0(file.name, file.size));
  }

  // ---- the sender ---------------------------------------------------------------------------------

  /** No answer, or one that makes a sender put its packet once more. */
  predicate Denial(e: Event) {
    e == TimedOut || (e.Got? && e.b != ACK && e.b != CAN)
  }

  /** No answer, or one that a sender waiting for a 'C' takes no notice of. */
  predicate Idle(e: Event) {
    e == TimedOut || (e.Got? && e.b != CRC_C && e.b != CAN)
  }

  function TimeOuts(es: seq<Event>): nat {
    if es == [] then 0 else (if es[0] == TimedOut then 1 else 0) + TimeOuts(es[1..])
  }

  function Copies(packet: seq<bv8>, n: nat): seq<seq<bv8>> {
    seq(n, _ => packet)
  }

  lemma TriesAside(p: Sending, t: nat, file: File, src: Source)
    requires p.Ok() && p.Out()
    ensures var q := WithTries(p, t);
      && q.Ok() && q.Out() && q.tries == t
      && Packet(q, file) == Packet(p, file) && Advance(q, file, src) == Advance(p, file, src)
  {
    hide Frame, LoadBlock, Padded;
  }

  lemma DenialReply(e: Event, rest: Input)
    requires Denial(e)
    ensures NextReply([e] + rest).0 !in {Acked, Halt} && NextReply([e] + rest).1 == rest
  {
    assert ([e] + rest)[1..] == rest;
  }

  lemma IdleReply(e: Event, rest: Input)
    requires Idle(e)
    ensures NextReply([e] + rest).0 !in {Asked, Halt} && NextReply([e] + rest).1 == rest
    ensures NextReply([e] + rest).0 == Silence <==> e == TimedOut
  {
    assert ([e] + rest)[1..] == rest;
  }

  /** A packet goes out once more for each denial; with the eleventh in a row the sender
      gives up. */
  lemma {:induction false} PacketDespite(p: Sending, file: File, es: seq<Event>, w: SWorld, rest: Input)
    requires p.Ok() && p.Out() && p.tries <= 10 && w.puts == []
    requires (forall i :: 0 <= i < |es| ==> Denial(es[i])) && w.input == es + ([Got(ACK)] + rest)
    ensures var packet := Packet(p, file);
      if p.tries + |es| <= 10 then
        Go((p, w.source), file, w) == Go(Advance(p, file, w.source), file, w.(input := rest,
          sent := w.sent + Copies(packet, |es| + 1)))
      else
        var (r, w') := Go((p, w.source), file, w);
        r == ErrTimeout && w'.sent == w.sent + Copies(packet, 11 - p.tries)
    decreases |es|
  {
    hide SRun, Go, Packet, Advance, NextReply, Denial, WithTries;
    var packet := Packet(p, file);
    GoOut(p, file, w);
    var w1 := SPut(w, packet);
    assert w.sent + [packet] == w.sent + Copies(packet, 1);
    if es == [] {
      assert w.input == [Got(ACK)] + rest;
      ReplyFirst(ACK, rest);
      OutReply(p, file, w1, Acked, rest);
    } else {
      var more := es[1..] + ([Got(ACK)] + rest);
      assert w.input == [es[0]] + more;
      DenialReply(es[0], more);
      OutReply(p, file, w1, NextReply(w.input).0, more);
      TriesAside(p, p.tries + 1, file, w.source);
      var w2 := w1.(input := more);
      if p.tries < 10 {
        PacketDespite(WithTries(p, p.tries + 1), file, es[1..], w2, rest);
        CopiesMore(w.sent, packet, |es|);
        CopiesMore(w.sent, packet, 10 - p.tries);
      }
    }
  }

  lemma CopiesMore(sent: seq<seq<bv8>>, packet: seq<bv8>, n: nat)
    ensures sent + [packet] + Copies(packet, n) == sent + Copies(packet, n + 1)
  {
    assert [packet] + Copies(packet, n) == Copies(packet, n + 1);
  }

  function AskLimit(p: Sending): nat {
    if p.Greeting? then 40 else 10
  }

  /** Waiting for a 'C' only silence counts, and as often as the limit it is borne. */
  lemma {:induction false} AskDespite(p: Sending, file: File, es: seq<Event>, w: SWorld, rest: Input)
    requires (p.Greeting? || p.Asking? || p.AskingClose?) && p.tries <= AskLimit(p)
    requires (forall i :: 0 <= i < |es| ==> Idle(es[i])) && w.input == es + ([Got(CRC_C)] + rest)
    ensures if p.tries + TimeOuts(es) <= AskLimit(p) then SRun(p, file, w) == Go(Advance(p, file, w.source), file,
      w.(input := rest))
            else SRun(p, file, w).0 == ErrTimeout && SRun(p, file, w).1.sent == w.sent
    decreases |es|
  {
    hide SRun, Go, NextReply, Idle, LoadBlock;
    if es == [] {
      assert w.input == [Got(CRC_C)] + rest;
      AskThrough(p, file, w, rest);
    } else {
      var more := es[1..] + ([Got(CRC_C)] + rest);
      assert w.input == [es[0]] + more;
      IdleReply(es[0], more);
      AskReply(p, file, w, NextReply(w.input).0, more);
      var w1 := w.(input := more);
      if es[0] != TimedOut {
        AskDespite(p, file, es[1..], w1, rest);
      } else if p.tries < AskLimit(p) {
        AskDespite(WithTries(p, p.tries + 1), file, es[1..], w1, rest);
      }
    }
  }

  /** What the sender hears: from the first of n data packets on. */
  function DataReplies(n: nat, ds: seq<seq<Event>>, close: seq<Event>): Input
    requires |ds| == n + 2
  {
    if n == 0 then ds[0] + ([Got(ACK)] + (close + ([Got(CRC_C)] + (ds[1] + ([Got(ACK)] + [])))))
    else ds[0] + ([Got(ACK)] + DataReplies(n - 1, ds[1..], close))
  }

  function FileReplies(n: nat, ds: seq<seq<Event>>, greet: seq<Event>, ask: seq<Event>, close: seq<Event>): Input
    requires |ds| == n + 3
  {
    greet + ([Got(CRC_C)] + (ds[0] + ([Got(ACK)] + (ask + ([Got(CRC_C)] + DataReplies(n, ds[1..], close))))))
  }

  /** Every packet as often as it was denied, and once more. */
  function Repeats(packets: seq<seq<bv8>>, ds: seq<seq<Event>>): seq<seq<bv8>>
    requires |packets| == |ds|
  {
    if packets == [] then [] else Copies(packets[0], |ds[0]| + 1) + Repeats(packets[1..], ds[1..])
  }

  predicate FewDenials(ds: seq<seq<Event>>) {
    forall i :: 0 <= i < |ds| ==> |ds[i]| <= 10 && forall j :: 0 <= j < |ds[i]| ==> Denial(ds[i][j])
  }

  predicate Patient(es: seq<Event>, limit: nat) {
    TimeOuts(es) <= limit && forall i :: 0 <= i < |es| ==> Idle(es[i])
  }

  lemma FewTail(ds: seq<seq<Event>>)
    requires ds != [] && FewDenials(ds)
    ensures FewDenials(ds[1..]) && |ds[0]| <= 10 && forall j :: 0 <= j < |ds[0]| ==> Denial(ds[0][j])
  {
    hide Denial;
    assert forall i :: 0 <= i < |ds[1..]| ==> ds[1..][i] == ds[i + 1];
  }

  lemma EndSentDespite(file: File, ds: seq<seq<Event>>, close: seq<Event>, w: SWorld)
    requires w.puts == [] && |ds| == 2 && FewDenials(ds) && Patient(close, 10)
    requires w.input == DataReplies(0, ds, close)
    ensures var (r, w') := Go((EotOut(0), w.source), file, w);
      r == Done && w'.sent == w.sent + Repeats([[EOT], NullPacketOf()], ds)
  {
    hide SRun, Go, NextReply, Frame, YmodemBlock0.Zeros, Denial, Idle, TimeOuts;
    var ending := ds[1] + ([Got(ACK)] + []);
    var after := close + ([Got(CRC_C)] + ending);
    PacketDespite(EotOut(0), file, ds[0], w, after);
    var w1 := w.(input := after, sent := w.sent + Copies([EOT], |ds[0]| + 1));
    GoWaiting(AskingClose(0), file, w1);
    AskDespite(AskingClose(0), file, close, w1, ending);
    var w2 := w1.(input := ending);
    PacketDespite(NullOut(0), file, ds[1], w2, []);
    GoOver(Done, file, w2.(input := [], sent := w2.sent + Copies(NullPacketOf(), |ds[1]| + 1)));
    RepeatsTwo([EOT], NullPacketOf(), ds);
    assert w.sent + Copies([EOT], |ds[0]| + 1) + Copies(NullPacketOf(), |ds[1]| + 1)
        == w.sent + (Copies([EOT], |ds[0]| + 1) + Copies(NullPacketOf(), |ds[1]| + 1));
  }

  lemma RepeatsTwo(a: seq<bv8>, b: seq<bv8>, ds: seq<seq<Event>>)
    requires |ds| == 2
    ensures Repeats([a, b], ds) == Copies(a, |ds[0]| + 1) + Copies(b, |ds[1]| + 1)
  {
    hide Copies;
    assert [a, b][1..] == [b] && [b][1..] == [];
    assert Repeats([b], ds[1..]) == Copies(b, |ds[1]| + 1) + [];
  }

  /** One block of the file, denied es times. */
  lemma ChunkSentDespite(num: bv8, left: nat, file: File, es: seq<Event>, w: SWorld, replies: Input) returns (rest: Source)
    requires 0 < left <= |Given(w.source)| && w.puts == [] && |es| <= 10
    requires (forall i :: 0 <= i < |es| ==> Denial(es[i])) && w.input == es + ([Got(ACK)] + replies)
    ensures left - Want(left) <= |Given(rest)| && Given(rest)[..left - Want(left)] == Given(w.source)[..left][Want(left)..]
    ensures var packet := DataPacketOf(num, Given(w.source)[..left][..Want(left)]);
      Go(LoadBlock(num, left, w.source), file, w) ==
      Go(LoadBlock(NumAfter(num), left - Want(left), rest), file, w.(source := rest, input := replies,
        sent := w.sent + Copies(packet, |es| + 1)))
  {
    hide SRun, Go, Packet, Advance, NextReply, Given, FillBlock, Padded, Frame, NumAfter, Denial, Copies;
    var want, f := Want(left), Given(w.source)[..left];
    FillFull(w.source, want);
    var (got, after) := FillBlock(w.source, want);
    rest := after;
    var c := got.value;
    assert c == f[..want] && Given(rest)[..left - want] == f[want..];
    Loads(num, left, w.source, got, rest);
    var p := DataOut(0, num, c, left);
    var w1 := w.(source := rest);
    GoSource(file, w, w1);
    PacketDespite(p, file, es, w1, replies);
    NextBlock(p, file, rest);
    DataPacket(p, file, Padded(c));
  }

  lemma RepeatsMore(sent: seq<seq<bv8>>, packets: seq<seq<bv8>>, ds: seq<seq<Event>>)
    requires packets != [] && |packets| == |ds|
    ensures sent + Copies(packets[0], |ds[0]| + 1) + Repeats(packets[1..], ds[1..]) == sent + Repeats(packets, ds)
  {
    hide Copies;
    assert sent + Copies(packets[0], |ds[0]| + 1) + Repeats(packets[1..], ds[1..])
        == sent + (Copies(packets[0], |ds[0]| + 1) + Repeats(packets[1..], ds[1..]));
  }

  lemma {:induction false} DataSentDespite(num: bv8, left: nat, file: File, ds: seq<seq<Event>>, close: seq<Event>,
    w: SWorld)
    requires left <= |Given(w.source)| && w.puts == [] && FewDenials(ds) && Patient(close, 10)
    requires |ds| == |DataPackets(num, Given(w.source)[..left])| + 2
    requires w.input == DataReplies(|ds| - 2, ds, close)
    ensures var (r, w') := Go(LoadBlock(num, left, w.source), file, w);
      r == Done && w'.sent == w.sent + Repeats(DataPackets(num, Given(w.source)[..left]) + [[EOT], NullPacketOf()], ds)
    decreases left
  {
    hide SRun, Go, LoadBlock, Given, Padded, Frame, NumAfter, YmodemBlock0.Zeros, FewDenials, Copies, Patient, Denial,
      Repeats;
    var f, tail := Given(w.source)[..left], [[EOT], NullPacketOf()];
    var packets := DataPackets(num, f) + tail;
    if left == 0 {
      NoBlock(num, w.source);
      assert packets == tail;
      EndSentDespite(file, ds, close, w);
    } else {
      var replies := DataReplies(|ds| - 3, ds[1..], close);
      FewTail(ds);
      var rest := ChunkSentDespite(num, left, file, ds[0], w, replies);
      var more := f[Want(left)..];
      assert packets[0] == DataPacketOf(num, f[..Want(left)]) && packets[1..] == DataPackets(NumAfter(num), more) + tail;
      var w2 := w.(source := rest, input := replies, sent := w.sent + Copies(packets[0], |ds[0]| + 1));
      DataSentDespite(NumAfter(num), left - Want(left), file, ds[1..], close, w2);
      RepeatsMore(w.sent, packets, ds);
    }
  }

  /** The sender, with up to ten denials of every packet: success, and every packet as
      often as it was denied and once more, in order. */
  lemma SendsDespite(file: File, src: Source, ds: seq<seq<Event>>, greet: seq<Event>, ask: seq<Event>, close: seq<Event>)
    requires |Given(src)| >= file.size && |ds| == |DataPackets(1, Given(src)[..file.size])| + 3 && FewDenials(ds)
    requires Patient(greet, 40) && Patient(ask, 10) && Patient(close, 10)
    ensures var (r, w) := Send(file, SWorld(FileReplies(|ds| - 3, ds, greet, ask, close), [], [], src));
      r == Done && w.sent == Repeats(Packets(file, Given(src)[..file.size]), ds)
  {
    hide SRun, Go, Packet, NextReply, Frame, Block0, Given, DataPackets, LoadBlock, FewDenials, Copies, DataReplies, Idle,
      TimeOuts;
    var f, n := Given(src)[..file.size], |ds| - 3;
    var data := DataReplies(n, ds[1..], close);
    var asked := ask + ([Got(CRC_C)] + data);
    var w := SWorld(FileReplies(n, ds, greet, ask, close), [], [], src);
    AskDespite(Greeting(0), file, greet, w, ds[0] + ([Got(ACK)] + asked));
    var w1 := w.(input := ds[0] + ([Got(ACK)] + asked));
    FewTail(ds);
    PacketDespite(HeaderOut(0), file, ds[0], w1, asked);
    HeaderPacket(file);
    var w2 := w1.(input := asked, sent := [] + Copies(HeaderPacketOf(file), |ds[0]| + 1));
    GoWaiting(Asking(0), file, w2);
    AskDespite(Asking(0), file, ask, w2, data);
    DataSentDespite(1, file.size, file, ds[1..], close, w2.(input := data));
    var packets := Packets(file, f);
    assert packets[0] == HeaderPacketOf(file) && packets[1..] == DataPackets(1, f) + [[EOT], NullPacketOf()];
    assert w2.sent + Repeats(packets[1..], ds[1..]) == Copies(packets[0], |ds[0]| + 1) + Repeats(packets[1..], ds[1..]);
  }

  // ---- both together ----------------------------------------------------------------------------------

  /** What the line makes of what is put on it: each packet whole, or a trouble instead. */
  function Carried(sent: seq<seq<bv8>>, fates: seq<Option<Trouble>>): Input
    requires |sent| == |fates|
  {
    if sent == [] then []
    else (match fates[0] case None => Bytes(sent[0]) case Some(t) => LineOf(t, [])) + Carried(sent[1..], fates[1..])
  }

  /** Of every packet the first so many are lost or spoilt, the next arrives. */
  function Fates(ts: seq<seq<Trouble>>): seq<Option<Trouble>> {
    if ts == [] then [] else seq(|ts[0]|, i requires 0 <= i < |ts[0]| => Some(ts[0][i])) + [None] + Fates(ts[1..])
  }

  predicate NoRepeats(ts: seq<Trouble>) {
    forall i :: 0 <= i < |ts| ==> !ts[i].Repeated?
  }

  lemma {:induction false} CarriedJoin(s1: seq<seq<bv8>>, f1: seq<Option<Trouble>>, s2: seq<seq<bv8>>,
    f2: seq<Option<Trouble>>)
    requires |s1| == |f1| && |s2| == |f2|
    ensures Carried(s1 + s2, f1 + f2) == Carried(s1, f1) + Carried(s2, f2)
    decreases |s1|
  {
    if s1 == [] {
      assert s1 + s2 == s2 && f1 + f2 == f2;
    } else {
      assert (s1 + s2)[1..] == s1[1..] + s2 && (f1 + f2)[1..] == f1[1..] + f2;
      CarriedJoin(s1[1..], f1[1..], s2, f2);
    }
  }

  lemma {:induction false} CarriedOne(packet: seq<bv8>, ts: seq<Trouble>, again: Input)
    requires NoRepeats(ts)
    ensures Carried(Copies(packet, |ts| + 1), seq(|ts|, i requires 0 <= i < |ts| => Some(ts[i])) + [None]) == Lines(ts,
      again) + Bytes(packet)
    decreases |ts|
  {
    hide Bytes;
    var sent := Copies(packet, |ts| + 1);
    var fates := seq(|ts|, i requires 0 <= i < |ts| => Some(ts[i])) + [None];
    assert sent[1..] == Copies(packet, |ts|);
    if ts == [] {
      assert fates == [None] && fates[1..] == [];
      assert Bytes(packet) + [] == [] + Bytes(packet);
    } else {
      var rest := ts[1..];
      assert fates[1..] == seq(|rest|, i requires 0 <= i < |rest| => Some(rest[i])) + [None];
      CarriedOne(packet, rest, again);
      assert LineOf(ts[0], []) == LineOf(ts[0], again);
      assert LineOf(ts[0], again) + (Lines(rest, again) + Bytes(packet)) == LineOf(ts[0], again) + Lines(rest,
        again) + Bytes(packet);
    }
  }

  predicate SameShape(ds: seq<seq<Event>>, ts: seq<seq<Trouble>>) {
    |ds| == |ts| && forall i :: 0 <= i < |ds| ==> |ds[i]| == |ts[i]| && NoRepeats(ts[i])
  }

  lemma ShapeTail(ds: seq<seq<Event>>, ts: seq<seq<Trouble>>)
    requires SameShape(ds, ts) && ds != []
    ensures SameShape(ds[1..], ts[1..]) && |ds[0]| == |ts[0]| && NoRepeats(ts[0])
  {
    hide NoRepeats;
  }

  lemma {:induction false} FatesMatch(packets: seq<seq<bv8>>, ds: seq<seq<Event>>, ts: seq<seq<Trouble>>)
    requires SameShape(ds, ts) && |packets| == |ds|
    ensures |Repeats(packets, ds)| == |Fates(ts)|
    decreases |ds|
  {
    if ds != [] {
      ShapeTail(ds, ts);
      FatesMatch(packets[1..], ds[1..], ts[1..]);
    }
  }

  /** The first packet of several, behind its troubles. */
  lemma CarriedFirst(packets: seq<seq<bv8>>, ds: seq<seq<Event>>, ts: seq<seq<Trouble>>, again: Input)
    requires SameShape(ds, ts) && |packets| == |ds| && packets != []
    ensures |Repeats(packets, ds)| == |Fates(ts)| && |Repeats(packets[1..], ds[1..])| == |Fates(ts[1..])|
    ensures Carried(Repeats(packets, ds), Fates(ts)) ==
      Lines(ts[0], again) + (Bytes(packets[0]) + Carried(Repeats(packets[1..], ds[1..]), Fates(ts[1..])))
  {
    hide Bytes, Carried, Lines;
    ShapeTail(ds, ts);
    FatesMatch(packets, ds, ts);
    FatesMatch(packets[1..], ds[1..], ts[1..]);
    CarriedOne(packets[0], ts[0], again);
    CarriedJoin(Copies(packets[0], |ts[0]| + 1), seq(|ts[0]|, i requires 0 <= i < |ts[0]| => Some(ts[0][i])) + [None],
                Repeats(packets[1..], ds[1..]), Fates(ts[1..]));
  }

  lemma {:induction false} CarriedData(due: bv8, f: seq<bv8>, again: Input, ds: seq<seq<Event>>, ts: seq<seq<Trouble>>)
    requires SameShape(ds, ts) && |ts| == |DataPackets(due, f)| + 2
    ensures var packets := DataPackets(due, f) + [[EOT], NullPacketOf()];
      |Repeats(packets, ds)| == |Fates(ts)| && Carried(Repeats(packets, ds), Fates(ts)) == DataLine(due, f, again, ts)
    decreases |f|
  {
    hide Bytes, Carried, Lines, Repeats, Fates, Frame, Padded, YmodemBlock0.Zeros, SameShape, NumAfter;
    var packets := DataPackets(due, f) + [[EOT], NullPacketOf()];
    ShapeLength(ds, ts);
    CarriedFirst(packets, ds, ts, again);
    if f == [] {
      assert packets == [[EOT], NullPacketOf()] && packets[1..] == [NullPacketOf()];
      ShapeTail(ds, ts);
      ShapeLength(ds[1..], ts[1..]);
      CarriedFirst([NullPacketOf()], ds[1..], ts[1..], [Got(EOT)]);
      assert [NullPacketOf()][1..] == [] && ds[1..][1..] == [] && ts[1..][1..] == [];
      NothingCarried();
      assert Bytes(NullPacketOf()) + [] == Bytes(NullPacketOf());
    } else {
      var packet := DataPacketOf(due, f[..Want(|f|)]);
      assert packets[0] == packet && packets[1..] == DataPackets(NumAfter(due), f[Want(|f|)..]) + [[EOT], NullPacketOf()];
      ShapeTail(ds, ts);
      CarriedData(NumAfter(due), f[Want(|f|)..], Bytes(packet), ds[1..], ts[1..]);
    }
  }

  lemma ShapeLength(ds: seq<seq<Event>>, ts: seq<seq<Trouble>>)
    requires SameShape(ds, ts)
    ensures |ds| == |ts|
  {
  }

  lemma NothingCarried()
    ensures Repeats([], []) == [] && Fates([]) == [] && Carried([], []) == []
  {
  }

  lemma CarriedFile(file: File, f: seq<bv8>, ds: seq<seq<Event>>, ts: seq<seq<Trouble>>)
    requires SameShape(ds, ts) && |ts| == |DataPackets(1, f)| + 3
    ensures |Repeats(Packets(file, f), ds)| == |Fates(ts)|
    ensures Carried(Repeats(Packets(file, f), ds), Fates(ts)) == FileLine(file, f, ts)
  {
    hide Bytes, Carried, Lines, Repeats, Fates, Frame, DataPackets, DataLine, Block0, SameShape, YmodemBlock0.Zeros;
    var packets := Packets(file, f);
    ShapeLength(ds, ts);
    assert packets[0] == HeaderPacketOf(file) && packets[1..] == DataPackets(1, f) + [[EOT], NullPacketOf()];
    CarriedFirst(packets, ds, ts, [Got(EOT)]);
    ShapeTail(ds, ts);
    CarriedData(1, f, Bytes(HeaderPacketOf(file)), ds[1..], ts[1..]);
  }

  lemma {:induction false} CostsFew(ts: seq<Trouble>)
    ensures Costs(ts) <= |ts|
    decreases |ts|
  {
    if ts != [] {
      CostsFew(ts[1..]);
    }
  }

  lemma FewMild(ds: seq<seq<Event>>, ts: seq<seq<Trouble>>)
    requires |ds| >= 2 && FewDenials(ds) && SameShape(ds, ts) && forall i :: 0 <= i < |ts| ==> AllSpoil(ts[i])
    ensures AllSpoil(ts[0]) && Costs(ts[0]) <= 40 && DataMild(ts[1..])
  {
    hide AllSpoil, Costs, Bearable, NoRepeats, Denial;
    forall i | 0 <= i < |ts|
      ensures Bearable(ts[i], 0) && Costs(ts[i]) <= 10
    {
      assert |ds[i]| == |ts[i]|;
      FewBearable(ts[i], 0);
      CostsFew(ts[i]);
    }
    assert forall i :: 0 <= i < |ts[1..]| ==> ts[1..][i] == ts[i + 1];
  }

  /** There and back over a bad line: every packet, block 0, EOT and the closing block too,
      may be lost or damaged up to ten times in a row, and every time the sender may hear
      anything but an ACK; the file arrives all the same. */
  lemma RoundTripDespite(file: File, src: Source, ds: seq<seq<Event>>, greet: seq<Event>, ask: seq<Event>,
    close: seq<Event>, ts: seq<seq<Trouble>>)
    requires NameOk(file) && |Given(src)| >= file.size
    requires |ds| == |DataPackets(1, Given(src)[..file.size])| + 3 && FewDenials(ds)
    requires Patient(greet, 40) && Patient(ask, 10) && Patient(close, 10)
    requires SameShape(ds, ts) && forall i :: 0 <= i < |ts| ==> AllSpoil(ts[i])
    ensures var f := Given(src)[..file.size];
      var (rs, ws) := Send(file, SWorld(FileReplies(|ds| - 3, ds, greet, ask, close), [], [], src));
      && rs == Done && |ws.sent| == |Fates(ts)|
      && var (r, w) := Receive(World(Carried(ws.sent, Fates(ts)), [], [], [], []));
         r == Done && w.calls == [Begin(SentName(file.name), file.size)] + FileWrites(f) && Written(w.calls) == f
  {
    hide Receive, Send, Packets, Given, DataPackets, SentName, FileWrites, Written, Repeats, Fates, Carried, FileLine,
      FileReplies, AllSpoil, FewDenials, Patient, DataMild, Costs, SameShape;
    var f := Given(src)[..file.size];
    ShapeLength(ds, ts);
    SendsDespite(file, src, ds, greet, ask, close);
    FewMild(ds, ts);
    ReceivesDespite(file, f, ts);
    CarriedFile(file, f, ds, ts);
  }

  // ---- each from the other -------------------------------------------------------------------------------

  lemma {:induction false} OnLineJoin(x: seq<seq<bv8>>, y: seq<seq<bv8>>)
    ensures OnLine(x + y) == OnLine(x) + OnLine(y)
    decreases |x|
  {
    if x == [] {
      assert x + y == y;
    } else {
      assert (x + y)[1..] == x[1..] + y;
      OnLineJoin(x[1..], y);
    }
  }

  lemma OnLineOne(b: bv8)
    ensures OnLine([[b]]) == [Got(b)]
    ensures forall c: bv8 :: OnLine([[b], [c]]) == [Got(b)] + [Got(c)]
  {
    assert [[b]][1..] == [] && Bytes([b]) == [Got(b)];
    forall c: bv8
      ensures OnLine([[b], [c]]) == [Got(b)] + [Got(c)]
    {
      assert [[b], [c]][1..] == [[c]] && [[c]][1..] == [] && Bytes([c]) == [Got(c)];
      assert OnLine([[c]]) == [Got(c)] + [];
    }
  }

  predicate AllDenials(es: seq<Event>, n: nat) {
    |es| == n && forall j :: 0 <= j < n ==> Denial(es[j])
  }

  lemma DenialMore(b: bv8, es: seq<Event>, n: nat)
    requires (b == CRC_C || b == NAK) && AllDenials(es, n)
    ensures AllDenials([Got(b)] + es, n + 1)
  {
  }

  /** Every trouble that is no repetition is answered with one byte, and it is no ACK. */
  lemma {:induction false} SaidDenies(prompt: bv8, ts: seq<Trouble>)
    requires (prompt == CRC_C || prompt == NAK) && NoRepeats(ts)
    ensures AllDenials(OnLine(Said(prompt, ts)), |ts|)
    decreases |ts|
  {
    hide AllDenials;
    NoneDenied();
    if ts != [] {
      var b, next := if ts[0].Silent? then prompt else NAK, if ts[0].Silent? then prompt else NAK;
      SaidDenies(next, ts[1..]);
      OnLineOne(b);
      OnLineJoin([[b]], Said(next, ts[1..]));
      DenialMore(b, OnLine(Said(next, ts[1..])), |ts| - 1);
    }
  }

  lemma NoneDenied()
    ensures OnLine([]) == [] && AllDenials([], 0)
  {
  }

  lemma {:induction false} AroundDenies(closing: bool, ts: seq<Trouble>)
    requires NoRepeats(ts)
    ensures AllDenials(OnLine(SaidAround(closing, ts)), |ts|)
    decreases |ts|
  {
    hide AllDenials;
    NoneDenied();
    if ts != [] {
      var b := if closing && ts[0].Spoilt? then NAK else CRC_C;
      AroundDenies(closing, ts[1..]);
      OnLineOne(b);
      OnLineJoin([[b]], SaidAround(closing, ts[1..]));
      DenialMore(b, OnLine(SaidAround(closing, ts[1..])), |ts| - 1);
    }
  }

  /** What the sender hears, packet by packet, from the first of n data packets on. */
  function Heard(prompt: bv8, n: nat, ts: seq<seq<Trouble>>): (ds: seq<seq<Event>>)
    requires |ts| == n + 2
    ensures |ds| == n + 2
    decreases n
  {
    if n == 0 then [OnLine(Said(prompt, ts[0])), OnLine(SaidAround(true, ts[1]))]
    else [OnLine(Said(prompt, ts[0]))] + Heard(NAK, n - 1, ts[1..])
  }

  function FileHeard(n: nat, ts: seq<seq<Trouble>>): (ds: seq<seq<Event>>)
    requires |ts| == n + 3
    ensures |ds| == n + 3
  {
    [OnLine(SaidAround(false, ts[0]))] + Heard(CRC_C, n, ts[1..])
  }

  lemma {:induction false} HeardData(prompt: bv8, n: nat, ts: seq<seq<Trouble>>)
    requires |ts| == n + 2
    ensures OnLine(DataAnswers(prompt, n, ts)) == DataReplies(n, Heard(prompt, n, ts), [])
    decreases n
  {
    hide OnLine, Said, SaidAround;
    OnLineOne(ACK);
    if n == 0 {
      var end := SaidAround(true, ts[1]) + [[ACK]];
      OnLineJoin(SaidAround(true, ts[1]), [[ACK]]);
      OnLineJoin([[ACK], [CRC_C]], end);
      OnLineJoin(Said(prompt, ts[0]), [[ACK], [CRC_C]] + end);
      Spread(OnLine(Said(prompt, ts[0])), OnLine(SaidAround(true, ts[1])));
    } else {
      HeardData(NAK, n - 1, ts[1..]);
      OnLineJoin([[ACK]], DataAnswers(NAK, n - 1, ts[1..]));
      OnLineJoin(Said(prompt, ts[0]), [[ACK]] + DataAnswers(NAK, n - 1, ts[1..]));
      assert Heard(prompt, n, ts)[1..] == Heard(NAK, n - 1, ts[1..]);
    }
  }

  lemma Spread(a: Input, b: Input)
    ensures a + ([Got(ACK)] + [Got(CRC_C)] + (b + [Got(ACK)])) == a + ([Got(ACK)] + ([] + ([Got(CRC_C)] + (b + ([Got(ACK)] + [])))))
  {
  }

  /** The receiver's replies, as the sender reads them. */
  lemma HeardFile(n: nat, ts: seq<seq<Trouble>>)
    requires |ts| == n + 3
    ensures OnLine(FileAnswers(n, ts)) == FileReplies(n, FileHeard(n, ts), [], [], [])
  {
    hide OnLine, SaidAround, DataAnswers, Heard, DataReplies;
    var a, data := SaidAround(false, ts[0]), DataAnswers(CRC_C, n, ts[1..]);
    OnLineOne(ACK);
    OnLineOne(CRC_C);
    HeardData(CRC_C, n, ts[1..]);
    OnLineJoin([[ACK], [CRC_C]], data);
    OnLineJoin(a, [[ACK], [CRC_C]] + data);
    OnLineJoin([[CRC_C]], a + ([[ACK], [CRC_C]] + data));
    var ds := FileHeard(n, ts);
    assert ds[0] == OnLine(a) && ds[1..] == Heard(CRC_C, n, ts[1..]);
    assert [Got(ACK)] + [Got(CRC_C)] + OnLine(data) == [Got(ACK)] + ([] + ([Got(CRC_C)] + OnLine(data)));
    assert [Got(CRC_C)] + (OnLine(a) + ([Got(ACK)] + ([] + ([Got(CRC_C)] + OnLine(data)))))
        == [] + ([Got(CRC_C)] + (OnLine(a) + ([Got(ACK)] + ([] + ([Got(CRC_C)] + OnLine(data))))));
  }

  /** No packet is in trouble more than ten times, and none is repeated. */
  ghost predicate Tenfold(ts: seq<seq<Trouble>>) {
    forall i :: 0 <= i < |ts| ==> |ts[i]| <= 10 && NoRepeats(ts[i]) && AllSpoil(ts[i])
  }

  lemma TenfoldTail(ts: seq<seq<Trouble>>)
    requires ts != [] && Tenfold(ts)
    ensures Tenfold(ts[1..]) && |ts[0]| <= 10 && NoRepeats(ts[0])
  {
    hide NoRepeats, AllSpoil;
    assert forall i :: 0 <= i < |ts[1..]| ==> ts[1..][i] == ts[i + 1];
  }

  lemma Mirrors(d: seq<Event>, ds: seq<seq<Event>>, t: seq<Trouble>, ts: seq<seq<Trouble>>)
    requires AllDenials(d, |t|) && |t| <= 10 && NoRepeats(t) && FewDenials(ds) && SameShape(ds, ts)
    ensures FewDenials([d] + ds) && SameShape([d] + ds, [t] + ts)
  {
    hide Denial, NoRepeats;
  }

  lemma NoMirror()
    ensures FewDenials([]) && SameShape([], [])
  {
  }

  lemma {:induction false} HeardShape(prompt: bv8, n: nat, ts: seq<seq<Trouble>>)
    requires |ts| == n + 2 && Tenfold(ts) && (prompt == CRC_C || prompt == NAK)
    ensures FewDenials(Heard(prompt, n, ts)) && SameShape(Heard(prompt, n, ts), ts)
    decreases n
  {
    hide Said, SaidAround, AllDenials, FewDenials, SameShape, NoRepeats, Tenfold, OnLine;
    TenfoldTail(ts);
    SaidDenies(prompt, ts[0]);
    assert ts == [ts[0]] + ts[1..];
    if n == 0 {
      TenfoldTail(ts[1..]);
      AroundDenies(true, ts[1]);
      NoMirror();
      assert ts[1..] == [ts[1]] + [] && [OnLine(SaidAround(true, ts[1]))] + [] == [OnLine(SaidAround(true, ts[1]))];
      Mirrors(OnLine(SaidAround(true, ts[1])), [], ts[1], []);
      Mirrors(OnLine(Said(prompt, ts[0])), [OnLine(SaidAround(true, ts[1]))], ts[0], ts[1..]);
      assert Heard(prompt, n, ts) == [OnLine(Said(prompt, ts[0]))] + [OnLine(SaidAround(true, ts[1]))];
    } else {
      HeardShape(NAK, n - 1, ts[1..]);
      Mirrors(OnLine(Said(prompt, ts[0])), Heard(NAK, n - 1, ts[1..]), ts[0], ts[1..]);
    }
  }

  lemma FileShape(n: nat, ts: seq<seq<Trouble>>)
    requires |ts| == n + 3 && Tenfold(ts)
    ensures FewDenials(FileHeard(n, ts)) && SameShape(FileHeard(n, ts), ts)
  {
    hide SaidAround, AllDenials, FewDenials, SameShape, NoRepeats, Tenfold, OnLine, Heard;
    TenfoldTail(ts);
    AroundDenies(false, ts[0]);
    HeardShape(CRC_C, n, ts[1..]);
    assert ts == [ts[0]] + ts[1..];
    Mirrors(OnLine(SaidAround(false, ts[0])), Heard(CRC_C, n, ts[1..]), ts[0], ts[1..]);
  }

  lemma NoWaiting()
    ensures Patient([], 40) && Patient([], 10)
  {
  }

  /** Both sides at once: the sender reads what the receiver puts on the line, the receiver
      reads what the line makes of what the sender puts on it; every packet may be lost or
      spoilt up to ten times in a row; and the file arrives, whole, at both ends' word. */
  lemma TransferDespite(file: File, src: Source, ts: seq<seq<Trouble>>)
    requires NameOk(file) && |Given(src)| >= file.size && Tenfold(ts)
    requires |ts| == |DataPackets(1, Given(src)[..file.size])| + 3
    ensures var f := Given(src)[..file.size];
      var line := FileLine(file, f, ts);
      var (r, w) := Receive(World(line, [], [], [], []));
      var (rs, ws) := Send(file, SWorld(OnLine(w.sent), [], [], src));
      && |ws.sent| == |Fates(ts)| && line == Carried(ws.sent, Fates(ts))
      && r == Done && rs == Done
      && w.calls == [Begin(SentName(file.name), file.size)] + FileWrites(f) && Written(w.calls) == f
  {
    hide Receive, Send, Packets, Given, DataPackets, SentName, FileWrites, Written, Repeats, Fates, Carried, FileLine,
      FileReplies, AllSpoil, FewDenials, Patient, DataMild, Costs, SameShape, FileAnswers, FileHeard, OnLine, NoRepeats;
    var f, n := Given(src)[..file.size], |ts| - 3;
    var ds := FileHeard(n, ts);
    FileShape(n, ts);
    FewMild(ds, ts);
    ReceivesDespite(file, f, ts);
    HeardFile(n, ts);
    NoWaiting();
    SendsDespite(file, src, ds, [], [], []);
    CarriedFile(file, f, ds, ts);
  }
}
