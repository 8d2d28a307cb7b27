/** What the sender puts on the line for a file is what the receiver needs to get exactly
    that file: its name, its size and its bytes. */
module YmodemRoundTrip {
  import opened Thumb
  import opened YmodemWire
  import opened YmodemBlock0
  import opened YmodemReceiver
  import opened YmodemContract
  import opened YmodemSender
  import opened YmodemLink
  import opened YmodemSafety
  import opened YmodemRecvCode
  import opened YmodemSendCode

  // ---- the packets of a file ---------------------------------------------------------------

  function DataPacketOf(num: bv8, chunk: seq<bv8>): seq<bv8>
    requires |chunk| <= DATA_MAX
  {
    Frame(KindOf(Padded(chunk)), num, Padded(chunk))
  }

  function DataPackets(num: bv8, f: seq<bv8>): seq<seq<bv8>>
    decreases |f|
  {
    if f == [] then [] else [DataPacketOf(num, f[..Want(|f|)])] + DataPackets(NumAfter(num), f[Want(|f|)..])
  }

  function HeaderPacketOf(file: File): seq<bv8> {
    Frame(SOH, 0, Block0(file.name, file.size))
  }

  function NullPacketOf(): seq<bv8> {
    Frame(SOH, 0, NullBlock())
  }

  function Packets(file: File, f: seq<bv8>): seq<seq<bv8>> {
    [HeaderPacketOf(file)] + DataPackets(1, f) + [[EOT], NullPacketOf()]
  }

  /** The bytes of all packets, as the line carries them. */
  function OnLine(packets: seq<seq<bv8>>): Input {
    if packets == [] then [] else Bytes(packets[0]) + OnLine(packets[1..])
  }

  // ---- the receiver ---------------------------------------------------------------------------

  lemma DataItem(num: bv8, chunk: seq<bv8>, rest: Input)
    requires 0 < |chunk| <= DATA_MAX
    ensures NextItem(Bytes(DataPacketOf(num, chunk)) + rest) == (Block(num, Padded(chunk)), rest)
  {
    hide NextItem, Padded, Frame;
    var p, file := DataOut(0, num, chunk, |chunk|), FileId([], 0);
    PacketIsItem(p, file, rest);
  }

  lemma TakesChunk(chunk: seq<bv8>, left: nat)
    requires 0 < |chunk| <= DATA_MAX && |chunk| == Want(left)
    ensures Taken(Padded(chunk), true, left) == chunk
  {
  }

  /** The calls of the sink for the bytes of a file. */
  function FileWrites(f: seq<bv8>): seq<Call>
    decreases |f|
  {
    if f == [] then [] else [Write(f[..Want(|f|)])] + FileWrites(f[Want(|f|)..])
  }

  /** The world of a receiver whose line and sink never fail. */
  predicate Willing(w: World) {
    w.puts == [] && w.sinks == []
  }

  lemma {:induction false} ReceivesData(p: Phase, f: seq<bv8>, w: World)
    requires p.Receiving? && p.attempts == 0 && p.declared && p.remaining == |f| && Willing(w)
    requires w.input == OnLine(DataPackets(p.due, f) + [[EOT], NullPacketOf()])
    ensures Run(p, w).0 == Done && Run(p, w).1.calls == w.calls + FileWrites(f)
    decreases |f|
  {
    hide Run, Emit, NextItem, Frame, Padded, Taken, NumAfter, NumBefore;
    var tail := [[EOT], NullPacketOf()];
    if f == [] {
      assert DataPackets(p.due, f) + tail == tail;
      ReceivesEnd(p, w);
      assert w.calls + [] == w.calls;
    } else {
      var c, more, due := f[..Want(|f|)], f[Want(|f|)..], NumAfter(p.due);
      var packets := DataPackets(p.due, f) + tail;
      assert packets[0] == DataPacketOf(p.due, c) && packets[1..] == DataPackets(due, more) + tail;
      var rest := OnLine(packets[1..]);
      DataItem(p.due, c, rest);
      NumbersMove(p.due);
      BlockComes(p, w, p.due, Padded(c), rest);
      TakesChunk(c, |f|);
      var next := Receiving(0, due, NAK, true, |more|);
      var w1 := CallSink(w.(input := rest), Write(c));
      SayThen(ACK, next, w1);
      ReceivesData(next, more, Put(w1, [ACK]));
      assert w.calls + [Write(c)] + FileWrites(more) == w.calls + ([Write(c)] + FileWrites(more));
    }
  }

  lemma ReceivesEnd(p: Phase, w: World)
    requires p.Receiving? && p.attempts == 0 && p.declared && p.remaining == 0 && Willing(w)
    requires w.input == OnLine([[EOT], NullPacketOf()])
    ensures Run(p, w).0 == Done && Run(p, w).1.calls == w.calls
  {
    hide Run, Emit, NextItem, Frame, Zeros;
    var packets := [[EOT], NullPacketOf()];
    assert packets[1..] == [NullPacketOf()] && [NullPacketOf()][1..] == [];
    var last := Bytes(NullPacketOf());
    assert OnLine([NullPacketOf()]) == last + [];
    assert Bytes([EOT]) == [Got(EOT)];
    EotIsRead(last + []);
    FileEnds(p, w, last + []);
    var w1 := w.(input := last + []);
    SayTwice(ACK, CRC_C, Closing(0), w1);
    SayThen(CRC_C, Closing(0), Put(w1, [ACK]));
    var w2 := Put(Put(w1, [ACK]), [CRC_C]);
    FrameIsRead(SOH, 0, NullBlock(), []);
    LastBlock(0, w2, 0, NullBlock(), []);
  }

  lemma {:induction false} WritesJoin(f: seq<bv8>)
    ensures Written(FileWrites(f)) == f
    decreases |f|
  {
    hide Written;
    if f == [] {
      NoneWritten();
    } else {
      var c, more := f[..Want(|f|)], f[Want(|f|)..];
      WritesJoin(more);
      WrittenJoin([Write(c)], FileWrites(more));
      WrittenOne(c);
      assert WriteOf(c) == [Write(c)];
      assert c + more == f;
    }
  }

  lemma NoneWritten()
    ensures Written([]) == []
  {
  }

  /** The receiver, on exactly the packets of a file: success, the name, the size and the
      bytes, with the padding gone. */
  lemma ReceivesFile(file: File, f: seq<bv8>)
    requires NameOk(file) && |f| == file.size
    ensures var (r, w) := Receive(World(OnLine(Packets(file, f)), [], [], [], []));
      r == Done && w.calls == [Begin(SentName(file.name), file.size)] + FileWrites(f) && Written(w.calls) == f
  {
    hide Run, Emit, NextItem, Frame, Block0, ParseBlock0, SentName, DataPackets, Written, FileWrites;
    var packets := Packets(file, f);
    var rest := OnLine(packets[1..]);
    assert packets[1..] == DataPackets(1, f) + [[EOT], NullPacketOf()];
    var w := World(Bytes(HeaderPacketOf(file)) + rest, [], [], [], []);
    EmitLast(CRC_C, true, Handshake(0), w);
    var w1 := Put(w, [CRC_C]);
    FrameIsRead(SOH, 0, Block0(file.name, file.size), rest);
    RunStep(Handshake(0), w1, Block(0, Block0(file.name, file.size)), rest);
    HeaderPlan(file, 0);
    var begin := Begin(SentName(file.name), file.size);
    var next := Receiving(0, 1, CRC_C, true, file.size);
    var w2 := CallSink(w1.(input := rest), begin);
    SayTwice(ACK, CRC_C, next, w2);
    SayThen(CRC_C, next, Put(w2, [ACK]));
    ReceivesData(next, f, Put(Put(w2, [ACK]), [CRC_C]));
    assert [] + [begin] == [begin];
    WritesJoin(f);
    WrittenJoin([begin], FileWrites(f));
    BeginWrites(begin);
  }

  lemma BeginWrites(c: Call)
    requires c.Begin?
    ensures Written([c]) == []
  {
    assert [c][..0] == [];
  }

  // ---- the sender -------------------------------------------------------------------------------

  function AckTimes(n: nat): Input {
    if n == 0 then [] else [Got(ACK)] + AckTimes(n - 1)
  }

  /** The replies of a receiver to which everything arrives. */
  function CleanReplies(n: nat): Input {
    [Got(CRC_C), Got(ACK), Got(CRC_C)] + AckTimes(n) + [Got(ACK), Got(CRC_C), Got(ACK)]
  }

  lemma ReplyFirst(b: bv8, rest: Input)
    requires b == ACK || b == CRC_C
    ensures NextReply([Got(b)] + rest) == (ReplyOf(b), rest) && ReplyOf(b) == (if b == ACK then Acked else Asked)
  {
    ReplyIsRead(b, rest);
    CodesDiffer();
  }

  /** A packet that is acknowledged at once. */
  lemma PacketThrough(p: Sending, file: File, w: SWorld, rest: Input)
    requires p.Ok() && p.Out() && p.tries == 0 && w.puts == [] && w.input == [Got(ACK)] + rest
    ensures Go((p, w.source), file, w) ==
      var w' := SPut(w, Packet(p, file)).(input := rest); Go(Advance(p, file, w.source), file, w')
  {
    hide SRun, Go, Packet, Advance, NextReply;
    GoOut(p, file, w);
    ReplyFirst(ACK, rest);
    OutReply(p, file, SPut(w, Packet(p, file)), Acked, rest);
  }

  lemma AskThrough(p: Sending, file: File, w: SWorld, rest: Input)
    requires (p.Greeting? || p.Asking? || p.AskingClose?) && w.input == [Got(CRC_C)] + rest
    ensures SRun(p, file, w) == Go(Advance(p, file, w.source), file, w.(input := rest))
  {
    hide SRun, Go, Advance, NextReply;
    ReplyFirst(CRC_C, rest);
    AskReply(p, file, w, Asked, rest);
  }

  lemma {:induction false} SendsData(num: bv8, left: nat, file: File, w: SWorld)
    requires left <= |Given(w.source)| && w.puts == []
    requires w.input == AckTimes(|DataPackets(num, Given(w.source)[..left])|) + [Got(ACK), Got(CRC_C), Got(ACK)]
    ensures var (r, w') := Go(LoadBlock(num, left, w.source), file, w);
      r == Done && w'.sent == w.sent + DataPackets(num, Given(w.source)[..left]) + [[EOT], NullPacketOf()]
    decreases left
  {
    hide SRun, Go, Packet, Advance, NextReply, Given, FillBlock, Padded, Frame, NumAfter, Zeros;
    var f := Given(w.source)[..left];
    var tail := [Got(ACK), Got(CRC_C), Got(ACK)];
    if left == 0 {
      NoBlock(num, w.source);
      assert w.input == tail;
      SendsEnd(file, w);
      assert w.sent + [] + [[EOT], NullPacketOf()] == w.sent + [[EOT], NullPacketOf()];
    } else {
      var want := Want(left);
      FillFull(w.source, want);
      var (got, rest) := FillBlock(w.source, want);
      var c := got.value;
      assert c == f[..want] && Given(rest)[..left - want] == f[want..];
      Loads(num, left, w.source, got, rest);
      var p := DataOut(0, num, c, left);
      var w1 := w.(source := rest);
      GoSource(file, w, w1);
      var acks := AckTimes(|DataPackets(NumAfter(num), f[want..])|);
      assert w.input == [Got(ACK)] + (acks + tail);
      PacketThrough(p, file, w1, acks + tail);
      NextBlock(p, file, rest);
      DataPacket(p, file, Padded(c));
      var w2 := SPut(w1, Packet(p, file)).(input := acks + tail);
      SendsData(NumAfter(num), left - want, file, w2);
      SentMore(w.sent, Packet(p, file), DataPackets(NumAfter(num), f[want..]), [[EOT], NullPacketOf()]);
    }
  }

  lemma SentMore(sent: seq<seq<bv8>>, p: seq<bv8>, more: seq<seq<bv8>>, end: seq<seq<bv8>>)
    ensures sent + [p] + more + end == sent + ([p] + more) + end
  {
  }

  lemma SendsEnd(file: File, w: SWorld)
    requires w.puts == [] && w.input == [Got(ACK), Got(CRC_C), Got(ACK)]
    ensures var (r, w') := Go((EotOut(0), w.source), file, w);
      r == Done && w'.sent == w.sent + [[EOT], NullPacketOf()]
  {
    hide SRun, Go, NextReply, Frame, Zeros;
    assert w.input == [Got(ACK)] + [Got(CRC_C), Got(ACK)];
    PacketThrough(EotOut(0), file, w, [Got(CRC_C), Got(ACK)]);
    var w1 := SPut(w, [EOT]).(input := [Got(CRC_C), Got(ACK)]);
    GoWaiting(AskingClose(0), file, w1);
    assert w1.input == [Got(CRC_C)] + [Got(ACK)];
    AskThrough(AskingClose(0), file, w1, [Got(ACK)]);
    var w2 := w1.(input := [Got(ACK)]);
    assert w2.input == [Got(ACK)] + [];
    PacketThrough(NullOut(0), file, w2, []);
    GoOver(Done, file, SPut(w2, NullPacketOf()).(input := []));
    assert w.sent + [[EOT]] + [NullPacketOf()] == w.sent + [[EOT], NullPacketOf()];
  }

  /** The sender, to which everything is acknowledged: exactly the packets of the file. */
  lemma SendsFile(file: File, src: Source)
    requires |Given(src)| >= file.size
    ensures var f := Given(src)[..file.size];
      var (r, w) := Send(file, SWorld(CleanReplies(|DataPackets(1, f)|), [], [], src));
      r == Done && w.sent == Packets(file, f)
  {
    hide SRun, Go, Packet, NextReply, Frame, Block0, Given, DataPackets, LoadBlock, AckTimes;
    var f := Given(src)[..file.size];
    var n := |DataPackets(1, f)|;
    var data := AckTimes(n) + [Got(ACK), Got(CRC_C), Got(ACK)];
    var w := SWorld(CleanReplies(n), [], [], src);
    assert w.input == [Got(CRC_C)] + ([Got(ACK)] + ([Got(CRC_C)] + data));
    AskThrough(Greeting(0), file, w, [Got(ACK)] + ([Got(CRC_C)] + data));
    var w1 := w.(input := [Got(ACK)] + ([Got(CRC_C)] + data));
    PacketThrough(HeaderOut(0), file, w1, [Got(CRC_C)] + data);
    HeaderPacket(file);
    var w2 := SPut(w1, HeaderPacketOf(file)).(input := [Got(CRC_C)] + data);
    GoWaiting(Asking(0), file, w2);
    AskThrough(Asking(0), file, w2, data);
    SendsData(1, file.size, file, w2.(input := data));
    assert [] + [HeaderPacketOf(file)] == [HeaderPacketOf(file)];
  }

  /** There and back: a file whose source gives as much as it declares is received under
      its name, with its size and byte for byte. */
  lemma RoundTrip(file: File, src: Source)
    requires NameOk(file) && |Given(src)| >= file.size
    ensures var f := Given(src)[..file.size];
      var sent := Send(file, SWorld(CleanReplies(|DataPackets(1, f)|), [], [], src)).1.sent;
      var (r, w) := Receive(World(OnLine(sent), [], [], [], []));
      && r == Done && w.calls != [] && w.calls[0] == Begin(SentName(file.name), file.size)
      && Written(w.calls) == f
  {
    hide Receive, Send, Packets, Given, CleanReplies, DataPackets, SentName, FileWrites, OnLine, Written;
    SendsFile(file, src);
    ReceivesFile(file, Given(src)[..file.size]);
  }
}
