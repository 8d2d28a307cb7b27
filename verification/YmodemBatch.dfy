/** The receiver with any sender that keeps to the protocol: whatever sizes its blocks have
    and whether it declares a size or not, which bytes are written and how it ends. */
module YmodemBatch {
  import opened Thumb
  import opened YmodemWire
  import opened YmodemBlock0
  import opened YmodemReceiver
  import opened YmodemContract
  import opened YmodemSender
  import opened YmodemSafety
  import opened YmodemRecvCode
  import opened YmodemRoundTrip

  /** A name goes out as it is up to a hundred bytes; without one, as "file.bin". */
  lemma NameExact(name: seq<bv8>)
    ensures name == [] ==> SentName(name) == [0x66, 0x69, 0x6c, 0x65, 0x2e, 0x62, 0x69, 0x6e]
    ensures 0 < |name| <= 100 ==> SentName(name) == name
    ensures |name| > 100 ==> SentName(name) == name[..100]
  {
  }

  /** A block of a file: the kind of its frame, and its data. */
  datatype Piece = Piece(kind: bv8, data: seq<bv8>)

  predicate AllFrames(blocks: seq<Piece>) {
    forall i :: 0 <= i < |blocks| ==> IsFrame(blocks[i].kind, blocks[i].data)
  }

  function BlockLine(due: bv8, blocks: seq<Piece>): Input
    decreases |blocks|
  {
    if blocks == [] then [] else Bytes(Frame(blocks[0].kind, due, blocks[0].data)) + BlockLine(NumAfter(due), blocks[1..])
  }

  function Joined(blocks: seq<Piece>): seq<bv8> {
    if blocks == [] then [] else blocks[0].data + Joined(blocks[1..])
  }

  /** What of the bytes goes to the sink: all, or as many as were declared. */
  function Kept(data: seq<bv8>, declared: bool, size: nat): seq<bv8> {
    if declared && size < |data| then data[..size] else data
  }

  lemma KeptJoin(x: seq<bv8>, y: seq<bv8>, declared: bool, size: nat)
    ensures Kept(x + y, declared, size)
         == Kept(x, declared, size) + Kept(y, declared, if declared then size - |Kept(x, declared, size)| else size)
  {
    if declared {
      if size < |x| {
        assert (x + y)[..size] == x[..size] + y[..0];
      } else if size < |x| + |y| {
        assert (x + y)[..size] == x + y[..size - |x|];
      }
    }
  }

  lemma TakenKept(data: seq<bv8>, declared: bool, remaining: nat)
    ensures Taken(data, declared, remaining) == Kept(data, declared, remaining)
  {
  }

  lemma OneWritten(calls: seq<Call>, t: seq<bv8>)
    ensures Written(calls + WriteOf(t)) == Written(calls) + t
  {
    hide Written;
    WrittenJoin(calls, WriteOf(t));
    WrittenOne(t);
  }

  /** One block that is due. */
  lemma PieceComes(p: Phase, b: Piece, w: World, rest: Input) returns (w': World)
    requires p.Receiving? && p.attempts == 0 && Willing(w) && IsFrame(b.kind, b.data)
    requires w.input == Bytes(Frame(b.kind, p.due, b.data)) + rest
    ensures var t := Kept(b.data, p.declared, p.remaining);
      Run(p, w) == Run(Receiving(0, NumAfter(p.due), NAK, p.declared,
        if p.declared then p.remaining - |t| else p.remaining), w')
      && Willing(w') && w'.input == rest && w'.calls == w.calls + WriteOf(t)
  {
    hide Run, Emit, NextItem, Frame, NumAfter, NumBefore, Taken;
    FrameIsRead(b.kind, p.due, b.data, rest);
    NumbersMove(p.due);
    BlockComes(p, w, p.due, b.data, rest);
    TakenKept(b.data, p.declared, p.remaining);
    var t := Taken(b.data, p.declared, p.remaining);
    var next := Receiving(0, NumAfter(p.due), NAK, p.declared, if p.declared then p.remaining - |t| else p.remaining);
    var w1 := if t == [] then w.(input := rest) else CallSink(w.(input := rest), Write(t));
    assert w.calls + [] == w.calls;
    SayThen(ACK, next, w1);
    w' := Put(w1, [ACK]);
  }

  /** All blocks of a file, to the end of it. */
  lemma {:induction false} PiecesCome(p: Phase, blocks: seq<Piece>, w: World, rest: Input) returns (q: Phase, w': World)
    requires p.Receiving? && p.attempts == 0 && Willing(w) && AllFrames(blocks)
    requires w.input == BlockLine(p.due, blocks) + rest
    ensures var t := Kept(Joined(blocks), p.declared, p.remaining);
      && q.Receiving? && q.attempts == 0 && q.declared == p.declared && (p.declared ==> q.remaining == p.remaining - |t|)
      && Run(p, w) == Run(q, w') && Willing(w') && w'.input == rest
      && w.calls <= w'.calls && Written(w'.calls) == Written(w.calls) + t
    decreases |blocks|
  {
    hide Run, Frame, NumAfter, Written, Kept;
    if blocks == [] {
      assert BlockLine(p.due, blocks) + rest == rest;
      NothingKept(p.declared, p.remaining);
      q, w' := p, w;
    } else {
      var b, more := blocks[0], blocks[1..];
      var line := BlockLine(NumAfter(p.due), more) + rest;
      assert w.input == Bytes(Frame(b.kind, p.due, b.data)) + line;
      var w1 := PieceComes(p, b, w, line);
      var t := Kept(b.data, p.declared, p.remaining);
      KeptFits(b.data, p.declared, p.remaining);
      var next := Receiving(0, NumAfter(p.due), NAK, p.declared, if p.declared then p.remaining - |t| else p.remaining);
      q, w' := PiecesCome(next, more, w1, rest);
      OneWritten(w.calls, t);
      KeptJoin(b.data, Joined(more), p.declared, p.remaining);
      assert Written(w.calls) + t + Kept(Joined(more), p.declared, next.remaining)
          == Written(w.calls) + (t + Kept(Joined(more), p.declared, next.remaining));
    }
  }

  lemma NothingKept(declared: bool, size: nat)
    ensures Kept([], declared, size) == []
  {
  }

  lemma KeptFits(data: seq<bv8>, declared: bool, size: nat)
    ensures declared ==> |Kept(data, declared, size)| == (if size < |data| then size else |data|)
    ensures !declared ==> Kept(data, declared, size) == data
  {
  }

  /** EOT and the closing block, when the declared size is there or none was declared. */
  lemma FileCloses(p: Phase, w: World)
    requires p.Receiving? && p.attempts == 0 && Willing(w) && (p.declared ==> p.remaining == 0)
    requires w.input == Bytes([EOT]) + Bytes(NullPacketOf())
    ensures Run(p, w).0 == Done && Run(p, w).1.calls == w.calls
  {
    hide Run, Emit, NextItem, Frame, YmodemBlock0.Zeros;
    var last := Bytes(NullPacketOf());
    assert Bytes([EOT]) == [Got(EOT)] && last + [] == last;
    EotIsRead(last);
    FileEnds(p, w, last);
    var w1 := w.(input := last);
    SayTwice(ACK, CRC_C, Closing(0), w1);
    SayThen(CRC_C, Closing(0), Put(w1, [ACK]));
    var w2 := Put(Put(w1, [ACK]), [CRC_C]);
    FrameIsRead(SOH, 0, NullBlock(), []);
    LastBlock(0, w2, 0, NullBlock(), []);
  }

  /** EOT when less than the declared size came. */
  lemma FileShort(p: Phase, w: World, rest: Input)
    requires p.Receiving? && p.declared && p.remaining > 0 && w.input == Bytes([EOT]) + rest
    ensures Run(p, w).0 == ErrProto && Run(p, w).1.calls == w.calls
  {
    hide Run, Emit, NextItem;
    assert Bytes([EOT]) == [Got(EOT)];
    EotIsRead(rest);
    FileEnds(p, w, rest);
  }

  lemma HeaderComes(kind: bv8, head: seq<bv8>, info: FileInfo, w: World, rest: Input) returns (w': World)
    requires IsFrame(kind, head) && ParseBlock0(head) == Some(info) && info.name != [] && Willing(w)
    requires w.input == Bytes(Frame(kind, 0, head)) + rest
    ensures Run(Handshake(0), w) == Run(Receiving(0, 1, CRC_C, info.declared, info.size), w')
    ensures Willing(w') && w'.input == rest && w'.calls == w.calls + [Begin(info.name, info.size)]
  {
    hide Run, Emit, NextItem, Frame, ParseBlock0;
    FrameIsRead(kind, 0, head, rest);
    RunStep(Handshake(0), w, Block(0, head), rest);
    var next := Receiving(0, 1, CRC_C, info.declared, info.size);
    var w2 := CallSink(w.(input := rest), Begin(info.name, info.size));
    SayTwice(ACK, CRC_C, next, w2);
    SayThen(CRC_C, next, Put(w2, [ACK]));
    w' := Put(Put(w2, [ACK]), [CRC_C]);
  }

  /** A file in blocks of any sizes, from any sender: begun under its name and size; without
      a declared size every byte of the blocks is written and it succeeds; with one, as many
      as declared, and it succeeds if and only if the blocks hold that many. */
  lemma ReceivesAny(kind: bv8, head: seq<bv8>, info: FileInfo, blocks: seq<Piece>)
    requires IsFrame(kind, head) && ParseBlock0(head) == Some(info) && info.name != [] && AllFrames(blocks)
    ensures var (r, w) := Receive(World(Bytes(Frame(kind, 0, head)) + (BlockLine(1,
      blocks) + (Bytes([EOT]) + Bytes(NullPacketOf()))), [], [], [], []));
      && r == (if info.declared && |Joined(blocks)| < info.size then ErrProto else Done)
      && w.calls != [] && w.calls[0] == Begin(info.name, info.size)
      && Written(w.calls) == if info.declared
        && info.size < |Joined(blocks)| then Joined(blocks)[..info.size] else Joined(blocks)
  {
    hide Run, Emit, Frame, ParseBlock0, Written, Joined, BlockLine;
    var ending := Bytes([EOT]) + Bytes(NullPacketOf());
    var w := World(Bytes(Frame(kind, 0, head)) + (BlockLine(1, blocks) + ending), [], [], [], []);
    EmitLast(CRC_C, true, Handshake(0), w);
    var w1 := HeaderComes(kind, head, info, Put(w, [CRC_C]), BlockLine(1, blocks) + ending);
    var q, w2 := PiecesCome(Receiving(0, 1, CRC_C, info.declared, info.size), blocks, w1, ending);
    KeptFits(Joined(blocks), info.declared, info.size);
    BeginWrites(Begin(info.name, info.size));
    assert [] + [Begin(info.name, info.size)] == [Begin(info.name, info.size)];
    if info.declared && |Joined(blocks)| < info.size {
      FileShort(q, w2, Bytes(NullPacketOf()));
    } else {
      FileCloses(q, w2);
    }
  }
}
