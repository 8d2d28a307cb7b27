/** Safety of the joined protocol: with at most 255 packets and replies under way, however
    late, lost or damaged, what the sink is given is always a beginning of the file, and
    the receiver claims success only when it is all of it. */
module YmodemSafety {
  import opened Thumb
  import opened YmodemWire
  import opened YmodemBlock0
  import opened YmodemReceiver
  import opened YmodemContract
  import opened YmodemSender
  import opened YmodemLink

  // ---- the pieces of the file ------------------------------------------------------------

  function Raw(chunks: seq<seq<bv8>>): seq<bv8> {
    if chunks == [] then [] else Raw(chunks[..|chunks| - 1]) + chunks[|chunks| - 1]
  }

  /** All pieces but the last fill a block, and together they are no more than the size. */
  ghost predicate ChunksOk(chunks: seq<seq<bv8>>, size: nat) {
    && (forall i :: 0 <= i < |chunks| ==> 0 < |chunks[i]| <= DATA_MAX)
    && (forall i :: 0 <= i < |chunks| - 1 ==> |chunks[i]| == DATA_MAX)
    && |Raw(chunks)| <= size
  }

  function PadOf(chunk: seq<bv8>): seq<bv8> {
    if |chunk| <= DATA_MAX then Padded(chunk) else chunk
  }

  /** The blocks that carry the pieces. */
  function Carried(chunks: seq<seq<bv8>>): (a: seq<Arrival>)
    ensures |a| == |chunks|
  {
    if chunks == [] then [] else Carried(chunks[..|chunks| - 1]) + [Arrival(0, SOH, PadOf(chunks[|chunks| - 1]))]
  }

  function InfoOf(file: File): FileInfo {
    FileInfo(SentName(file.name), file.size, true)
  }

  /** What remains of the declared size after the pieces were delivered. */
  function LeftOf(file: File, chunks: seq<seq<bv8>>): nat {
    RemainingAfter(Carried(chunks), InfoOf(file))
  }

  /** The first n pieces. */
  function UpTo(chunks: seq<seq<bv8>>, n: nat): seq<seq<bv8>> {
    if n <= |chunks| then chunks[..n] else chunks
  }

  /** The sink's calls for a receiver that has come to place k. */
  function SinkCalls(file: File, chunks: seq<seq<bv8>>, k: nat): seq<Call> {
    if k == 0 then []
    else [Begin(SentName(file.name), file.size)] + WritesOf(Carried(UpTo(chunks, k - 1)), InfoOf(file))
  }

  lemma CarriedMore(chunks: seq<seq<bv8>>, c: seq<bv8>)
    ensures Carried(chunks + [c]) == Carried(chunks) + [Arrival(0, SOH, PadOf(c))]
  {
    assert (chunks + [c])[..|chunks|] == chunks;
  }

  lemma LeftMore(file: File, chunks: seq<seq<bv8>>, c: seq<bv8>)
    ensures LeftOf(file, chunks + [c]) == LeftOf(file, chunks) - |Taken(PadOf(c), true, LeftOf(file, chunks))|
    ensures WritesOf(Carried(chunks + [c]), InfoOf(file)) ==
      WritesOf(Carried(chunks), InfoOf(file)) + WriteOf(Taken(PadOf(c), true, LeftOf(file, chunks)))
  {
    hide Taken, PadOf, Carried;
    CarriedMore(chunks, c);
    var a := Carried(chunks);
    assert (a + [Arrival(0, SOH, PadOf(c))])[..|a|] == a;
  }

  lemma {:induction false} RawMore(chunks: seq<seq<bv8>>, c: seq<bv8>)
    ensures Raw(chunks + [c]) == Raw(chunks) + c
  {
    assert (chunks + [c])[..|chunks|] == chunks;
  }

  /** Before the last piece the size is not used up. */
  lemma {:induction false} FullSoFar(file: File, chunks: seq<seq<bv8>>, j: nat)
    requires ChunksOk(chunks, file.size) && j < |chunks|
    ensures |Raw(chunks[..j])| == DATA_MAX * j && LeftOf(file, chunks[..j]) == file.size - DATA_MAX * j > 0
  {
    hide Raw, LeftOf, PadOf, ChunksOk;
    PieceSizes(file, chunks, j);
    if j > 0 {
      FullSoFar(file, chunks, j - 1);
      var init, c := chunks[..j - 1], chunks[j - 1];
      assert chunks[..j] == init + [c];
      RawMore(init, c);
      LeftMore(file, init, c);
      PadFull(c);
    } else {
      assert chunks[..0] == [];
      RawNone();
      NoBlocksYet(file, chunks);
    }
  }

  lemma PieceSizes(file: File, chunks: seq<seq<bv8>>, j: nat)
    requires ChunksOk(chunks, file.size) && j < |chunks|
    ensures |Raw(chunks[..j])| < file.size && (j > 0 ==> |chunks[j - 1]| == DATA_MAX)
  {
    hide Raw;
    RawBound(chunks, j);
  }

  lemma PadFull(c: seq<bv8>)
    requires |c| == DATA_MAX
    ensures |PadOf(c)| == DATA_MAX
  {
  }

  lemma {:induction false} RawBound(chunks: seq<seq<bv8>>, j: nat)
    requires j < |chunks| && forall i :: 0 <= i < |chunks| ==> 0 < |chunks[i]|
    ensures |Raw(chunks[..j])| < |Raw(chunks)|
    decreases |chunks|
  {
    var n := |chunks| - 1;
    if j < n {
      RawBound(chunks[..n], j);
      assert chunks[..n][..j] == chunks[..j];
    }
  }

  // ---- what every step keeps ------------------------------------------------------------------

  ghost predicate MsgOk(file: File, s: Link, m: Msg) {
    if m.idx == 0 then m.item == Block(0, Block0(file.name, file.size))
    else if m.idx <= |s.chunks| then m.item == Block(SeqOf(m.idx), PadOf(s.chunks[m.idx - 1]))
    else if m.idx == |s.chunks| + 1 then s.closed && m.item == FileEnd
    else s.nul && m.idx == |s.chunks| + 2 && m.item == Block(0, NullBlock())
  }

  /** The packets under way are in order, none ahead of the sender and none that the
      receiver has long passed. */
  ghost predicate FwdOk(file: File, s: Link) {
    && Sorted(s.fwd) && From(s.fwd, s.k)
    && forall i :: 0 <= i < |s.fwd| ==> s.fwd[i].idx <= s.at && MsgOk(file, s, s.fwd[i])
  }

  ghost predicate SenderOk(file: File, s: Link) {
    && ChunksOk(s.chunks, file.size)
    && (s.nul ==> s.closed)
    && match s.p
       case Greeting(_) => s.at == 0 && s.chunks == [] && !s.closed
       case HeaderOut(_) => s.at == 0 && s.chunks == [] && !s.closed
       case Asking(_) => s.at == 1 && s.chunks == [] && !s.closed
       case DataOut(_, num, chunk, remaining) =>
         && s.at == |s.chunks| > 0 && chunk == s.chunks[s.at - 1] && num == SeqOf(s.at) && !s.closed
         && remaining == file.size - |Raw(s.chunks[..s.at - 1])| && |chunk| <= remaining
       case EotOut(_) => s.at == |s.chunks| + 1 && s.closed && !s.nul
       case AskingClose(_) => s.at == |s.chunks| + 2 && s.closed && !s.nul
       case NullOut(_) => s.at == |s.chunks| + 2 && s.closed && s.nul
       case Over(r) => r == Done ==> s.at == |s.chunks| + 3 && s.closed
  }

  ghost predicate ReceiverOk(file: File, s: Link) {
    && s.k <= s.at + 1 && (s.k <= |s.chunks| + 1 || s.closed)
    && s.calls == SinkCalls(file, s.chunks, s.k)
    && match s.q
       case Handshake(_) => s.k == 0
       case Receiving(_, due, prompt, declared, remaining) =>
         (prompt == CRC_C || prompt == NAK) && 1 <= s.k <= |s.chunks| + 1 && due == SeqOf(s.k) && declared && remaining == LeftOf(file, s.chunks[..s.k - 1])
       case Closing(_) => s.closed && s.k == |s.chunks| + 2 && LeftOf(file, s.chunks) == 0
       case Ended(r) => r == Done ==> s.closed && s.k == |s.chunks| + 3 && LeftOf(file, s.chunks) == 0
  }

  predicate Early(q: Phase) {
    q.Handshake? || q.Receiving?
  }

  /** The line, for a sender that has `owed` ACKs in hand: how far it can get ahead of the
      receiver is bounded by what is under way, and before the end of the file no 'C' can
      reach it where it would take it for the request to close. */
  ghost predicate LineOk(s: Link, owed: nat) {
    && (!s.q.Ended? ==> s.at + owed - s.k + Acks(s.back) + Dups(s.fwd, s.k) < s.room)
    && s.room <= CAPACITY
    && (Early(s.q) ==> CsWithin(s.back, 1 - s.at - owed) && !s.nul)
    && (s.q.Handshake? ==> s.at + owed + Acks(s.back) == 0)
    && (s.q.Receiving? && s.q.prompt == CRC_C ==> s.at + owed + Acks(s.back) <= 1)
  }

  ghost predicate Inv(file: File, s: Link) {
    SenderOk(file, s) && FwdOk(file, s) && ReceiverOk(file, s) && LineOk(s, 0)
  }

  // ---- replies ------------------------------------------------------------------------------------

  function Owed(reply: Reply): nat {
    if reply == Acked then 1 else 0
  }

  /** Taking a reply off the line. */
  lemma ReplyTaken(s: Link, garbled: bool)
    requires LineOk(s, 0) && s.back != []
    ensures var reply := if garbled then Noise else ReplyOf(s.back[0]);
      && LineOk(s.(back := s.back[1..]), Owed(reply))
      && (reply == Asked && s.at >= 2 ==> !Early(s.q))
  {
    hide Dups;
    CsFirst(s.back);
    if Early(s.q) {
      CsPop(s.back, 1 - s.at);
    }
    CodesDiffer();
  }

  lemma CodesDiffer()
    ensures ACK != CRC_C && NAK != CRC_C && NAK != ACK
  {
  }

  lemma CsFirst(back: seq<bv8>)
    requires back != []
    ensures forall n: int :: CsWithin(back, n) && back[0] == CRC_C ==> n >= 0
    ensures forall m: int, n: int :: CsWithin(back, m) && m <= n ==> CsWithin(back, n)
    ensures forall m: int, n: int :: CsWithin(back[1..], m) && m <= n ==> CsWithin(back[1..], n)
    ensures Acks(back) == (if back[0] == ACK then 1 else 0) + Acks(back[1..])
  {
    assert back[..0] == [];
  }

  lemma ReplyLost(s: Link, i: nat)
    requires LineOk(s, 0) && i < |s.back|
    ensures LineOk(s.(back := Without(s.back, i)), 0)
  {
    hide Dups, CsWithin;
    AcksWithout(s.back, i);
    if Early(s.q) {
      CsLose(s.back, 1 - s.at, i);
    }
  }

  lemma PacketLost(file: File, s: Link, i: nat)
    requires FwdOk(file, s) && LineOk(s, 0) && i < |s.fwd|
    ensures FwdOk(file, s.(fwd := Without(s.fwd, i))) && LineOk(s.(fwd := Without(s.fwd, i)), 0)
  {
    hide MsgOk, CsWithin, Dups;
    DupsLose(s.fwd, i, s.k);
    var fwd := Without(s.fwd, i);
    assert forall j :: 0 <= j < |fwd| ==> fwd[j] == s.fwd[if j < i then j else j + 1];
    forall j | 0 <= j < |fwd|
      ensures MsgOk(file, s.(fwd := fwd), fwd[j])
    {
      SameMsg(file, s, s.(fwd := fwd), fwd[j]);
    }
  }

  lemma SameMsg(file: File, s: Link, s': Link, m: Msg)
    requires s'.chunks == s.chunks && s'.closed == s.closed && s'.nul == s.nul
    ensures MsgOk(file, s, m) <==> MsgOk(file, s', m)
  {
  }

  // ---- the sender ------------------------------------------------------------------------------------

  /** One more packet under way, from a sender at its place. */
  lemma PacketSent(file: File, s: Link, item: Item)
    requires FwdOk(file, s) && LineOk(s, 0) && s.k <= s.at + 1
    requires MsgOk(file, s, Msg(s.at, item)) && |s.fwd| + 1 + |s.back| <= s.room
    ensures FwdOk(file, s.(fwd := s.fwd + [Msg(s.at, item)])) && LineOk(s.(fwd := s.fwd + [Msg(s.at, item)]), 0)
  {
    hide MsgOk, CsWithin, Dups;
    var m := Msg(s.at, item);
    DupsMore(s.fwd, m, s.k);
    AcksSome(s.back);
    var s' := s.(fwd := s.fwd + [m]);
    forall i | 0 <= i < |s'.fwd|
      ensures s'.fwd[i].idx <= s'.at && MsgOk(file, s', s'.fwd[i])
    {
      SameMsg(file, s, s', s'.fwd[i]);
      if i < |s.fwd| {
        assert s'.fwd[i] == s.fwd[i];
      }
    }
  }

  /** The sender after a reply, before it puts anything. */
  function Moved(file: File, s: Link, reply: Reply): Link
    requires !s.p.Over? && s.p.Ok()
  {
    SenderNext(file, s, reply, true).(fwd := s.fwd)
  }

  lemma MovedPhase(file: File, s: Link, reply: Reply)
    requires !s.p.Over? && s.p.Ok()
    ensures var (p, src) := OnReply(s.p, reply, file, s.src);
      Moved(file, s, reply) == s.(p := p, src := src,
        chunks := if p.DataOut? && p.tries == 0 then s.chunks + [p.chunk] else s.chunks,
        at := if s.p.Out() && reply == Acked then s.at + 1 else s.at,
        closed := s.closed || p.EotOut?, nul := s.nul || p.NullOut?)
  {
    hide OnReply, ItemOf;
  }

  /** A new block: the pieces so far fill theirs, and it is the next. */
  lemma ChunkAdded(s: Link, file: File, c: seq<bv8>, want: nat)
    requires ChunksOk(s.chunks, file.size) && 0 < |c| <= want && want == Want(file.size - |Raw(s.chunks)|)
    requires s.chunks != [] ==> |s.chunks[|s.chunks| - 1]| == DATA_MAX
    ensures ChunksOk(s.chunks + [c], file.size)
  {
    hide Raw;
    RawMore(s.chunks, c);
    var more := s.chunks + [c];
    forall i | 0 <= i < |more|
      ensures 0 < |more[i]| <= DATA_MAX && (i < |more| - 1 ==> |more[i]| == DATA_MAX)
    {
      if i < |s.chunks| {
        assert more[i] == s.chunks[i];
      }
    }
  }

  /** Loading the next block, or finding that there is none. */
  lemma Loaded(file: File, s: Link, s': Link, num: bv8, remaining: nat)
    requires ChunksOk(s.chunks, file.size) && !s.closed && !s.nul && remaining == file.size - |Raw(s.chunks)|
    requires s.chunks != [] ==> |s.chunks[|s.chunks| - 1]| == DATA_MAX
    requires num == SeqOf(|s.chunks| + 1) && s'.at == |s.chunks| + 1
    requires s'.p == LoadBlock(num, remaining, s.src).0
    requires s'.chunks == (if s'.p.DataOut? && s'.p.tries == 0 then s.chunks + [s'.p.chunk] else s.chunks)
    requires s'.closed == s'.p.EotOut? && s'.nul == s'.p.NullOut?
    ensures SenderOk(file, s')
  {
    hide SeqOf, FillBlock, Raw;
    if s'.p.DataOut? {
      ChunkAdded(s, file, s'.p.chunk, Want(remaining));
      assert s'.chunks[..s'.at - 1] == s.chunks;
    }
  }

  lemma LastFull(file: File, chunks: seq<seq<bv8>>, remaining: nat)
    requires chunks != [] && ChunksOk(chunks, file.size)
    requires remaining == file.size - |Raw(chunks[..|chunks| - 1])| && |chunks[|chunks| - 1]| <= remaining
    ensures remaining - |chunks[|chunks| - 1]| == file.size - |Raw(chunks)|
    ensures |chunks[|chunks| - 1]| >= Want(remaining) && remaining > |chunks[|chunks| - 1]| ==> |chunks[|chunks| - 1]| == DATA_MAX
  {
    assert |Raw(chunks)| == |Raw(chunks[..|chunks| - 1])| + |chunks[|chunks| - 1]|;
  }

  lemma FirstBlock(file: File, s: Link, s': Link)
    requires SenderOk(file, s) && s.p.Asking? && s' == Moved(file, s, Asked)
    ensures SenderOk(file, s')
  {
    hide ChunksOk, SeqOf, LoadBlock, Raw, ItemOf;
    MovedPhase(file, s, Asked);
    RawNone();
    FirstNumber();
    LoadTries(1, file.size, s.src);
    Loaded(file, s, s', 1, file.size);
  }

  /** The other replies leave the file where it is. */
  lemma OtherReply(file: File, s: Link, reply: Reply)
    requires SenderOk(file, s) && !s.p.Over? && s.p.Ok()
    requires !(reply == Asked && s.p.Asking?) && !(reply == Acked && s.p.DataOut?)
    ensures SenderOk(file, Moved(file, s, reply))
  {
    hide ChunksOk, SeqOf, LoadBlock, Raw, ItemOf, AfterBlock;
    MovedPhase(file, s, reply);
  }

  lemma SenderMoves(file: File, s: Link, reply: Reply)
    requires SenderOk(file, s) && !s.p.Over? && s.p.Ok()
    ensures SenderOk(file, Moved(file, s, reply))
  {
    hide SenderOk, Moved;
    if reply == Asked && s.p.Asking? {
      FirstBlock(file, s, Moved(file, s, reply));
    } else if reply == Acked && s.p.DataOut? {
      AckedBlock(file, s, Moved(file, s, reply));
    } else {
      OtherReply(file, s, reply);
    }
  }

  lemma RawNone()
    ensures Raw([]) == []
  {
  }

  lemma FirstNumber()
    ensures SeqOf(1) == 1 && SeqOf(0) == 0
  {
    assert SeqOf(0) == 0;
  }

  lemma LoadTries(num: bv8, remaining: nat, src: Source)
    ensures var p := LoadBlock(num, remaining, src).0;
      !p.NullOut? && (p.DataOut? ==> p.tries == 0) && (p.DataOut? || p.EotOut? || p.Over?) && p != Over(Done)
  {
    hide FillBlock;
  }

  lemma AckedBlock(file: File, s: Link, s': Link)
    requires SenderOk(file, s) && s.p.DataOut? && s.p.Ok() && s' == Moved(file, s, Acked)
    ensures SenderOk(file, s')
  {
    hide ChunksOk, SeqOf, LoadBlock, Raw, ItemOf, Want;
    MovedPhase(file, s, Acked);
    var n := |s.chunks|;
    LastFull(file, s.chunks, s.p.remaining);
    DueNext(n);
    if |s.p.chunk| >= Want(s.p.remaining) {
      var left := s.p.remaining - |s.p.chunk|;
      LoadTries(NumAfter(s.p.num), left, s.src);
      if left > 0 {
        Loaded(file, s, s', NumAfter(s.p.num), left);
      } else {
        NothingLeft(NumAfter(s.p.num), s.src);
      }
    }
  }

  lemma NothingLeft(num: bv8, src: Source)
    ensures LoadBlock(num, 0, src) == (EotOut(0), src)
  {
    hide FillBlock;
  }

  /** What a move of the sender leaves to the other parts. */
  ghost predicate Grown(s: Link, s': Link) {
    && (s'.chunks == s.chunks || (!s.closed && |s'.chunks| == |s.chunks| + 1 && s'.chunks[..|s.chunks|] == s.chunks))
    && (s.closed ==> s'.closed) && (s.nul ==> s'.nul)
    && s'.q == s.q && s'.fwd == s.fwd && s'.back == s.back && s'.calls == s.calls && s'.k == s.k && s.at <= s'.at && s'.room == s.room
  }

  lemma SenderGrows(file: File, s: Link, reply: Reply)
    requires SenderOk(file, s) && !s.p.Over? && s.p.Ok()
    ensures Grown(s, Moved(file, s, reply))
  {
    hide ChunksOk, SeqOf, Raw, ItemOf, FillBlock;
    MovedPhase(file, s, reply);
    var s' := Moved(file, s, reply);
    if s'.chunks != s.chunks {
      OpenLoad(file, s, reply);
      assert s'.chunks[..|s.chunks|] == s.chunks;
    }
  }

  lemma OpenLoad(file: File, s: Link, reply: Reply)
    requires SenderOk(file, s) && !s.p.Over? && s.p.Ok()
    ensures var p := OnReply(s.p, reply, file, s.src).0; p.DataOut? && p.tries == 0 ==> !s.closed
  {
    hide ChunksOk, SeqOf, Raw, LoadBlock;
  }

  lemma FwdGrown(file: File, s: Link, s': Link)
    requires FwdOk(file, s) && Grown(s, s') && (s.nul ==> s.closed)
    ensures FwdOk(file, s')
  {
    hide SeqOf, Block0, PadOf, From, Sorted;
    forall i | 0 <= i < |s'.fwd|
      ensures s'.fwd[i].idx <= s'.at && MsgOk(file, s', s'.fwd[i])
    {
      var m := s.fwd[i];
      assert MsgOk(file, s, m);
      if 0 < m.idx <= |s.chunks| {
        assert s'.chunks[..|s.chunks|][m.idx - 1] == s.chunks[m.idx - 1];
      }
    }
  }

  lemma NulClosed(file: File, s: Link)
    requires SenderOk(file, s)
    ensures s.nul ==> s.closed
  {
    hide ChunksOk, Raw, SeqOf;
  }

  lemma ReceiverGrown(file: File, s: Link, s': Link)
    requires ReceiverOk(file, s) && Grown(s, s')
    ensures ReceiverOk(file, s')
  {
    hide SeqOf, WritesOf, Carried, RemainingAfter;
    if s'.chunks != s.chunks {
      var n := s.k - 1;
      if s.k > 0 {
        assert s'.chunks[..n] == s'.chunks[..|s.chunks|][..n] == s.chunks[..n];
      }
    }
  }

  lemma LineMoved(file: File, s: Link, reply: Reply)
    requires SenderOk(file, s) && LineOk(s, Owed(reply)) && !s.p.Over? && s.p.Ok()
    requires reply == Asked && s.at >= 2 ==> !Early(s.q)
    ensures LineOk(Moved(file, s, reply), 0)
  {
    hide Dups, CsWithin, ItemOf, ChunksOk, LoadBlock, Raw;
    MovedPhase(file, s, reply);
    var s' := Moved(file, s, reply);
    Monotone(s.back);
    NulOnly(file, s, reply);
  }

  lemma Monotone(back: seq<bv8>)
    ensures forall m: int, n: int :: CsWithin(back, m) && m <= n ==> CsWithin(back, n)
  {
  }

  lemma NulOnly(file: File, s: Link, reply: Reply)
    requires SenderOk(file, s) && !s.p.Over? && s.p.Ok()
    ensures var p := OnReply(s.p, reply, file, s.src).0; p.NullOut? ==> s.nul || (reply == Asked && s.at >= 2)
  {
    hide ChunksOk, SeqOf, Raw, FillBlock;
  }

  /** What the sender puts is the packet of its place. */
  lemma PacketPlace(file: File, s: Link)
    requires SenderOk(file, s) && s.p.Ok() && s.p.Out()
    ensures MsgOk(file, s, Msg(s.at, ItemOf(s.p, file)))
  {
    hide ChunksOk, SeqOf, Raw, Block0, Padded;
  }

  lemma SenderKeeps(file: File, s: Link, reply: Reply, putOk: bool)
    requires !s.p.Over? && s.p.Ok() && Fits(s, SenderNext(file, s, reply, putOk))
    requires SenderOk(file, s) && FwdOk(file, s) && ReceiverOk(file, s) && LineOk(s, Owed(reply))
    requires reply == Asked && s.at >= 2 ==> !Early(s.q)
    ensures Inv(file, SenderNext(file, s, reply, putOk))
  {
    hide FwdOk, LineOk, SenderOk, Early, OnReply, ItemOf, MsgOk, Grown;
    SenderMoves(file, s, reply);
    SenderGrows(file, s, reply);
    var s1 := Moved(file, s, reply);
    assert s.nul ==> s.closed by { NulClosed(file, s); }
    FwdGrown(file, s, s1);
    ReceiverGrown(file, s, s1);
    LineMoved(file, s, reply);
    MovedPhase(file, s, reply);
    var s' := SenderNext(file, s, reply, putOk);
    if s1.p.Out() {
      PacketPlace(file, s1);
      PacketSent(file, s1, ItemOf(s1.p, file));
    }
    OtherParts(file, s1, s');
  }

  /** Only the phase of the sender and the packets differ. */
  lemma OtherParts(file: File, s: Link, s': Link)
    requires s' == s.(p := s'.p, fwd := s'.fwd)
    ensures SenderOk(file, s) && (s'.p == s.p || s'.p == Over(ErrIo)) ==> SenderOk(file, s')
    ensures ReceiverOk(file, s) ==> ReceiverOk(file, s')
    ensures FwdOk(file, s.(fwd := s'.fwd)) ==> FwdOk(file, s')
    ensures LineOk(s.(fwd := s'.fwd), 0) ==> LineOk(s', 0)
  {
    hide ChunksOk, SeqOf, Raw, SinkCalls, Dups, CsWithin, Sorted, From, LeftOf, PadOf, Block0;
    if FwdOk(file, s.(fwd := s'.fwd)) {
      forall i | 0 <= i < |s'.fwd|
        ensures MsgOk(file, s', s'.fwd[i])
      {
        SameMsg(file, s.(fwd := s'.fwd), s', s'.fwd[i]);
      }
    }
  }

  // ---- the receiver ----------------------------------------------------------------------------------

  function OutBytes(outs: seq<Out>): seq<bv8>
    decreases |outs|
  {
    if outs == [] then [] else [outs[0].b] + OutBytes(outs[1..])
  }

  lemma {:induction false} EmitOutcome(outs: seq<Out>, next: Phase, w: World)
    ensures var (q, w') := Emit(outs, next, w);
      && w'.calls == w.calls && (q == Ended(ErrIo) || (q == next && Flat(w'.sent) == Flat(w.sent) + OutBytes(outs)))
    decreases |outs|
  {
    hide Flat;
    if outs == [] {
      assert Flat(w.sent) + [] == Flat(w.sent);
    } else {
      var b, rest := outs[0].b, outs[1..];
      FlatMore(w.sent, [b]);
      EmitOutcome(rest, next, Put(w, [b]));
      assert Flat(w.sent) + [b] + OutBytes(rest) == Flat(w.sent) + ([b] + OutBytes(rest));
    }
  }

  lemma FlatMore(sent: seq<seq<bv8>>, p: seq<bv8>)
    ensures Flat(sent + [p]) == Flat(sent) + p
  {
    assert (sent + [p])[..|sent|] == sent;
  }

  /** A plan is carried out whole, or the receiver stops; the sink's call is made. */
  lemma ActOutcome(plan: Plan, puts: seq<bool>, sinks: seq<bool>, calls: seq<Call>)
    ensures var (q, w) := Act(plan, World([], puts, [], sinks, calls));
      && w.calls == calls + (if plan.call.Some? then [plan.call.value] else [])
      && ((q == plan.next && Flat(w.sent) == OutBytes(plan.outs)) || q == Ended(ErrIo) || q == Ended(ErrSink))
  {
    hide Emit, Flat;
    FlatNone();
    var w := World([], puts, [], sinks, calls);
    var w1 := if plan.drain then w.(input := Drain(w.input, DISCARD_MAX)) else w;
    EmitOutcome(plan.outs, plan.next, w1);
    if plan.call.Some? {
      EmitOutcome(plan.outs, plan.next, CallSink(w1, plan.call.value));
    }
    assert [] + OutBytes(plan.outs) == OutBytes(plan.outs);
  }

  lemma FlatNone()
    ensures Flat([]) == []
  {
  }

  /** The receiver after a plan: at place k, with the sink's calls made and the bytes x said,
      unless it has stopped. */
  ghost predicate Settles(s: Link, s': Link, fwd: seq<Msg>, plan: Plan) {
    && s' == s.(fwd := fwd, q := s'.q, back := s'.back, calls := s'.calls, k := s'.k)
    && s'.k == PlaceAfter(s.q, plan.next, s.k)
    && s'.calls == s.calls + (if plan.call.Some? then [plan.call.value] else [])
    && ((s'.q == plan.next && s'.back == s.back + OutBytes(plan.outs)) || s'.q == Ended(ErrIo) || s'.q == Ended(ErrSink))
  }

  lemma NextSettles(s: Link, item: Item, puts: seq<bool>, sinks: seq<bool>)
    requires !s.q.Ended? && Readable(item)
    ensures Settles(s, ReceiverNext(s, item, puts, sinks), s.fwd, On(s.q, item))
  {
    hide On, Act, Flat, PlaceAfter;
    ActOutcome(On(s.q, item), puts, sinks, s.calls);
  }

  lemma SaidOne(back: seq<bv8>, b: bv8, checked: bool)
    ensures OutBytes([Out(b, checked)]) == [b] && Acks(back + [b]) == Acks(back) + (if b == ACK then 1 else 0)
  {
    assert [Out(b, checked)][1..] == [];
    AcksJoin(back, [b]);
    AcksOne(b);
  }

  lemma SaidTwo(back: seq<bv8>)
    ensures OutBytes(Say(ACK) + Say(CRC_C)) == [ACK, CRC_C] && Acks(back + [ACK, CRC_C]) == Acks(back) + 1
    ensures CsWithin(back, 1) && Acks(back) == 0 ==> CsWithin(back + [ACK, CRC_C], 1)
  {
    var outs := Say(ACK) + Say(CRC_C);
    assert outs[1..] == Say(CRC_C) && Say(CRC_C)[1..] == [];
    assert back + [ACK, CRC_C] == back + [ACK] + [CRC_C];
    SaidOne(back, ACK, true);
    SaidOne(back + [ACK], CRC_C, true);
    CodesDiffer();
    if CsWithin(back, 1) && Acks(back) == 0 {
      CsMore(back, ACK, 1);
      CsMore(back + [ACK], CRC_C, 1);
    }
  }

  /** Nothing was taken: a prompt, a refusal or the end. */
  lemma NothingTaken(file: File, s: Link, s': Link, item: Item)
    requires Inv(file, s) && !s.q.Ended? && (item == Quiet || item == Bad || item == Stop)
    requires Settles(s, s', s.fwd, On(s.q, item))
    ensures Inv(file, s')
  {
    hide SenderOk, FwdOk, LeftOf, SinkCalls, SeqOf, Dups, CsWithin;
    var b := if item == Bad && !s.q.Handshake? then NAK else if s.q.Receiving? then s.q.prompt else CRC_C;
    SaidOne(s.back, b, true);
    CodesDiffer();
    AfterNothing(s.q, item, s.k);
    if Early(s.q) && (b == CRC_C ==> Acks(s.back) <= 1 - s.at) {
      CsMore(s.back, b, 1 - s.at);
    }
    SenderSame(file, s, s');
    FwdSame(file, s, s');
  }

  lemma AfterNothing(q: Phase, item: Item, k: nat)
    requires !q.Ended? && (item == Quiet || item == Bad || item == Stop)
    ensures var plan := On(q, item);
      && plan.call.None? && PlaceAfter(q, plan.next, k) == k && plan.next != Ended(Done)
      && (plan.next.Ended? || (plan.outs == Say(if item == Bad && !q.Handshake? then NAK else if q.Receiving? then q.prompt else CRC_C)
           && match q
              case Handshake(_) => plan.next.Handshake?
              case Receiving(_, due, _, declared, remaining) =>
                plan.next.Receiving? && plan.next == Receiving(plan.next.attempts, due, plan.next.prompt, declared, remaining)
                && plan.next.prompt == (if item == Bad then NAK else q.prompt)
              case Closing(_) => plan.next.Closing?))
  {
  }

  lemma SenderSame(file: File, s: Link, s': Link)
    requires s'.p == s.p && s'.chunks == s.chunks && s'.at == s.at && s'.closed == s.closed && s'.nul == s.nul
    ensures SenderOk(file, s) ==> SenderOk(file, s')
  {
    hide ChunksOk, Raw, SeqOf;
  }

  lemma FwdSame(file: File, s: Link, s': Link)
    requires s'.fwd == s.fwd && s'.chunks == s.chunks && s'.at == s.at && s'.closed == s.closed && s'.nul == s.nul && s'.k == s.k
    ensures FwdOk(file, s) ==> FwdOk(file, s')
  {
    hide Sorted, From, Block0, PadOf, SeqOf;
    if FwdOk(file, s) {
      forall i | 0 <= i < |s'.fwd|
        ensures MsgOk(file, s', s'.fwd[i])
      {
        SameMsg(file, s, s', s'.fwd[i]);
      }
    }
  }

  /** Without its first packet, for a receiver that stays, or that has taken it. */
  lemma FwdRest(file: File, s: Link, s': Link)
    requires FwdOk(file, s) && s.fwd != [] && s'.fwd == s.fwd[1..]
    requires s'.chunks == s.chunks && s'.at == s.at && s'.closed == s.closed && s'.nul == s.nul
    requires s'.k == s.k || (s'.k == s.k + 1 && s.fwd[0].idx == s.k)
    ensures FwdOk(file, s')
  {
    hide Sorted, From, MsgOk;
    TailKeeps(s.fwd, s.k);
    forall i | 0 <= i < |s'.fwd|
      ensures s'.fwd[i].idx <= s'.at && MsgOk(file, s', s'.fwd[i])
    {
      assert s'.fwd[i] == s.fwd[i + 1];
      SameMsg(file, s, s', s.fwd[i + 1]);
    }
  }

  lemma HeadOk(file: File, s: Link)
    requires FwdOk(file, s) && s.fwd != []
    ensures s.k <= s.fwd[0].idx + 1 && s.fwd[0].idx <= s.at && MsgOk(file, s, s.fwd[0])
  {
    hide MsgOk;
  }

  /** The first packet as the next place: none is a repetition of it that was not one. */
  lemma DupsTaken(fwd: seq<Msg>, k: nat)
    requires fwd != []
    ensures fwd[0].idx == k ==> Dups(fwd, k) == Dups(fwd[1..], k + 1)
    ensures fwd[0].idx + 1 == k ==> Dups(fwd, k) == 1 + Dups(fwd[1..], k)
  {
  }

  /** A packet that leaves the receiver where it is, or ends it. */
  lemma Stops(file: File, s: Link, s': Link, plan: Plan)
    requires FwdOk(file, s) && SenderOk(file, s) && ReceiverOk(file, s) && s.fwd != []
    requires plan == Give(ErrProto) && Settles(s, s', s.fwd[1..], plan)
    requires !s.q.Ended? && s.room <= CAPACITY
    ensures Inv(file, s')
  {
    hide SenderOk, FwdOk, LeftOf, SinkCalls, SeqOf, Dups, CsWithin;
    SenderSame(file, s, s');
    FwdRest(file, s, s');
  }

  lemma BackAgain(b: bv8)
    ensures NumBefore(NumAfter(b)) == b
  {
  }

  /** While the sender is less than 255 places ahead, the number byte tells the block that
      is due, the one before it, and any other apart, in spite of the wrap. */
  lemma NumbersTell(k: nat, idx: nat)
    requires 1 <= k <= idx + 1 && idx - k < CAPACITY
    ensures SeqOf(idx) == NumBefore(SeqOf(k)) <==> idx + 1 == k
    ensures SeqOf(idx) == SeqOf(k) <==> idx == k
  {
    hide NumBefore, NumAfter, SeqOf;
    assert SeqOf(k) == NumAfter(SeqOf(k - 1)) by { DueNext(k - 1); }
    BackAgain(SeqOf(k - 1));
    SeqApart(idx, k - 1);
    SeqApart(idx, k);
  }

  lemma HeadNear(file: File, s: Link)
    requires FwdOk(file, s) && LineOk(s, 0) && s.fwd != [] && !s.q.Ended?
    ensures s.fwd[0].idx - s.k < CAPACITY
  {
    hide MsgOk, Dups, CsWithin;
  }

  // ---- a repetition ------------------------------------------------------------------------

  lemma Repeats(file: File, s: Link, s': Link, plan: Plan)
    requires Inv(file, s) && s.fwd != [] && s.fwd[0].idx + 1 == s.k
    requires plan.call.None? && plan.outs == Say(ACK) && Settles(s, s', s.fwd[1..], plan)
    requires match s.q
             case Receiving(_, due, _, declared, remaining) => plan.next == Receiving(0, due, NAK, declared, remaining)
             case Closing(_) => plan.next.Closing?
             case _ => false
    ensures Inv(file, s')
  {
    hide SenderOk, FwdOk, LeftOf, SinkCalls, SeqOf, Dups, CsWithin;
    SaidOne(s.back, ACK, true);
    CodesDiffer();
    DupsTaken(s.fwd, s.k);
    if s.q.Receiving? {
      CsMore(s.back, ACK, 1 - s.at);
    }
    SenderSame(file, s, s');
    FwdRest(file, s, s');
  }

  // ---- block 0 ----------------------------------------------------------------------------

  lemma HeaderPlan(file: File, attempts: nat)
    requires forall i :: 0 <= i < |file.name| ==> file.name[i] != 0
    ensures On(Handshake(attempts), Block(0, Block0(file.name, file.size))) ==
      Plan(false, Some(Begin(SentName(file.name), file.size)), Say(ACK) + Say(CRC_C), Receiving(0, 1, CRC_C, true, file.size))
  {
    hide ParseBlock0, Block0, SentName;
    Block0RoundTrip(file.name, file.size);
  }

  lemma NoBlocksYet(file: File, chunks: seq<seq<bv8>>)
    ensures SinkCalls(file, chunks, 1) == [Begin(SentName(file.name), file.size)] && LeftOf(file, chunks[..0]) == file.size
    ensures SinkCalls(file, chunks, 0) == []
  {
    hide SentName;
    assert UpTo(chunks, 0) == [] && chunks[..0] == [];
    assert WritesOf(Carried([]), InfoOf(file)) == [];
  }

  lemma TakesHeader(file: File, s: Link, s': Link)
    requires Inv(file, s) && s.fwd != [] && s.q.Handshake?
    requires forall i :: 0 <= i < |file.name| ==> file.name[i] != 0
    requires Settles(s, s', s.fwd[1..], On(s.q, s.fwd[0].item))
    ensures Inv(file, s')
  {
    hide SenderOk, FwdOk, LeftOf, SinkCalls, Dups, CsWithin, On;
    HeadOk(file, s);
    HeaderPlan(file, s.q.attempts);
    NoBlocksYet(file, s.chunks);
    SaidTwo(s.back);
    DupsTaken(s.fwd, s.k);
    FirstNumber();
    CodesDiffer();
    SenderSame(file, s, s');
    FwdRest(file, s, s');
  }

  // ---- a data block -----------------------------------------------------------------------

  lemma DuePlan(q: Phase, data: seq<bv8>)
    requires q.Receiving? && q.declared && NumBefore(q.due) != q.due && |data| >= BLOCK0_LEN
    ensures On(q, Block(q.due, data)) ==
      var t := Taken(data, true, q.remaining);
      Plan(false, if t == [] then None else Some(Write(t)), Say(ACK),
           Receiving(0, NumAfter(q.due), NAK, true, q.remaining - |t|))
  {
    hide Taken, NumBefore, NumAfter;
  }

  lemma NumbersMove(b: bv8)
    ensures NumBefore(b) != b && NumAfter(b) != b
  {
  }

  lemma CallsGrow(file: File, chunks: seq<seq<bv8>>, k: nat)
    requires 1 <= k <= |chunks|
    ensures var t := Taken(PadOf(chunks[k - 1]), true, LeftOf(file, chunks[..k - 1]));
      && SinkCalls(file, chunks, k + 1) == SinkCalls(file, chunks, k) + WriteOf(t)
      && LeftOf(file, chunks[..k]) == LeftOf(file, chunks[..k - 1]) - |t|
  {
    hide Taken, PadOf, WritesOf, RemainingAfter, Carried, LeftOf;
    assert chunks[..k] == chunks[..k - 1] + [chunks[k - 1]];
    LeftMore(file, chunks[..k - 1], chunks[k - 1]);
  }

  lemma TakesBlock(file: File, s: Link, s': Link)
    requires Inv(file, s) && s.fwd != [] && s.q.Receiving? && s.fwd[0].idx == s.k <= |s.chunks| && Readable(s.fwd[0].item)
    requires Settles(s, s', s.fwd[1..], On(s.q, s.fwd[0].item))
    ensures Inv(file, s')
  {
    hide SenderOk, FwdOk, LeftOf, SinkCalls, Dups, CsWithin, On, Taken, PadOf, SeqOf, NumAfter, NumBefore;
    HeadOk(file, s);
    NumbersMove(s.q.due);
    DuePlan(s.q, PadOf(s.chunks[s.k - 1]));
    CallsGrow(file, s.chunks, s.k);
    DueNext(s.k);
    SaidOne(s.back, ACK, true);
    CsMore(s.back, ACK, 1 - s.at);
    DupsTaken(s.fwd, s.k);
    CodesDiffer();
    SenderSame(file, s, s');
    FwdRest(file, s, s');
  }

  // ---- the end of the file ------------------------------------------------------------------

  lemma EndPlan(q: Phase)
    requires q.Receiving? && q.declared
    ensures On(q, FileEnd) == if q.remaining != 0 then Give(ErrProto) else Plan(false, None, Say(ACK) + Say(CRC_C), Closing(0))
  {
  }

  /** The EOT is believed only when every piece has come: before the last, the size is not
      used up. */
  lemma EndInTime(file: File, s: Link)
    requires SenderOk(file, s) && ReceiverOk(file, s) && s.q.Receiving? && s.q.remaining == 0
    ensures s.k == |s.chunks| + 1 && LeftOf(file, s.chunks) == 0
  {
    hide SinkCalls, SeqOf, LeftOf;
    if s.k - 1 < |s.chunks| {
      SenderChunks(file, s);
      FullSoFar(file, s.chunks, s.k - 1);
    } else {
      assert s.chunks[..s.k - 1] == s.chunks;
    }
  }

  lemma SenderChunks(file: File, s: Link)
    requires SenderOk(file, s)
    ensures ChunksOk(s.chunks, file.size)
  {
    hide ChunksOk, SeqOf, Raw;
  }

  lemma CallsStay(file: File, chunks: seq<seq<bv8>>, k: nat)
    requires k > |chunks|
    ensures SinkCalls(file, chunks, k + 1) == SinkCalls(file, chunks, k)
  {
    hide WritesOf, Carried;
    assert UpTo(chunks, k - 1) == chunks == UpTo(chunks, k);
  }

  lemma TakesEnd(file: File, s: Link, s': Link)
    requires Inv(file, s) && s.fwd != [] && s.q.Receiving? && s.q.remaining == 0 && s.fwd[0].item == FileEnd
    requires Settles(s, s', s.fwd[1..], On(s.q, s.fwd[0].item))
    ensures Inv(file, s')
  {
    hide SenderOk, FwdOk, LeftOf, SinkCalls, Dups, CsWithin, On, SeqOf, Block0, PadOf;
    HeadOk(file, s);
    EndInTime(file, s);
    EndPlan(s.q);
    CallsStay(file, s.chunks, s.k);
    SaidTwo(s.back);
    DupsTaken(s.fwd, s.k);
    SenderSame(file, s, s');
    FwdRest(file, s, s');
  }

  // ---- the closing block ----------------------------------------------------------------------

  lemma ClosingPlans(attempts: nat)
    ensures On(Closing(attempts), FileEnd) == Plan(false, None, Say(ACK), Closing(attempts))
    ensures On(Closing(attempts), Block(0, NullBlock())) == Plan(false, None, [Out(ACK, false)], Ended(Done))
  {
  }

  lemma TakesNull(file: File, s: Link, s': Link)
    requires Inv(file, s) && s.fwd != [] && s.q.Closing? && s.fwd[0].idx == s.k
    requires Settles(s, s', s.fwd[1..], On(s.q, s.fwd[0].item))
    ensures Inv(file, s')
  {
    hide SenderOk, FwdOk, LeftOf, SinkCalls, Dups, CsWithin, On, SeqOf, Block0, PadOf, NullBlock;
    HeadOk(file, s);
    ClosingPlans(s.q.attempts);
    CallsStay(file, s.chunks, s.k);
    SenderSame(file, s, s');
    FwdRest(file, s, s');
  }

  // ---- a packet that arrives whole ---------------------------------------------------------------

  lemma AheadPlan(q: Phase, num: bv8, data: seq<bv8>)
    requires q.Receiving? && num != NumBefore(q.due) && num != q.due && |data| >= BLOCK0_LEN
    ensures On(q, Block(num, data)) == Give(ErrProto)
  {
    hide NumBefore;
  }

  lemma BehindPlan(q: Phase, num: bv8, data: seq<bv8>)
    requires q.Receiving? && num == NumBefore(q.due) && |data| >= BLOCK0_LEN
    ensures On(q, Block(num, data)) == Plan(false, None, Say(ACK), Receiving(0, q.due, NAK, q.declared, q.remaining))
  {
    hide NumBefore;
  }

  /** What a packet under way before the end of the file can be. */
  lemma HeadKind(file: File, s: Link)
    requires FwdOk(file, s) && s.fwd != [] && !s.nul
    ensures s.fwd[0].item == FileEnd || (s.fwd[0].item.Block? && s.fwd[0].item.num == SeqOf(s.fwd[0].idx))
    ensures s.fwd[0].item != FileEnd ==> s.fwd[0].idx <= |s.chunks|
    ensures s.fwd[0].item == FileEnd ==> s.fwd[0].idx == |s.chunks| + 1
  {
    hide Block0, PadOf, Sorted, From;
    HeadOk(file, s);
    assert SeqOf(0) == 0;
  }

  lemma ReceivingHears(file: File, s: Link, s': Link)
    requires Inv(file, s) && s.fwd != [] && s.q.Receiving? && Readable(s.fwd[0].item)
    requires Settles(s, s', s.fwd[1..], On(s.q, s.fwd[0].item))
    ensures Inv(file, s')
  {
    hide SenderOk, FwdOk, LeftOf, SinkCalls, Dups, CsWithin, On, SeqOf, NumBefore, Settles;
    var m := s.fwd[0];
    HeadOk(file, s);
    HeadNear(file, s);
    HeadKind(file, s);
    if m.item == FileEnd {
      EndPlan(s.q);
      if s.q.remaining == 0 {
        TakesEnd(file, s, s');
      } else {
        Stops(file, s, s', On(s.q, m.item));
      }
    } else {
      NumbersTell(s.k, m.idx);
      if m.idx + 1 == s.k {
        BehindPlan(s.q, m.item.num, m.item.data);
        Repeats(file, s, s', On(s.q, m.item));
      } else if m.idx == s.k {
        TakesBlock(file, s, s');
      } else {
        AheadPlan(s.q, m.item.num, m.item.data);
        Stops(file, s, s', On(s.q, m.item));
      }
    }
  }

  lemma ClosingHears(file: File, s: Link, s': Link)
    requires Inv(file, s) && s.fwd != [] && s.q.Closing? && Readable(s.fwd[0].item)
    requires Settles(s, s', s.fwd[1..], On(s.q, s.fwd[0].item))
    ensures Inv(file, s')
  {
    hide SenderOk, FwdOk, LeftOf, SinkCalls, Dups, CsWithin, On, SeqOf, Settles, Block0, PadOf, NullBlock;
    HeadOk(file, s);
    ClosingPlans(s.q.attempts);
    if s.fwd[0].idx == s.k {
      TakesNull(file, s, s');
    } else {
      Repeats(file, s, s', On(s.q, s.fwd[0].item));
    }
  }

  lemma Hears(file: File, s: Link, s': Link)
    requires Inv(file, s) && s.fwd != [] && !s.q.Ended? && Readable(s.fwd[0].item)
    requires forall i :: 0 <= i < |file.name| ==> file.name[i] != 0
    requires Settles(s, s', s.fwd[1..], On(s.q, s.fwd[0].item))
    ensures Inv(file, s')
  {
    hide Inv, Settles, On;
    match s.q {
      case Handshake(_) => TakesHeader(file, s, s');
      case Receiving(_, _, _, _, _) => ReceivingHears(file, s, s');
      case Closing(_) => ClosingHears(file, s, s');
    }
  }

  // ---- every step, every run ---------------------------------------------------------------------

  /** The name of the file has no NUL in it. */
  ghost predicate NameOk(file: File) {
    forall i :: 0 <= i < |file.name| ==> file.name[i] != 0
  }

  lemma InvParts(file: File, s: Link)
    ensures Inv(file, s) <==> SenderOk(file, s) && FwdOk(file, s) && ReceiverOk(file, s) && LineOk(s, 0)
  {
    hide SenderOk, FwdOk, ReceiverOk, LineOk;
  }

  lemma OwedNothing(s: Link, reply: Reply)
    requires LineOk(s, 0) && reply != Acked
    ensures LineOk(s, Owed(reply))
  {
    hide Dups, CsWithin;
  }

  /** A reply has left the line. */
  lemma BackOnly(file: File, s: Link, back: seq<bv8>)
    ensures SenderOk(file, s) ==> SenderOk(file, s.(back := back))
    ensures FwdOk(file, s) ==> FwdOk(file, s.(back := back))
    ensures ReceiverOk(file, s) ==> ReceiverOk(file, s.(back := back))
  {
    hide ChunksOk, Raw, SeqOf, SinkCalls, LeftOf;
    SenderSame(file, s, s.(back := back));
    FwdSame(file, s, s.(back := back));
  }

  lemma SenderStep(file: File, s: Link, mv: Move, s': Link)
    requires Inv(file, s) && (mv.SenderHears? || mv.SenderWaits?) && FitStep(file, s, mv, s')
    ensures Inv(file, s')
  {
    hide Inv, SenderOk, FwdOk, ReceiverOk, LineOk, SenderNext, Early;
    InvParts(file, s);
    match mv {
      case SenderHears(garbled, putOk) =>
        ReplyTaken(s, garbled);
        BackOnly(file, s, s.back[1..]);
        SenderKeeps(file, s.(back := s.back[1..]), if garbled then Noise else ReplyOf(s.back[0]), putOk);
      case SenderWaits(reply, putOk) =>
        OwedNothing(s, reply);
        SenderKeeps(file, s, reply, putOk);
      case _ =>
    }
  }

  lemma ReceiverStep(file: File, s: Link, mv: Move, s': Link)
    requires NameOk(file) && Inv(file, s) && (mv.ReceiverHears? || mv.ReceiverWaits?) && LinkStep(file, s, mv, s')
    ensures Inv(file, s')
  {
    hide Inv, SenderOk, FwdOk, ReceiverOk, LineOk, ReceiverNext, Settles, On;
    InvParts(file, s);
    match mv {
      case ReceiverHears(damaged, puts, sinks) =>
        var s0 := s.(fwd := s.fwd[1..]);
        if damaged {
          PacketLost(file, s, 0);
          assert Without(s.fwd, 0) == s.fwd[1..];
          FwdOnly(file, s, s.fwd[1..]);
          InvParts(file, s0);
          NextSettles(s0, Bad, puts, sinks);
          NothingTaken(file, s0, s', Bad);
        } else {
          NextSettles(s0, s.fwd[0].item, puts, sinks);
          SettlesFrom(s, s', On(s.q, s.fwd[0].item));
          Hears(file, s, s');
        }
      case ReceiverWaits(item, puts, sinks) =>
        NextSettles(s, item, puts, sinks);
        NothingTaken(file, s, s', item);
      case _ =>
    }
  }

  lemma SettlesFrom(s: Link, s': Link, plan: Plan)
    requires s.fwd != [] && Settles(s.(fwd := s.fwd[1..]), s', s.fwd[1..], plan)
    ensures Settles(s, s', s.fwd[1..], plan)
  {
    hide PlaceAfter, OutBytes;
  }

  lemma FwdOnly(file: File, s: Link, fwd: seq<Msg>)
    ensures SenderOk(file, s) ==> SenderOk(file, s.(fwd := fwd))
    ensures ReceiverOk(file, s) ==> ReceiverOk(file, s.(fwd := fwd))
  {
    hide ChunksOk, Raw, SeqOf, SinkCalls, LeftOf;
    SenderSame(file, s, s.(fwd := fwd));
  }

  /** Whatever the line does, every step keeps the protocol in order. */
  lemma StepSafe(file: File, s: Link, mv: Move, s': Link)
    requires NameOk(file) && Inv(file, s) && FitStep(file, s, mv, s')
    ensures Inv(file, s')
  {
    hide Inv, SenderOk, FwdOk, ReceiverOk, LineOk, Fits;
    match mv {
      case SenderHears(_, _) => SenderStep(file, s, mv, s');
      case SenderWaits(_, _) => SenderStep(file, s, mv, s');
      case ReceiverHears(_, _, _) => ReceiverStep(file, s, mv, s');
      case ReceiverWaits(_, _, _) => ReceiverStep(file, s, mv, s');
      case LosePacket(i) =>
        InvParts(file, s);
        PacketLost(file, s, i);
        FwdOnly(file, s, Without(s.fwd, i));
        InvParts(file, s');
      case LoseReply(i) =>
        InvParts(file, s);
        ReplyLost(s, i);
        BackOnly(file, s, Without(s.back, i));
        InvParts(file, s');
    }
  }

  lemma StartSafe(file: File, src: Source, room: nat)
    requires 0 < room <= CAPACITY
    ensures Inv(file, Begun(src, room))
  {
    hide SentName;
    var s := Begun(src, room);
    RawNone();
    NoBlocksYet(file, []);
    CodesDiffer();
    AcksOne(CRC_C);
    assert CsWithin([CRC_C], 1) by { assert Acks([]) == 0; }
  }

  lemma {:induction false} RunSafe(file: File, src: Source, room: nat, states: seq<Link>, moves: seq<Move>, n: nat)
    requires NameOk(file) && IsRun(file, src, room, states, moves) && n < |states| && room <= CAPACITY
    ensures Inv(file, states[n]) && states[n].room == room
  {
    hide Inv, FitStep, NameOk;
    if n == 0 {
      StartSafe(file, src, room);
    } else {
      RunSafe(file, src, room, states, moves, n - 1);
      assert FitStep(file, states[n - 1], moves[n - 1], states[n - 1 + 1]);
      StepSafe(file, states[n - 1], moves[n - 1], states[n]);
      RoomStays(file, states[n - 1], moves[n - 1], states[n]);
    }
  }

  lemma RoomStays(file: File, s: Link, mv: Move, s': Link)
    requires FitStep(file, s, mv, s')
    ensures s'.room == s.room
  {
    hide OnReply, ItemOf, On, Act;
  }

  // ---- the bytes of the source ----------------------------------------------------------------------

  /** All that the reads of the source will ever give. */
  function Given(src: Source): seq<bv8> {
    if src == [] || src[0].None? || src[0].value == [] then [] else src[0].value + Given(src[1..])
  }

  /** The source comes to its end without a fault. */
  predicate Clean(src: Source) {
    src == [] || (src[0].Some? && (src[0].value == [] || Clean(src[1..])))
  }

  lemma ReadGiven(src: Source, want: nat)
    requires want > 0
    ensures var (got, rest) := ReadSome(src, want);
      got.Some? ==> |got.value| <= want && if got.value == [] then Given(src) == [] else Given(src) == got.value + Given(rest)
    ensures var (got, rest) := ReadSome(src, want);
      got.Some? ==> if got.value == [] then Clean(src) else Clean(src) == Clean(rest)
  {
    if src != [] && src[0].Some? && |src[0].value| > want {
      var c := src[0].value;
      var rest := [Some(c[want..])] + src[1..];
      assert rest[1..] == src[1..];
      assert c[..want] + (c[want..] + Given(src[1..])) == c + Given(src[1..]);
    }
  }

  /** A block takes the next bytes of the source, and is short only where it ends. */
  lemma {:induction false} FillGiven(src: Source, want: nat)
    ensures var (got, rest) := FillBlock(src, want);
      got.Some? ==> if |got.value| < want then Given(src) == got.value else Given(src) == got.value + Given(rest)
    ensures var (got, rest) := FillBlock(src, want);
      got.Some? ==> if |got.value| < want then Clean(src) else Clean(src) == Clean(rest)
    decreases want
  {
    hide ReadSome;
    if want > 0 {
      ReadGiven(src, want);
      var (got, rest) := ReadSome(src, want);
      if got.Some? && got.value != [] {
        FillGiven(rest, want - |got.value|);
        var (more, after) := FillBlock(rest, want - |got.value|);
        if more.Some? {
          assert got.value + (more.value + Given(after)) == got.value + more.value + Given(after);
        }
      }
    } else {
      assert [] + Given(src) == Given(src);
    }
  }

  /** A source that has as much as is asked for gives just that. */
  lemma {:induction false} FillFull(src: Source, want: nat)
    requires want <= |Given(src)|
    ensures FillBlock(src, want).0 == Some(Given(src)[..want]) && Given(FillBlock(src, want).1) == Given(src)[want..]
    decreases want
  {
    hide ReadSome;
    if want > 0 {
      ReadGiven(src, want);
      ReadHas(src, want);
      var (got, rest) := ReadSome(src, want);
      FillFull(rest, want - |got.value|);
      assert Given(src)[..want] == got.value + Given(rest)[..want - |got.value|];
      assert Given(src)[want..] == Given(rest)[want - |got.value|..];
    }
  }

  lemma ReadHas(src: Source, want: nat)
    requires want > 0 && Given(src) != []
    ensures ReadSome(src, want).0.Some? && ReadSome(src, want).0.value != []
  {
  }

  /** A source without a fault gives what it has. */
  lemma {:induction false} FillAll(src: Source, want: nat)
    requires Clean(src) && |Given(src)| < want
    ensures FillBlock(src, want).0 == Some(Given(src))
    decreases want
  {
    hide ReadSome;
    ReadGiven(src, want);
    ReadClean(src, want);
    var (got, rest) := ReadSome(src, want);
    if got.value != [] {
      FillAll(rest, want - |got.value|);
    }
  }

  lemma ReadClean(src: Source, want: nat)
    requires want > 0 && Clean(src)
    ensures ReadSome(src, want).0.Some?
  {
  }

  /** The last piece does not fill its block though more of the size was to come. */
  predicate EndsShort(chunks: seq<seq<bv8>>, size: nat) {
    chunks != [] && |chunks[|chunks| - 1]| < Want(if |Raw(chunks[..|chunks| - 1])| <= size then size - |Raw(chunks[..|chunks| - 1])| else 0)
  }

  /** The pieces are the beginning of what the source gives, and all of it when the last
      ends short; the end of the file is sent when the size is reached or the source has
      come to its end. */
  ghost predicate SourceOk(file: File, src: Source, s: Link) {
    && Raw(s.chunks) <= Given(src)
    && (EndsShort(s.chunks, file.size) ==> Raw(s.chunks) == Given(src) && Clean(src))
    && (s.p.Greeting? || s.p.HeaderOut? || s.p.Asking? || (s.p.DataOut? && !EndsShort(s.chunks, file.size)) ==>
          Given(src) == Raw(s.chunks) + Given(s.src) && Clean(src) == Clean(s.src))
    && (s.closed ==> |Given(src)| >= file.size || Clean(src))
  }

  lemma ShortNow(chunks: seq<seq<bv8>>, c: seq<bv8>, size: nat)
    requires |Raw(chunks)| <= size
    ensures EndsShort(chunks + [c], size) <==> |c| < Want(size - |Raw(chunks)|)
  {
    hide Raw;
    assert (chunks + [c])[..|chunks|] == chunks;
  }

  lemma LoadedGiven(num: bv8, remaining: nat, src: Source)
    ensures var (p, rest) := LoadBlock(num, remaining, src);
      && (p.DataOut? || p.EotOut? || p.Over?) && (p.EotOut? ==> remaining == 0 || Clean(src))
      && (p.DataOut? ==> p.tries == 0)
      && (p.DataOut? ==>
            if |p.chunk| < Want(remaining) then Given(src) == p.chunk && Clean(src)
            else Given(src) == p.chunk + Given(rest) && Clean(src) == Clean(rest))
  {
    hide Given, Clean, FillBlock;
    if remaining > 0 {
      FillGiven(src, Want(remaining));
    }
  }

  lemma SourceLoaded(file: File, src: Source, s: Link, s': Link, num: bv8, remaining: nat)
    requires remaining == file.size - |Raw(s.chunks)| && Given(src) == Raw(s.chunks) + Given(s.src) && Clean(src) == Clean(s.src)
    requires !EndsShort(s.chunks, file.size) && !s.closed && s'.closed == s'.p.EotOut?
    requires (s'.p, s'.src) == LoadBlock(num, remaining, s.src)
    requires s'.chunks == (if s'.p.DataOut? && s'.p.tries == 0 then s.chunks + [s'.p.chunk] else s.chunks)
    ensures SourceOk(file, src, s')
  {
    hide Raw, Given, LoadBlock, EndsShort, Clean, Want;
    LoadedGiven(num, remaining, s.src);
    if s'.p.DataOut? {
      var c := s'.p.chunk;
      RawMore(s.chunks, c);
      ShortNow(s.chunks, c, file.size);
      assert Raw(s.chunks) + (c + Given(s'.src)) == Raw(s.chunks) + c + Given(s'.src);
    }
  }

  lemma SourceAcked(file: File, src: Source, s: Link, s': Link)
    requires SenderOk(file, s) && SourceOk(file, src, s) && s.p.DataOut? && s.p.Ok() && s' == Moved(file, s, Acked)
    ensures SourceOk(file, src, s')
  {
    hide ChunksOk, SeqOf, LoadBlock, Raw, ItemOf, Given, Clean;
    MovedPhase(file, s, Acked);
    LastFull(file, s.chunks, s.p.remaining);
    if |s.p.chunk| >= Want(s.p.remaining) {
      SourceLoaded(file, src, s, s', NumAfter(s.p.num), s.p.remaining - |s.p.chunk|);
    }
  }

  lemma ShortNone(size: nat)
    ensures !EndsShort([], size)
  {
  }

  lemma SourceMoves(file: File, src: Source, s: Link, reply: Reply)
    requires SenderOk(file, s) && SourceOk(file, src, s) && !s.p.Over? && s.p.Ok()
    ensures SourceOk(file, src, Moved(file, s, reply))
  {
    hide ChunksOk, SeqOf, LoadBlock, Raw, ItemOf, Given, Clean, EndsShort;
    MovedPhase(file, s, reply);
    var s' := Moved(file, s, reply);
    if reply == Asked && s.p.Asking? {
      RawNone();
      ShortNone(file.size);
      SourceLoaded(file, src, s, s', 1, file.size);
    } else if reply == Acked && s.p.DataOut? {
      SourceAcked(file, src, s, s');
    }
  }

  /** The source's part does not depend on the line or on the receiver. */
  lemma SourceSame(file: File, src: Source, s: Link, s': Link)
    requires s'.chunks == s.chunks && s'.src == s.src && (s'.p == s.p || s'.p.Over?) && s'.closed == s.closed
    ensures SourceOk(file, src, s) ==> SourceOk(file, src, s')
  {
    hide Raw, Given, Clean, EndsShort;
  }

  lemma SourceSent(file: File, src: Source, s: Link, reply: Reply, putOk: bool)
    requires SenderOk(file, s) && SourceOk(file, src, s) && !s.p.Over? && s.p.Ok()
    ensures SourceOk(file, src, SenderNext(file, s, reply, putOk))
  {
    hide SenderOk, SourceOk, ItemOf, OnReply;
    SourceMoves(file, src, s, reply);
    MovedPhase(file, s, reply);
    SourceSame(file, src, Moved(file, s, reply), SenderNext(file, s, reply, putOk));
  }

  lemma SourceStep(file: File, src: Source, s: Link, mv: Move, s': Link)
    requires SenderOk(file, s) && SourceOk(file, src, s) && LinkStep(file, s, mv, s')
    ensures SourceOk(file, src, s')
  {
    hide SenderOk, SourceOk, SenderNext, ReceiverNext;
    match mv {
      case SenderHears(garbled, putOk) =>
        BackOnly(file, s, s.back[1..]);
        SourceSame(file, src, s, s.(back := s.back[1..]));
        SourceSent(file, src, s.(back := s.back[1..]), if garbled then Noise else ReplyOf(s.back[0]), putOk);
      case SenderWaits(reply, putOk) => SourceSent(file, src, s, reply, putOk);
      case ReceiverHears(damaged, puts, sinks) =>
        NextSettles(s.(fwd := s.fwd[1..]), if damaged then Bad else s.fwd[0].item, puts, sinks);
        SourceSame(file, src, s, s');
      case ReceiverWaits(item, puts, sinks) =>
        NextSettles(s, item, puts, sinks);
        SourceSame(file, src, s, s');
      case _ => SourceSame(file, src, s, s');
    }
  }

  lemma SourceStart(file: File, src: Source, room: nat)
    ensures SourceOk(file, src, Begun(src, room))
  {
    RawNone();
    assert [] + Given(src) == Given(src);
  }

  lemma {:induction false} RunSource(file: File, src: Source, room: nat, states: seq<Link>, moves: seq<Move>, n: nat)
    requires NameOk(file) && IsRun(file, src, room, states, moves) && n < |states| && room <= CAPACITY
    ensures SourceOk(file, src, states[n])
  {
    hide Inv, LinkStep, Fits, NameOk, SourceOk, SenderOk;
    if n == 0 {
      SourceStart(file, src, room);
    } else {
      RunSource(file, src, room, states, moves, n - 1);
      RunSafe(file, src, room, states, moves, n - 1);
      InvParts(file, states[n - 1]);
      assert FitStep(file, states[n - 1], moves[n - 1], states[n - 1 + 1]);
      SourceStep(file, src, states[n - 1], moves[n - 1], states[n]);
    }
  }

  // ---- what the sink is given ---------------------------------------------------------------------

  /** The file at its declared size: what the source gives, and padding if that is less. */
  function Expected(file: File, src: Source): (e: seq<bv8>)
    ensures |e| == file.size
  {
    seq(file.size, i requires 0 <= i < file.size => if i < |Given(src)| then Given(src)[i] else CPMEOF)
  }

  /** One piece: what is taken of its block is the next stretch of the file. */
  lemma PieceFits(file: File, src: Source, before: seq<bv8>, c: seq<bv8>, left: nat)
    requires 0 < |c| <= DATA_MAX && |before| + left == file.size && before + c <= Given(src)
    requires |c| < DATA_MAX && |c| < left ==> Given(src) == before + c
    ensures var t := Taken(PadOf(c), true, left);
      Expected(file, src)[..|before|] + t == Expected(file, src)[..|before| + |t|]
  {
    var t, e, g := Taken(PadOf(c), true, left), Expected(file, src), Given(src);
    forall i | 0 <= i < |t|
      ensures t[i] == e[|before| + i]
    {
      if i < |c| {
        assert t[i] == c[i] == (before + c)[|before| + i];
      }
    }
    assert e[..|before| + |t|] == e[..|before|] + e[|before|..|before| + |t|];
  }

  /** After any number of pieces the sink has the beginning of the file, as long as the
      declared size less what remains. */
  lemma {:induction false} StreamFits(file: File, src: Source, chunks: seq<seq<bv8>>, j: nat)
    requires ChunksOk(chunks, file.size) && Raw(chunks) <= Given(src) && j <= |chunks|
    requires EndsShort(chunks, file.size) ==> Raw(chunks) == Given(src)
    ensures LeftOf(file, chunks[..j]) <= file.size
    ensures Written(WritesOf(Carried(chunks[..j]), InfoOf(file))) == Expected(file, src)[..file.size - LeftOf(file, chunks[..j])]
  {
    hide Raw, Given, Expected, WritesOf, RemainingAfter, Carried, PadOf, Taken, LeftOf, Written;
    if j == 0 {
      NoBlocksYet(file, chunks);
      NothingWritten(file);
      assert chunks[..0] == [];
    } else {
      StreamFits(file, src, chunks, j - 1);
      FullSoFar(file, chunks, j - 1);
      var init, c := chunks[..j - 1], chunks[j - 1];
      assert chunks[..j] == init + [c];
      RawMore(init, c);
      LeftMore(file, init, c);
      RawPrefix(chunks, j);
      ShortLast(file, src, chunks, j);
      PieceFits(file, src, Raw(init), c, LeftOf(file, init));
      var t := Taken(PadOf(c), true, LeftOf(file, init));
      WrittenJoin(WritesOf(Carried(init), InfoOf(file)), WriteOf(t));
      WrittenOne(t);
    }
  }

  lemma NothingWritten(file: File)
    ensures Written(WritesOf(Carried([]), InfoOf(file))) == []
  {
  }

  lemma {:induction false} RawPrefix(chunks: seq<seq<bv8>>, j: nat)
    requires j <= |chunks|
    ensures Raw(chunks[..j]) <= Raw(chunks)
    decreases |chunks|
  {
    var n := |chunks| - 1;
    if j <= n {
      RawPrefix(chunks[..n], j);
      assert chunks[..n][..j] == chunks[..j];
    } else {
      assert chunks[..j] == chunks;
    }
  }

  /** Only the last piece can be short of what remains, and then the source has ended. */
  lemma ShortLast(file: File, src: Source, chunks: seq<seq<bv8>>, j: nat)
    requires ChunksOk(chunks, file.size) && 0 < j <= |chunks|
    requires EndsShort(chunks, file.size) ==> Raw(chunks) == Given(src)
    requires |Raw(chunks[..j - 1])| <= file.size
    ensures |chunks[j - 1]| < DATA_MAX && |chunks[j - 1]| < file.size - |Raw(chunks[..j - 1])| ==>
      Given(src) == Raw(chunks[..j - 1] + [chunks[j - 1]])
  {
    hide Raw, Given;
    if |chunks[j - 1]| < DATA_MAX {
      assert j == |chunks|;
      assert chunks == chunks[..j - 1] + [chunks[j - 1]];
    }
  }

  lemma CallsWritten(file: File, chunks: seq<seq<bv8>>, k: nat)
    requires k > 0
    ensures Written(SinkCalls(file, chunks, k)) == Written(WritesOf(Carried(UpTo(chunks, k - 1)), InfoOf(file)))
  {
    hide WritesOf, Carried;
    var b := [Begin(SentName(file.name), file.size)];
    WrittenJoin(b, WritesOf(Carried(UpTo(chunks, k - 1)), InfoOf(file)));
    assert b[..0] == [];
  }

  /** Safety of the composed protocol.  In every reachable state the sink has been given
      the beginning of the file, and the receiver is at the sender's place, before it by
      less than 255, or one past it; a receiver that claims success has been given all of
      it. */
  lemma ProtocolSafe(file: File, src: Source, room: nat, states: seq<Link>, moves: seq<Move>, n: nat)
    requires NameOk(file) && IsRun(file, src, room, states, moves) && n < |states| && room <= CAPACITY
    ensures Written(states[n].calls) <= Expected(file, src)
    ensures states[n].calls != [] ==> states[n].calls[0] == Begin(SentName(file.name), file.size)
    ensures !states[n].q.Ended? ==> states[n].k <= states[n].at + 1 && states[n].at < states[n].k + room
    ensures states[n].q == Ended(Done) ==> Written(states[n].calls) == Expected(file, src)
  {
    hide Inv, NameOk, IsRun;
    RunSafe(file, src, room, states, moves, n);
    RunSource(file, src, room, states, moves, n);
    StateSafe(file, src, states[n]);
  }

  lemma StateSafe(file: File, src: Source, s: Link)
    requires Inv(file, s) && SourceOk(file, src, s)
    ensures Written(s.calls) <= Expected(file, src)
    ensures s.calls != [] ==> s.calls[0] == Begin(SentName(file.name), file.size)
    ensures !s.q.Ended? ==> s.k <= s.at + 1 && s.at < s.k + s.room
    ensures s.q == Ended(Done) ==> Written(s.calls) == Expected(file, src)
  {
    hide SenderOk, FwdOk, LeftOf, WritesOf, Carried, SeqOf, Dups, CsWithin, Raw, Given, Expected;
    SenderChunks(file, s);
    if s.k > 0 {
      CallsWritten(file, s.chunks, s.k);
      var j := if s.k - 1 <= |s.chunks| then s.k - 1 else |s.chunks|;
      assert UpTo(s.chunks, s.k - 1) == s.chunks[..j];
      StreamFits(file, src, s.chunks, j);
      if s.q == Ended(Done) {
        assert s.chunks[..j] == s.chunks;
      }
    }
  }

  /** The file arrives as it is exactly when the source gives as much as was declared. */
  lemma DeliveredIsFile(file: File, src: Source, room: nat, states: seq<Link>, moves: seq<Move>, n: nat)
    requires NameOk(file) && IsRun(file, src, room, states, moves) && n < |states| && room <= CAPACITY && states[n].q == Ended(Done)
    ensures |Given(src)| >= file.size <==> Written(states[n].calls) <= Given(src)
    ensures |Given(src)| >= file.size ==> Written(states[n].calls) == Given(src)[..file.size]
    ensures |Given(src)| < file.size ==>
      Written(states[n].calls) == Given(src) + seq(file.size - |Given(src)|, _ => CPMEOF)
  {
    hide IsRun, NameOk;
    ProtocolSafe(file, src, room, states, moves, n);
  }

  /** When the sender puts a packet only on an empty line, the receiver takes the sender's
      place next or is one past it. */
  lemma LockStep(file: File, src: Source, states: seq<Link>, moves: seq<Move>, n: nat)
    requires NameOk(file) && IsRun(file, src, 1, states, moves) && n < |states| && !states[n].q.Ended?
    ensures states[n].k == states[n].at || states[n].k == states[n].at + 1
  {
    hide IsRun, NameOk;
    ProtocolSafe(file, src, 1, states, moves, n);
  }
}
