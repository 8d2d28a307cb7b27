/** Which transfers can succeed: exactly those whose source gives enough bytes, where the
    padding of its last block counts as bytes given. */
module YmodemFinish {
  import opened Thumb
  import opened YmodemWire
  import opened YmodemBlock0
  import opened YmodemReceiver
  import opened YmodemContract
  import opened YmodemSender
  import opened YmodemLink
  import opened YmodemSafety

  // ---- how long the padding makes it -------------------------------------------------------

  /** The bytes of the blocks that carry n bytes of a file. */
  function PaddedLen(n: nat): nat {
    if n == 0 then 0
    else (n - 1) / DATA_MAX * DATA_MAX + (if (n - 1) % DATA_MAX < BLOCK0_LEN then BLOCK0_LEN else DATA_MAX)
  }

  /** n bytes of the declared size can still be had from the source. */
  predicate EnoughLeft(n: nat, src: Source) {
    |Given(src)| >= n || (Clean(src) && PaddedLen(|Given(src)|) >= n)
  }

  lemma PadBlocks(m: nat, n: nat)
    requires 0 < n <= DATA_MAX
    ensures PaddedLen(DATA_MAX * m + n) == DATA_MAX * m + if n <= BLOCK0_LEN then BLOCK0_LEN else DATA_MAX
  {
    assert (DATA_MAX * m + n - 1) / DATA_MAX == m && (DATA_MAX * m + n - 1) % DATA_MAX == n - 1;
  }

  lemma PadStep(n: nat)
    ensures n >= DATA_MAX ==> PaddedLen(n) == DATA_MAX + PaddedLen(n - DATA_MAX)
  {
  }

  lemma PadMore(m: nat, n: nat)
    requires m <= n
    ensures m <= PaddedLen(m) <= PaddedLen(n)
  {
  }

  /** The blocks of the pieces use up the declared size only when their padded length does. */
  lemma UsedUp(file: File, chunks: seq<seq<bv8>>)
    requires ChunksOk(chunks, file.size)
    ensures LeftOf(file, chunks) == 0 <==> PaddedLen(|Raw(chunks)|) >= file.size
  {
    hide LeftOf, PadOf, ChunksOk, PaddedLen;
    var n := |chunks| - 1;
    if chunks == [] {
      NoBlocksYet(file, chunks);
      RawNone();
      assert chunks[..0] == chunks;
      PadMore(0, 0);
      NoBytes();
    } else {
      FullSoFar(file, chunks, n);
      assert chunks == chunks[..n] + [chunks[n]];
      LeftMore(file, chunks[..n], chunks[n]);
      LastPiece(file, chunks);
      PadBlocks(n, |chunks[n]|);
      TakenAll(chunks[n], LeftOf(file, chunks[..n]));
    }
  }

  lemma NoBytes()
    ensures PaddedLen(0) == 0
  {
  }

  lemma LastPiece(file: File, chunks: seq<seq<bv8>>)
    requires ChunksOk(chunks, file.size) && chunks != []
    ensures 0 < |chunks[|chunks| - 1]| <= DATA_MAX
    ensures |Raw(chunks)| == |Raw(chunks[..|chunks| - 1])| + |chunks[|chunks| - 1]|
  {
  }

  lemma TakenAll(c: seq<bv8>, left: nat)
    requires 0 < |c| <= DATA_MAX
    ensures |PadOf(c)| == if |c| <= BLOCK0_LEN then BLOCK0_LEN else DATA_MAX
    ensures |Taken(PadOf(c), true, left)| == if left < |PadOf(c)| then left else |PadOf(c)|
  {
  }

  /** Success in any run, whatever the line did, means the padded source was enough. */
  lemma SuccessNeeds(file: File, src: Source, room: nat, states: seq<Link>, moves: seq<Move>, n: nat)
    requires NameOk(file) && IsRun(file, src, room, states, moves) && n < |states| && room <= CAPACITY
    requires states[n].q == Ended(Done)
    ensures EnoughLeft(file.size, src)
  {
    hide YmodemSafety.Inv, IsRun, NameOk, SourceOk;
    RunSafe(file, src, room, states, moves, n);
    RunSource(file, src, room, states, moves, n);
    DoneNeeds(file, src, states[n]);
  }

  lemma DoneNeeds(file: File, src: Source, s: Link)
    requires YmodemSafety.Inv(file, s) && SourceOk(file, src, s) && s.q == Ended(Done)
    ensures EnoughLeft(file.size, src)
  {
    hide SenderOk, FwdOk, LeftOf, SinkCalls, LineOk, Raw, Given, Clean, PaddedLen, ChunksOk;
    SenderChunks(file, s);
    UsedUp(file, s.chunks);
    PadMore(|Raw(s.chunks)|, |Given(src)|);
  }

  // ---- paths that end well -------------------------------------------------------------------

  /** Everything arrives, and every put succeeds. */
  predicate Smooth(mv: Move) {
    mv == SenderHears(false, true) || mv == ReceiverHears(false, [], [])
  }

  ghost predicate EndsWell(file: File, s: Link, smooth: bool, states: seq<Link>, moves: seq<Move>) {
    && IsPath(file, states, moves) && states[0] == s && states[|moves|].q == Ended(Done)
    && (smooth ==> forall i :: 0 <= i < |moves| ==> Smooth(moves[i]))
  }

  /** The line can still behave so that the receiver ends in success; without a fault or a
      timeout, if asked for. */
  ghost predicate CanFinish(file: File, s: Link, smooth: bool) {
    exists states, moves :: EndsWell(file, s, smooth, states, moves)
  }

  lemma Finished(file: File, s: Link)
    requires s.q == Ended(Done)
    ensures CanFinish(file, s, true)
  {
    assert EndsWell(file, s, true, [s], []);
  }

  lemma FinishStep(file: File, s: Link, mv: Move, s': Link, smooth: bool)
    requires FitStep(file, s, mv, s') && CanFinish(file, s', smooth) && (smooth ==> Smooth(mv))
    ensures CanFinish(file, s, smooth)
  {
    hide FitStep;
    var states, moves :| EndsWell(file, s', smooth, states, moves);
    var states', moves' := [s] + states, [mv] + moves;
    forall i | 0 <= i < |moves'|
      ensures FitStep(file, states'[i], moves'[i], states'[i + 1])
    {
      if i > 0 {
        assert FitStep(file, states[i - 1], moves[i - 1], states[i - 1 + 1]);
      }
    }
    assert EndsWell(file, s, smooth, states', moves');
  }

  lemma SmoothOrNot(file: File, s: Link)
    requires CanFinish(file, s, true)
    ensures CanFinish(file, s, false)
  {
    hide IsPath;
    var states, moves :| EndsWell(file, s, true, states, moves);
    assert EndsWell(file, s, false, states, moves);
  }

  // ---- steps without a fault ------------------------------------------------------------------

  lemma {:induction false} EmitClean(outs: seq<Out>, next: Phase, w: World)
    requires w.puts == []
    ensures var (q, w') := Emit(outs, next, w);
      q == next && w'.calls == w.calls && Flat(w'.sent) == Flat(w.sent) + OutBytes(outs)
    decreases |outs|
  {
    hide Flat;
    if outs == [] {
      assert Flat(w.sent) + [] == Flat(w.sent);
    } else {
      FlatMore(w.sent, [outs[0].b]);
      EmitClean(outs[1..], next, Put(w, [outs[0].b]));
      assert Flat(w.sent) + [outs[0].b] + OutBytes(outs[1..]) == Flat(w.sent) + ([outs[0].b] + OutBytes(outs[1..]));
    }
  }

  /** The receiver carries the plan out. */
  function Settled(s: Link, plan: Plan): Link {
    s.(q := plan.next, calls := s.calls + (if plan.call.Some? then [plan.call.value] else []),
       back := s.back + OutBytes(plan.outs), k := PlaceAfter(s.q, plan.next, s.k))
  }

  lemma NextClean(s: Link, item: Item)
    requires !s.q.Ended? && Readable(item)
    ensures ReceiverNext(s, item, [], []) == Settled(s, On(s.q, item))
  {
    hide On, Flat, Emit, PlaceAfter, OutBytes;
    var plan := On(s.q, item);
    var w := World([], [], [], [], s.calls);
    var w1 := if plan.drain then w.(input := Drain(w.input, DISCARD_MAX)) else w;
    EmitClean(plan.outs, plan.next, w1);
    if plan.call.Some? {
      EmitClean(plan.outs, plan.next, CallSink(w1, plan.call.value));
    }
    FlatNone();
    assert [] + OutBytes(plan.outs) == OutBytes(plan.outs);
    assert s.calls + [] == s.calls;
  }

  /** The first packet arrives. */
  lemma HearsClean(file: File, s: Link)
    requires !s.q.Ended? && s.fwd != [] && Readable(s.fwd[0].item)
    ensures FitStep(file, s, ReceiverHears(false, [], []), Settled(s.(fwd := s.fwd[1..]), On(s.q, s.fwd[0].item)))
  {
    hide On, ReceiverNext, OutBytes, PlaceAfter;
    NextClean(s.(fwd := s.fwd[1..]), s.fwd[0].item);
  }

  lemma WaitsClean(file: File, s: Link)
    requires !s.q.Ended?
    ensures FitStep(file, s, ReceiverWaits(Quiet, [], []), Settled(s, On(s.q, Quiet)))
  {
    hide On, ReceiverNext, OutBytes, PlaceAfter;
    NextClean(s, Quiet);
  }

  /** What the sender makes of a reply when its puts succeed. */
  function Answered(file: File, s: Link, reply: Reply): Link
    requires !s.p.Over? && s.p.Ok()
  {
    SenderNext(file, s, reply, true)
  }

  /** The first reply arrives. */
  lemma AnswersClean(file: File, s: Link, reply: Reply)
    requires !s.p.Over? && s.p.Ok() && s.back != [] && ReplyOf(s.back[0]) == reply
    requires Answered(file, s.(back := s.back[1..]), reply).p.Out() ==> |s.fwd| + |s.back| <= s.room
    ensures FitStep(file, s, SenderHears(false, true), Answered(file, s.(back := s.back[1..]), reply))
  {
    hide OnReply, ItemOf;
  }

  lemma BytesSaid(b: bv8, c: bv8, checked: bool)
    ensures OutBytes([Out(b, checked)]) == [b] && OutBytes(Say(b) + Say(c)) == [b, c]
  {
    assert [Out(b, checked)][1..] == [];
    assert (Say(b) + Say(c))[1..] == Say(c) && Say(c)[1..] == [];
  }

  // ---- the end of the file ---------------------------------------------------------------------

  lemma NullReadable()
    ensures |NullBlock()| == BLOCK0_LEN
  {
  }

  lemma NullFinish(file: File, s: Link)
    requires s.p.NullOut? && s.q.Closing? && s.fwd == [Msg(s.at, Block(0, NullBlock()))]
    ensures CanFinish(file, s, true)
  {
    hide On, NullBlock, OutBytes;
    ClosingPlans(s.q.attempts);
    assert Readable(s.fwd[0].item) by { NullReadable(); }
    HearsClean(file, s);
    Finished(file, Settled(s.(fwd := s.fwd[1..]), On(s.q, s.fwd[0].item)));
    FinishStep(file, s, ReceiverHears(false, [], []), Settled(s.(fwd := s.fwd[1..]), On(s.q, s.fwd[0].item)), true);
  }

  lemma CloseFinish(file: File, s: Link)
    requires s.p == AskingClose(0) && s.q.Closing? && s.fwd == [] && s.back == [CRC_C] && s.room > 0
    ensures CanFinish(file, s, true)
  {
    hide NullBlock;
    CodesDiffer();
    assert s.back[1..] == [];
    AnswersClean(file, s, Asked);
    NullFinish(file, Answered(file, s.(back := []), Asked));
    FinishStep(file, s, SenderHears(false, true), Answered(file, s.(back := []), Asked), true);
  }

  lemma EotFinish(file: File, s: Link)
    requires s.p.EotOut? && s.fwd == [Msg(s.at, FileEnd)] && s.back == [] && s.room > 0
    requires s.q.Receiving? && s.q.declared && s.q.remaining == 0
    ensures CanFinish(file, s, true)
  {
    hide On, OutBytes;
    EndPlan(s.q);
    BytesSaid(ACK, CRC_C, true);
    CodesDiffer();
    assert s.fwd[1..] == [];
    HearsClean(file, s);
    var s1 := Settled(s.(fwd := []), On(s.q, FileEnd));
    assert s1.back == [ACK, CRC_C] && s1.back[1..] == [CRC_C];
    AnswersClean(file, s1, Acked);
    var s2 := Answered(file, s1.(back := [CRC_C]), Acked);
    CloseFinish(file, s2);
    FinishStep(file, s1, SenderHears(false, true), s2, true);
    FinishStep(file, s, ReceiverHears(false, [], []), s1, true);
  }

  // ---- the data -----------------------------------------------------------------------------------

  /** A block just loaded, and what the source still has, are enough for what remained. */
  predicate ChunkEnough(chunk: seq<bv8>, remaining: nat, rest: Source) {
    if |chunk| < Want(remaining) then PaddedLen(|chunk|) >= remaining
    else |chunk| <= remaining && EnoughLeft(remaining - |chunk|, rest)
  }

  lemma LoadEnough(num: bv8, n: nat, src: Source)
    requires n > 0 && EnoughLeft(n, src)
    ensures var (p, rest) := LoadBlock(num, n, src);
      p.DataOut? && p.Ok() && ChunkEnough(p.chunk, n, rest)
  {
    hide Given, Clean, FillBlock, PaddedLen;
    var want := Want(n);
    NoBytes();
    FillGiven(src, want);
    if |Given(src)| >= want {
      FillFull(src, want);
      PadStep(|Given(src)|);
    } else {
      FillAll(src, want);
    }
  }

  predicate Continues(p: Sending, p': Sending, left: nat, rest: Source)
    requires p.DataOut?
  {
    && p'.DataOut? && p'.Ok() && p'.tries == 0 && p'.num == NumAfter(p.num)
    && p'.remaining == left < p.remaining && ChunkEnough(p'.chunk, left, rest)
  }

  /** What an acknowledged block leads to: the next one, or the end of the file. */
  lemma AfterEnough(p: Sending, src: Source)
    requires p.DataOut? && p.Ok() && ChunkEnough(p.chunk, p.remaining, src)
    ensures var (p', rest) := AfterBlock(p, src);
      var left := p.remaining - |Taken(Padded(p.chunk), true, p.remaining)|;
      if left == 0 then p' == EotOut(0) else Continues(p, p', left, rest)
  {
    hide Given, Clean, PaddedLen, LoadBlock, NumAfter;
    TakenAll(p.chunk, p.remaining);
    PadBlocks(0, |p.chunk|);
    var left := p.remaining - |p.chunk|;
    if |p.chunk| >= Want(p.remaining) {
      if left == 0 {
        NothingLeft(NumAfter(p.num), src);
      } else {
        LoadEnough(NumAfter(p.num), left, src);
      }
    }
  }

  /** The packets of a fault-free exchange under way, from the block on the line. */
  ghost predicate Flowing(s: Link) {
    && s.p.DataOut? && s.p.Ok() && s.back == [] && s.room > 0
    && s.fwd == [Msg(s.at, Block(s.p.num, Padded(s.p.chunk)))]
    && s.q.Receiving? && s.q.declared && s.q.due == s.p.num && s.q.remaining == s.p.remaining
  }

  /** The block arrives, and its ACK. */
  function Onward(file: File, s: Link): (Link, Link)
    requires s.p.DataOut? && s.p.Ok() && s.q.Receiving? && s.fwd != [] && Readable(s.fwd[0].item)
  {
    var s1 := Settled(s.(fwd := []), On(s.q, s.fwd[0].item));
    (s1, Answered(file, s1.(back := []), Acked))
  }

  lemma OneBlock(file: File, s: Link)
    requires Flowing(s) && Readable(s.fwd[0].item)
    ensures var (s1, s2) := Onward(file, s);
      && FitStep(file, s, ReceiverHears(false, [], []), s1) && FitStep(file, s1, SenderHears(false, true), s2)
      && s2.back == [] && s2.room > 0 && s2.p == AfterBlock(s.p, s.src).0 && s2.src == AfterBlock(s.p, s.src).1
      && (s2.p.Out() ==> s2.fwd == [Msg(s2.at, ItemOf(s2.p, file))])
      && s2.q == Receiving(0, NumAfter(s.p.num), NAK, true, s.p.remaining - |Taken(Padded(s.p.chunk), true, s.p.remaining)|)
  {
    hide On, OutBytes, Padded, Taken, NumAfter, NumBefore, AfterBlock, ItemOf, FitStep;
    assert s.fwd[1..] == [];
    NumbersMove(s.p.num);
    DuePlan(s.q, Padded(s.p.chunk));
    BytesSaid(ACK, ACK, true);
    CodesDiffer();
    HearsClean(file, s);
    var s1 := Onward(file, s).0;
    assert [] + [ACK] == [ACK] && [ACK][1..] == [];
    assert s1.back == [ACK];
    AnswersClean(file, s1, Acked);
  }

  /** From a block on the line to the receiver's success. */
  lemma {:induction false} DataFinish(file: File, s: Link)
    requires Flowing(s) && ChunkEnough(s.p.chunk, s.p.remaining, s.src)
    ensures CanFinish(file, s, true)
    decreases s.p.remaining
  {
    hide Padded, Taken, NumAfter, AfterBlock, FitStep, CanFinish, ChunkEnough, Onward;
    var (s1, s2) := Onward(file, s);
    OneBlock(file, s);
    AfterEnough(s.p, s.src);
    if s2.p.DataOut? {
      DataFinish(file, s2);
    } else {
      EotFinish(file, s2);
    }
    FinishStep(file, s1, SenderHears(false, true), s2, true);
    FinishStep(file, s, ReceiverHears(false, [], []), s1, true);
  }

  // ---- the beginning ----------------------------------------------------------------------------------

  /** The receiver has block 0 and the sender is about to see the 'C' for the data. */
  lemma AskedFinish(file: File, s: Link)
    requires s.p.Asking? && s.fwd == [] && s.back == [CRC_C] && s.room > 0 && EnoughLeft(file.size, s.src)
    requires s.q.Receiving? && s.q.declared && s.q.due == 1 && s.q.remaining == file.size
    ensures CanFinish(file, s, true)
  {
    hide Padded, LoadBlock, FitStep, CanFinish, EnoughLeft;
    CodesDiffer();
    assert s.back[1..] == [];
    var s1 := Answered(file, s.(back := []), Asked);
    AnswersClean(file, s, Asked);
    if file.size == 0 {
      NothingLeft(1, s.src);
      EotFinish(file, s1);
    } else {
      LoadEnough(1, file.size, s.src);
      DataFinish(file, s1);
    }
    FinishStep(file, s, SenderHears(false, true), s1, true);
  }

  /** Block 0 is acknowledged and the 'C' is under way behind it. */
  lemma AckedFinish(file: File, s: Link)
    requires s.p.HeaderOut? && s.fwd == [] && s.back == [ACK, CRC_C] && s.room > 0 && EnoughLeft(file.size, s.src)
    requires s.q.Receiving? && s.q.declared && s.q.due == 1 && s.q.remaining == file.size
    ensures CanFinish(file, s, true)
  {
    hide FitStep, CanFinish, EnoughLeft;
    CodesDiffer();
    assert s.back[1..] == [CRC_C];
    AnswersClean(file, s, Acked);
    AskedFinish(file, Answered(file, s.(back := [CRC_C]), Acked));
    FinishStep(file, s, SenderHears(false, true), Answered(file, s.(back := [CRC_C]), Acked), true);
  }

  /** Block 0 on an empty line. */
  lemma HeaderFinish(file: File, s: Link)
    requires s.p.HeaderOut? && s.back == [] && s.room > 0 && EnoughLeft(file.size, s.src) && NameOk(file)
    requires s.q.Handshake? && s.fwd == [Msg(s.at, Block(0, Block0(file.name, file.size)))]
    ensures CanFinish(file, s, true)
  {
    hide FitStep, CanFinish, EnoughLeft, Block0, On, OutBytes;
    HeaderPlan(file, s.q.attempts);
    BytesSaid(ACK, CRC_C, true);
    assert s.fwd[1..] == [];
    HearsClean(file, s);
    var s1 := Settled(s.(fwd := []), On(s.q, s.fwd[0].item));
    assert [] + [ACK, CRC_C] == [ACK, CRC_C];
    AckedFinish(file, s1);
    FinishStep(file, s, ReceiverHears(false, [], []), s1, true);
  }

  /** The first 'C' is under way. */
  lemma GreetingFinish(file: File, s: Link)
    requires s.p.Greeting? && s.back == [CRC_C] && s.fwd == [] && s.room > 0 && EnoughLeft(file.size, s.src) && NameOk(file)
    requires s.q.Handshake?
    ensures CanFinish(file, s, true)
  {
    hide FitStep, CanFinish, EnoughLeft, Block0;
    CodesDiffer();
    assert s.back[1..] == [];
    AnswersClean(file, s, Asked);
    HeaderFinish(file, Answered(file, s.(back := []), Asked));
    FinishStep(file, s, SenderHears(false, true), Answered(file, s.(back := []), Asked), true);
  }

  ghost predicate RunSucceeds(file: File, src: Source, room: nat, states: seq<Link>, moves: seq<Move>, n: nat) {
    IsRun(file, src, room, states, moves) && n < |states| && states[n].q == Ended(Done)
  }

  /** A transfer can succeed exactly when the source gives the declared size, or comes to
      its end without a fault and the padding of its last block makes up for the rest; and
      then it does when nothing goes wrong. */
  lemma SucceedsIff(file: File, src: Source, room: nat)
    requires NameOk(file) && 0 < room <= CAPACITY
    ensures (exists states, moves, n :: RunSucceeds(file, src, room, states, moves, n)) <==> EnoughLeft(file.size, src)
    ensures CanFinish(file, Begun(src, room), true) <==> EnoughLeft(file.size, src)
  {
    hide EnoughLeft, NameOk, IsPath;
    if EnoughLeft(file.size, src) {
      GreetingFinish(file, Begun(src, room));
    }
    if CanFinish(file, Begun(src, room), true) {
      var states, moves :| EndsWell(file, Begun(src, room), true, states, moves);
      assert |states| == |moves| + 1 by { PathLength(file, states, moves); }
      assert RunSucceeds(file, src, room, states, moves, |moves|);
    }
    if states: seq<Link>, moves: seq<Move>, n: nat :| RunSucceeds(file, src, room, states, moves, n) {
      SuccessNeeds(file, src, room, states, moves, n);
    }
  }

  lemma PathLength(file: File, states: seq<Link>, moves: seq<Move>)
    requires IsPath(file, states, moves)
    ensures |states| == |moves| + 1
  {
  }

  /** So a source that is short can be reported as received: here one of 129 bytes for a
      file announced with 130.  What is delivered is padded. */
  lemma ShortSucceeds(name: seq<bv8>, g: seq<bv8>) returns (states: seq<Link>, moves: seq<Move>, n: nat)
    requires |g| == 129 && forall i :: 0 <= i < |name| ==> name[i] != 0
    ensures IsRun(FileId(name, 130), [Some(g)], 1, states, moves) && n < |states| && states[n].q == Ended(Done)
    ensures Given([Some(g)]) == g && Written(states[n].calls) == g + [CPMEOF]
  {
    hide IsRun;
    var file: File, src: Source := FileId(name, 130), [Some(g)];
    assert src[1..] == [] && g + [] == g;
    assert Given(src) == g && Clean(src);
    PadBlocks(0, 129);
    assert EnoughLeft(130, src) && NameOk(file);
    SucceedsIff(file, src, 1);
    states, moves, n :| RunSucceeds(file, src, 1, states, moves, n);
    DeliveredIsFile(file, src, 1, states, moves, n);
    assert seq(1, _ => CPMEOF) == [CPMEOF];
  }
}
