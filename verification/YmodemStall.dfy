/** One lost reply that the protocol does not recover from, the ACK of block 0, and exactly
    when it can no longer recover. */
module YmodemStall {
  import opened Thumb
  import opened YmodemWire
  import opened YmodemBlock0
  import opened YmodemReceiver
  import opened YmodemContract
  import opened YmodemSender
  import opened YmodemLink
  import opened YmodemSafety
  import opened YmodemFinish
  import opened YmodemRecvCode

  function HeaderMsg(file: File): Item {
    Block(0, Block0(file.name, file.size))
  }

  /** The ACKs of block 0 that the sender has taken. */
  function Heard(p: Sending): nat {
    if p.Asking? then 1 else 0
  }

  /** The sender needs an ACK of block 0 with a 'C' behind it, or only the 'C' when it has
      the ACK, and neither the line nor the receiver has them to give: no 'C' under way is
      behind an ACK, and the receiver, while it still prompts with 'C', has none of its ACKs
      left to arrive.  Or an end has failed. */
  ghost predicate Stalled(file: File, s: Link) {
    match s.q
    case Ended(r) => r != Done
    case Receiving(_, due, prompt, _, _) =>
      && due == 1 && (prompt == CRC_C || prompt == NAK)
      && (s.p.HeaderOut? || s.p.Asking? || s.p.Over?)
      && (!s.p.Over? ==> CsWithin(s.back, 0 - Heard(s.p)) && (prompt == CRC_C ==> Heard(s.p) + Acks(s.back) == 0))
      && forall i :: 0 <= i < |s.fwd| ==> s.fwd[i].item == HeaderMsg(file)
    case _ => false
  }

  // ---- no way out ---------------------------------------------------------------------------

  lemma StalledSender(file: File, s: Link, reply: Reply, putOk: bool)
    requires !s.p.Over? && s.p.Ok()
    requires Stalled(file, s) || (reply == Acked && s.p.HeaderOut? && Stalled(file, s.(p := Asking(0))))
    requires s.q.Receiving? && s.p.Asking? ==> reply != Asked
    requires s.q.Receiving? && s.p.HeaderOut? && reply == Acked ==> Stalled(file, s.(p := Asking(0)))
    ensures Stalled(file, SenderNext(file, s, reply, putOk)) && SenderNext(file, s, reply, putOk).calls == s.calls
  {
    hide Block0, CsWithin;
    var s' := SenderNext(file, s, reply, putOk);
    if s.q.Receiving? {
      forall i | 0 <= i < |s'.fwd|
        ensures s'.fwd[i].item == HeaderMsg(file)
      {
        if i < |s.fwd| {
          assert s'.fwd[i] == s.fwd[i];
        }
      }
    }
  }

  /** Taking the first reply off the line does not help. */
  lemma StalledTaken(file: File, s: Link, reply: Reply)
    requires Stalled(file, s) && s.back != [] && !s.p.Over? && (reply == Noise || reply == ReplyOf(s.back[0]))
    ensures var s0 := s.(back := s.back[1..]);
      && (Stalled(file, s0) || (reply == Acked && s.p.HeaderOut? && Stalled(file, s0.(p := Asking(0)))))
      && (s.q.Receiving? && s.p.Asking? ==> reply != Asked)
      && (s.q.Receiving? && s.p.HeaderOut? && reply == Acked ==> Stalled(file, s0.(p := Asking(0))))
  {
    hide CsWithin;
    CodesDiffer();
    if s.q.Receiving? {
      CsPop(s.back, 0 - Heard(s.p));
      CsFirst(s.back);
    }
  }

  lemma HeaderAgain(q: Phase, data: seq<bv8>)
    requires q.Receiving? && q.due == 1 && |data| >= BLOCK0_LEN
    ensures On(q, Block(0, data)) == Plan(false, None, Say(ACK), Receiving(0, 1, NAK, q.declared, q.remaining))
  {
  }

  lemma StalledReceiver(file: File, s: Link, fwd: seq<Msg>, item: Item, s': Link)
    requires item == Quiet || item == Bad || item == Stop || item == HeaderMsg(file)
    requires Stalled(file, s) && s.q.Receiving? && fwd == s'.fwd && Settles(s, s', fwd, On(s.q, item))
    requires forall i :: 0 <= i < |fwd| ==> fwd[i].item == HeaderMsg(file)
    ensures Stalled(file, s') && s'.calls == s.calls
  {
    hide Block0, OutBytes, On, CsWithin, Acks;
    if item == HeaderMsg(file) {
      HeaderAgain(s.q, Block0(file.name, file.size));
    } else {
      AfterNothing(s.q, item, s.k);
    }
    var b := if item == HeaderMsg(file) then ACK else if item == Bad then NAK else s.q.prompt;
    SaidOne(s.back, b, true);
    CodesDiffer();
    if !s.p.Over? {
      CsMore(s.back, b, 0 - Heard(s.p));
    }
    assert s.calls + [] == s.calls;
    assert s'.q.Ended? || s'.back == s.back + [b];
  }

  /** Nothing that can happen leads out of it, and the sink gets nothing more. */
  lemma StallKept(file: File, s: Link, mv: Move, s': Link)
    requires Stalled(file, s) && LinkStep(file, s, mv, s')
    ensures Stalled(file, s') && s'.calls == s.calls
  {
    hide Block0, SenderNext, ReceiverNext, On, CsWithin, Acks;
    match mv {
      case SenderHears(garbled, putOk) =>
        var reply := if garbled then Noise else ReplyOf(s.back[0]);
        StalledTaken(file, s, reply);
        StalledSender(file, s.(back := s.back[1..]), reply, putOk);
      case SenderWaits(reply, putOk) => StalledSender(file, s, reply, putOk);
      case ReceiverHears(damaged, puts, sinks) =>
        var item := if damaged then Bad else s.fwd[0].item;
        NextSettles(s.(fwd := s.fwd[1..]), item, puts, sinks);
        assert Settles(s, s', s.fwd[1..], On(s.q, item)) by { SettlesFrom(s, s', On(s.q, item)); }
        StalledReceiver(file, s, s.fwd[1..], item, s');
      case ReceiverWaits(item, puts, sinks) =>
        NextSettles(s, item, puts, sinks);
        StalledReceiver(file, s, s.fwd, item, s');
      case LoseReply(i) =>
        AcksWithout(s.back, i);
        if s.q.Receiving? && !s.p.Over? {
          CsLose(s.back, 0 - Heard(s.p), i);
        }
      case _ =>
    }
  }

  /** No run succeeds from there, whatever the line does from then on, and nothing more is
      written. */
  lemma {:induction false} StallForever(file: File, states: seq<Link>, moves: seq<Move>, n: nat)
    requires |states| == |moves| + 1 && n < |states| && Stalled(file, states[0])
    requires forall i :: 0 <= i < |moves| ==> LinkStep(file, states[i], moves[i], states[i + 1])
    ensures Stalled(file, states[n]) && states[n].q != Ended(Done) && states[n].calls == states[0].calls
  {
    hide LinkStep, HeaderMsg;
    if n > 0 {
      StallForever(file, states, moves, n - 1);
      assert LinkStep(file, states[n - 1], moves[n - 1], states[n - 1 + 1]);
      StallKept(file, states[n - 1], moves[n - 1], states[n]);
    }
  }

  // ---- the way in -----------------------------------------------------------------------------

  predicate FirstAck(back: seq<bv8>, i: nat) {
    i < |back| && back[i] == ACK && forall j :: 0 <= j < i ==> back[j] != ACK
  }

  lemma {:induction false} NoAcks(back: seq<bv8>)
    ensures (forall j :: 0 <= j < |back| ==> back[j] != ACK) <==> Acks(back) == 0
  {
    if back != [] {
      NoAcks(back[1..]);
      assert forall j :: 0 < j < |back| ==> back[j] == back[1..][j - 1];
    }
  }

  /** Without its first ACK the line has one less in front of every 'C' that had one. */
  lemma FirstAckLost(back: seq<bv8>, i: nat)
    requires FirstAck(back, i) && CsWithin(back, 1)
    ensures CsWithin(Without(back, i), 0) && Acks(Without(back, i)) == Acks(back) - 1
  {
    var b := Without(back, i);
    forall j | 0 <= j < |b| && b[j] == CRC_C
      ensures Acks(b[..j]) <= 0
    {
      if j < i {
        assert b[..j] == back[..j];
        NoAcks(back[..j]);
      } else {
        assert b[j] == back[j + 1];
        OneAckLess(back[..j + 1], i);
        assert b[..j] == Without(back[..j + 1], i);
      }
    }
    OneAckLess(back, i);
  }

  lemma OneAckLess(back: seq<bv8>, i: nat)
    requires i < |back| && back[i] == ACK
    ensures Acks(Without(back, i)) == Acks(back) - 1
  {
    var x, y := back[..i], back[i + 1..];
    assert back == x + [back[i]] + y;
    AcksJoin(x + [back[i]], y);
    AcksJoin(x, [back[i]]);
    AcksJoin(x, y);
    AcksOne(back[i]);
  }

  /** What a sender that waits for the ACK of block 0, or for the 'C' behind it, says of the
      rest. */
  lemma EarlyFacts(file: File, s: Link)
    requires YmodemSafety.Inv(file, s) && (s.p.HeaderOut? || s.p.Asking?) && !s.q.Ended?
    ensures s.chunks == [] && s.at == Heard(s.p) && (s.q.Handshake? ==> s.p.HeaderOut?)
    ensures !s.q.Closing? && CsWithin(s.back, 1 - s.at)
    ensures s.q.Receiving? ==> s.k == 1 && s.q.due == 1 && s.q.declared && s.q.remaining == file.size
    ensures s.q.Receiving? ==> (s.q.prompt == CRC_C || s.q.prompt == NAK) && (s.q.prompt == CRC_C ==> s.at + Acks(s.back) <= 1)
    ensures s.q.Receiving? ==> forall i :: 0 <= i < |s.fwd| ==> s.fwd[i].item == HeaderMsg(file)
  {
    hide ChunksOk, SinkCalls, LeftOf, Dups, CsWithin, Raw, Sorted, SeqOf, Block0, Acks;
    FirstNumber();
    NoBlocksYet(file, s.chunks);
    if s.q.Receiving? {
      forall i | 0 <= i < |s.fwd|
        ensures s.fwd[i].item == HeaderMsg(file)
      {
        assert MsgOk(file, s, s.fwd[i]);
      }
    }
  }

  /** In every run, when the first ACK under way is lost or garbled before the sender has
      had one, the transfer is stalled. */
  lemma LossStalls(file: File, src: Source, room: nat, states: seq<Link>, moves: seq<Move>, n: nat)
    requires NameOk(file) && IsRun(file, src, room, states, moves) && n < |moves| && room <= CAPACITY
    requires states[n].p.HeaderOut? && states[n].q.Receiving?
    requires match moves[n]
             case LoseReply(i) => FirstAck(states[n].back, i)
             case SenderHears(garbled, _) => garbled && FirstAck(states[n].back, 0)
             case _ => false
    ensures Stalled(file, states[n + 1])
  {
    hide YmodemSafety.Inv, NameOk, SenderNext, FitStep, CsWithin, Acks, Stalled;
    RunSafe(file, src, room, states, moves, n);
    var s, s' := states[n], states[n + 1];
    assert FitStep(file, s, moves[n], s');
    OneStep(file, s, moves[n], s');
    match moves[n] {
      case LoseReply(i) => AckGone(file, s, i);
      case SenderHears(_, putOk) =>
        AckGone(file, s, 0);
        assert Without(s.back, 0) == s.back[1..];
        StalledSender(file, s.(back := s.back[1..]), Noise, putOk);
      case _ =>
    }
  }

  lemma OneStep(file: File, s: Link, mv: Move, s': Link)
    requires FitStep(file, s, mv, s')
    ensures LinkStep(file, s, mv, s')
  {
    hide LinkStep;
  }

  lemma AckGone(file: File, s: Link, i: nat)
    requires YmodemSafety.Inv(file, s) && s.p.HeaderOut? && s.q.Receiving? && FirstAck(s.back, i)
    ensures Stalled(file, s.(back := Without(s.back, i)))
  {
    hide YmodemSafety.Inv, CsWithin, Acks;
    EarlyFacts(file, s);
    FirstAckLost(s.back, i);
  }

  // ---- the exact condition -----------------------------------------------------------------------

  lemma {:induction false} LosePackets(file: File, s: Link)
    requires CanFinish(file, s.(fwd := []), false)
    ensures CanFinish(file, s, false)
    decreases |s.fwd|
  {
    hide CanFinish;
    if s.fwd == [] {
      assert s == s.(fwd := []);
    } else {
      var s' := s.(fwd := Without(s.fwd, 0));
      assert s'.(fwd := []) == s.(fwd := []);
      LosePackets(file, s');
      FinishStep(file, s, LosePacket(0), s', false);
    }
  }

  /** The replies from a up to b are lost. */
  lemma {:induction false} LoseReplies(file: File, s: Link, a: nat, b: nat)
    requires a <= b <= |s.back| && CanFinish(file, s.(back := s.back[..a] + s.back[b..]), false)
    ensures CanFinish(file, s, false)
    decreases b - a
  {
    hide CanFinish;
    if a == b {
      assert s == s.(back := s.back[..a] + s.back[b..]);
    } else {
      var s' := s.(back := Without(s.back, a));
      assert s'.back[..a] + s'.back[b - 1..] == s.back[..a] + s.back[b..];
      LoseReplies(file, s', a, b - 1);
      FinishStep(file, s, LoseReply(a), s', false);
    }
  }

  /** Only the reply at i is left on the line, and no packet. */
  lemma KeepOne(file: File, s: Link, i: nat)
    requires i < |s.back| && CanFinish(file, s.(fwd := [], back := [s.back[i]]), false)
    ensures CanFinish(file, s, false)
  {
    hide CanFinish;
    LosePackets(file, s.(back := [s.back[i]]));
    var s1 := s.(back := s.back[..i + 1]);
    assert s1.back[..0] + s1.back[i..] == [s.back[i]];
    LoseReplies(file, s1, 0, i);
    assert s.back[..i + 1] + s.back[|s.back|..] == s1.back;
    LoseReplies(file, s, i + 1, |s.back|);
  }

  lemma KeepTwo(file: File, s: Link, i: nat, j: nat)
    requires i < j < |s.back| && CanFinish(file, s.(fwd := [], back := [s.back[i], s.back[j]]), false)
    ensures CanFinish(file, s, false)
  {
    hide CanFinish;
    LosePackets(file, s.(back := [s.back[i], s.back[j]]));
    var s2 := s.(back := s.back[i..j + 1]);
    assert s2.back[..1] + s2.back[j - i..] == [s.back[i], s.back[j]];
    LoseReplies(file, s2, 1, j - i);
    var s1 := s.(back := s.back[..j + 1]);
    assert s1.back[..0] + s1.back[i..] == s2.back;
    LoseReplies(file, s1, 0, i);
    assert s.back[..j + 1] + s.back[|s.back|..] == s1.back;
    LoseReplies(file, s, j + 1, |s.back|);
  }

  lemma KeepNone(file: File, s: Link)
    requires CanFinish(file, s.(fwd := [], back := []), false)
    ensures CanFinish(file, s, false)
  {
    hide CanFinish;
    LosePackets(file, s.(back := []));
    assert s.back[..0] + s.back[|s.back|..] == [];
    LoseReplies(file, s, 0, |s.back|);
  }

  /** Both ends have a try left. */
  predicate Patient(s: Link) {
    && (s.p.HeaderOut? ==> s.p.tries < BLOCK_RETRIES)
    && match s.q
       case Handshake(a) => a < HANDSHAKE_RETRIES
       case Receiving(a, _, _, _, _) => a < BLOCK_RETRIES
       case _ => true
  }

  lemma QuietPrompt(q: Phase)
    requires (q.Handshake? && q.attempts < HANDSHAKE_RETRIES) || (q.Receiving? && q.attempts < BLOCK_RETRIES && q.prompt == CRC_C)
    ensures On(q, Quiet) == Plan(false, None, Say(CRC_C), q.(attempts := q.attempts + 1))
  {
  }

  /** An empty line and a receiver that prompts: after a timeout the 'C' is under way. */
  lemma PromptFinish(file: File, s: Link)
    requires s.fwd == [] && s.back == [] && s.room > 0 && EnoughLeft(file.size, s.src) && NameOk(file) && Patient(s)
    requires (s.p.Greeting? && s.q.Handshake?)
      || (s.p.Asking? && s.q.Receiving? && s.q.prompt == CRC_C && s.q.declared && s.q.due == 1 && s.q.remaining == file.size)
    ensures CanFinish(file, s, false)
  {
    hide CanFinish, EnoughLeft, NameOk, On, OutBytes, FitStep;
    QuietPrompt(s.q);
    BytesSaid(CRC_C, CRC_C, true);
    WaitsClean(file, s);
    var s1 := Settled(s, On(s.q, Quiet));
    assert [] + [CRC_C] == [CRC_C];
    if s.p.Greeting? {
      GreetingFinish(file, s1);
    } else {
      AskedFinish(file, s1);
    }
    SmoothOrNot(file, s1);
    FinishStep(file, s, ReceiverWaits(Quiet, [], []), s1, false);
  }

  /** The receiver has not had block 0: it is put again on an empty line. */
  lemma RepeatFinish(file: File, s: Link)
    requires s.p.HeaderOut? && s.q.Handshake? && s.fwd == [] && s.back == [] && Patient(s)
    requires s.room > 0 && EnoughLeft(file.size, s.src) && NameOk(file)
    ensures CanFinish(file, s, false)
  {
    hide CanFinish, EnoughLeft, NameOk, Block0;
    var s1 := SenderNext(file, s, Silence, true);
    assert s1 == s.(p := HeaderOut(s.p.tries + 1), fwd := [Msg(s.at, HeaderMsg(file))]);
    assert FitStep(file, s, SenderWaits(Silence, true), s1);
    HeaderFinish(file, s1);
    SmoothOrNot(file, s1);
    FinishStep(file, s, SenderWaits(Silence, true), s1, false);
  }

  /** Only the ACK is under way, and the receiver still prompts. */
  lemma AckFinish(file: File, s: Link)
    requires s.p.HeaderOut? && s.fwd == [] && s.back == [ACK] && Patient(s)
    requires s.room > 0 && EnoughLeft(file.size, s.src) && NameOk(file)
    requires s.q.Receiving? && s.q.prompt == CRC_C && s.q.declared && s.q.due == 1 && s.q.remaining == file.size
    ensures CanFinish(file, s, false)
  {
    hide CanFinish, EnoughLeft, NameOk, FitStep;
    CodesDiffer();
    assert s.back[1..] == [];
    AnswersClean(file, s, Acked);
    var s1 := Answered(file, s.(back := []), Acked);
    PromptFinish(file, s1);
    FinishStep(file, s, SenderHears(false, true), s1, false);
  }

  lemma SomeC(back: seq<bv8>, n: int) returns (j: nat)
    requires !CsWithin(back, n)
    ensures j < |back| && back[j] == CRC_C && Acks(back[..j]) > n
  {
    j :| j < |back| && back[j] == CRC_C && Acks(back[..j]) > n;
  }

  lemma SomeAck(back: seq<bv8>) returns (i: nat)
    requires Acks(back) > 0
    ensures i < |back| && back[i] == ACK
  {
    NoAcks(back);
    i :| i < |back| && back[i] == ACK;
  }

  /** A state that is not stalled can still be brought to success. */
  lemma NotStalled(file: File, s: Link)
    requires YmodemSafety.Inv(file, s) && s.q.Receiving? && (s.p.HeaderOut? || s.p.Asking?) && !Stalled(file, s)
    requires s.room > 0 && EnoughLeft(file.size, s.src) && NameOk(file) && Patient(s)
    ensures CanFinish(file, s, false)
  {
    hide YmodemSafety.Inv, CanFinish, EnoughLeft, NameOk, CsWithin, Acks;
    EarlyFacts(file, s);
    if !CsWithin(s.back, 0 - Heard(s.p)) {
      var j := SomeC(s.back, 0 - Heard(s.p));
      if s.p.Asking? {
        AskedFinish(file, s.(fwd := [], back := [CRC_C]));
        SmoothOrNot(file, s.(fwd := [], back := [CRC_C]));
        KeepOne(file, s, j);
      } else {
        var i := SomeAck(s.back[..j]);
        AckedFinish(file, s.(fwd := [], back := [ACK, CRC_C]));
        SmoothOrNot(file, s.(fwd := [], back := [ACK, CRC_C]));
        KeepTwo(file, s, i, j);
      }
    } else if s.p.Asking? {
      PromptFinish(file, s.(fwd := [], back := []));
      KeepNone(file, s);
    } else {
      var i := SomeAck(s.back);
      AckFinish(file, s.(fwd := [], back := [ACK]));
      KeepOne(file, s, i);
    }
  }

  /** While the sender waits for the first 'C' it has put nothing. */
  ghost predicate Alone(s: Link) {
    s.p.Greeting? ==> s.fwd == [] && (s.q.Handshake? || s.q.Ended?) && s.chunks == []
  }

  lemma AloneKept(file: File, s: Link, mv: Move, s': Link)
    requires Alone(s) && FitStep(file, s, mv, s')
    ensures Alone(s')
  {
    hide ReceiverNext, On, OutBytes;
    match mv {
      case ReceiverHears(damaged, puts, sinks) =>
        NextSettles(s.(fwd := s.fwd[1..]), if damaged then Bad else s.fwd[0].item, puts, sinks);
      case ReceiverWaits(item, puts, sinks) =>
        NextSettles(s, item, puts, sinks);
        AfterNothing(s.q, item, s.k);
      case SenderHears(garbled, putOk) => GreetingOnly(s.p, if garbled then Noise else ReplyOf(s.back[0]), file, s.src);
      case SenderWaits(reply, putOk) => GreetingOnly(s.p, reply, file, s.src);
      case _ =>
    }
  }

  lemma GreetingOnly(p: Sending, reply: Reply, file: File, src: Source)
    requires !p.Over? && p.Ok()
    ensures OnReply(p, reply, file, src).0.Greeting? ==> p.Greeting?
  {
    hide FillBlock;
  }

  lemma {:induction false} RunAlone(file: File, src: Source, room: nat, states: seq<Link>, moves: seq<Move>, n: nat)
    requires IsRun(file, src, room, states, moves) && n < |states|
    ensures Alone(states[n])
  {
    hide FitStep, Alone;
    if n > 0 {
      RunAlone(file, src, room, states, moves, n - 1);
      assert FitStep(file, states[n - 1], moves[n - 1], states[n - 1 + 1]);
      AloneKept(file, states[n - 1], moves[n - 1], states[n]);
    } else {
      AloneFirst(src, room);
    }
  }

  lemma AloneFirst(src: Source, room: nat)
    ensures Alone(Begun(src, room))
  {
  }

  lemma StalledNever(file: File, s: Link)
    requires Stalled(file, s)
    ensures !CanFinish(file, s, false)
  {
    hide LinkStep, Stalled;
    if states: seq<Link>, moves: seq<Move> :| EndsWell(file, s, false, states, moves) {
      forall i | 0 <= i < |moves|
        ensures LinkStep(file, states[i], moves[i], states[i + 1])
      {
        assert FitStep(file, states[i], moves[i], states[i + 1]);
      }
      StallForever(file, states, moves, |moves|);
    }
  }

  lemma StillGiven(file: File, src: Source, s: Link)
    requires SourceOk(file, src, s) && s.chunks == [] && (s.p.Greeting? || s.p.HeaderOut? || s.p.Asking?)
    ensures EnoughLeft(file.size, s.src) <==> EnoughLeft(file.size, src)
  {
    hide PaddedLen, EndsShort;
    RawNone();
    assert [] + Given(s.src) == Given(s.src);
  }

  /** Up to the first data block, and while both ends have a try left, a transfer whose
      source gives enough can still succeed exactly when it is not stalled. */
  lemma RecoversIff(file: File, src: Source, room: nat, states: seq<Link>, moves: seq<Move>, n: nat)
    requires NameOk(file) && IsRun(file, src, room, states, moves) && n < |states| && room <= CAPACITY
    requires states[n].p.Greeting? || states[n].p.HeaderOut? || states[n].p.Asking?
    requires !states[n].q.Ended? && Patient(states[n]) && EnoughLeft(file.size, src)
    ensures CanFinish(file, states[n], false) <==> !Stalled(file, states[n])
  {
    hide YmodemSafety.Inv, NameOk, IsRun, Stalled, CanFinish, EnoughLeft, SourceOk;
    RunSafe(file, src, room, states, moves, n);
    RunSource(file, src, room, states, moves, n);
    RunAlone(file, src, room, states, moves, n);
    var s := states[n];
    assert room > 0 by { RoomSome(file, src, room, states, moves); }
    if Stalled(file, s) {
      StalledNever(file, s);
    } else if s.p.Greeting? {
      StillGiven(file, src, s);
      PromptFinish(file, s.(fwd := [], back := []));
      KeepNone(file, s);
    } else {
      EarlyFacts(file, s);
      StillGiven(file, src, s);
      if s.q.Handshake? {
        RepeatFinish(file, s.(fwd := [], back := []));
        KeepNone(file, s);
      } else {
        NotStalled(file, s);
      }
    }
  }

  lemma RoomSome(file: File, src: Source, room: nat, states: seq<Link>, moves: seq<Move>)
    requires IsRun(file, src, room, states, moves)
    ensures room > 0
  {
  }

  // ---- a run that gets there ----------------------------------------------------------------------

  /** The states up to the loss of the ACK of block 0. */
  function StallStates(file: File, src: Source): seq<Link> {
    var begin := [Begin(SentName(file.name), file.size)];
    var wait := Receiving(0, 1, CRC_C, true, file.size);
    [Begun(src, 1),
     Link(HeaderOut(0), src, Handshake(0), [Msg(0, HeaderMsg(file))], [], [], [], 0, 0, false, false, 1),
     Link(HeaderOut(0), src, wait, [], [ACK, CRC_C], begin, [], 0, 1, false, false, 1),
     Link(HeaderOut(0), src, wait, [], [CRC_C], begin, [], 0, 1, false, false, 1)]
  }

  function StallMoves(): seq<Move> {
    [SenderHears(false, true), ReceiverHears(false, [], []), LoseReply(0)]
  }

  lemma HeaderArrives(file: File, src: Source)
    requires NameOk(file)
    ensures FitStep(file, StallStates(file, src)[1], ReceiverHears(false, [], []), StallStates(file, src)[2])
  {
    hide Block0, On, OutBytes, SentName, FitStep;
    var states := StallStates(file, src);
    HeaderPlan(file, 0);
    BytesSaid(ACK, CRC_C, true);
    assert states[1].fwd[1..] == [] && [] + [ACK, CRC_C] == [ACK, CRC_C] && [] + [states[2].calls[0]] == states[2].calls;
    HearsClean(file, states[1]);
  }

  /** It is reached whatever the file, though the sender never puts a packet before the line
      is empty. */
  lemma LostAckStalls(file: File, src: Source)
    requires NameOk(file)
    ensures IsRun(file, src, 1, StallStates(file, src), StallMoves())
    ensures Stalled(file, StallStates(file, src)[3])
  {
    hide Block0, ReceiverNext, SentName;
    var states, moves := StallStates(file, src), StallMoves();
    CodesDiffer();
    assert [CRC_C][1..] == [];
    AnswersClean(file, states[0], Asked);
    HeaderArrives(file, src);
    assert Without([ACK, CRC_C], 0) == [CRC_C];
    assert FitStep(file, states[2], moves[2], states[3]);
    AcksOne(CRC_C);
    assert CsWithin([CRC_C], 0) by { assert [CRC_C][..0] == []; }
  }
}
