/** Sender and receiver joined by a line that may delay, lose and visibly damage what it
    carries, in either direction. */
module YmodemLink {
  import opened Thumb
  import opened YmodemWire
  import opened YmodemBlock0
  import opened YmodemReceiver
  import opened YmodemContract
  import opened YmodemSender

  // ---- what the line carries ----------------------------------------------------------------

  /** What the receiver reads when the packet arrives whole. */
  function ItemOf(p: Sending, file: File): Item
    requires p.Out() && p.Ok()
  {
    match p
    case HeaderOut(_) => Block(0, Block0(file.name, file.size))
    case DataOut(_, num, chunk, _) => Block(num, Padded(chunk))
    case EotOut(_) => FileEnd
    case NullOut(_) => Block(0, NullBlock())
  }

  /** A packet on the line is read as its item, and nothing behind it is touched. */
  lemma PacketIsItem(p: Sending, file: File, rest: Input)
    requires p.Out() && p.Ok()
    ensures NextItem(Bytes(Packet(p, file)) + rest) == (ItemOf(p, file), rest)
  {
    hide NextItem, Frame, Block0, Padded, Zeros;
    match p {
      case HeaderOut(_) => FrameIsRead(SOH, 0, Block0(file.name, file.size), rest);
      case DataOut(_, num, chunk, _) => FrameIsRead(KindOf(Padded(chunk)), num, Padded(chunk), rest);
      case EotOut(_) =>
        assert Bytes([EOT]) == [Got(EOT)];
        EotIsRead(rest);
      case NullOut(_) => FrameIsRead(SOH, 0, NullBlock(), rest);
    }
  }

  function ReplyOf(b: bv8): Reply {
    if b == ACK then Acked else if b == CRC_C then Asked else Noise
  }

  /** A reply of the receiver is read as what it is. */
  lemma ReplyIsRead(b: bv8, rest: Input)
    requires b == ACK || b == NAK || b == CRC_C
    ensures NextReply([Got(b)] + rest) == (ReplyOf(b), rest)
  {
    assert ([Got(b)] + rest)[1..] == rest;
  }

  // ---- the joined machine ---------------------------------------------------------------------

  /** A packet under way.  `idx` is its place in the file: 0 for block 0, k for data block
      k, and two more for EOT and the closing block.  No step depends on it. */
  datatype Msg = Msg(idx: nat, item: Item)

  /** The two machines and the two directions of the line.  The rest records what
      happened: the sink's calls, the pieces of the file that were sent, the places that
      sender (`at`) and receiver (`k`: the place it takes next) have reached, and whether
      an EOT and a closing block were sent.  `room` is the most that may be under way when
      the sender has put a packet. */
  datatype Link = Link(
    p: Sending, src: Source,
    q: Phase,
    fwd: seq<Msg>, back: seq<bv8>,
    calls: seq<Call>,
    chunks: seq<seq<bv8>>, at: nat, k: nat, closed: bool, nul: bool,
    room: nat)

  /** What happens next.  A reply that is garbled is noise to the sender; a damaged packet
      is a bad block to the receiver. */
  datatype Move =
    | SenderHears(garbled: bool, putOk: bool)
    | SenderWaits(reply: Reply, putOk: bool)
    | ReceiverHears(damaged: bool, puts: seq<bool>, sinks: seq<bool>)
    | ReceiverWaits(item: Item, puts: seq<bool>, sinks: seq<bool>)
    | LosePacket(i: nat)
    | LoseReply(i: nat)

  function Without<T>(s: seq<T>, i: nat): seq<T>
    requires i < |s|
  {
    s[..i] + s[i + 1..]
  }

  function SenderNext(file: File, s: Link, reply: Reply, putOk: bool): Link
    requires !s.p.Over? && s.p.Ok()
  {
    var (p, src) := OnReply(s.p, reply, file, s.src);
    var at := if s.p.Out() && reply == Acked then s.at + 1 else s.at;
    s.(p := if p.Out() && !putOk then Over(ErrIo) else p,
       src := src,
       fwd := if p.Out() then s.fwd + [Msg(at, ItemOf(p, file))] else s.fwd,
       chunks := if p.DataOut? && p.tries == 0 then s.chunks + [p.chunk] else s.chunks,
       at := at,
       closed := s.closed || p.EotOut?,
       nul := s.nul || p.NullOut?)
  }

  function Flat(sent: seq<seq<bv8>>): seq<bv8> {
    if sent == [] then [] else Flat(sent[..|sent| - 1]) + sent[|sent| - 1]
  }

  /** The place the receiver takes next. */
  function PlaceAfter(q: Phase, next: Phase, k: nat): nat {
    match q
    case Handshake(_) => if next.Receiving? then 1 else k
    case Receiving(_, due, _, _, _) => if next.Closing? || (next.Receiving? && next.due != due) then k + 1 else k
    case Closing(_) => if next == Ended(Done) then k + 1 else k
    case Ended(_) => k
  }

  function ReceiverNext(s: Link, item: Item, puts: seq<bool>, sinks: seq<bool>): Link
    requires !s.q.Ended? && (item.Block? ==> |item.data| >= BLOCK0_LEN)
  {
    var plan := On(s.q, item);
    var (q, w) := Act(plan, World([], puts, [], sinks, s.calls));
    s.(q := q, calls := w.calls, back := s.back + Flat(w.sent), k := PlaceAfter(s.q, plan.next, s.k))
  }

  predicate Readable(item: Item) {
    item.Block? ==> |item.data| >= BLOCK0_LEN
  }

  ghost predicate LinkStep(file: File, s: Link, mv: Move, s': Link) {
    match mv
    case SenderHears(garbled, putOk) =>
      && !s.p.Over? && s.p.Ok() && s.back != []
      && s' == SenderNext(file, s.(back := s.back[1..]), if garbled then Noise else ReplyOf(s.back[0]), putOk)
    case SenderWaits(reply, putOk) =>
      && !s.p.Over? && s.p.Ok() && (reply == Silence || reply == Noise || reply == Halt)
      && s' == SenderNext(file, s, reply, putOk)
    case ReceiverHears(damaged, puts, sinks) =>
      && !s.q.Ended? && s.fwd != [] && Readable(s.fwd[0].item)
      && s' == ReceiverNext(s.(fwd := s.fwd[1..]), if damaged then Bad else s.fwd[0].item, puts, sinks)
    case ReceiverWaits(item, puts, sinks) =>
      && !s.q.Ended? && (item == Quiet || item == Bad || item == Stop)
      && s' == ReceiverNext(s, item, puts, sinks)
    case LosePacket(i) => i < |s.fwd| && s' == s.(fwd := Without(s.fwd, i))
    case LoseReply(i) => i < |s.back| && s' == s.(back := Without(s.back, i))
  }

  /** Both ends before their first wait; the receiver has put its first prompt. */
  function Begun(src: Source, room: nat): Link {
    Link(Greeting(0), src, Handshake(0), [], [CRC_C], [], [], 0, 0, false, false, room)
  }

  /** The most packets and replies under way that the number byte can cope with. */
  const CAPACITY: nat := 255

  /** Where the sender put a packet, no more than `room` packets and replies are under way.
      With a room of 1 it puts one only on an empty line. */
  ghost predicate Fits(s: Link, s': Link) {
    |s'.fwd| > |s.fwd| ==> |s'.fwd| + |s'.back| <= s'.room
  }

  ghost predicate FitStep(file: File, s: Link, mv: Move, s': Link) {
    LinkStep(file, s, mv, s') && Fits(s, s')
  }

  ghost predicate IsPath(file: File, states: seq<Link>, moves: seq<Move>) {
    && |states| == |moves| + 1
    && forall i :: 0 <= i < |moves| ==> FitStep(file, states[i], moves[i], states[i + 1])
  }

  /** A run over a line on which the sender keeps to `room`. */
  ghost predicate IsRun(file: File, src: Source, room: nat, states: seq<Link>, moves: seq<Move>) {
    room > 0 && IsPath(file, states, moves) && states[0] == Begun(src, room)
  }

  // ---- replies under way --------------------------------------------------------------------

  function Acks(back: seq<bv8>): nat {
    if back == [] then 0 else (if back[0] == ACK then 1 else 0) + Acks(back[1..])
  }

  /** Every 'C' under way has at most n ACKs before it; none when n is negative. */
  ghost predicate CsWithin(back: seq<bv8>, n: int) {
    forall i :: 0 <= i < |back| && back[i] == CRC_C ==> Acks(back[..i]) <= n
  }

  lemma {:induction false} AcksJoin(x: seq<bv8>, y: seq<bv8>)
    ensures Acks(x + y) == Acks(x) + Acks(y)
    decreases |x|
  {
    if x == [] {
      assert x + y == y;
    } else {
      assert (x + y)[1..] == x[1..] + y;
      AcksJoin(x[1..], y);
    }
  }

  lemma AcksOne(b: bv8)
    ensures Acks([b]) == if b == ACK then 1 else 0
  {
    assert [b][1..] == [];
  }

  lemma AcksWithout(back: seq<bv8>, i: nat)
    requires i < |back|
    ensures Acks(Without(back, i)) <= Acks(back) <= |back|
  {
    hide Acks;
    var x, y := back[..i], back[i + 1..];
    assert back == x + [back[i]] + y;
    AcksJoin(x + [back[i]], y);
    AcksJoin(x, [back[i]]);
    AcksJoin(x, y);
    AcksSome(back);
  }

  lemma {:induction false} AcksSome(back: seq<bv8>)
    ensures Acks(back) <= |back|
    decreases |back|
  {
    if back != [] {
      AcksSome(back[1..]);
    }
  }

  lemma CsPop(back: seq<bv8>, n: int)
    requires back != [] && CsWithin(back, n)
    ensures CsWithin(back[1..], if back[0] == ACK then n - 1 else n)
  {
    forall i | 0 <= i < |back[1..]| && back[1..][i] == CRC_C
      ensures Acks(back[1..][..i]) <= if back[0] == ACK then n - 1 else n
    {
      assert back[i + 1] == CRC_C;
      assert back[..i + 1][1..] == back[1..][..i];
    }
  }

  lemma CsLose(back: seq<bv8>, n: int, i: nat)
    requires i < |back| && CsWithin(back, n)
    ensures CsWithin(Without(back, i), n)
  {
    var b := Without(back, i);
    forall j | 0 <= j < |b| && b[j] == CRC_C
      ensures Acks(b[..j]) <= n
    {
      if j < i {
        assert b[j] == back[j] && b[..j] == back[..j];
      } else {
        assert b[j] == back[j + 1] && b[..j] == Without(back[..j + 1], i);
        AcksWithout(back[..j + 1], i);
      }
    }
  }

  /** More at the end: a further 'C' only where it is allowed. */
  lemma CsMore(back: seq<bv8>, b: bv8, n: int)
    requires CsWithin(back, n) && (b == CRC_C ==> Acks(back) <= n)
    ensures CsWithin(back + [b], n)
  {
    var more := back + [b];
    forall i | 0 <= i < |more| && more[i] == CRC_C
      ensures Acks(more[..i]) <= n
    {
      if i < |back| {
        assert more[i] == back[i] && more[..i] == back[..i];
      } else {
        assert more[..i] == back;
      }
    }
  }

  // ---- packets under way ----------------------------------------------------------------------

  /** How many of the packets, taken in order by a receiver that takes place k next, are
      repetitions that it will only acknowledge. */
  function Dups(fwd: seq<Msg>, k: nat): nat {
    if fwd == [] then 0
    else if fwd[0].idx + 1 == k then 1 + Dups(fwd[1..], k)
    else if fwd[0].idx == k then Dups(fwd[1..], k + 1)
    else 0
  }

  ghost predicate Sorted(fwd: seq<Msg>) {
    forall i, j :: 0 <= i < j < |fwd| ==> fwd[i].idx <= fwd[j].idx
  }

  ghost predicate From(fwd: seq<Msg>, k: nat) {
    forall i :: 0 <= i < |fwd| ==> k <= fwd[i].idx + 1
  }

  /** One more packet is one more repetition only when all before it will be taken and it
      is the last place taken: then the line holds everything that will be acknowledged. */
  lemma {:induction false} DupsMore(fwd: seq<Msg>, m: Msg, k: nat)
    ensures Dups(fwd + [m], k) <= Dups(fwd, k) || m.idx - k + Dups(fwd + [m], k) == |fwd|
    decreases |fwd|
  {
    if fwd == [] {
      assert [m][1..] == [];
      assert Dups([m], k) == if m.idx + 1 == k then 1 else 0;
    } else {
      assert (fwd + [m])[1..] == fwd[1..] + [m];
      DupsMore(fwd[1..], m, k);
      DupsMore(fwd[1..], m, k + 1);
    }
  }

  lemma DupsLater(fwd: seq<Msg>, k: nat)
    requires Sorted(fwd) && From(fwd, k + 1)
    ensures Dups(fwd, k) <= Dups(fwd, k + 1)
  {
  }

  lemma TailKeeps(fwd: seq<Msg>, k: nat)
    requires fwd != [] && Sorted(fwd) && From(fwd, k)
    ensures Sorted(fwd[1..]) && From(fwd[1..], k) && (fwd[0].idx == k ==> From(fwd[1..], k + 1))
  {
    forall i | 0 <= i < |fwd| - 1
      ensures k <= fwd[1..][i].idx + 1 && (fwd[0].idx == k ==> k + 1 <= fwd[1..][i].idx + 1)
    {
      assert fwd[1..][i] == fwd[i + 1];
      assert fwd[0].idx <= fwd[i + 1].idx;
    }
  }

  lemma DupsFirst(fwd: seq<Msg>, k: nat)
    requires fwd != [] && Sorted(fwd) && From(fwd, k)
    ensures Dups(fwd[1..], k) <= Dups(fwd, k)
  {
    TailKeeps(fwd, k);
    var rest := fwd[1..];
    if fwd[0].idx == k {
      DupsLater(rest, k);
    } else if fwd[0].idx + 1 != k && rest != [] {
      assert rest[0] == fwd[1] && fwd[0].idx <= fwd[1].idx;
    }
  }

  /** A packet lost is never one repetition more. */
  lemma {:induction false} DupsLose(fwd: seq<Msg>, i: nat, k: nat)
    requires i < |fwd| && Sorted(fwd) && From(fwd, k)
    ensures Dups(Without(fwd, i), k) <= Dups(fwd, k)
    decreases |fwd|
  {
    hide Sorted, From;
    if i == 0 {
      assert Without(fwd, 0) == fwd[1..];
      DupsFirst(fwd, k);
    } else {
      assert Without(fwd, i)[1..] == Without(fwd[1..], i - 1) && Without(fwd, i)[0] == fwd[0];
      TailKeeps(fwd, k);
      if fwd[0].idx + 1 == k {
        DupsLose(fwd[1..], i - 1, k);
      } else if fwd[0].idx == k {
        DupsLose(fwd[1..], i - 1, k + 1);
      }
    }
  }
}
