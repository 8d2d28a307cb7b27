/** The sender as a machine: what it does with each reply, what it reads of the source and
    puts on the line, and the whole run of a send over any input. */
module YmodemSender {
  import opened Thumb
  import opened YmodemWire
  import opened YmodemBlock0
  import opened YmodemReceiver

  // ---- replies ---------------------------------------------------------------------------

  /** What one wait brings: an ACK, a 'C', the end (an abort or two CANs), nothing in
      time, or anything else.  A single CAN takes the next event with it. */
  datatype Reply = Acked | Asked | Halt | Silence | Noise

  function NextReply(input: Input): (r: (Reply, Input))
    ensures |r.1| <= |input| && (input != [] ==> |r.1| < |input|)
    ensures input == [] ==> r.0 == Silence
  {
    var rest := Rest(input);
    match First(input)
    case TimedOut => (Silence, rest)
    case Aborted => (Halt, rest)
    case Got(b) =>
      if b == ACK then (Acked, rest)
      else if b == CRC_C then (Asked, rest)
      else if b == CAN then (if First(rest) == Got(CAN) then Halt else Noise, Rest(rest))
      else (Noise, rest)
  }

  // ---- the source -------------------------------------------------------------------------

  /** What the reads of the source will give: a piece of the file or, absent, a fault.  A
      read takes no more than it asked for; an empty piece, or no more pieces, is the end. */
  type Source = seq<Option<seq<bv8>>>

  function ReadSome(src: Source, want: nat): (Option<seq<bv8>>, Source)
    requires want > 0
  {
    if src == [] then (Some([]), [])
    else if src[0].None? then (None, src[1..])
    else
      var c := src[0].value;
      if |c| <= want then (Some(c), src[1..]) else (Some(c[..want]), [Some(c[want..])] + src[1..])
  }

  /** Reads until `want` bytes are there, the source ends or it fails. */
  function FillBlock(src: Source, want: nat): (r: (Option<seq<bv8>>, Source))
    ensures r.0.Some? ==> |r.0.value| <= want
    decreases want
  {
    if want == 0 then (Some([]), src)
    else
      var (got, rest) := ReadSome(src, want);
      if got.None? then (None, rest)
      else if got.value == [] then (Some([]), rest)
      else
        var (more, after) := FillBlock(rest, want - |got.value|);
        (if more.None? then None else Some(got.value + more.value), after)
  }

  // ---- what is on the line ---------------------------------------------------------------------

  /** A short last block is padded, and sent as a small block when it fits one. */
  function Padded(chunk: seq<bv8>): (data: seq<bv8>)
    requires |chunk| <= DATA_MAX
    ensures |data| == (if |chunk| <= BLOCK0_LEN then BLOCK0_LEN else DATA_MAX) && data[..|chunk|] == chunk
  {
    chunk + seq((if |chunk| <= BLOCK0_LEN then BLOCK0_LEN else DATA_MAX) - |chunk|, _ => CPMEOF)
  }

  function KindOf(data: seq<bv8>): bv8 {
    if |data| == BLOCK0_LEN then SOH else STX
  }

  /** What the sender waits for.  `chunk` is what block `num` carries, `remaining` what was
      still to be sent before it. */
  datatype Sending =
    | Greeting(tries: nat)
    | HeaderOut(tries: nat)
    | Asking(tries: nat)
    | DataOut(tries: nat, num: bv8, chunk: seq<bv8>, remaining: nat)
    | EotOut(tries: nat)
    | AskingClose(tries: nat)
    | NullOut(tries: nat)
    | Over(result: Result)
  {
    /** Something was put on the line, and will be again if it is not acknowledged. */
    predicate Out() {
      HeaderOut? || DataOut? || EotOut? || NullOut?
    }

    predicate Ok() {
      DataOut? ==> 0 < |chunk| <= DATA_MAX && |chunk| <= remaining
    }
  }

  function WithTries(p: Sending, t: nat): Sending {
    match p
    case Greeting(_) => Greeting(t)
    case HeaderOut(_) => HeaderOut(t)
    case Asking(_) => Asking(t)
    case DataOut(_, num, chunk, remaining) => DataOut(t, num, chunk, remaining)
    case EotOut(_) => EotOut(t)
    case AskingClose(_) => AskingClose(t)
    case NullOut(_) => NullOut(t)
    case Over(_) => p
  }

  datatype FileId = FileId(name: seq<bv8>, size: nat)

  type File = f: FileId | f.size <= U32_MAX witness FileId([], 0)

  function NullBlock(): seq<bv8> {
    Zeros(BLOCK0_LEN)
  }

  function Packet(p: Sending, file: File): seq<bv8>
    requires p.Out() && p.Ok()
  {
    match p
    case HeaderOut(_) => Frame(SOH, 0, Block0(file.name, file.size))
    case DataOut(_, num, chunk, _) => Frame(KindOf(Padded(chunk)), num, Padded(chunk))
    case EotOut(_) => [EOT]
    case NullOut(_) => Frame(SOH, 0, NullBlock())
  }

  // ---- one reply ----------------------------------------------------------------------------------

  function Want(remaining: nat): nat {
    if remaining < DATA_MAX then remaining else DATA_MAX
  }

  /** Block `num`, or the end of the file. */
  function LoadBlock(num: bv8, remaining: nat, src: Source): (r: (Sending, Source))
    ensures r.0.Ok()
    ensures r.0.DataOut? ==> r.0.remaining == remaining && r.0.num == num && r.0.tries == 0
  {
    if remaining == 0 then (EotOut(0), src)
    else
      var (got, rest) := FillBlock(src, Want(remaining));
      if got.None? then (Over(ErrSource), rest)
      else if got.value == [] then (EotOut(0), rest)
      else (DataOut(0, num, got.value, remaining), rest)
  }

  /** The block is through. */
  function AfterBlock(p: Sending, src: Source): (r: (Sending, Source))
    requires p.DataOut? && p.Ok()
    ensures r.0.Ok()
  {
    if |p.chunk| < Want(p.remaining) then (EotOut(0), src)
    else LoadBlock(NumAfter(p.num), p.remaining - |p.chunk|, src)
  }

  function Again(p: Sending): Sending
    requires p.Out() || p.Greeting? || p.Asking? || p.AskingClose?
  {
    var limit := if p.Greeting? then HANDSHAKE_RETRIES else BLOCK_RETRIES;
    if p.tries + 1 > limit then Over(ErrTimeout) else WithTries(p, p.tries + 1)
  }

  function Advance(p: Sending, file: File, src: Source): (r: (Sending, Source))
    requires !p.Over? && p.Ok()
    ensures r.0.Ok()
  {
    match p
    case Greeting(_) => (HeaderOut(0), src)
    case HeaderOut(_) => (Asking(0), src)
    case Asking(_) => LoadBlock(1, file.size, src)
    case DataOut(_, _, _, _) => AfterBlock(p, src)
    case EotOut(_) => (AskingClose(0), src)
    case AskingClose(_) => (NullOut(0), src)
    case NullOut(_) => (Over(Done), src)
  }

  /** Where a reply takes the sender.  While it waits for a 'C' only timeouts count as
      tries; while it waits for an ACK everything else does. */
  function OnReply(p: Sending, reply: Reply, file: File, src: Source): (r: (Sending, Source))
    requires !p.Over? && p.Ok()
    ensures r.0.Ok()
  {
    if reply == Halt then (Over(ErrCancel), src)
    else if p.Out() then (if reply == Acked then Advance(p, file, src) else (Again(p), src))
    else if reply == Asked then Advance(p, file, src)
    else if reply == Silence then (Again(p), src)
    else (p, src)
  }

  // ---- the run --------------------------------------------------------------------------------------

  datatype SWorld = SWorld(input: Input, puts: seq<bool>, sent: seq<seq<bv8>>, source: Source)

  function SPut(w: SWorld, p: seq<bv8>): SWorld {
    w.(puts := Later(w.puts), sent := w.sent + [p])
  }

  /** Puts what the phase has on the line. */
  function Transmit(p: Sending, file: File, w: SWorld): (Sending, SWorld)
    requires p.Ok()
  {
    if !p.Out() then (p, w)
    else (if Takes(w.puts) then p else Over(ErrIo), SPut(w, Packet(p, file)))
  }

  function SStep(p: Sending, file: File, w: SWorld): (r: (Sending, SWorld))
    requires !p.Over? && p.Ok()
    ensures r.0.Ok()
  {
    var (reply, rest) := NextReply(w.input);
    var (p', src) := OnReply(p, reply, file, w.source);
    Transmit(p', file, w.(input := rest, source := src))
  }

  function Stage(p: Sending): nat {
    match p
    case Greeting(_) => 7
    case HeaderOut(_) => 6
    case Asking(_) => 5
    case DataOut(_, _, _, _) => 4
    case EotOut(_) => 3
    case AskingClose(_) => 2
    case NullOut(_) => 1
    case Over(_) => 0
  }

  function StillToSend(p: Sending): nat {
    if p.DataOut? then p.remaining else 0
  }

  function TriesLeft(p: Sending): nat {
    match p
    case Over(_) => 0
    case Greeting(t) => if t <= HANDSHAKE_RETRIES then HANDSHAKE_RETRIES - t + 1 else 0
    case _ => if p.tries <= BLOCK_RETRIES then BLOCK_RETRIES - p.tries + 1 else 0
  }

  ghost predicate Smaller(p': Sending, input': Input, p: Sending, input: Input) {
    if Stage(p') != Stage(p) then Stage(p') < Stage(p)
    else if StillToSend(p') != StillToSend(p) then StillToSend(p') < StillToSend(p)
    else if |input'| != |input| then |input'| < |input|
    else TriesLeft(p') < TriesLeft(p)
  }

  /** Every reply brings the sender nearer to its end: a later phase, less to send, less
      input, or fewer tries left. */
  lemma SStepProgress(p: Sending, file: File, w: SWorld)
    requires !p.Over? && p.Ok()
    ensures Smaller(SStep(p, file, w).0, SStep(p, file, w).1.input, p, w.input)
  {
    hide NextReply, Packet, FillBlock;
    var (reply, rest) := NextReply(w.input);
    if w.input == [] && !p.Greeting? && !p.Asking? && !p.AskingClose? {
      assert p.Out();
    }
  }

  /** The run from a phase to its end. */
  function SRun(p: Sending, file: File, w: SWorld): (Result, SWorld)
    requires p.Ok()
    decreases Stage(p), StillToSend(p), |w.input|, TriesLeft(p)
  {
    if p.Over? then (p.result, w)
    else
      SStepProgress(p, file, w);
      var (p', w') := SStep(p, file, w);
      SRun(p', file, w')
  }

  /** A whole send, and a cancel after every failure. */
  function Send(file: File, w: SWorld): (Result, SWorld) {
    var (r, w') := SRun(Greeting(0), file, w);
    (r, if r == Done then w' else SPut(w', CANCEL))
  }

  // ---- how much is put on the line ----------------------------------------------------------------

  function BlocksFor(remaining: nat): nat {
    (remaining + DATA_MAX - 1) / DATA_MAX
  }

  function Resends(tries: nat): nat {
    if tries <= BLOCK_RETRIES then BLOCK_RETRIES - tries else 0
  }

  /** The most packets that can still be put: eleven of each one to come. */
  function Budget(p: Sending, file: File): nat
    requires p.Ok()
  {
    var each := BLOCK_RETRIES + 1;
    match p
    case Greeting(_) => each * (BlocksFor(file.size) + 3)
    case HeaderOut(t) => Resends(t) + each * (BlocksFor(file.size) + 2)
    case Asking(_) => each * (BlocksFor(file.size) + 2)
    case DataOut(t, _, _, remaining) => Resends(t) + each * (BlocksFor(remaining) + 1)
    case EotOut(t) => Resends(t) + each
    case AskingClose(_) => each
    case NullOut(t) => Resends(t)
    case Over(_) => 0
  }

  lemma BlocksLess(remaining: nat, sent: nat)
    requires 0 < sent <= remaining && (sent == DATA_MAX || sent == remaining)
    ensures BlocksFor(remaining - sent) + 1 <= BlocksFor(remaining)
  {
  }

  lemma BlocksSome(remaining: nat)
    requires remaining > 0
    ensures BlocksFor(remaining) >= 1
  {
  }

  /** What the next phase puts at once, and what it may put after that. */
  function Cost(p: Sending, file: File): nat
    requires p.Ok()
  {
    Budget(p, file) + (if p.Out() then 1 else 0)
  }

  lemma LoadCost(num: bv8, remaining: nat, file: File, src: Source)
    ensures Cost(LoadBlock(num, remaining, src).0, file) <= (BLOCK_RETRIES + 1) * (BlocksFor(remaining) + 2)
  {
    hide FillBlock;
  }

  lemma BlockCost(p: Sending, file: File, src: Source)
    requires p.DataOut? && p.Ok()
    ensures Cost(AfterBlock(p, src).0, file) <= Budget(p, file)
  {
    hide LoadBlock, NumAfter, BlocksFor;
    BlocksSome(p.remaining);
    if |p.chunk| >= Want(p.remaining) {
      BlocksLess(p.remaining, |p.chunk|);
      LoadCost(NumAfter(p.num), p.remaining - |p.chunk|, file, src);
    }
  }

  lemma ReplyCost(p: Sending, reply: Reply, file: File, src: Source)
    requires !p.Over? && p.Ok()
    ensures Cost(OnReply(p, reply, file, src).0, file) <= Budget(p, file)
  {
    hide LoadBlock, AfterBlock, BlocksFor;
    if p.DataOut? {
      BlockCost(p, file, src);
    } else if p.Asking? {
      LoadCost(1, file.size, file, src);
    }
  }

  lemma StepCost(p: Sending, file: File, w: SWorld)
    requires !p.Over? && p.Ok()
    ensures |SStep(p, file, w).1.sent| + Budget(SStep(p, file, w).0, file) <= |w.sent| + Budget(p, file)
  {
    hide NextReply, OnReply, Packet, BlocksFor;
    var (reply, rest) := NextReply(w.input);
    ReplyCost(p, reply, file, w.source);
  }

  lemma {:induction false} RunCost(p: Sending, file: File, w: SWorld)
    requires p.Ok()
    ensures |SRun(p, file, w).1.sent| <= |w.sent| + Budget(p, file)
    decreases Stage(p), StillToSend(p), |w.input|, TriesLeft(p)
  {
    hide SStep, Budget, Stage, StillToSend, TriesLeft;
    if !p.Over? {
      SStepProgress(p, file, w);
      StepCost(p, file, w);
      var (p', w') := SStep(p, file, w);
      RunCost(p', file, w');
    }
  }

  /** Whatever arrives, a send puts no more than eleven packets for every block of the file,
      for block 0, for EOT and for the closing block, and one cancel. */
  lemma TransmissionsBounded(file: File, w: SWorld)
    ensures |Send(file, w).1.sent| <= |w.sent| + (BLOCK_RETRIES + 1) * (BlocksFor(file.size) + 3) + 1
  {
    hide SRun, BlocksFor;
    RunCost(Greeting(0), file, w);
  }
}
