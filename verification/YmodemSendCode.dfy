/** The sender as the firmware runs it: one staging buffer with header, data and check,
    and loops that resend until an ACK.  It does what the machine says. */
module YmodemSendCode {
  import opened Thumb
  import opened Crc16
  import opened YmodemWire
  import opened YmodemBlock0
  import opened YmodemReceiver
  import opened YmodemSender

  const HDR: nat := 3

  /** The line and the source that the caller provides. */
  class SHost {
    var w: SWorld

    constructor (world: SWorld)
      ensures w == world
    {
      w := world;
    }

    method Getc() returns (e: Event)
      modifies this
      ensures e == First(old(w.input)) && w == old(w).(input := Rest(old(w.input)))
    {
      e := First(w.input);
      w := w.(input := Rest(w.input));
    }

    method PutAll(p: seq<bv8>) returns (ok: bool)
      modifies this
      ensures ok == Takes(old(w.puts)) && w == SPut(old(w), p)
    {
      ok := Takes(w.puts);
      w := SPut(w, p);
    }

    method Read(want: nat) returns (got: Option<seq<bv8>>)
      requires want > 0
      modifies this
      ensures (got, w.source) == ReadSome(old(w.source), want) && w == old(w).(source := w.source)
    {
      var (g, rest) := ReadSome(w.source, want);
      got := g;
      w := w.(source := rest);
    }
  }

  // ---- one reply of the run ---------------------------------------------------------------

  function SRunOn(pw: (Sending, SWorld), file: File): (Result, SWorld)
    requires pw.0.Ok()
  {
    SRun(pw.0, file, pw.1)
  }

  /** On with the run: what the new phase has to put is put, and then it waits. */
  function Go(next: (Sending, Source), file: File, w: SWorld): (Result, SWorld)
    requires next.0.Ok()
  {
    SRunOn(Transmit(next.0, file, w.(source := next.1)), file)
  }

  lemma SRunStep(p: Sending, file: File, w: SWorld, reply: Reply, rest: Input)
    requires !p.Over? && p.Ok() && NextReply(w.input) == (reply, rest)
    ensures SRun(p, file, w) == Go(OnReply(p, reply, file, w.source), file, w.(input := rest))
  {
    hide NextReply, OnReply, Transmit;
  }

  lemma GoOver(r: Result, file: File, w: SWorld)
    ensures Go((Over(r), w.source), file, w) == (r, w)
  {
  }

  /** A phase with something on the line: it is put, or the run ends. */
  lemma GoOut(p: Sending, file: File, w: SWorld)
    requires p.Ok() && p.Out()
    ensures Go((p, w.source), file, w) ==
      if Takes(w.puts) then SRun(p, file, SPut(w, Packet(p, file))) else (ErrIo, SPut(w, Packet(p, file)))
  {
    hide Packet;
  }

  lemma GoWaiting(p: Sending, file: File, w: SWorld)
    requires p.Ok() && !p.Out()
    ensures Go((p, w.source), file, w) == SRun(p, file, w)
  {
  }

  /** What a reply means to a phase that waits for an ACK. */
  lemma OutReply(p: Sending, file: File, w: SWorld, reply: Reply, rest: Input)
    requires p.Ok() && p.Out() && p.tries <= BLOCK_RETRIES && NextReply(w.input) == (reply, rest)
    ensures var w' := w.(input := rest);
      SRun(p, file, w) ==
        if reply == Halt then (ErrCancel, w')
        else if reply == Acked then Go(Advance(p, file, w.source), file, w')
        else if p.tries + 1 > BLOCK_RETRIES then (ErrTimeout, w')
        else Go((WithTries(p, p.tries + 1), w.source), file, w')
  {
    hide NextReply, SRun, Go, Advance;
    SRunStep(p, file, w, reply, rest);
    GoOver(ErrCancel, file, w.(input := rest));
    GoOver(ErrTimeout, file, w.(input := rest));
  }

  /** What a reply means to a phase that waits for a 'C'. */
  lemma AskReply(p: Sending, file: File, w: SWorld, reply: Reply, rest: Input)
    requires (p.Greeting? || p.Asking? || p.AskingClose?) && NextReply(w.input) == (reply, rest)
    ensures var w' := w.(input := rest);
      SRun(p, file, w) ==
        if reply == Halt then (ErrCancel, w')
        else if reply == Asked then Go(Advance(p, file, w.source), file, w')
        else if reply != Silence then SRun(p, file, w')
        else if p.tries + 1 > (if p.Greeting? then HANDSHAKE_RETRIES else BLOCK_RETRIES) then (ErrTimeout, w')
        else SRun(WithTries(p, p.tries + 1), file, w')
  {
    hide NextReply, SRun, Go, Advance;
    var w' := w.(input := rest);
    SRunStep(p, file, w, reply, rest);
    GoOver(ErrCancel, file, w');
    GoOver(ErrTimeout, file, w');
    GoWaiting(p, file, w');
    GoWaiting(WithTries(p, p.tries + 1), file, w');
  }

  // ---- the code -----------------------------------------------------------------------------

  function Repeated(p: seq<bv8>, n: nat): seq<seq<bv8>> {
    if n == 0 then [] else Repeated(p, n - 1) + [p]
  }

  class Sender {
    const host: SHost
    const block: array<bv8>

    constructor (h: SHost)
      ensures host == h && block.Length == HDR + DATA_MAX + 2 && fresh(block)
    {
      host := h;
      block := new bv8[HDR + DATA_MAX + 2];
    }

    /** One wait.  A CAN is only the end when a second follows at once. */
    method Wait() returns (reply: Reply)
      modifies host
      ensures (reply, host.w.input) == NextReply(old(host.w.input))
      ensures host.w == old(host.w).(input := host.w.input)
    {
      var e := host.Getc();
      match e {
        case TimedOut => reply := Silence;
        case Aborted => reply := Halt;
        case Got(b) =>
          if b == ACK {
            reply := Acked;
          } else if b == CRC_C {
            reply := Asked;
          } else if b == CAN {
            var second := host.Getc();
            reply := if second == Got(CAN) then Halt else Noise;
          } else {
            reply := Noise;
          }
      }
    }

    /** Puts a packet until it is acknowledged, eleven times at most. */
    method PutUntilAck(packet: seq<bv8>, ghost p: Sending, ghost file: File) returns (r: Result)
      requires p.Ok() && p.Out() && p.tries == 0 && packet == Packet(p, file)
      modifies host
      ensures host.w.source == old(host.w.source)
      ensures Go((p, old(host.w.source)), file, old(host.w)) ==
        if r == Done then Go(Advance(p, file, host.w.source), file, host.w) else (r, host.w)
      ensures exists n :: 1 <= n <= BLOCK_RETRIES + 1 && host.w.sent == old(host.w.sent) + Repeated(packet, n)
    {
      hide SRun, Go, Packet, Advance, NextReply;
      ghost var w0, start, n := host.w, Go((p, host.w.source), file, host.w), 0;
      var attempts := 0;
      while true
        invariant attempts == n <= BLOCK_RETRIES && host.w.source == w0.source
        invariant start == Go((WithTries(p, attempts), host.w.source), file, host.w)
        invariant host.w.sent == w0.sent + Repeated(packet, n)
        decreases BLOCK_RETRIES + 1 - attempts
      {
        ghost var now := WithTries(p, attempts);
        SamePacket(p, attempts, file);
        GoOut(now, file, host.w);
        var ok := host.PutAll(packet);
        n := n + 1;
        assert host.w.sent == w0.sent + Repeated(packet, n);
        if !ok {
          return ErrIo;
        }
        ghost var w := host.w;
        var reply := Wait();
        OutReply(now, file, w, reply, host.w.input);
        SameAdvance(p, attempts, file, w.source);
        if reply == Acked {
          return Done;
        }
        if reply == Halt {
          return ErrCancel;
        }
        attempts := attempts + 1;
        if attempts > BLOCK_RETRIES {
          return ErrTimeout;
        }
      }
    }

    /** Frames the len bytes of data in the buffer and sends them as one block. */
    method SendBlock(kind: bv8, num: bv8, len: nat, ghost p: Sending, ghost file: File) returns (r: Result)
      requires block.Length == HDR + DATA_MAX + 2 && len <= DATA_MAX
      requires p.Ok() && p.Out() && p.tries == 0 && Packet(p, file) == Frame(kind, num, block[HDR..HDR + len])
      modifies host, block
      ensures host.w.source == old(host.w.source)
      ensures Go((p, old(host.w.source)), file, old(host.w)) ==
        if r == Done then Go(Advance(p, file, host.w.source), file, host.w) else (r, host.w)
      ensures exists n :: 1 <= n <= BLOCK_RETRIES + 1 && host.w.sent == old(host.w.sent) + Repeated(Packet(p, file), n)
    {
      hide Packet, Go, Crc, Hi, Lo, Not, Advance;
      ghost var data := block[HDR..HDR + len];
      block[0], block[1], block[2] := kind, num, Not(num);
      assert block[HDR..HDR + len] == data;
      var crc := Compute(block, HDR, len);
      block[HDR + len], block[HDR + len + 1] := Hi(crc), Lo(crc);
      var total := HDR + len + 2;
      assert block[HDR..HDR + len] == data;
      assert block[..total] == [kind, num, Not(num)] + data + [Hi(crc), Lo(crc)];
      r := PutUntilAck(block[..total], p, file);
    }

    /** Waits for a 'C'; the greeting has more patience. */
    method WaitC(ghost p: Sending, limit: nat, ghost file: File) returns (r: Result)
      requires (p.Greeting? && limit == HANDSHAKE_RETRIES) || ((p.Asking? || p.AskingClose?) && limit == BLOCK_RETRIES)
      requires p.tries == 0
      modifies host
      ensures host.w == old(host.w).(input := host.w.input)
      ensures SRun(p, file, old(host.w)) ==
        if r == Done then Go(Advance(p, file, host.w.source), file, host.w) else (r, host.w)
    {
      hide SRun, Go, Advance, NextReply;
      ghost var w0, start := host.w, SRun(p, file, host.w);
      var timeouts := 0;
      while true
        invariant timeouts <= limit && host.w == w0.(input := host.w.input)
        invariant start == SRun(WithTries(p, timeouts), file, host.w)
        decreases |host.w.input|, limit + 1 - timeouts
      {
        ghost var w, now := host.w, WithTries(p, timeouts);
        ReplyUses(w.input);
        var reply := Wait();
        AskReply(now, file, w, reply, host.w.input);
        SameAnswer(p, timeouts, file, w.source);
        if reply == Asked {
          return Done;
        }
        if reply == Halt {
          return ErrCancel;
        }
        if reply == Silence {
          timeouts := timeouts + 1;
          if timeouts > limit {
            return ErrTimeout;
          }
        }
      }
    }

    /** Reads the next block of the file into the buffer, as many reads as it takes. */
    method ReadBlock(want: nat) returns (filled: nat, fault: bool)
      requires block.Length == HDR + DATA_MAX + 2 && want <= DATA_MAX
      modifies host, block
      ensures host.w == old(host.w).(source := host.w.source)
      ensures filled <= want && FillBlock(old(host.w.source), want) ==
        (if fault then None else Some(block[HDR..HDR + filled]), host.w.source)
    {
      hide FillBlock, ReadSome;
      ghost var w0 := host.w;
      filled, fault := 0, false;
      JoinedNothing(FillBlock(host.w.source, want));
      assert block[HDR..HDR + filled] == [];
      while filled < want
        invariant filled <= want && host.w == w0.(source := host.w.source)
        invariant FillBlock(w0.source, want) == Joined(block[HDR..HDR + filled], FillBlock(host.w.source, want - filled))
        decreases want - filled
      {
        ghost var before := block[HDR..HDR + filled];
        FillStep(host.w.source, want - filled, before);
        ReadFits(host.w.source, want - filled);
        var got := host.Read(want - filled);
        if got.None? {
          fault := true;
          return;
        }
        if got.value == [] {
          return;
        }
        var next := Copy(block, HDR + filled, got.value, HDR + want);
        assert Fitting(got.value, want - filled) == got.value;
        assert block[HDR..HDR + filled] == before;
        filled := filled + |got.value|;
        assert block[HDR..HDR + filled] == before + block[next - |got.value|..next];
      }
      FillNone(host.w.source, block[HDR..HDR + filled]);
    }

    /** Fills the block up behind what was read. */
    method PadBlock(filled: nat) returns (len: nat)
      requires block.Length == HDR + DATA_MAX + 2 && filled <= DATA_MAX
      modifies block
      ensures len == (if filled <= BLOCK0_LEN then BLOCK0_LEN else DATA_MAX)
      ensures block[HDR..HDR + len] == Padded(old(block[HDR..HDR + filled]))
    {
      hide Padded;
      ghost var chunk := block[HDR..HDR + filled];
      len := if filled <= BLOCK0_LEN then BLOCK0_LEN else DATA_MAX;
      YmodemBlock0.Fill(block, HDR + filled, HDR + len, CPMEOF);
      assert block[HDR..HDR + filled] == chunk;
      assert block[HDR..HDR + len] == chunk + block[HDR + filled..HDR + len];
      PadsTo(chunk, block[HDR + filled..HDR + len]);
    }

    /** The data blocks, from the first to the one that ends the file. */
    method SendData(ghost file: File, size: nat) returns (r: Result)
      requires block.Length == HDR + DATA_MAX + 2
      modifies host, block
      ensures Go(LoadBlock(1, size, old(host.w.source)), file, old(host.w)) ==
        if r == Done then Go((EotOut(0), host.w.source), file, host.w) else (r, host.w)
    {
      hide SRun, Go, Packet, FillBlock, Padded, NumAfter, LoadBlock, AfterBlock, KindOf;
      ghost var start := Go(LoadBlock(1, size, host.w.source), file, host.w);
      var num: bv8, remaining: nat := 1, size;
      while remaining > 0
        invariant start == Go(LoadBlock(num, remaining, host.w.source), file, host.w)
        decreases remaining
      {
        var want := if remaining < DATA_MAX then remaining else DATA_MAX;
        ghost var w := host.w;
        var filled, fault := ReadBlock(want);
        ghost var chunk := block[HDR..HDR + filled];
        Loads(num, remaining, w.source, if fault then None else Some(chunk), host.w.source);
        GoSource(file, w, host.w);
        if fault {
          GoOver(ErrSource, file, host.w);
          return ErrSource;
        }
        if filled == 0 {
          return Done;
        }
        var len := PadBlock(filled);
        ghost var p := DataOut(0, num, chunk, remaining);
        DataPacket(p, file, block[HDR..HDR + len]);
        r := SendBlock(if len == BLOCK0_LEN then SOH else STX, num, len, p, file);
        if r != Done {
          return;
        }
        NextBlock(p, file, host.w.source);
        num, remaining := NumAfter(num), remaining - filled;
        if filled < want {
          return Done;
        }
      }
      NoBlock(num, host.w.source);
      r := Done;
    }

    /** EOT until it is acknowledged. */
    method SendEot(ghost file: File) returns (r: Result)
      modifies host
      ensures host.w.source == old(host.w.source)
      ensures Go((EotOut(0), old(host.w.source)), file, old(host.w)) ==
        if r == Done then Go((AskingClose(0), host.w.source), file, host.w) else (r, host.w)
    {
      hide SRun, Go;
      r := PutUntilAck([EOT], EotOut(0), file);
    }

    /** The batch: greeting, block 0, the data, EOT and the empty block 0 that closes it. */
    method RunBatch(file: File) returns (r: Result)
      requires block.Length == HDR + DATA_MAX + 2
      modifies host, block
      ensures SRun(Greeting(0), file, old(host.w)) == (r, host.w)
    {
      hide SRun, Go, Packet, LoadBlock, Block0, Zeros, Frame;
      r := WaitC(Greeting(0), HANDSHAKE_RETRIES, file);
      if r != Done {
        return;
      }
      BuildBlock0(block, HDR, file.name, file.size);
      HeaderPacket(file);
      r := SendBlock(SOH, 0, BLOCK0_LEN, HeaderOut(0), file);
      if r != Done {
        return;
      }
      GoWaiting(Asking(0), file, host.w);
      r := WaitC(Asking(0), BLOCK_RETRIES, file);
      if r != Done {
        return;
      }
      r := SendData(file, file.size);
      if r != Done {
        return;
      }
      r := SendEot(file);
      if r != Done {
        return;
      }
      GoWaiting(AskingClose(0), file, host.w);
      r := WaitC(AskingClose(0), BLOCK_RETRIES, file);
      if r != Done {
        return;
      }
      YmodemBlock0.Fill(block, HDR, HDR + BLOCK0_LEN, 0);
      IsZeros(block[HDR..HDR + BLOCK0_LEN]);
      NullPacket(file);
      r := SendBlock(SOH, 0, BLOCK0_LEN, NullOut(0), file);
      GoOver(Done, file, host.w);
    }

    /** A whole send; every failure ends with a cancel. */
    method SendFile(file: File) returns (r: Result)
      requires block.Length == HDR + DATA_MAX + 2
      modifies host, block
      ensures (r, host.w) == Send(file, old(host.w))
    {
      hide SRun;
      r := RunBatch(file);
      if r != Done {
        var _ := host.PutAll(CANCEL);
      }
    }
  }

  lemma ReplyUses(input: Input)
    ensures |NextReply(input).1| <= |input| && (input != [] ==> |NextReply(input).1| < |input|)
    ensures input == [] ==> NextReply(input).0 == Silence
  {
  }

  lemma SamePacket(p: Sending, tries: nat, file: File)
    requires p.Ok() && p.Out()
    ensures WithTries(p, tries).Ok() && WithTries(p, tries).Out() && Packet(WithTries(p, tries), file) == Packet(p, file)
  {
  }

  lemma SameAdvance(p: Sending, tries: nat, file: File, src: Source)
    requires p.Ok() && p.Out()
    ensures Advance(WithTries(p, tries), file, src) == Advance(p, file, src)
  {
    hide LoadBlock;
  }

  lemma SameAnswer(p: Sending, tries: nat, file: File, src: Source)
    requires p.Greeting? || p.Asking? || p.AskingClose?
    ensures Advance(WithTries(p, tries), file, src) == Advance(p, file, src)
  {
    hide LoadBlock;
  }

  // ---- blocks of the file ------------------------------------------------------------------

  function Joined(p: seq<bv8>, r: (Option<seq<bv8>>, Source)): (Option<seq<bv8>>, Source) {
    (if r.0.None? then None else Some(p + r.0.value), r.1)
  }

  lemma JoinedNothing(r: (Option<seq<bv8>>, Source))
    ensures Joined([], r) == r
  {
    if r.0.Some? {
      assert [] + r.0.value == r.0.value;
    }
  }

  lemma ReadFits(src: Source, want: nat)
    requires want > 0
    ensures ReadSome(src, want).0.Some? ==> |ReadSome(src, want).0.value| <= want
  {
  }

  lemma FillStep(src: Source, want: nat, p: seq<bv8>)
    requires want > 0
    ensures var (got, rest) := ReadSome(src, want);
      Joined(p, FillBlock(src, want)) ==
        if got.None? then (None, rest)
        else if got.value == [] then (Some(p), rest)
        else if |got.value| <= want then Joined(p + got.value, FillBlock(rest, want - |got.value|))
        else Joined(p, FillBlock(src, want))
  {
    hide ReadSome;
    ReadFits(src, want);
    var (got, rest) := ReadSome(src, want);
    if got.Some? {
      if got.value == [] {
        assert p + [] == p;
      } else {
        var more := FillBlock(rest, want - |got.value|).0;
        if more.Some? {
          assert p + (got.value + more.value) == p + got.value + more.value;
        }
      }
    }
  }

  lemma FillNone(src: Source, p: seq<bv8>)
    ensures Joined(p, FillBlock(src, 0)) == (Some(p), src)
  {
    assert p + [] == p;
  }

  lemma Loads(num: bv8, remaining: nat, src: Source, got: Option<seq<bv8>>, rest: Source)
    requires remaining > 0 && FillBlock(src, Want(remaining)) == (got, rest)
    ensures LoadBlock(num, remaining, src) ==
      (if got.None? then Over(ErrSource) else if got.value == [] then EotOut(0) else DataOut(0, num, got.value, remaining), rest)
  {
    hide FillBlock;
  }

  /** Only the source differs: the run goes on as if it had been read before. */
  lemma GoSource(file: File, w: SWorld, w': SWorld)
    requires w' == w.(source := w'.source)
    ensures forall p: Sending :: p.Ok() ==> Go((p, w'.source), file, w) == Go((p, w'.source), file, w')
  {
    hide SRun, Transmit;
    assert w.(source := w'.source) == w'.(source := w'.source);
  }

  lemma PadsTo(chunk: seq<bv8>, tail: seq<bv8>)
    requires |chunk| + |tail| == (if |chunk| <= BLOCK0_LEN then BLOCK0_LEN else DATA_MAX)
    requires forall j :: 0 <= j < |tail| ==> tail[j] == CPMEOF
    ensures |chunk| <= DATA_MAX && chunk + tail == Padded(chunk)
  {
  }

  lemma DataPacket(p: Sending, file: File, data: seq<bv8>)
    requires p.DataOut? && p.Ok() && data == Padded(p.chunk)
    ensures Packet(p, file) == Frame(if |data| == BLOCK0_LEN then SOH else STX, p.num, data)
  {
    hide Padded, Frame;
  }

  lemma HeaderPacket(file: File)
    ensures Packet(HeaderOut(0), file) == Frame(SOH, 0, Block0(file.name, file.size))
  {
    hide Frame, Block0;
  }

  lemma NullPacket(file: File)
    ensures Packet(NullOut(0), file) == Frame(SOH, 0, Zeros(BLOCK0_LEN))
  {
    hide Frame, Zeros;
  }

  lemma IsZeros(s: seq<bv8>)
    requires forall j :: 0 <= j < |s| ==> s[j] == 0
    ensures s == Zeros(|s|)
  {
  }

  lemma NextBlock(p: Sending, file: File, src: Source)
    requires p.DataOut? && p.Ok()
    ensures Advance(p, file, src) ==
      if |p.chunk| < Want(p.remaining) then (EotOut(0), src)
      else LoadBlock(NumAfter(p.num), p.remaining - |p.chunk|, src)
  {
    hide LoadBlock, NumAfter;
  }

  lemma NoBlock(num: bv8, src: Source)
    ensures LoadBlock(num, 0, src) == (EotOut(0), src)
  {
    hide FillBlock;
  }
}
