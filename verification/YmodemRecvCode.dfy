/** The receiver as the firmware runs it: reads and writes of the line, a block buffer
    filled in place, three loops.  It does what the machine says. */
module YmodemRecvCode {
  import opened Thumb
  import opened Crc16
  import opened YmodemWire
  import opened YmodemBlock0
  import opened YmodemReceiver

  /** The line and the sink that the caller provides. */
  class Host {
    var w: World

    constructor (world: World)
      ensures w == world
    {
      w := world;
    }

    method Getc() returns (e: Event)
      modifies this
      ensures e == First(old(w.input)) && w == old(w).(input := Rest(old(w.input)))
    {
      e := First(w.input);
      w := w.(input := Rest(w.input));
    }

    method PutAll(p: seq<bv8>) returns (ok: bool)
      modifies this
      ensures ok == Takes(old(w.puts)) && w == Put(old(w), p)
    {
      ok := Takes(w.puts);
      w := Put(w, p);
    }

    method Sink(c: Call) returns (ok: bool)
      modifies this
      ensures ok == Takes(old(w.sinks)) && w == CallSink(old(w), c)
    {
      ok := Takes(w.sinks);
      w := CallSink(w, c);
    }
  }

  function RunOn(pw: (Phase, World)): (Result, World) {
    Run(pw.0, pw.1)
  }

  /** One wait of the run, told by the item it got. */
  lemma RunStep(p: Phase, w: World, item: Item, rest: Input)
    requires !p.Ended? && NextItem(w.input) == (item, rest)
    ensures Run(p, w) == RunOn(Act(On(p, item), w.(input := rest)))
  {
  }

  lemma EmitOne(b: bv8, checked: bool, more: seq<Out>, next: Phase, w: World)
    ensures Emit([Out(b, checked)] + more, next, w) ==
      if checked && !Takes(w.puts) then (Ended(ErrIo), Put(w, [b])) else Emit(more, next, Put(w, [b]))
  {
    assert ([Out(b, checked)] + more)[1..] == more;
  }

  lemma EmitLast(b: bv8, checked: bool, next: Phase, w: World)
    ensures Emit([Out(b, checked)], next, w) == (if checked && !Takes(w.puts) then Ended(ErrIo) else next, Put(w, [b]))
  {
    assert [Out(b, checked)] == [Out(b, checked)] + [];
    EmitOne(b, checked, [], next, w);
  }

  lemma RunEnded(r: Result, w: World)
    ensures Run(Ended(r), w) == (r, w)
  {
  }

  class Receiver {
    const host: Host
    const data: array<bv8>

    constructor (h: Host)
      ensures host == h && data.Length == DATA_MAX && fresh(data)
    {
      host := h;
      data := new bv8[DATA_MAX];
    }

    method DrainLine()
      modifies host
      ensures host.w == old(host.w).(input := Drain(old(host.w.input), DISCARD_MAX))
    {
      ghost var w0 := host.w;
      for i := 0 to DISCARD_MAX
        invariant host.w == w0.(input := host.w.input)
        invariant Drain(w0.input, DISCARD_MAX) == Drain(host.w.input, DISCARD_MAX - i)
      {
        var e := host.Getc();
        if !e.Got? {
          return;
        }
      }
    }

    method DoubleCan() returns (yes: bool)
      modifies host
      ensures yes == (First(old(host.w.input)) == Got(CAN))
      ensures host.w == old(host.w).(input := Rest(old(host.w.input)))
    {
      var e := host.Getc();
      yes := e == Got(CAN);
    }

    method WaitHdr() returns (h: Header)
      modifies host
      ensures (h, host.w.input) == WaitHeader(old(host.w.input), DISCARD_MAX)
      ensures host.w == old(host.w).(input := host.w.input)
    {
      hide IsStart;
      ghost var w0 := host.w;
      for i := 0 to DISCARD_MAX
        invariant host.w == w0.(input := host.w.input)
        invariant WaitHeader(w0.input, DISCARD_MAX) == WaitHeader(host.w.input, DISCARD_MAX - i)
      {
        var e := host.Getc();
        if e.TimedOut? {
          return NoHeader;
        }
        if e.Aborted? {
          return Cancelled;
        }
        if IsStart(e.b) {
          return Start(e.b);
        }
        if e.b == CAN {
          var twice := DoubleCan();
          if twice {
            return Cancelled;
          }
        }
      }
      h := NoHeader;
    }

    /** The bytes of a block, into the block buffer: all n of them, or what ended them. */
    method Fill(n: nat) returns (r: Read)
      requires n <= data.Length
      modifies host, data
      ensures host.w == old(host.w).(input := ReadBytes(old(host.w.input), n).1)
      ensures r == ReadBytes(old(host.w.input), n).0
      ensures r.Full? ==> data[..n] == r.bytes
    {
      hide ReadBytes;
      ghost var w0 := host.w;
      NothingRead(ReadBytes(w0.input, n));
      for i := 0 to n
        invariant host.w == w0.(input := host.w.input)
        invariant ReadBytes(w0.input, n) == Prefixed(data[..i], ReadBytes(host.w.input, n - i))
      {
        ghost var before := data[..i];
        OneMore(before, host.w.input, n - i);
        var e := host.Getc();
        if e.Aborted? {
          return Stopped;
        }
        if e.TimedOut? {
          return Short;
        }
        data[i] := e.b;
        assert data[..i + 1] == before + [e.b];
      }
      AllRead(data[..n], host.w.input);
      r := Full(data[..n]);
    }

    /** Reads the rest of a block whose header byte is `kind`: its number and length, and
        0 when it is good, -1 when it is not, -2 after an abort. */
    method ReadRest(kind: bv8) returns (rc: int, num: bv8, len: nat)
      requires data.Length == DATA_MAX
      modifies host, data
      ensures host.w == old(host.w).(input := ReadBody(old(host.w.input), kind).1)
      ensures match ReadBody(old(host.w.input), kind).0
              case Intact(n, d) => rc == 0 && num == n && len == |d| == SizeOf(kind) <= DATA_MAX && data[..len] == d
              case Damaged => rc == -1
              case Halted => rc == -2
    {
      hide ReadBytes, Not;
      len := SizeOf(kind);
      rc, num := -1, 0;
      OneByte(host.w.input);
      var e := host.Getc();
      if !e.Got? {
        rc := if e.Aborted? then -2 else -1;
        return;
      }
      num := e.b;
      OneByte(host.w.input);
      e := host.Getc();
      if !e.Got? {
        rc := if e.Aborted? then -2 else -1;
        return;
      }
      if e.b != Not(num) {
        return;
      }
      var body := Fill(len);
      if !body.Full? {
        rc := if body.Stopped? then -2 else -1;
        return;
      }
      TwoBytes(host.w.input);
      e := host.Getc();
      if !e.Got? {
        rc := if e.Aborted? then -2 else -1;
        return;
      }
      var hi := e.b;
      e := host.Getc();
      if !e.Got? {
        rc := if e.Aborted? then -2 else -1;
        return;
      }
      var crc := Join(hi, e.b);
      var sum := Compute(data, 0, len);
      assert data[0..len] == data[..len];
      if sum == crc {
        rc := 0;
      }
    }

    /** Prompts with 'C' until block 0 comes, hands its file to the sink and asks for the
        first data block. */
    method AwaitFile() returns (r: Option<Result>, info: FileInfo)
      requires data.Length == DATA_MAX
      modifies host, data
      ensures ReceiveRun(old(host.w)) ==
        if r.Some? then (r.value, host.w) else Run(Receiving(0, 1, CRC_C, info.declared, info.size), host.w)
    {
      hide Run, Emit, On, Act, WaitHeader, ReadBody, Drain, ParseBlock0;
      ghost var w0 := host.w;
      var attempts, num, len := 0, 0, 0;
      info := FileInfo([], 0, false);
      while true
        invariant attempts <= HANDSHAKE_RETRIES
        invariant ReceiveRun(w0) == RunOn(Emit(Say(CRC_C), Handshake(attempts), host.w))
        decreases |host.w.input|, HANDSHAKE_RETRIES + 1 - attempts
      {
        EmitLast(CRC_C, true, Handshake(attempts), host.w);
        var ok := host.PutAll([CRC_C]);
        if !ok {
          RunEnded(ErrIo, host.w);
          return Some(ErrIo), info;
        }
        ghost var w := host.w;
        ghost var p := Handshake(attempts);
        var h := WaitHdr();
        if h.Cancelled? {
          StopEnds(p, w, host.w.input);
          return Some(ErrCancel), info;
        }
        if h.NoHeader? {
          HandshakeRetries(attempts, w, Quiet, host.w.input);
          attempts := attempts + 1;
          if attempts > HANDSHAKE_RETRIES {
            return Some(ErrTimeout), info;
          }
          continue;
        }
        if h.kind == EOT {
          StrayEnd(attempts, w, host.w.input);
          var _ := host.PutAll([ACK]);
          continue;
        }
        var rc;
        rc, num, len := ReadRest(h.kind);
        if rc == -2 {
          StopEnds(p, w, host.w.input);
          return Some(ErrCancel), info;
        }
        if rc != 0 || num != 0 {
          HandshakeRetries(attempts, w, if rc == 0 then Block(num, data[..len]) else Bad, host.w.input);
          DrainLine();
          attempts := attempts + 1;
          if attempts > HANDSHAKE_RETRIES {
            return Some(ErrTimeout), info;
          }
          continue;
        }
        r, info := TakeFile(len, attempts, w);
        return;
      }
    }

    /** Block 0 is in the buffer: to the sink with the file, if it names one. */
    method TakeFile(len: nat, ghost attempts: nat, ghost w: World) returns (r: Option<Result>, info: FileInfo)
      requires data.Length == DATA_MAX && BLOCK0_LEN <= len <= DATA_MAX
      requires NextItem(w.input) == (Block(0, data[..len]), host.w.input) && host.w == w.(input := host.w.input)
      modifies host
      ensures Run(Handshake(attempts), w) ==
        if r.Some? then (r.value, host.w) else Run(Receiving(0, 1, CRC_C, info.declared, info.size), host.w)
    {
      hide Run, Emit, NextItem, ParseBlock0;
      ghost var rest := host.w.input;
      var name := new bv8[BLOCK0_LEN];
      RunStep(Handshake(attempts), w, Block(0, data[..len]), rest);
      ParseSame(data[..], len);
      info := FileInfo([], 0, false);
      var ok, n, size, declared := Parse(data, name);
      if !ok {
        EmitNothing(Ended(ErrProto), host.w);
        RunEnded(ErrProto, host.w);
        return Some(ErrProto), info;
      }
      info := FileInfo(name[..n], size, declared);
      if n == 0 {
        EmitLast(ACK, false, Ended(ErrCancel), host.w);
        var _ := host.PutAll([ACK]);
        RunEnded(ErrCancel, host.w);
        return Some(ErrCancel), info;
      }
      ok := host.Sink(Begin(name[..n], size));
      if !ok {
        RunEnded(ErrSink, host.w);
        return Some(ErrSink), info;
      }
      ghost var next := Receiving(0, 1, CRC_C, declared, size);
      EmitOne(ACK, true, Say(CRC_C), next, host.w);
      ok := host.PutAll([ACK]);
      if ok {
        EmitLast(CRC_C, true, next, host.w);
        ok := host.PutAll([CRC_C]);
      }
      if !ok {
        RunEnded(ErrIo, host.w);
        return Some(ErrIo), info;
      }
      r := None;
    }

    /** Waits for a header, prompting again after every timeout.  Without one, `r` says how
        the run ended; with one, `last` and `w` are where it stood before. */
    method AwaitHeader(ghost p: Phase, prompt: bv8) returns (h: Header, r: Result, ghost last: Phase, ghost w: World)
      requires p.Receiving? && p.attempts == 0 && p.prompt == prompt
      modifies host
      ensures last.Receiving? && last == p.(attempts := last.attempts) && host.w == w.(input := host.w.input)
      ensures !h.NoHeader? ==> |host.w.input| < |old(host.w.input)| && (h, host.w.input) == WaitHeader(w.input, DISCARD_MAX)
      ensures Run(p, old(host.w)) == if h.NoHeader? then (r, host.w) else Run(last, w)
    {
      hide Run, Emit, On, Act, WaitHeader, ReadBody, Drain;
      ghost var start, before := Run(p, host.w), |host.w.input|;
      var attempts := 0;
      while true
        invariant attempts <= BLOCK_RETRIES && |host.w.input| <= before
        invariant start == Run(p.(attempts := attempts), host.w)
        decreases |host.w.input|, BLOCK_RETRIES + 1 - attempts
      {
        w, last := host.w, p.(attempts := attempts);
        h := WaitHdr();
        if !h.NoHeader? {
          return h, ErrTimeout, last, w;
        }
        QuietAgain(last, w, host.w.input);
        attempts := attempts + 1;
        if attempts > BLOCK_RETRIES {
          return NoHeader, ErrTimeout, last, host.w;
        }
        SayThen(prompt, p.(attempts := attempts), host.w);
        var ok := host.PutAll([prompt]);
        if !ok {
          return NoHeader, ErrIo, last, host.w;
        }
      }
    }

    /** Data blocks until the sender ends the file: each good one is delivered and
        acknowledged, a bad one refused; the size counts. */
    method ReceiveData(info: FileInfo) returns (r: Option<Result>)
      requires data.Length == DATA_MAX
      modifies host, data
      ensures Run(Receiving(0, 1, CRC_C, info.declared, info.size), old(host.w)) ==
        if r.Some? then (r.value, host.w) else Run(Closing(0), host.w)
    {
      hide Run, Emit, On, Act, WaitHeader, ReadBody, Drain, NumAfter, NumBefore, Delivers;
      ghost var start := Run(Receiving(0, 1, CRC_C, info.declared, info.size), host.w);
      var due: bv8, prompt, remaining := 1, CRC_C, info.size;
      while true
        invariant start == Run(Receiving(0, due, prompt, info.declared, remaining), host.w)
        decreases |host.w.input|
      {
        var h, failed;
        ghost var p, w;
        h, failed, p, w := AwaitHeader(Receiving(0, due, prompt, info.declared, remaining), prompt);
        if h.NoHeader? {
          return Some(failed);
        }
        if h.Cancelled? {
          StopEnds(p, w, host.w.input);
          return Some(ErrCancel);
        }
        if h.kind == EOT {
          FileEnds(p, w, host.w.input);
          if info.declared && remaining != 0 {
            return Some(ErrProto);
          }
          SayTwice(ACK, CRC_C, Closing(0), host.w);
          var ok := host.PutAll([ACK]);
          if ok {
            SayThen(CRC_C, Closing(0), host.w);
            ok := host.PutAll([CRC_C]);
          }
          return if ok then None else Some(ErrIo);
        }
        var rc, num, len := ReadRest(h.kind);
        if rc == -2 {
          StopEnds(p, w, host.w.input);
          return Some(ErrCancel);
        }
        if rc != 0 {
          BadAgain(p, w, host.w.input);
          DrainLine();
          prompt := NAK;
          SayThen(NAK, p.(attempts := 0, prompt := NAK), host.w);
          var ok := host.PutAll([NAK]);
          if !ok {
            return Some(ErrIo);
          }
          continue;
        }
        BlockComes(p, w, num, data[..len], host.w.input);
        if num == NumBefore(due) {
          prompt := NAK;
          SayThen(ACK, p.(attempts := 0, prompt := NAK), host.w);
          var ok := host.PutAll([ACK]);
          if !ok {
            return Some(ErrIo);
          }
          continue;
        }
        if num != due {
          return Some(ErrProto);
        }
        var err;
        remaining, err := DeliverBlock(len, info.declared, remaining, p);
        if err.Some? {
          return err;
        }
        due, prompt := NumAfter(due), NAK;
      }
    }

    /** The due block, of len bytes in the buffer, to the sink and acknowledged. */
    method DeliverBlock(len: nat, declared: bool, remaining: nat, ghost p: Phase) returns (left: nat, err: Option<Result>)
      requires len <= data.Length && p.Receiving? && p.declared == declared && p.remaining == remaining
      modifies host
      ensures |host.w.input| == |old(host.w.input)|
      ensures RunOn(Delivers(p, data[..len], old(host.w))) ==
        if err.Some? then (err.value, host.w) else Run(Receiving(0, NumAfter(p.due), NAK, declared, left), host.w)
    {
      hide Run, Emit, Taken, NumAfter;
      TakenIs(data[..], len, declared, remaining);
      var take := len;
      left := remaining;
      if declared {
        if take > left {
          take := left;
        }
        left := left - take;
      }
      assert data[..][..len] == data[..len] && data[..][..take] == data[..take];
      if take > 0 {
        var ok := host.Sink(Write(data[..take]));
        if !ok {
          RunEnded(ErrSink, host.w);
          return left, Some(ErrSink);
        }
      }
      SayThen(ACK, Receiving(0, NumAfter(p.due), NAK, declared, left), host.w);
      var ok := host.PutAll([ACK]);
      err := if ok then None else Some(ErrIo);
    }

    /** The end of the batch: waits for the sender's empty block 0. */
    method AwaitClose() returns (r: Result)
      requires data.Length == DATA_MAX
      modifies host, data
      ensures Run(Closing(0), old(host.w)) == (r, host.w)
    {
      hide Run, Emit, On, Act, WaitHeader, ReadBody, Drain;
      ghost var start := Run(Closing(0), host.w);
      var attempts := 0;
      while true
        invariant attempts <= BLOCK_RETRIES && start == Run(Closing(attempts), host.w)
        decreases |host.w.input|, BLOCK_RETRIES + 1 - attempts
      {
        ghost var w := host.w;
        ghost var p := Closing(attempts);
        var h := WaitHdr();
        if h.Cancelled? {
          StopEnds(p, w, host.w.input);
          return ErrCancel;
        }
        if h.NoHeader? {
          ClosingRetries(attempts, w, Quiet, host.w.input);
          attempts := attempts + 1;
          if attempts > BLOCK_RETRIES {
            return ErrTimeout;
          }
          SayThen(CRC_C, Closing(attempts), host.w);
          var ok := host.PutAll([CRC_C]);
          if !ok {
            return ErrIo;
          }
          continue;
        }
        if h.kind == EOT {
          EndRepeated(attempts, w, host.w.input);
          SayThen(ACK, Closing(attempts), host.w);
          var ok := host.PutAll([ACK]);
          if !ok {
            return ErrIo;
          }
          continue;
        }
        var rc, num, len := ReadRest(h.kind);
        if rc == -2 {
          StopEnds(p, w, host.w.input);
          return ErrCancel;
        }
        if rc != 0 {
          ClosingRetries(attempts, w, Bad, host.w.input);
          DrainLine();
          attempts := attempts + 1;
          if attempts > BLOCK_RETRIES {
            return ErrTimeout;
          }
          SayThen(NAK, Closing(attempts), host.w);
          var ok := host.PutAll([NAK]);
          if !ok {
            return ErrIo;
          }
          continue;
        }
        LastBlock(attempts, w, num, data[..len], host.w.input);
        if num != 0 || data[0] != 0 {
          return ErrProto;
        }
        var _ := host.PutAll([ACK]);
        return Done;
      }
    }

    /** A whole receive; every failure ends with a cancel. */
    method ReceiveFile() returns (r: Result)
      requires data.Length == DATA_MAX
      modifies host, data
      ensures (r, host.w) == Receive(old(host.w))
    {
      hide Run, Emit;
      var failed, info := AwaitFile();
      if failed.None? {
        failed := ReceiveData(info);
      }
      if failed.Some? {
        r := failed.value;
      } else {
        r := AwaitClose();
      }
      if r != Done {
        var _ := host.PutAll(CANCEL);
      }
    }
  }

  // ---- one turn of a loop ---------------------------------------------------------------

  lemma EmitNothing(next: Phase, w: World)
    ensures Emit([], next, w) == (next, w)
  {
  }

  /** An item that ends the run at once. */
  lemma RunGives(p: Phase, w: World, item: Item, rest: Input, r: Result)
    requires !p.Ended? && NextItem(w.input) == (item, rest) && On(p, item) == Give(r)
    ensures Run(p, w) == (r, w.(input := rest))
  {
    hide NextItem, On;
    RunStep(p, w, item, rest);
    RunEnded(r, w.(input := rest));
  }

  lemma StopEnds(p: Phase, w: World, rest: Input)
    requires !p.Ended? && NextItem(w.input) == (Stop, rest)
    ensures Run(p, w) == (ErrCancel, w.(input := rest))
  {
    hide NextItem;
    RunGives(p, w, Stop, rest, ErrCancel);
  }

  /** One byte, and on with the run unless it cannot be put. */
  lemma SayThen(b: bv8, next: Phase, w: World)
    ensures RunOn(Emit(Say(b), next, w)) == if Takes(w.puts) then Run(next, Put(w, [b])) else (ErrIo, Put(w, [b]))
  {
    hide Run;
    EmitLast(b, true, next, w);
    RunEnded(ErrIo, Put(w, [b]));
  }

  lemma SayTwice(b: bv8, c: bv8, next: Phase, w: World)
    ensures RunOn(Emit(Say(b) + Say(c), next, w)) ==
      if Takes(w.puts) then RunOn(Emit(Say(c), next, Put(w, [b]))) else (ErrIo, Put(w, [b]))
  {
    hide Run, Emit;
    EmitOne(b, true, Say(c), next, w);
    RunEnded(ErrIo, Put(w, [b]));
  }

  lemma QuietAgain(p: Phase, w: World, rest: Input)
    requires p.Receiving? && NextItem(w.input) == (Quiet, rest)
    ensures Run(p, w) == if p.attempts + 1 > BLOCK_RETRIES then (ErrTimeout, w.(input := rest))
                         else RunOn(Emit(Say(p.prompt), p.(attempts := p.attempts + 1), w.(input := rest)))
  {
    hide NextItem, Emit, Run;
    RunStep(p, w, Quiet, rest);
    EmitNothing(Ended(ErrTimeout), w.(input := rest));
    RunEnded(ErrTimeout, w.(input := rest));
  }

  lemma FileEnds(p: Phase, w: World, rest: Input)
    requires p.Receiving? && NextItem(w.input) == (FileEnd, rest)
    ensures Run(p, w) == if p.declared && p.remaining != 0 then (ErrProto, w.(input := rest))
                         else RunOn(Emit(Say(ACK) + Say(CRC_C), Closing(0), w.(input := rest)))
  {
    hide NextItem, Emit, Run;
    RunStep(p, w, FileEnd, rest);
    EmitNothing(Ended(ErrProto), w.(input := rest));
    RunEnded(ErrProto, w.(input := rest));
  }

  lemma BadAgain(p: Phase, w: World, rest: Input)
    requires p.Receiving? && NextItem(w.input) == (Bad, rest)
    ensures Run(p, w) == RunOn(Emit(Say(NAK), p.(attempts := 0, prompt := NAK), w.(input := Drain(rest, DISCARD_MAX))))
  {
    hide NextItem, Emit, Run, Drain;
    RunStep(p, w, Bad, rest);
  }

  lemma BlockComes(p: Phase, w: World, num: bv8, data: seq<bv8>, rest: Input)
    requires p.Receiving? && NextItem(w.input) == (Block(num, data), rest)
    ensures var w' := w.(input := rest);
      Run(p, w) ==
        if num == NumBefore(p.due) then RunOn(Emit(Say(ACK), p.(attempts := 0, prompt := NAK), w'))
        else if num != p.due then (ErrProto, w')
        else RunOn(Delivers(p, data, w'))
  {
    hide NextItem, Emit, Run, Taken, NumAfter, NumBefore;
    RunStep(p, w, Block(num, data), rest);
    EmitNothing(Ended(ErrProto), w.(input := rest));
    RunEnded(ErrProto, w.(input := rest));
  }

  lemma TakenIs(buf: seq<bv8>, len: nat, declared: bool, remaining: nat)
    requires len <= |buf|
    ensures Taken(buf[..len], declared, remaining) == buf[..if declared && remaining < len then remaining else len]
  {
  }

  /** The due block goes to the sink. */
  function Delivers(p: Phase, data: seq<bv8>, w: World): (Phase, World)
    requires p.Receiving?
  {
    var t := Taken(data, p.declared, p.remaining);
    var next := Receiving(0, NumAfter(p.due), NAK, p.declared, if p.declared then p.remaining - |t| else p.remaining);
    if t == [] then Emit(Say(ACK), next, w)
    else if Takes(w.sinks) then Emit(Say(ACK), next, CallSink(w, Write(t)))
    else (Ended(ErrSink), CallSink(w, Write(t)))
  }

  lemma ClosingRetries(attempts: nat, w: World, item: Item, rest: Input)
    requires NextItem(w.input) == (item, rest) && (item == Quiet || item == Bad)
    ensures var w' := w.(input := if item == Quiet then rest else Drain(rest, DISCARD_MAX));
      Run(Closing(attempts), w) ==
        if attempts + 1 > BLOCK_RETRIES then (ErrTimeout, w')
        else RunOn(Emit(Say(if item == Quiet then CRC_C else NAK), Closing(attempts + 1), w'))
  {
    hide NextItem, Drain, Emit, Run;
    RunStep(Closing(attempts), w, item, rest);
    var w' := w.(input := if item == Quiet then rest else Drain(rest, DISCARD_MAX));
    EmitNothing(Ended(ErrTimeout), w');
    RunEnded(ErrTimeout, w');
  }

  lemma EndRepeated(attempts: nat, w: World, rest: Input)
    requires NextItem(w.input) == (FileEnd, rest)
    ensures Run(Closing(attempts), w) == RunOn(Emit(Say(ACK), Closing(attempts), w.(input := rest)))
  {
    hide NextItem, Emit, Run;
    RunStep(Closing(attempts), w, FileEnd, rest);
  }

  lemma LastBlock(attempts: nat, w: World, num: bv8, data: seq<bv8>, rest: Input)
    requires NextItem(w.input) == (Block(num, data), rest) && |data| >= BLOCK0_LEN
    ensures var w' := w.(input := rest);
      Run(Closing(attempts), w) == if num != 0 || data[0] != 0 then (ErrProto, w') else (Done, Put(w', [ACK]))
  {
    hide NextItem, Emit, Run;
    var w' := w.(input := rest);
    RunStep(Closing(attempts), w, Block(num, data), rest);
    EmitNothing(Ended(ErrProto), w');
    RunEnded(ErrProto, w');
    EmitLast(ACK, false, Ended(Done), w');
    RunEnded(Done, Put(w', [ACK]));
  }

  lemma HandshakeRetries(attempts: nat, w: World, item: Item, rest: Input)
    requires NextItem(w.input) == (item, rest)
    requires item == Quiet || item == Bad || (item.Block? && item.num != 0)
    ensures var w' := w.(input := if item == Quiet then rest else Drain(rest, DISCARD_MAX));
      Run(Handshake(attempts), w) ==
        if attempts + 1 > HANDSHAKE_RETRIES then (ErrTimeout, w') else RunOn(Emit(Say(CRC_C), Handshake(attempts + 1), w'))
  {
    hide NextItem, Drain, Emit, Run;
    RunStep(Handshake(attempts), w, item, rest);
    var w' := w.(input := if item == Quiet then rest else Drain(rest, DISCARD_MAX));
    EmitNothing(Ended(ErrTimeout), w');
    RunEnded(ErrTimeout, w');
  }

  lemma StrayEnd(attempts: nat, w: World, rest: Input)
    requires NextItem(w.input) == (FileEnd, rest)
    ensures Run(Handshake(attempts), w) == RunOn(Emit(Say(CRC_C), Handshake(attempts), Put(w.(input := rest), [ACK])))
  {
    hide NextItem, Emit, Run;
    RunStep(Handshake(attempts), w, FileEnd, rest);
    EmitOne(ACK, false, Say(CRC_C), Handshake(attempts), w.(input := rest));
  }

  /** Only the first 128 bytes of block 0 count. */
  lemma ParseSame(data: seq<bv8>, len: nat)
    requires BLOCK0_LEN <= len <= |data|
    ensures ParseBlock0(data[..len]) == ParseBlock0(data)
  {
    hide ParseSize, NulAt, IsDigit, DigitValue;
    NulSame(data, len, 0);
    var k := NulAt(data, 0);
    if k < BLOCK0_LEN {
      SizeSame(data, len, k + 1, 0, false);
      assert data[..len][..k] == data[..k];
    }
  }

  lemma {:induction false} NulSame(data: seq<bv8>, len: nat, i: nat)
    requires BLOCK0_LEN <= len <= |data| && i <= BLOCK0_LEN
    ensures NulAt(data[..len], i) == NulAt(data, i)
    decreases BLOCK0_LEN - i
  {
    if i < BLOCK0_LEN && data[i] != 0 {
      NulSame(data, len, i + 1);
    }
  }

  lemma {:induction false} SizeSame(data: seq<bv8>, len: nat, i: nat, size: nat, declared: bool)
    requires BLOCK0_LEN <= len <= |data| && i <= BLOCK0_LEN && size <= U32_MAX
    ensures ParseSize(data[..len], i, size, declared) == ParseSize(data, i, size, declared)
    decreases BLOCK0_LEN - i
  {
    hide IsDigit, DigitValue;
    if i < BLOCK0_LEN && IsDigit(data[i]) && size <= (U32_MAX - DigitValue(data[i])) / 10 {
      SizeSame(data, len, i + 1, size * 10 + DigitValue(data[i]), true);
    }
  }

  function Prefixed(p: seq<bv8>, r: (Read, Input)): (Read, Input) {
    (if r.0.Full? then Full(p + r.0.bytes) else r.0, r.1)
  }

  lemma NothingRead(r: (Read, Input))
    ensures Prefixed([], r) == r
  {
    if r.0.Full? {
      assert [] + r.0.bytes == r.0.bytes;
    }
  }

  lemma AllRead(p: seq<bv8>, input: Input)
    ensures Prefixed(p, ReadBytes(input, 0)) == (Full(p), input)
  {
    assert p + [] == p;
  }

  lemma OneMore(p: seq<bv8>, input: Input, n: nat)
    requires n > 0
    ensures Prefixed(p, ReadBytes(input, n)) ==
      match First(input)
      case TimedOut => (Short, Rest(input))
      case Aborted => (Stopped, Rest(input))
      case Got(b) => Prefixed(p + [b], ReadBytes(Rest(input), n - 1))
  {
    if First(input).Got? {
      var more := ReadBytes(Rest(input), n - 1).0;
      if more.Full? {
        assert p + ([input[0].b] + more.bytes) == p + [input[0].b] + more.bytes;
      }
    }
  }

  lemma OneByte(input: Input)
    ensures ReadBytes(input, 1) ==
      match First(input)
      case TimedOut => (Short, Rest(input))
      case Aborted => (Stopped, Rest(input))
      case Got(b) => (Full([b]), Rest(input))
  {
    if First(input).Got? {
      assert ReadBytes(Rest(input), 0) == (Full([]), Rest(input));
      assert [input[0].b] + [] == [input[0].b];
    }
  }

  lemma TwoBytes(input: Input)
    ensures ReadBytes(input, 2) ==
      match First(input)
      case TimedOut => (Short, Rest(input))
      case Aborted => (Stopped, Rest(input))
      case Got(hi) =>
        match First(Rest(input))
        case TimedOut => (Short, Rest(Rest(input)))
        case Aborted => (Stopped, Rest(Rest(input)))
        case Got(lo) => (Full([hi, lo]), Rest(Rest(input)))
  {
    if First(input).Got? {
      OneByte(Rest(input));
      if First(Rest(input)).Got? {
        assert [input[0].b] + [Rest(input)[0].b] == [input[0].b, Rest(input)[0].b];
      }
    }
  }
}
