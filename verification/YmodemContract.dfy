/** What a receive promises on every input: what reaches the sink, and when it may claim
    success. */
module YmodemContract {
  import opened Thumb
  import opened YmodemWire
  import opened YmodemBlock0
  import opened YmodemReceiver

  // ---- block numbers -------------------------------------------------------------------------

  /** The number byte of block k: it wraps after 255. */
  function SeqOf(k: nat): bv8 {
    if k == 0 then 0 else NumAfter(SeqOf(k - 1))
  }

  function NumValue(b: bv8): int {
    b as int
  }

  lemma NextNumber(b: bv8)
    ensures (b + 1) as int == if b == 255 then 0 else b as int + 1
  {
  }

  lemma LastNumber(b: bv8)
    ensures b as int == 255 <==> b == 255
  {
  }

  lemma NumberAfter(b: bv8)
    ensures NumValue(NumAfter(b)) == if NumValue(b) == 255 then 0 else NumValue(b) + 1
  {
    NextNumber(b);
    LastNumber(b);
  }

  lemma {:induction false} SeqIs(k: nat)
    ensures NumValue(SeqOf(k)) == k % 256
  {
    hide NumValue, NumAfter;
    if k == 0 {
      assert NumValue(0) == 0 by { ZeroNumber(); }
    } else {
      SeqIs(k - 1);
      NumberAfter(SeqOf(k - 1));
    }
  }

  lemma ZeroNumber()
    ensures NumValue(0) == 0
  {
  }

  lemma SameNumber(a: bv8, b: bv8)
    ensures NumValue(a) == NumValue(b) ==> a == b
  {
  }

  /** Two blocks less than 256 apart have the same number byte only if they are one. */
  lemma SeqApart(j: nat, k: nat)
    ensures SeqOf(j) == SeqOf(k) <==> j % 256 == k % 256
    ensures -256 < j - k < 256 && SeqOf(j) == SeqOf(k) ==> j == k
  {
    hide NumValue, SeqOf;
    SeqIs(j);
    SeqIs(k);
    SameNumber(SeqOf(j), SeqOf(k));
  }

  // ---- what arrived -----------------------------------------------------------------------------

  /** A frame in the input, from position `at` on. */
  datatype Arrival = Arrival(at: nat, kind: bv8, data: seq<bv8>)
  {
    function End(): nat {
      at + |data| + 5
    }
  }

  ghost predicate Arrived(input: Input, a: Arrival, num: bv8) {
    && IsFrame(a.kind, a.data) && a.End() <= |input|
    && input[a.at..a.End()] == Bytes(Frame(a.kind, num, a.data))
  }

  /** Block 0 and the data blocks that were accepted, in order. */
  datatype Log = NoFile | File(first: Arrival, info: FileInfo, blocks: seq<Arrival>)
  {
    function End(): nat {
      if NoFile? then 0 else if blocks == [] then first.End() else blocks[|blocks| - 1].End()
    }
  }

  /** Each frame lies after the one before, and block k carries the number of k. */
  ghost predicate LogOk(input: Input, log: Log) {
    log.File? ==>
      && Arrived(input, log.first, 0) && ParseBlock0(log.first.data) == Some(log.info) && log.info.name != []
      && (forall i :: 0 <= i < |log.blocks| ==> Arrived(input, log.blocks[i], SeqOf(i + 1)))
      && (forall i :: 0 <= i < |log.blocks| ==> Before(log.first, log.blocks, i) <= log.blocks[i].at)
  }

  /** Where the frame before block i ends. */
  function Before(first: Arrival, blocks: seq<Arrival>, i: nat): nat
    requires i < |blocks|
  {
    if i == 0 then first.End() else blocks[i - 1].End()
  }

  // ---- what the sink is given -----------------------------------------------------------------------

  /** How much of the declared size is still to come after the blocks. */
  function RemainingAfter(blocks: seq<Arrival>, info: FileInfo): nat {
    if blocks == [] then info.size
    else
      var r := RemainingAfter(blocks[..|blocks| - 1], info);
      if info.declared then r - |Taken(blocks[|blocks| - 1].data, true, r)| else r
  }

  function WriteOf(t: seq<bv8>): seq<Call> {
    if t == [] then [] else [Write(t)]
  }

  /** The data of the blocks in order, the last cut to the declared size. */
  function WritesOf(blocks: seq<Arrival>, info: FileInfo): seq<Call> {
    if blocks == [] then []
    else
      var init := blocks[..|blocks| - 1];
      WritesOf(init, info) + WriteOf(Taken(blocks[|blocks| - 1].data, info.declared, RemainingAfter(init, info)))
  }

  function CallsOf(log: Log): seq<Call> {
    if log.NoFile? then [] else [Begin(log.info.name, log.info.size)] + WritesOf(log.blocks, log.info)
  }

  function Written(calls: seq<Call>): seq<bv8> {
    if calls == [] then []
    else
      var c := calls[|calls| - 1];
      Written(calls[..|calls| - 1]) + (if c.Write? then c.data else [])
  }

  lemma {:induction false} WrittenJoin(x: seq<Call>, y: seq<Call>)
    ensures Written(x + y) == Written(x) + Written(y)
    decreases |y|
  {
    if y == [] {
      assert x + y == x;
    } else {
      WrittenJoin(x, y[..|y| - 1]);
      assert (x + y)[..|x + y| - 1] == x + y[..|y| - 1];
    }
  }

  lemma WrittenOne(t: seq<bv8>)
    ensures Written(WriteOf(t)) == t
  {
    if t != [] {
      assert [Write(t)][..0] == [];
    }
  }

  /** Nothing is lost or added: what was written and what remains make up the size. */
  lemma {:induction false} Conserved(blocks: seq<Arrival>, info: FileInfo)
    ensures info.declared ==> |Written(WritesOf(blocks, info))| + RemainingAfter(blocks, info) == info.size
    decreases |blocks|
  {
    if blocks != [] {
      var init := blocks[..|blocks| - 1];
      Conserved(init, info);
      var t := Taken(blocks[|blocks| - 1].data, info.declared, RemainingAfter(init, info));
      WrittenJoin(WritesOf(init, info), WriteOf(t));
      WrittenOne(t);
    }
  }

  // ---- what every step keeps -------------------------------------------------------------------------

  ghost predicate InputAt(input: Input, w: World) {
    |w.input| <= |input| && w.input == input[|input| - |w.input|..]
  }

  ghost predicate PhaseOk(p: Phase, log: Log) {
    match p
    case Handshake(_) => log.NoFile?
    case Receiving(_, due, _, declared, remaining) =>
      log.File? && due == SeqOf(|log.blocks| + 1) && declared == log.info.declared && remaining == RemainingAfter(log.blocks, log.info)
    case Closing(_) => log.File? && (log.info.declared ==> RemainingAfter(log.blocks, log.info) == 0)
    case Ended(r) => r != Done
  }

  ghost predicate Inv(input: Input, p: Phase, w: World, log: Log) {
    && InputAt(input, w) && LogOk(input, log) && log.End() + |w.input| <= |input|
    && w.calls == CallsOf(log) && PhaseOk(p, log)
  }

  /** The receive succeeded: all of the declared size was written, and the block that
      closes the batch arrived after everything else. */
  ghost predicate Complete(input: Input, log: Log) {
    && log.File? && (log.info.declared ==> RemainingAfter(log.blocks, log.info) == 0)
    && exists a :: Arrived(input, a, 0) && log.End() <= a.at && a.data[0] == 0
  }

  lemma BlockArrives(input: Input, w: World) returns (a: Arrival)
    requires InputAt(input, w) && NextItem(w.input).0.Block?
    ensures var (item, rest) := NextItem(w.input);
      && a.data == item.data && Arrived(input, a, item.num)
      && |input| - |w.input| <= a.at && a.End() + |rest| == |input|
      && InputAt(input, w.(input := rest))
  {
    hide NextItem, Frame, IsFrame;
    var (item, rest) := NextItem(w.input);
    var kind, at := BlockCame(w.input);
    var start := |input| - |w.input|;
    a := Arrival(start + at, kind, item.data);
    var f := Bytes(Frame(kind, item.num, item.data));
    assert input[a.at..] == w.input[at..];
    assert input[a.at..a.End()] == f;
    assert rest == input[a.End()..];
  }

  lemma RestStays(input: Input, w: World)
    requires InputAt(input, w)
    ensures InputAt(input, w.(input := NextItem(w.input).1))
  {
    hide ReadBody, WaitHeader;
    ItemRest(w.input);
    var rest := NextItem(w.input).1;
    assert rest == w.input[|w.input| - |rest|..];
  }

  /** What is left is the end of what there was. */
  lemma ItemRest(input: Input)
    ensures AtEnd(input, NextItem(input).1)
  {
    hide ReadBody, WaitHeader, AtEnd;
    var (h, rest) := WaitHeader(input, DISCARD_MAX);
    HeaderRest(input, DISCARD_MAX);
    if h.Start? && h.kind != EOT {
      BodyRest(rest, h.kind);
      EndOfEnd(input, rest, NextItem(input).1);
    }
  }

  lemma {:induction false} HeaderRest(input: Input, n: nat)
    ensures AtEnd(input, WaitHeader(input, n).1)
    decreases n
  {
    hide IsStart, AtEnd;
    var rest := Rest(input);
    AllAtEnd(input);
    RestAtEnd(input);
    if n > 0 && First(input).Got? && !IsStart(input[0].b) {
      if input[0].b == CAN {
        RestAtEnd(rest);
        EndOfEnd(input, rest, Rest(rest));
        HeaderRest(Rest(rest), n - 1);
        EndOfEnd(input, Rest(rest), WaitHeader(Rest(rest), n - 1).1);
      } else {
        HeaderRest(rest, n - 1);
        EndOfEnd(input, rest, WaitHeader(rest, n - 1).1);
      }
    }
  }

  lemma BodyRest(input: Input, kind: bv8)
    ensures AtEnd(input, ReadBody(input, kind).1)
  {
    hide ReadBytes, CrcFits, Not, AtEnd;
    var (num, i1) := ReadBytes(input, 1);
    var (inv, i2) := ReadBytes(i1, 1);
    var (data, i3) := ReadBytes(i2, SizeOf(kind));
    ReadAtEnd(input, 1);
    ReadAtEnd(i1, 1);
    ReadAtEnd(i2, SizeOf(kind));
    ReadAtEnd(i3, 2);
    EndOfEnd(input, i1, i2);
    EndOfEnd(input, i2, i3);
    EndOfEnd(input, i3, ReadBytes(i3, 2).1);
  }

  lemma {:induction false} DrainRest(input: Input, n: nat)
    ensures AtEnd(input, Drain(input, n))
    decreases n
  {
    hide AtEnd;
    AllAtEnd(input);
    RestAtEnd(input);
    if n > 0 && First(input).Got? {
      DrainRest(Rest(input), n - 1);
      EndOfEnd(input, Rest(input), Drain(Rest(input), n - 1));
    }
  }

  // ---- one step ------------------------------------------------------------------------------------

  /** The plan asks of the sink exactly what the new entries of the log say. */
  ghost predicate PlanFits(input: Input, plan: Plan, log: Log, log': Log) {
    && CallsOf(log') == CallsOf(log) + (if plan.call.Some? then [plan.call.value] else [])
    && (PhaseOk(plan.next, log') || (plan.next == Ended(Done) && Complete(input, log')))
  }

  /** The last frame the log may end with: the one the item came in. */
  ghost predicate ItemOk(input: Input, item: Item, a: Arrival, log: Log) {
    item.Block? ==> a.data == item.data && Arrived(input, a, item.num) && log.End() <= a.at
  }

  lemma HandshakeFits(input: Input, attempts: nat, item: Item, a: Arrival, log: Log) returns (log': Log)
    requires LogOk(input, log) && PhaseOk(Handshake(attempts), log) && ItemOk(input, item, a, log)
    requires item.Block? ==> |item.data| >= BLOCK0_LEN
    ensures LogOk(input, log') && log'.End() <= (if item.Block? then a.End() else log.End())
    ensures PlanFits(input, OnHandshake(attempts, item), log, log')
  {
    hide Arrived, ParseBlock0;
    log' := log;
    if item.Block? && item.num == 0 && ParseBlock0(item.data).Some? && ParseBlock0(item.data).value.name != [] {
      log' := File(a, ParseBlock0(item.data).value, []);
      assert CallsOf(log') == [Begin(log'.info.name, log'.info.size)];
      assert SeqOf(0) == 0;
    }
  }

  lemma LogMore(input: Input, log: Log, a: Arrival)
    requires LogOk(input, log) && log.File? && log.End() <= a.at && Arrived(input, a, SeqOf(|log.blocks| + 1))
    ensures LogOk(input, log.(blocks := log.blocks + [a])) && log.(blocks := log.blocks + [a]).End() == a.End()
  {
    hide Arrived, ParseBlock0, SeqOf;
    var log' := log.(blocks := log.blocks + [a]);
    forall i | 0 <= i < |log'.blocks|
      ensures Arrived(input, log'.blocks[i], SeqOf(i + 1))
      ensures Before(log'.first, log'.blocks, i) <= log'.blocks[i].at
    {
      if i < |log.blocks| {
        assert log'.blocks[i] == log.blocks[i];
        assert Before(log'.first, log'.blocks, i) == Before(log.first, log.blocks, i);
      }
    }
  }

  lemma CallsMore(log: Log, a: Arrival)
    requires log.File?
    ensures CallsOf(log.(blocks := log.blocks + [a])) == CallsOf(log) + WriteOf(Taken(a.data, log.info.declared, RemainingAfter(log.blocks, log.info)))
    ensures RemainingAfter(log.blocks + [a], log.info) ==
      var r := RemainingAfter(log.blocks, log.info); if log.info.declared then r - |Taken(a.data, true, r)| else r
  {
    hide Taken;
    assert (log.blocks + [a])[..|log.blocks|] == log.blocks;
  }

  /** The block that is due: delivered, and the next one is due. */
  lemma DueFits(input: Input, p: Phase, item: Item, a: Arrival, log: Log)
    requires p.Receiving? && PhaseOk(p, log) && item.Block? && a.data == item.data
    requires item.num == p.due && item.num != NumBefore(p.due)
    ensures PlanFits(input, OnReceiving(p, item), log, log.(blocks := log.blocks + [a]))
  {
    hide CallsOf, RemainingAfter, Complete, NumAfter, NumBefore;
    CallsMore(log, a);
    DueNext(|log.blocks| + 1);
    TakenSame(item.data, p.declared, p.remaining);
  }

  lemma TakenSame(data: seq<bv8>, declared: bool, remaining: nat)
    ensures declared ==> Taken(data, declared, remaining) == Taken(data, true, remaining)
  {
  }

  lemma ReceivingFits(input: Input, p: Phase, item: Item, a: Arrival, log: Log) returns (log': Log)
    requires p.Receiving? && LogOk(input, log) && PhaseOk(p, log) && ItemOk(input, item, a, log)
    ensures LogOk(input, log') && log'.End() <= (if item.Block? then a.End() else log.End())
    ensures PlanFits(input, OnReceiving(p, item), log, log')
  {
    hide Arrived, ParseBlock0, LogOk, CallsOf, Complete, RemainingAfter, SeqOf;
    log' := log;
    if item.Block? && item.num != NumBefore(p.due) && item.num == p.due {
      LogMore(input, log, a);
      log' := log.(blocks := log.blocks + [a]);
      DueFits(input, p, item, a, log);
    }
  }

  lemma DueNext(k: nat)
    ensures SeqOf(k + 1) == NumAfter(SeqOf(k))
  {
  }

  lemma ClosingFits(input: Input, attempts: nat, item: Item, a: Arrival, log: Log)
    requires LogOk(input, log) && PhaseOk(Closing(attempts), log) && ItemOk(input, item, a, log)
    requires item.Block? ==> |item.data| >= BLOCK0_LEN
    ensures PlanFits(input, OnClosing(attempts, item), log, log)
  {
    hide Arrived, ParseBlock0, LogOk;
  }

  lemma PlanKeeps(input: Input, p: Phase, item: Item, a: Arrival, log: Log) returns (log': Log)
    requires !p.Ended? && LogOk(input, log) && PhaseOk(p, log) && ItemOk(input, item, a, log)
    requires item.Block? ==> |item.data| >= BLOCK0_LEN
    ensures LogOk(input, log') && log'.End() <= (if item.Block? then a.End() else log.End())
    ensures PlanFits(input, On(p, item), log, log')
  {
    hide LogOk, PhaseOk, ItemOk, PlanFits, OnHandshake, OnReceiving, OnClosing;
    match p {
      case Handshake(attempts) => log' := HandshakeFits(input, attempts, item, a, log);
      case Receiving(_, _, _, _, _) => log' := ReceivingFits(input, p, item, a, log);
      case Closing(attempts) =>
        ClosingFits(input, attempts, item, a, log);
        assert log.End() <= (if item.Block? then a.End() else log.End()) by { EndAfter(input, item, a, log); }
        log' := log;
    }
  }

  lemma EndAfter(input: Input, item: Item, a: Arrival, log: Log)
    requires ItemOk(input, item, a, log)
    ensures log.End() <= (if item.Block? then a.End() else log.End())
  {
    hide Arrived;
  }

  /** The run stops or goes on with everything kept. */
  ghost predicate Kept(input: Input, p: Phase, w: World, log: Log) {
    if p == Ended(Done) then LogOk(input, log) && w.calls == CallsOf(log) && Complete(input, log)
    else Inv(input, p, w, log)
  }

  lemma ActKeeps(input: Input, plan: Plan, w: World, log: Log, log': Log)
    requires InputAt(input, w) && LogOk(input, log') && w.calls == CallsOf(log) && log'.End() + |w.input| <= |input|
    requires PlanFits(input, plan, log, log')
    ensures Kept(input, Act(plan, w).0, Act(plan, w).1, log')
  {
    hide LogOk, CallsOf, Complete, Drain, Emit;
    DrainRest(w.input, DISCARD_MAX);
    var w1 := if plan.drain then w.(input := Drain(w.input, DISCARD_MAX)) else w;
    assert InputAt(input, w1);
    EmitKeeps(plan.outs, plan.next, w1);
    if plan.call.Some? {
      EmitKeeps(plan.outs, plan.next, CallSink(w1, plan.call.value));
    }
    assert PhaseOk(Ended(ErrIo), log') && PhaseOk(Ended(ErrSink), log');
  }

  lemma StepKeeps(input: Input, p: Phase, w: World, log: Log) returns (log': Log)
    requires !p.Ended? && Inv(input, p, w, log)
    ensures Kept(input, Step(p, w).0, Step(p, w).1, log')
  {
    hide LogOk, CallsOf, PhaseOk, NextItem, On, Act, PlanFits, Arrived, InputAt;
    var (item, rest) := NextItem(w.input);
    var a := Arrival(0, SOH, []);
    if item.Block? {
      a := BlockArrives(input, w);
    } else {
      RestStays(input, w);
    }
    log' := PlanKeeps(input, p, item, a, log);
    ActKeeps(input, On(p, item), w.(input := rest), log, log');
  }

  lemma {:induction false} RunKeeps(input: Input, p: Phase, w: World, log: Log) returns (log': Log)
    requires Inv(input, p, w, log)
    ensures LogOk(input, log') && Run(p, w).1.calls == CallsOf(log')
    ensures Run(p, w).0 == Done ==> Complete(input, log')
    decreases |w.input|, Left(p)
  {
    hide LogOk, CallsOf, Step, Complete, InputAt, Left;
    log' := log;
    if !p.Ended? {
      StepProgress(p, w);
      var (p', w') := Step(p, w);
      log' := StepKeeps(input, p, w, log);
      if p' != Ended(Done) {
        log' := RunKeeps(input, p', w', log');
      }
    }
  }

  // ---- what is said on the line ------------------------------------------------------------------------

  /** All of it single bytes: a cancel is none of them. */
  ghost predicate SingleBytes(sent: seq<seq<bv8>>) {
    forall i :: 0 <= i < |sent| ==> |sent[i]| == 1
  }

  lemma {:induction false} EmitSays(outs: seq<Out>, next: Phase, w: World)
    requires SingleBytes(w.sent)
    ensures SingleBytes(Emit(outs, next, w).1.sent)
    decreases |outs|
  {
    if outs != [] {
      EmitSays(outs[1..], next, Put(w, [outs[0].b]));
    }
  }

  lemma {:induction false} RunSays(p: Phase, w: World)
    requires SingleBytes(w.sent)
    ensures SingleBytes(Run(p, w).1.sent)
    decreases |w.input|, Left(p)
  {
    hide SingleBytes, NextItem, On, Left, Drain, Emit;
    if !p.Ended? {
      StepProgress(p, w);
      var (item, rest) := NextItem(w.input);
      var plan := On(p, item);
      var w1 := w.(input := rest);
      var w2 := if plan.drain then w1.(input := Drain(rest, DISCARD_MAX)) else w1;
      EmitSays(plan.outs, plan.next, w2);
      if plan.call.Some? {
        EmitSays(plan.outs, plan.next, CallSink(w2, plan.call.value));
      }
      var (p', w') := Step(p, w);
      RunSays(p', w');
    }
  }

  // ---- a refusal of the sink is final ---------------------------------------------------------------------

  predicate Allowed(script: seq<bool>, i: nat) {
    i < |script| ==> script[i]
  }

  function ScriptAfter(script: seq<bool>, n: nat): seq<bool> {
    if n <= |script| then script[n..] else []
  }

  /** All calls so far succeeded, or the last one ended the run. */
  ghost predicate SinkObeyed(script: seq<bool>, p: Phase, w: World) {
    if p == Ended(ErrSink) then
      && w.calls != [] && !Allowed(script, |w.calls| - 1)
      && forall i :: 0 <= i < |w.calls| - 1 ==> Allowed(script, i)
    else
      && w.sinks == ScriptAfter(script, |w.calls|)
      && forall i :: 0 <= i < |w.calls| ==> Allowed(script, i)
  }

  lemma {:induction false} EmitSinks(outs: seq<Out>, next: Phase, w: World)
    ensures Emit(outs, next, w).1.sinks == w.sinks
    decreases |outs|
  {
    if outs != [] {
      EmitSinks(outs[1..], next, Put(w, [outs[0].b]));
    }
  }

  lemma NeverSinkError(p: Phase, item: Item)
    requires !p.Ended? && (item.Block? ==> |item.data| >= BLOCK0_LEN)
    ensures On(p, item).next != Ended(ErrSink)
  {
    hide ParseBlock0;
  }

  lemma StepObeys(script: seq<bool>, p: Phase, w: World)
    requires !p.Ended? && SinkObeyed(script, p, w)
    ensures SinkObeyed(script, Step(p, w).0, Step(p, w).1)
  {
    hide NextItem, On, Drain, Emit;
    var (item, rest) := NextItem(w.input);
    NeverSinkError(p, item);
    var plan := On(p, item);
    var w1 := w.(input := rest);
    var w2 := if plan.drain then w1.(input := Drain(rest, DISCARD_MAX)) else w1;
    EmitKeeps(plan.outs, plan.next, w2);
    EmitSinks(plan.outs, plan.next, w2);
    if plan.call.Some? {
      var w3 := CallSink(w2, plan.call.value);
      EmitKeeps(plan.outs, plan.next, w3);
      EmitSinks(plan.outs, plan.next, w3);
    }
  }

  lemma {:induction false} RunObeys(script: seq<bool>, p: Phase, w: World)
    requires SinkObeyed(script, p, w)
    ensures SinkObeyed(script, Ended(Run(p, w).0), Run(p, w).1)
    decreases |w.input|, Left(p)
  {
    hide SinkObeyed, Step, Left;
    if !p.Ended? {
      StepProgress(p, w);
      StepObeys(script, p, w);
      var (p', w') := Step(p, w);
      RunObeys(script, p', w');
    }
  }

  /** No call of the sink follows one that failed, and the result says so exactly then. */
  lemma RefusalIsFinal(w: World)
    requires w.sent == [] && w.calls == []
    ensures var (r, w') := Receive(w);
      && (forall i :: 0 <= i < |w'.calls| - 1 ==> Allowed(w.sinks, i))
      && (r == ErrSink <==> w'.calls != [] && !Allowed(w.sinks, |w'.calls| - 1))
  {
    hide Run, Emit;
    EmitKeeps(Say(CRC_C), Handshake(0), w);
    EmitSinks(Say(CRC_C), Handshake(0), w);
    var (p, w') := Emit(Say(CRC_C), Handshake(0), w);
    RunObeys(w.sinks, p, w');
  }

  // ---- the contract -----------------------------------------------------------------------------------------

  /** On every input, whatever the line and the sink do: the sink is begun at most once and
      before any write, for an intact block 0 that names a file; the writes are the data of
      intact blocks numbered 1, 2, 3, ... in the order they arrived, cut to the declared size;
      success means that the whole declared size was written and that the closing block
      arrived after it all; everything else ends with one cancel, and success with none. */
  lemma ReceiveContract(w: World) returns (log: Log)
    requires w.sent == [] && w.calls == []
    ensures LogOk(w.input, log) && Receive(w).1.calls == CallsOf(log)
    ensures Receive(w).0 == Done ==> Complete(w.input, log) && SingleBytes(Receive(w).1.sent)
    ensures Receive(w).0 != Done ==>
      var sent := Receive(w).1.sent; sent != [] && sent[|sent| - 1] == CANCEL && SingleBytes(sent[..|sent| - 1])
  {
    hide LogOk, Run, Complete, Emit;
    EmitKeeps(Say(CRC_C), Handshake(0), w);
    EmitSays(Say(CRC_C), Handshake(0), w);
    var (p, w') := Emit(Say(CRC_C), Handshake(0), w);
    assert LogOk(w.input, NoFile) by { EmptyLog(w.input); }
    assert Inv(w.input, p, w', NoFile);
    log := RunKeeps(w.input, p, w', NoFile);
    RunSays(p, w');
    var (r, w2) := Run(p, w');
    assert (w2.sent + [CANCEL])[..|w2.sent|] == w2.sent;
  }

  lemma EmptyLog(input: Input)
    ensures LogOk(input, NoFile)
  {
  }

  /** A declared size is never exceeded, and success writes all of it. */
  lemma DeclaredSizeKept(w: World) returns (log: Log)
    requires w.sent == [] && w.calls == []
    ensures log.File? && log.info.declared ==> |Written(Receive(w).1.calls)| <= log.info.size
    ensures Receive(w).0 == Done ==> log.File? && (log.info.declared ==> |Written(Receive(w).1.calls)| == log.info.size)
    ensures Receive(w).1.calls == CallsOf(log)
  {
    hide LogOk, Receive, Run;
    log := ReceiveContract(w);
    if log.File? {
      Conserved(log.blocks, log.info);
      var b := [Begin(log.info.name, log.info.size)];
      WrittenJoin(b, WritesOf(log.blocks, log.info));
      assert b[..0] == [];
    }
  }
}
