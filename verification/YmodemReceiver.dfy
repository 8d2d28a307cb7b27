/** The receiver as a machine: what it does with each item it waits for, and the whole
    run of a receive over any input. */
module YmodemReceiver {
  import opened Thumb
  import opened YmodemWire
  import opened YmodemBlock0

  const HANDSHAKE_RETRIES: nat := 40
  const BLOCK_RETRIES: nat := 10

  datatype Result = Done | ErrCancel | ErrTimeout | ErrSource | ErrIo | ErrSink | ErrProto

  // ---- the surroundings -------------------------------------------------------------------

  datatype Call = Begin(name: seq<bv8>, size: nat) | Write(data: seq<bv8>)

  /** The line and the sink: what will be read, which writes to the line and which calls
      of the sink succeed (those not listed do), and the record of both. */
  datatype World = World(input: Input, puts: seq<bool>, sent: seq<seq<bv8>>, sinks: seq<bool>, calls: seq<Call>)

  function Takes(script: seq<bool>): bool {
    script == [] || script[0]
  }

  function Later(script: seq<bool>): seq<bool> {
    if script == [] then [] else script[1..]
  }

  function Put(w: World, p: seq<bv8>): World {
    w.(puts := Later(w.puts), sent := w.sent + [p])
  }

  function CallSink(w: World, c: Call): World {
    w.(sinks := Later(w.sinks), calls := w.calls + [c])
  }

  // ---- one item ----------------------------------------------------------------------------

  /** `attempts` counts what went wrong since the last progress. */
  datatype Phase =
    | Handshake(attempts: nat)
    | Receiving(attempts: nat, due: bv8, prompt: bv8, declared: bool, remaining: nat)
    | Closing(attempts: nat)
    | Ended(result: Result)

  /** A byte for the sender; `checked` when a failure to put it ends the run. */
  datatype Out = Out(b: bv8, checked: bool)

  /** What an item makes the receiver do, in this order. */
  datatype Plan = Plan(drain: bool, call: Option<Call>, outs: seq<Out>, next: Phase)

  function Say(b: bv8): seq<Out> {
    [Out(b, true)]
  }

  function Give(r: Result): Plan {
    Plan(false, None, [], Ended(r))
  }

  /** Once more, unless the retries are used up. */
  function Retry(drain: bool, b: bv8, attempts: nat, limit: nat, next: Phase): Plan {
    if attempts + 1 > limit then Plan(drain, None, [], Ended(ErrTimeout)) else Plan(drain, None, Say(b), next)
  }

  function OnFileInfo(info: Option<FileInfo>): Plan {
    match info
    case None => Give(ErrProto)
    case Some(f) =>
      if f.name == [] then Plan(false, None, [Out(ACK, false)], Ended(ErrCancel))
      else Plan(false, Some(Begin(f.name, f.size)), Say(ACK) + Say(CRC_C), Receiving(0, 1, CRC_C, f.declared, f.size))
  }

  function OnHandshake(attempts: nat, item: Item): Plan
    requires item.Block? ==> |item.data| >= BLOCK0_LEN
  {
    match item
    case Stop => Give(ErrCancel)
    case Quiet => Retry(false, CRC_C, attempts, HANDSHAKE_RETRIES, Handshake(attempts + 1))
    case FileEnd => Plan(false, None, [Out(ACK, false)] + Say(CRC_C), Handshake(attempts))
    case Bad => Retry(true, CRC_C, attempts, HANDSHAKE_RETRIES, Handshake(attempts + 1))
    case Block(num, data) =>
      if num != 0 then Retry(true, CRC_C, attempts, HANDSHAKE_RETRIES, Handshake(attempts + 1))
      else OnFileInfo(ParseBlock0(data))
  }

  /** Block numbers are bytes. */
  function NumAfter(b: bv8): bv8 {
    b + 1
  }

  function NumBefore(b: bv8): bv8 {
    b - 1
  }

  /** What of a block goes to the sink. */
  function Taken(data: seq<bv8>, declared: bool, remaining: nat): (t: seq<bv8>)
    ensures declared ==> |t| <= remaining
  {
    if declared && remaining < |data| then data[..remaining] else data
  }

  function OnReceiving(p: Phase, item: Item): Plan
    requires p.Receiving?
  {
    match item
    case Stop => Give(ErrCancel)
    case Quiet => Retry(false, p.prompt, p.attempts, BLOCK_RETRIES, p.(attempts := p.attempts + 1))
    case FileEnd =>
      if p.declared && p.remaining != 0 then Give(ErrProto)
      else Plan(false, None, Say(ACK) + Say(CRC_C), Closing(0))
    case Bad => Plan(true, None, Say(NAK), p.(attempts := 0, prompt := NAK))
    case Block(num, data) =>
      if num == NumBefore(p.due) then Plan(false, None, Say(ACK), p.(attempts := 0, prompt := NAK))
      else if num != p.due then Give(ErrProto)
      else
        var t := Taken(data, p.declared, p.remaining);
        Plan(false, if t == [] then None else Some(Write(t)), Say(ACK),
             Receiving(0, NumAfter(p.due), NAK, p.declared, if p.declared then p.remaining - |t| else p.remaining))
  }

  function OnClosing(attempts: nat, item: Item): Plan
    requires item.Block? ==> |item.data| >= BLOCK0_LEN
  {
    match item
    case Stop => Give(ErrCancel)
    case Quiet => Retry(false, CRC_C, attempts, BLOCK_RETRIES, Closing(attempts + 1))
    case FileEnd => Plan(false, None, Say(ACK), Closing(attempts))
    case Bad => Retry(true, NAK, attempts, BLOCK_RETRIES, Closing(attempts + 1))
    case Block(num, data) =>
      if num != 0 || data[0] != 0 then Give(ErrProto)
      else Plan(false, None, [Out(ACK, false)], Ended(Done))
  }

  function On(p: Phase, item: Item): Plan
    requires !p.Ended? && (item.Block? ==> |item.data| >= BLOCK0_LEN)
  {
    match p
    case Handshake(attempts) => OnHandshake(attempts, item)
    case Receiving(_, _, _, _, _) => OnReceiving(p, item)
    case Closing(attempts) => OnClosing(attempts, item)
  }

  // ---- carrying a plan out ---------------------------------------------------------------------

  function Emit(outs: seq<Out>, next: Phase, w: World): (Phase, World)
    decreases |outs|
  {
    if outs == [] then (next, w)
    else
      var w' := Put(w, [outs[0].b]);
      if outs[0].checked && !Takes(w.puts) then (Ended(ErrIo), w') else Emit(outs[1..], next, w')
  }

  function Act(plan: Plan, w: World): (Phase, World) {
    var w1 := if plan.drain then w.(input := Drain(w.input, DISCARD_MAX)) else w;
    match plan.call
    case None => Emit(plan.outs, plan.next, w1)
    case Some(c) =>
      if Takes(w.sinks) then Emit(plan.outs, plan.next, CallSink(w1, c)) else (Ended(ErrSink), CallSink(w1, c))
  }

  function Step(p: Phase, w: World): (Phase, World)
    requires !p.Ended?
  {
    var (item, rest) := NextItem(w.input);
    Act(On(p, item), w.(input := rest))
  }

  // ---- every run ends ------------------------------------------------------------------------------

  /** How many more failures in a row the phase puts up with. */
  function Left(p: Phase): nat {
    match p
    case Handshake(a) => if a <= HANDSHAKE_RETRIES then HANDSHAKE_RETRIES - a + 2 else 1
    case Receiving(a, _, _, _, _) => if a <= BLOCK_RETRIES then BLOCK_RETRIES - a + 2 else 1
    case Closing(a) => if a <= BLOCK_RETRIES then BLOCK_RETRIES - a + 2 else 1
    case Ended(_) => 0
  }

  lemma {:induction false} EmitKeeps(outs: seq<Out>, next: Phase, w: World)
    ensures Emit(outs, next, w).1.input == w.input && Emit(outs, next, w).1.calls == w.calls
    ensures Emit(outs, next, w).0 == next || Emit(outs, next, w).0 == Ended(ErrIo)
    decreases |outs|
  {
    if outs != [] {
      EmitKeeps(outs[1..], next, Put(w, [outs[0].b]));
    }
  }

  /** Every wait uses up input or, when there is none, one of the retries left. */
  lemma StepProgress(p: Phase, w: World)
    requires !p.Ended?
    ensures var (p', w') := Step(p, w);
      |w'.input| < |w.input| || (|w'.input| == |w.input| && Left(p') < Left(p))
  {
    hide NextItem, Drain, ParseBlock0, Emit;
    var (item, rest) := NextItem(w.input);
    var plan := On(p, item);
    var w1 := w.(input := rest);
    var w2 := if plan.drain then w1.(input := Drain(rest, DISCARD_MAX)) else w1;
    EmitKeeps(plan.outs, plan.next, w2);
    if plan.call.Some? {
      EmitKeeps(plan.outs, plan.next, CallSink(w2, plan.call.value));
    }
    if w.input == [] {
      QuietPlan(p);
    }
  }

  lemma QuietPlan(p: Phase)
    requires !p.Ended?
    ensures !On(p, Quiet).drain && On(p, Quiet).call.None? && Left(On(p, Quiet).next) < Left(p)
  {
  }

  /** The run from a phase to its end. */
  function Run(p: Phase, w: World): (r: (Result, World))
    decreases |w.input|, Left(p)
  {
    if p.Ended? then (p.result, w)
    else
      StepProgress(p, w);
      var (p', w') := Step(p, w);
      Run(p', w')
  }

  /** A whole receive: the first prompt, the run, and a cancel after every failure. */
  function ReceiveRun(w: World): (Result, World) {
    var (p, w') := Emit(Say(CRC_C), Handshake(0), w);
    Run(p, w')
  }

  function Receive(w: World): (Result, World) {
    var (r, w') := ReceiveRun(w);
    (r, if r == Done then w' else Put(w', CANCEL))
  }
}
