/** The control flow of one function body, instruction by instruction: where it can
    go next, which calls it makes and what is refused. */
module BodyRules {
  import opened Graph
  import opened Thumb
  import opened ReturnAnalysis

  /** A function's extent.  `code` is what was decoded of it, in address order;
      `problems` counts the faults of its symbols and regions. */
  datatype Node = Node(addr: int, end: int, code: seq<Insn>, problems: nat, datas: seq<(int, int)>)

  /** The functions of an image by entry address, and its code words. */
  datatype Image = Image(nodes: map<int, Node>, words: map<int, int>)

  datatype EdgeKind = CallEdge | TailEdge | VeneerEdge

  datatype Edge = Edge(callee: int, kind: EdgeKind, at: int)

  datatype ErrKind =
    | Frame | NoEntry | ItRunsOut | ItBranch | Exception | Security
    | Indirect(register: bool)  // register: through r0-r12, which a named crossing may take
    | BadTarget | IntoIt | NotAnInsn | LoopLeaves | FallsOff
    | VeneerLiteral | Joins | StoreAbove | LeaveBad

  datatype Err = Err(at: int, kind: ErrKind)

  ghost predicate WellLaid(code: seq<Insn>) {
    && (forall i :: 0 <= i < |code| ==> code[i].size > 0)
    && (forall i, j :: 0 <= i < j < |code| ==> code[i].addr + code[i].size <= code[j].addr)
  }

  // ---- the instructions by address -------------------------------------------

  function InsnMap(code: seq<Insn>): map<int, Insn> {
    if code == [] then map[]
    else InsnMap(code[..|code| - 1])[code[|code| - 1].addr := code[|code| - 1]]
  }

  lemma {:induction false} InsnMapKeys(code: seq<Insn>, a: int)
    requires WellLaid(code)
    ensures a in InsnMap(code) <==> exists i :: 0 <= i < |code| && code[i].addr == a
    ensures a in InsnMap(code) ==> InsnMap(code)[a] in code && InsnMap(code)[a].addr == a
  {
    if code != [] {
      var init := code[..|code| - 1];
      InsnMapKeys(init, a);
      if i :| 0 <= i < |code| && code[i].addr == a {
        assert i == |code| - 1 || init[i].addr == a;
      }
      if a in InsnMap(init) {
        var i :| 0 <= i < |init| && init[i].addr == a;
        assert code[i].addr == a;
      }
    }
  }

  lemma {:induction false} InsnMapAt(code: seq<Insn>, i: nat)
    requires WellLaid(code) && i < |code|
    ensures code[i].addr in InsnMap(code) && InsnMap(code)[code[i].addr] == code[i]
  {
    if i < |code| - 1 {
      InsnMapAt(code[..|code| - 1], i);
    }
  }

  // ---- IT blocks -----------------------------------------------------------

  predicate OpensBlock(code: seq<Insn>, k: int) {
    0 <= k < |code| && code[k].flow == It
  }

  /** code[i] follows its predecessor without a gap. */
  predicate Adjoins(code: seq<Insn>, i: int) {
    0 < i < |code| && code[i].addr == code[i - 1].addr + code[i - 1].size
  }

  /** code[k + m] is the m-th instruction of the IT block that code[k] opens. */
  ghost predicate InBlock(code: seq<Insn>, k: int, m: int) {
    && OpensBlock(code, k) && 1 <= m <= code[k].itlen && k + m < |code|
    && forall j :: k < j <= k + m ==> Adjoins(code, j)
  }

  /** The addresses of the conditional instructions. */
  ghost function ItSet(code: seq<Insn>): set<int> {
    set k, m | 0 <= k < |code| && 0 <= m < |code| && InBlock(code, k, m) :: code[k + m].addr
  }

  /** What may not stand at place m of an IT block of itlen instructions. */
  predicate BadInIt(inner: Insn, m: int, itlen: int) {
    || inner.flow in {It, Cbz, Bcc, Le, Wls}
    || (inner.flow !in {Seq, Undef, Trap} && m != itlen)
  }

  /** Every IT block is complete and holds only what may stand in it. */
  ghost predicate ItBlocksOk(code: seq<Insn>) {
    && (forall k, m :: OpensBlock(code, k) && 1 <= m <= code[k].itlen ==> InBlock(code, k, m))
    && (forall k, m :: InBlock(code, k, m) ==> !BadInIt(code[k + m], m, code[k].itlen))
  }

  // ---- one instruction ------------------------------------------------------

  predicate Branches(f: Flow) {
    f in {B, Bcc, Cbz, Le, Wls}
  }

  predicate Inside(node: Node, t: int) {
    node.addr < t < node.end
  }

  /** May control pass to the instruction after this one? */
  predicate Falls(ins: Insn, cond: bool) {
    if ins.flow in {B, RetLr, RetPop, IndJump, LitPc} then cond
    else if ins.flow == Le then !ins.forever || cond
    else ins.flow !in {Trap, Undef, Secure}
  }

  predicate FallOk(insns: map<int, Insn>, inIt: set<int>, ins: Insn) {
    ins.Fall() in insns && (ins.Fall() !in inIt || ins.flow == It || ins.addr in inIt)
  }

  predicate TargetOk(insns: map<int, Insn>, inIt: set<int>, node: Node, t: int) {
    Inside(node, t) && t in insns && t !in inIt
  }

  /** Where control can go next inside the body. */
  function Next(insns: map<int, Insn>, inIt: set<int>, node: Node, ins: Insn): seq<int> {
    (if Branches(ins.flow) && ins.target.Some? && TargetOk(insns, inIt, node, ins.target.value) then [ins.target.value] else [])
    + (if Falls(ins, ins.addr in inIt) && FallOk(insns, inIt, ins) then [ins.Fall()] else [])
  }

  /** The calls and tail calls the instruction makes. */
  function CallsOf(image: Image, node: Node, ins: Insn): seq<Edge> {
    if ins.target.None? then []
    else
      var t := ins.target.value;
      if ins.flow == Bl && t in image.nodes then [Edge(t, CallEdge, ins.addr)]
      else if ins.flow in {B, Bcc, Cbz} && !Inside(node, t) && t in image.nodes then [Edge(t, TailEdge, ins.addr)]
      else []
  }

  function TransferErrs(ins: Insn): seq<Err> {
    match ins.flow
    case Trap => [Err(ins.addr, Exception)]
    case Secure => [Err(ins.addr, Security)]
    case IndCall => [Err(ins.addr, Indirect(ins.crossing))]
    case IndJump => [Err(ins.addr, Indirect(ins.crossing))]
    case LitPc => [Err(ins.addr, Indirect(false))]
    case _ => []
  }

  function TargetErrs(image: Image, insns: map<int, Insn>, inIt: set<int>, node: Node, ins: Insn): seq<Err> {
    if ins.flow != Bl && !Branches(ins.flow) then []
    else if ins.target.None? then [Err(ins.addr, BadTarget)]
    else
      var t := ins.target.value;
      if ins.flow == Bl then (if t in image.nodes then [] else [Err(ins.addr, BadTarget)])
      else if Inside(node, t) then
        if t !in insns then [Err(ins.addr, NotAnInsn)]
        else if t in inIt then [Err(ins.addr, IntoIt)]
        else []
      else if ins.flow in {Le, Wls} then [Err(ins.addr, LoopLeaves)]
      else if t in image.nodes then []
      else [Err(ins.addr, BadTarget)]
  }

  function FallErrs(insns: map<int, Insn>, inIt: set<int>, ins: Insn): seq<Err> {
    if Falls(ins, ins.addr in inIt) && !FallOk(insns, inIt, ins) then [Err(ins.addr, FallsOff)] else []
  }

  /** Everything refused at one reached instruction. */
  function FlowErrs(image: Image, insns: map<int, Insn>, inIt: set<int>, node: Node, ins: Insn): seq<Err> {
    TransferErrs(ins) + TargetErrs(image, insns, inIt, node, ins) + FallErrs(insns, inIt, ins)
  }

  // ---- leaving the body -------------------------------------------------------

  /** The first load into pc. */
  function PcLoad(ld: seq<Load>): Option<Load> {
    if ld == [] then None else if ld[0].dest == PC then Some(ld[0]) else PcLoad(ld[1..])
  }

  /** `bx lr` and a pop into pc return to the caller, with sp as it was; a tail call
      and a register branch hand both on. */
  predicate ReturnOk(st: Abs, ins: Insn)
    requires st.Ok()
  {
    if ins.flow == RetLr then st.ra && st.sp == Some(0)
    else if ins.flow == RetPop then
      && PcLoad(ins.ld).Some?
      && (var l := PcLoad(ins.ld).value; Addr(st, l.base, l.off).Some? && Addr(st, l.base, l.off).value in st.slots)
      && st.sp.Some? && st.sp.value + ins.sp == 0
    else true
  }

  predicate HandOverOk(st: Abs) {
    st.ra && st.sp == Some(0)
  }

  predicate StoresOk(st: Abs, ins: Insn)
    requires st.Ok()
  {
    forall s :: s in ins.st && Addr(st, s.base, s.off).Some? && s.n.Some? ==>
      Addr(st, s.base, s.off).value + s.n.value <= 0
  }

  // ---- an accepted body -------------------------------------------------------

  /** How far one decoded instruction lowers sp. */
  function Drop(ins: Insn): nat {
    if ins.flow != Undef && SP in ins.wr && ins.spKnown && ins.sp < 0 then -ins.sp else 0
  }

  /** The summed drop of sp over the instructions of a body, each counted once. */
  function FrameOf(code: seq<Insn>): nat {
    if code == [] then 0
    else
      var ins := code[|code| - 1];
      FrameOf(code[..|code| - 1]) + Drop(ins)
  }

  ghost predicate Overlapped(image: Image, node: Node) {
    exists a :: a in image.nodes && Inside(node, a)
  }

  /** The instruction decodes, and its change of sp is a known constant. */
  predicate InsnOk(ins: Insn) {
    ins.flow != Undef && (SP in ins.wr ==> ins.spKnown)
  }

  /** No fault of the whole extent: symbols, regions, encodings, changes of sp. */
  ghost predicate ExtentOk(image: Image, node: Node) {
    && node.problems == 0 && !Overlapped(image, node)
    && forall ins :: ins in node.code ==> InsnOk(ins)
  }

  /** What the analysis found of one body: the reached instructions, the edges
      between them and the state at each. */
  datatype Findings = Findings(seen: set<int>, succ: Succ, IN: States)

  ghost predicate FlowKnown(node: Node, f: Findings) {
    var insns, inIt := InsnMap(node.code), ItSet(node.code);
    && node.addr in f.seen && f.seen <= insns.Keys && f.succ.Keys == f.seen
    && (forall a :: a in f.seen ==> f.succ[a] == Next(insns, inIt, node, insns[a]))
    && Closed(f.succ, f.seen)
    && (forall a :: a in f.seen ==> Reach(f.succ, node.addr, a))
  }

  ghost predicate FlowOk(image: Image, node: Node, f: Findings)
    requires FlowKnown(node, f)
  {
    forall a :: a in f.seen ==>
      FlowErrs(image, InsnMap(node.code), ItSet(node.code), node, InsnMap(node.code)[a]) == []
  }

  /** No reached change of sp lies on a cycle. */
  ghost predicate LoopsOk(node: Node, f: Findings)
    requires FlowKnown(node, f)
  {
    forall a :: a in f.seen && SP in InsnMap(node.code)[a].wr ==> !OnCycle(f.succ, a)
  }

  ghost predicate StatesKnown(node: Node, f: Findings)
    requires FlowKnown(node, f)
  {
    && f.IN.Keys <= f.seen && (forall a :: a in f.IN ==> f.IN[a].Ok())
    && node.addr in f.IN && Leq(f.IN[node.addr], Entry())
    && Fixpoint(InsnMap(node.code), ItSet(node.code), f.succ, f.IN)
  }

  ghost predicate ReturnsOk(image: Image, node: Node, f: Findings)
    requires FlowKnown(node, f) && StatesKnown(node, f)
  {
    && AllSpKnown(f.IN)
    && (forall a :: a in f.IN ==> NoClash(InsnMap(node.code), ItSet(node.code), f.succ, f.IN, a))
    && (forall a :: a in f.IN ==> StoresOk(f.IN[a], InsnMap(node.code)[a]) && ReturnOk(f.IN[a], InsnMap(node.code)[a]))
    && (forall a :: a in f.IN && TailCalls(image, node, InsnMap(node.code)[a]) ==> HandOverOk(f.IN[a]))
  }

  predicate TailCalls(image: Image, node: Node, ins: Insn) {
    exists e :: e in CallsOf(image, node, ins) && e.kind == TailEdge
  }

  /** A body the analysis accepts. */
  ghost predicate Accepted(image: Image, node: Node, f: Findings) {
    && ExtentOk(image, node) && ItBlocksOk(node.code)
    && FlowKnown(node, f) && FlowOk(image, node, f) && LoopsOk(node, f)
    && StatesKnown(node, f) && ReturnsOk(image, node, f)
  }

  // ---- veneers ---------------------------------------------------------------

  /** The word at a is the Thumb entry of a function. */
  function ThumbEntry(image: Image, a: int): Option<int> {
    if a !in image.words || image.words[a] % 2 == 0 then None
    else if image.words[a] - 1 in image.nodes then Some(image.words[a] - 1)
    else None
  }

  /** The body is a load of pc from a literal of its own data. */
  predicate VeneerShape(node: Node, ins: Insn) {
    ins.flow == LitPc && ins.target.Some? && exists d :: d in node.datas && d.0 <= ins.target.value && ins.target.value + 4 <= d.1
  }
}
