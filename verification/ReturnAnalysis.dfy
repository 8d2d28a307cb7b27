/** The forward analysis of one body that proves its returns: where sp is, whether
    lr still holds the return address, which stack words hold it, and which
    registers hold sp plus a constant, on every path to an instruction. */
module ReturnAnalysis {
  import opened Graph
  import opened Thumb

  datatype Abs = Abs(sp: Option<int>, ra: bool, slots: set<int>, regs: seq<Option<int>>)
  {
    predicate Ok() {
      |regs| == 16
    }
  }

  /** The state at the entry of a body. */
  function Entry(): (st: Abs)
    ensures st.Ok()
  {
    Abs(Some(0), true, {}, seq(16, _ => None))
  }

  /** r as a position from the entry sp, if it is known to be one. */
  function Val(st: Abs, r: Reg): Option<int>
    requires st.Ok()
  {
    if r == SP then st.sp else if r == PC then None else st.regs[r]
  }

  function Addr(st: Abs, base: Reg, off: Option<int>): Option<int>
    requires st.Ok()
  {
    match (Val(st, base), off)
    case (Some(v), Some(o)) => Some(Wrap(v + o))
    case _ => None
  }

  // ---- meeting paths -------------------------------------------------------

  function MeetOpt(a: Option<int>, b: Option<int>): Option<int> {
    if a == b then a else None
  }

  function Meet(a: Abs, b: Abs): (m: Abs)
    requires a.Ok() && b.Ok()
    ensures m.Ok()
  {
    Abs(MeetOpt(a.sp, b.sp), a.ra && b.ra, a.slots * b.slots,
        seq(16, i requires 0 <= i < 16 => MeetOpt(a.regs[i], b.regs[i])))
  }

  /** Two known and different positions of sp meet: refused. */
  predicate Clash(a: Abs, b: Abs) {
    a.sp.Some? && b.sp.Some? && a.sp != b.sp
  }

  ghost predicate LeqOpt(a: Option<int>, b: Option<int>) {
    a.None? || a == b
  }

  /** a claims no more than b. */
  ghost predicate Leq(a: Abs, b: Abs)
    requires a.Ok() && b.Ok()
  {
    && LeqOpt(a.sp, b.sp)
    && (a.ra ==> b.ra)
    && a.slots <= b.slots
    && forall i :: 0 <= i < 16 ==> LeqOpt(a.regs[i], b.regs[i])
  }

  // ---- one instruction -----------------------------------------------------

  /** The position lr is loaded from, by the last load of a word into it. */
  function LrFrom(st: Abs, ld: seq<Load>): Option<int>
    requires st.Ok()
  {
    if ld == [] then None
    else
      var l := ld[|ld| - 1];
      if l.dest == LR && l.n == 4 then Addr(st, l.base, l.off) else LrFrom(st, ld[..|ld| - 1])
  }

  /** n bytes at a touch the word at x. */
  predicate Overlaps(x: int, a: int, n: int) {
    x < a + n && a < x + 4
  }

  /** The words that hold the return address after one store. */
  function AfterStore(st: Abs, slots: set<int>, s: Store): set<int>
    requires st.Ok()
  {
    match (Addr(st, s.base, s.off), s.n)
    case (Some(a), Some(n)) =>
      (set x | x in slots && !Overlaps(x, a, n)) + (if s.src == Some(LR) && st.ra && n == 4 then {a} else {})
    case _ => slots
  }

  function AfterStores(st: Abs, slots: set<int>, sts: seq<Store>): set<int>
    requires st.Ok()
    decreases sts
  {
    if sts == [] then slots else AfterStores(st, AfterStore(st, slots, sts[0]), sts[1..])
  }

  /** Registers a call may change: every one a callee need not preserve. */
  const CALL_CLOBBERS: set<int> := {0, 1, 2, 3, 12, 14}

  predicate IsCall(ins: Insn) {
    ins.flow == Bl || ins.flow == IndCall
  }

  function RegAfter(st: Abs, ins: Insn, r: Reg): Option<int>
    requires st.Ok()
  {
    if IsCall(ins) && r in CALL_CLOBBERS then None
    else if r in Loaded(ins.ld) then None
    else if ins.wb.Some? && ins.wb.value.base == r && r != SP then
      Addr(st, r, ins.wb.value.delta)
    else if ins.arith.Some? && ins.arith.value.rd == r then
      Addr(st, ins.arith.value.rn, Some(ins.arith.value.imm))
    else if r in ins.wr && r != SP && r != PC then None
    else st.regs[r]
  }

  function SpAfter(st: Abs, ins: Insn): Option<int> {
    if SP !in ins.wr then st.sp
    else if st.sp.Some? && ins.spKnown then Some(st.sp.value + ins.sp)
    else None
  }

  function Transfer(st: Abs, ins: Insn): (out: Abs)
    requires st.Ok()
    ensures out.Ok()
  {
    var slots := AfterStores(st, st.slots, ins.st);
    var from := LrFrom(st, ins.ld);
    var ra := if LR in ins.wr || IsCall(ins) then from.Some? && from.value in slots else st.ra;
    var sp := SpAfter(st, ins);
    Abs(sp, ra,
        if sp.Some? then set x | x in slots && sp.value <= x else slots,
        seq(16, r requires 0 <= r < 16 => RegAfter(st, ins, r)))
  }

  // ---- the edges of the flow graph -----------------------------------------

  /** An instruction that does not fall through when it is executed. */
  predicate Leaves(f: Flow) {
    f in {B, RetLr, RetPop, IndJump, LitPc}
  }

  predicate MixedEdge(ins: Insn, cond: bool, b: int) {
    !(ins.target == Some(b) && ins.flow != Seq && ins.flow != It) && cond && !Leaves(ins.flow)
  }

  /** The state on the edge to successor b of an instruction reached in state st. */
  function EdgeState(ins: Insn, cond: bool, st: Abs, b: int): (es: Abs)
    requires st.Ok()
    ensures es.Ok()
  {
    var ex := Transfer(st, ins);
    if ins.target == Some(b) && ins.flow != Seq && ins.flow != It then ex
    else if cond then (if Leaves(ins.flow) then st else Meet(ex, st))
    else ex
  }

  predicate EdgeClash(ins: Insn, cond: bool, st: Abs, b: int)
    requires st.Ok()
  {
    MixedEdge(ins, cond, b) && Clash(Transfer(st, ins), st)
  }

  // ---- the order of states -------------------------------------------------

  lemma MeetLeq(a: Abs, b: Abs)
    requires a.Ok() && b.Ok()
    ensures Leq(Meet(a, b), a) && Leq(Meet(a, b), b)
  {
  }

  /** The meet keeps all that both states claim. */
  lemma MeetGreatest(a: Abs, b: Abs, c: Abs)
    requires a.Ok() && b.Ok() && c.Ok() && Leq(c, a) && Leq(c, b)
    ensures Leq(c, Meet(a, b))
  {
    var m := Meet(a, b);
    forall i | 0 <= i < 16
      ensures LeqOpt(c.regs[i], m.regs[i])
    {
      assert LeqOpt(c.regs[i], a.regs[i]) && LeqOpt(c.regs[i], b.regs[i]);
    }
  }

  lemma LeqTrans(a: Abs, b: Abs, c: Abs)
    requires a.Ok() && b.Ok() && c.Ok() && Leq(a, b) && Leq(b, c)
    ensures Leq(a, c)
  {
  }

  // ---- the greatest solution -------------------------------------------------

  /** Only the registers of `regs` can come to hold sp plus a constant, and no store at a
      constant offset goes through any of them but sp. */
  ghost predicate Direct(insns: map<int, Insn>, regs: set<Reg>) {
    && SP in regs
    && (forall a :: a in insns && insns[a].arith.Some? && insns[a].arith.value.rn in regs ==> insns[a].arith.value.rd in regs)
    && (forall a :: a in insns ==> DirectStores(insns[a], regs))
  }

  ghost predicate DirectStores(ins: Insn, regs: set<Reg>) {
    forall s :: s in ins.st && s.off.Some? && s.n.Some? ==> s.base == SP || s.base == PC || s.base !in regs
  }

  /** No position is known of the other registers. */
  ghost predicate Within(st: Abs, regs: set<Reg>)
    requires st.Ok()
  {
    forall r: Reg :: r !in regs ==> st.regs[r].None?
  }

  lemma SameAddr(x: Abs, y: Abs, ins: Insn, s: Store, regs: set<Reg>)
    requires x.Ok() && y.Ok() && Leq(x, y) && x.sp.Some? && Within(y, regs) && DirectStores(ins, regs) && s in ins.st
    ensures s.n.Some? ==> Addr(x, s.base, s.off) == Addr(y, s.base, s.off)
  {
    assert LeqOpt(x.regs[s.base], y.regs[s.base]);
  }

  /** Who knows more of the saved words before some stores knows more after them. */
  lemma {:induction false} StoresRise(x: Abs, y: Abs, ins: Insn, regs: set<Reg>, xs: set<int>, ys: set<int>, sts: seq<Store>)
    requires x.Ok() && y.Ok() && Leq(x, y) && x.sp.Some? && Within(y, regs) && DirectStores(ins, regs)
    requires xs <= ys && forall s :: s in sts ==> s in ins.st
    ensures AfterStores(x, xs, sts) <= AfterStores(y, ys, sts)
    decreases sts
  {
    hide Addr, Within, DirectStores;
    if sts != [] {
      SameAddr(x, y, ins, sts[0], regs);
      StoresRise(x, y, ins, regs, AfterStore(x, xs, sts[0]), AfterStore(y, ys, sts[0]), sts[1..]);
    }
  }

  lemma {:induction false} LrFromRises(x: Abs, y: Abs, ld: seq<Load>)
    requires x.Ok() && y.Ok() && Leq(x, y)
    ensures LeqOpt(LrFrom(x, ld), LrFrom(y, ld))
  {
    if ld != [] {
      var l := ld[|ld| - 1];
      AddrRises(x, y, l.base, l.off);
      LrFromRises(x, y, ld[..|ld| - 1]);
    }
  }

  lemma AddrRises(x: Abs, y: Abs, base: Reg, off: Option<int>)
    requires x.Ok() && y.Ok() && Leq(x, y)
    ensures LeqOpt(Addr(x, base, off), Addr(y, base, off))
  {
    assert LeqOpt(x.regs[base], y.regs[base]);
  }

  lemma RegRises(x: Abs, y: Abs, ins: Insn, r: Reg)
    requires x.Ok() && y.Ok() && Leq(x, y)
    ensures LeqOpt(RegAfter(x, ins, r), RegAfter(y, ins, r))
  {
    hide Addr;
    if ins.wb.Some? {
      AddrRises(x, y, r, ins.wb.value.delta);
    }
    if ins.arith.Some? {
      AddrRises(x, y, ins.arith.value.rn, Some(ins.arith.value.imm));
    }
  }

  lemma TransferRises(x: Abs, y: Abs, ins: Insn, regs: set<Reg>)
    requires x.Ok() && y.Ok() && Leq(x, y) && x.sp.Some? && Within(y, regs) && DirectStores(ins, regs)
    ensures Leq(Transfer(x, ins), Transfer(y, ins))
  {
    hide RegAfter, AfterStores, LrFrom, Within, DirectStores;
    StoresRise(x, y, ins, regs, x.slots, y.slots, ins.st);
    LrFromRises(x, y, ins.ld);
    forall r | 0 <= r < 16
      ensures LeqOpt(Transfer(x, ins).regs[r], Transfer(y, ins).regs[r])
    {
      RegRises(x, y, ins, r);
    }
  }

  lemma TransferWithin(insns: map<int, Insn>, a: int, st: Abs, regs: set<Reg>)
    requires a in insns && Direct(insns, regs) && st.Ok() && Within(st, regs)
    ensures Within(Transfer(st, insns[a]), regs)
  {
    hide AfterStores, LrFrom, DirectStores;
    forall r: Reg | r !in regs
      ensures RegAfter(st, insns[a], r).None?
    {
    }
  }

  /** More known at an instruction is more known on every edge out of it. */
  lemma EdgeRises(x: Abs, y: Abs, insns: map<int, Insn>, a: int, cond: bool, b: int, regs: set<Reg>)
    requires x.Ok() && y.Ok() && Leq(x, y) && x.sp.Some? && Within(y, regs) && a in insns && Direct(insns, regs)
    ensures Leq(EdgeState(insns[a], cond, x, b), EdgeState(insns[a], cond, y, b))
    ensures Within(EdgeState(insns[a], cond, y, b), regs)
  {
    TransferRises(x, y, insns[a], regs);
    TransferWithin(insns, a, y, regs);
    var ex, ey := Transfer(x, insns[a]), Transfer(y, insns[a]);
    MeetLeq(ex, x);
    LeqTrans(Meet(ex, x), ex, ey);
    LeqTrans(Meet(ex, x), x, y);
    MeetGreatest(ey, y, Meet(ex, x));
    hide Transfer, Leq, Direct, DirectStores;
  }

  /** A state at every instruction that respects every edge and always knows sp. */
  ghost predicate Solution(insns: map<int, Insn>, inIt: set<int>, succ: Succ, entry: int, J: States) {
    && (forall a :: a in J ==> J[a].Ok() && a in insns)
    && entry in J && Leq(J[entry], Entry())
    && Fixpoint(insns, inIt, succ, J) && AllSpKnown(J)
  }

  ghost predicate Above(IN: States, J: States, regs: set<Reg>) {
    forall a :: a in IN ==> IN[a].Ok() && a in J && J[a].Ok() && Leq(J[a], IN[a]) && Within(IN[a], regs)
  }

  /** No solution knows more, anywhere. */
  ghost predicate Best(insns: map<int, Insn>, inIt: set<int>, succ: Succ, entry: int, IN: States) {
    forall regs, J: States :: Direct(insns, regs) && Solution(insns, inIt, succ, entry, J) ==> Above(IN, J, regs)
  }

  /** No solution knows more at b than es. */
  ghost predicate BestAt(insns: map<int, Insn>, inIt: set<int>, succ: Succ, entry: int, b: int, es: Abs)
    requires es.Ok()
  {
    forall regs, J: States :: Direct(insns, regs) && Solution(insns, inIt, succ, entry, J) ==>
      b in J && J[b].Ok() && Leq(J[b], es) && Within(es, regs)
  }

  lemma BestStart(insns: map<int, Insn>, inIt: set<int>, succ: Succ, entry: int)
    ensures Best(insns, inIt, succ, entry, map[entry := Entry()])
  {
  }

  lemma BestEdge(insns: map<int, Insn>, inIt: set<int>, succ: Succ, entry: int, IN: States, a: int, b: int)
    requires Best(insns, inIt, succ, entry, IN) && a in IN && IN[a].Ok() && a in insns && b in Out(succ, a)
    ensures BestAt(insns, inIt, succ, entry, b, EdgeState(insns[a], a in inIt, IN[a], b))
  {
    hide Direct, EdgeState, Leq, Within;
    forall regs, J: States | Direct(insns, regs) && Solution(insns, inIt, succ, entry, J)
      ensures b in J && J[b].Ok() && Leq(J[b], EdgeState(insns[a], a in inIt, IN[a], b))
      ensures Within(EdgeState(insns[a], a in inIt, IN[a], b), regs)
    {
      assert Above(IN, J, regs);
      EdgeRises(J[a], IN[a], insns, a, a in inIt, b, regs);
      assert NodeHolds(insns, inIt, succ, J, a) && EdgeHolds(insns, inIt, J, a, b);
      LeqTrans(J[b], EdgeState(insns[a], a in inIt, J[a], b), EdgeState(insns[a], a in inIt, IN[a], b));
    }
  }

  /** Visiting b in state es, or meeting es there, leaves nothing out that is known. */
  lemma BestMore(insns: map<int, Insn>, inIt: set<int>, succ: Succ, entry: int, IN: States, b: int, es: Abs)
    requires Best(insns, inIt, succ, entry, IN) && es.Ok() && BestAt(insns, inIt, succ, entry, b, es)
    requires b in IN ==> IN[b].Ok()
    ensures Best(insns, inIt, succ, entry, IN[b := if b in IN then Meet(IN[b], es) else es])
  {
    var m := if b in IN then Meet(IN[b], es) else es;
    hide Direct, Solution, Leq;
    forall regs, J: States | Direct(insns, regs) && Solution(insns, inIt, succ, entry, J)
      ensures Above(IN[b := m], J, regs)
    {
      assert Above(IN, J, regs);
      if b in IN {
        MeetGreatest(IN[b], es, J[b]);
      }
    }
  }

  /** How many of the registers from i on are known. */
  ghost function Known(regs: seq<Option<int>>): nat {
    if regs == [] then 0 else (if regs[0].Some? then 1 else 0) + Known(regs[1..])
  }

  /** How much a state claims. */
  ghost function Height(st: Abs): nat {
    (if st.sp.Some? then 1 else 0) + (if st.ra then 1 else 0) + |st.slots| + Known(st.regs)
  }

  lemma {:induction false} KnownDrops(a: seq<Option<int>>, b: seq<Option<int>>)
    requires |a| == |b| && forall i :: 0 <= i < |a| ==> LeqOpt(a[i], b[i])
    ensures Known(a) <= Known(b) && (a != b ==> Known(a) < Known(b))
  {
    if a != [] {
      forall i | 0 <= i < |a[1..]|
        ensures LeqOpt(a[1..][i], b[1..][i])
      {
        assert a[1..][i] == a[i + 1] && b[1..][i] == b[i + 1];
      }
      KnownDrops(a[1..], b[1..]);
      if a != b && a[0] == b[0] {
        assert a == [a[0]] + a[1..] && b == [b[0]] + b[1..];
      }
    }
  }

  lemma SubsetSmaller(a: set<int>, b: set<int>)
    requires a <= b
    ensures |a| <= |b| && (a != b ==> |a| < |b|)
  {
    assert b == a + (b - a);
    assert |b| == |a| + |b - a|;
  }

  /** Going strictly down the order lowers the height. */
  lemma HeightDrops(a: Abs, b: Abs)
    requires a.Ok() && b.Ok() && Leq(a, b) && a != b
    ensures Height(a) < Height(b)
  {
    KnownDrops(a.regs, b.regs);
    SubsetSmaller(a.slots, b.slots);
  }

  // ---- the fixpoint --------------------------------------------------------

  type States = map<int, Abs>

  ghost predicate StatesOk(nodes: set<int>, IN: States) {
    IN.Keys <= nodes && forall a :: a in IN ==> IN[a].Ok()
  }

  /** The edge from a to b is respected: b claims no more than the edge brings. */
  ghost predicate EdgeHolds(insns: map<int, Insn>, inIt: set<int>, IN: States, a: int, b: int) {
    && a in IN && a in insns && IN[a].Ok()
    && b in IN && IN[b].Ok()
    && Leq(IN[b], EdgeState(insns[a], a in inIt, IN[a], b))
  }

  ghost predicate NodeHolds(insns: map<int, Insn>, inIt: set<int>, succ: Succ, IN: States, a: int) {
    forall b :: b in Out(succ, a) ==> EdgeHolds(insns, inIt, IN, a, b)
  }

  /** Every edge of every visited node is respected. */
  ghost predicate Fixpoint(insns: map<int, Insn>, inIt: set<int>, succ: Succ, IN: States) {
    forall a :: a in IN ==> NodeHolds(insns, inIt, succ, IN, a)
  }

  ghost predicate NoClash(insns: map<int, Insn>, inIt: set<int>, succ: Succ, IN: States, a: int) {
    forall b :: b in Out(succ, a) && a in IN && IN[a].Ok() && a in insns ==> !EdgeClash(insns[a], a in inIt, IN[a], b)
  }

  /** Every change of sp is a known constant. */
  ghost predicate SpWritesKnown(insns: map<int, Insn>, nodes: set<int>) {
    forall a :: a in nodes && a in insns && SP in insns[a].wr ==> insns[a].spKnown
  }

  ghost predicate AllSpKnown(IN: States) {
    forall a :: a in IN ==> IN[a].sp.Some?
  }

  /** The summed height of the visited nodes of `order`. */
  ghost function TotalHeight(order: seq<int>, IN: States): nat {
    if order == [] then 0
    else (if order[0] in IN then Height(IN[order[0]]) else 0) + TotalHeight(order[1..], IN)
  }

  lemma {:induction false} TotalHeightDrops(order: seq<int>, IN: States, JN: States)
    requires IN.Keys == JN.Keys
    requires forall a :: a in IN ==> Height(JN[a]) <= Height(IN[a])
    ensures TotalHeight(order, JN) <= TotalHeight(order, IN)
    ensures (exists a :: a in order && a in IN && Height(JN[a]) < Height(IN[a])) ==> TotalHeight(order, JN) < TotalHeight(order, IN)
  {
    if order != [] {
      TotalHeightDrops(order[1..], IN, JN);
      if a :| a in order && a in IN && Height(JN[a]) < Height(IN[a]) {
        assert order == [order[0]] + order[1..];
        assert a == order[0] || a in order[1..];
      }
    }
  }

  /** Progress of the work loop: more nodes visited, or the same nodes with less
      claimed about them, or nothing changed. */
  ghost predicate Progress(order: seq<int>, IN0: States, IN: States) {
    && IN0.Keys <= IN.Keys
    && (IN.Keys == IN0.Keys ==> IN == IN0 || TotalHeight(order, IN) < TotalHeight(order, IN0))
  }

  lemma LowerOne(order: seq<int>, IN: States, b: int, m: Abs)
    requires b in IN && b in order && IN[b].Ok() && m.Ok() && Leq(m, IN[b]) && m != IN[b]
    ensures TotalHeight(order, IN[b := m]) < TotalHeight(order, IN)
  {
    HeightDrops(m, IN[b]);
    TotalHeightDrops(order, IN, IN[b := m]);
  }

  /** A lowered entry still respects the edges into it. */
  lemma EdgesInto(insns: map<int, Insn>, inIt: set<int>, succ: Succ, IN: States, b: int, m: Abs, a: int)
    requires b in IN && IN[b].Ok() && m.Ok() && Leq(m, IN[b])
    requires a != b && NodeHolds(insns, inIt, succ, IN, a)
    ensures NodeHolds(insns, inIt, succ, IN[b := m], a)
  {
    forall c | c in Out(succ, a)
      ensures EdgeHolds(insns, inIt, IN[b := m], a, c)
    {
      assert EdgeHolds(insns, inIt, IN, a, c);
      if c == b {
        LeqTrans(m, IN[b], EdgeState(insns[a], a in inIt, IN[a], b));
      }
    }
  }

  /** What the work loop keeps: nodes that are not on the work list (nor being
      worked on) respect their edges, and while no clash was seen sp is known. */
  ghost predicate LoopOk(insns: map<int, Insn>, inIt: set<int>, succ: Succ, nodes: set<int>, entry: int,
                         IN: States, joins: set<int>, work: seq<int>, busy: set<int>) {
    && StatesOk(nodes, IN)
    && entry in IN && Leq(IN[entry], Entry())
    && (forall w :: w in work ==> w in IN)
    && (forall a :: a in IN && a !in work && a !in busy ==> NodeHolds(insns, inIt, succ, IN, a))
    && (joins == {} ==> forall a :: a in IN && a !in work && a !in busy ==> NoClash(insns, inIt, succ, IN, a))
    && (joins == {} && SpWritesKnown(insns, nodes) ==> AllSpKnown(IN))
  }

  lemma LowerLoopOk(insns: map<int, Insn>, inIt: set<int>, succ: Succ, nodes: set<int>, entry: int,
                    IN: States, joins: set<int>, work: seq<int>, busy: set<int>, b: int, m: Abs, joins': set<int>)
    requires LoopOk(insns, inIt, succ, nodes, entry, IN, joins, work, busy)
    requires b in IN && m.Ok() && Leq(m, IN[b]) && joins <= joins'
    requires joins' == {} && IN[b].sp.Some? && SpWritesKnown(insns, nodes) ==> m.sp.Some?
    ensures LoopOk(insns, inIt, succ, nodes, entry, IN[b := m], joins', work + [b], busy)
  {
    hide NoClash, Leq, EdgeHolds;
    var JN := IN[b := m];
    LeqTrans(JN[entry], IN[entry], Entry()) by {
      LeqRefl(IN[entry]);
    }
    assert b in work + [b];
    forall a | a in JN && a !in work + [b] && a !in busy
      ensures NodeHolds(insns, inIt, succ, JN, a)
      ensures joins' == {} ==> NoClash(insns, inIt, succ, JN, a)
    {
      EdgesInto(insns, inIt, succ, IN, b, m, a);
      assert joins' == {} ==> NoClash(insns, inIt, succ, IN, a);
      NoClashKept(insns, inIt, succ, IN, JN, a);
    }
  }

  lemma LeqRefl(a: Abs)
    requires a.Ok()
    ensures Leq(a, a)
  {
  }

  lemma NoClashKept(insns: map<int, Insn>, inIt: set<int>, succ: Succ, IN: States, JN: States, a: int)
    requires a in IN && a in JN && IN[a] == JN[a]
    ensures NoClash(insns, inIt, succ, IN, a) <==> NoClash(insns, inIt, succ, JN, a)
  {
  }

  lemma GrowLoopOk(insns: map<int, Insn>, inIt: set<int>, succ: Succ, nodes: set<int>, entry: int,
                   IN: States, joins: set<int>, work: seq<int>, busy: set<int>, b: int, es: Abs)
    requires LoopOk(insns, inIt, succ, nodes, entry, IN, joins, work, busy)
    requires b !in IN && b in nodes && es.Ok()
    requires joins == {} && SpWritesKnown(insns, nodes) ==> es.sp.Some?
    ensures LoopOk(insns, inIt, succ, nodes, entry, IN[b := es], joins, work + [b], busy)
  {
    hide Leq, NoClash;
    var JN := IN[b := es];
    assert b in work + [b];
    forall a | a in JN && a !in work + [b] && a !in busy
      ensures NodeHolds(insns, inIt, succ, JN, a)
      ensures joins == {} ==> NoClash(insns, inIt, succ, JN, a)
    {
      assert NodeHolds(insns, inIt, succ, IN, a);
      forall c | c in Out(succ, a)
        ensures EdgeHolds(insns, inIt, JN, a, c)
      {
        assert EdgeHolds(insns, inIt, IN, a, c);
      }
      assert joins == {} ==> NoClash(insns, inIt, succ, IN, a);
      NoClashKept(insns, inIt, succ, IN, JN, a);
    }
  }

  /** Where paths met with different sp, no position is known any more. */
  ghost predicate JoinsLost(IN: States, joins: set<int>) {
    forall b :: b in joins ==> b in IN && IN[b].sp.None?
  }

  lemma LostLower(IN0: States, joins0: set<int>, b: int, es: Abs, IN: States, joins: set<int>)
    requires forall c :: c in IN0 ==> c in IN && IN0[c].Ok() && IN[c].Ok() && Leq(IN[c], IN0[c])
    requires es.Ok() && b in IN && IN[b].Ok() && Leq(IN[b], es)
    requires joins <= joins0 + {b} && (b in joins && b !in joins0 ==> b in IN0 && Clash(IN0[b], es))
    requires JoinsLost(IN0, joins0 - {b}) && (b in joins0 ==> es.sp.None? || (b in IN0 && IN0[b].sp.None?))
    ensures JoinsLost(IN, joins)
  {
  }

  lemma LostByEdge(IN: States, joins: set<int>, b: int, lost: bool, es: Abs)
    requires JoinsLost(IN, joins) && (lost ==> es.sp.None?)
    ensures JoinsLost(IN, (if lost then joins + {b} else joins) - {b})
    ensures b in (if lost then joins + {b} else joins) ==> es.sp.None? || (b in IN && IN[b].sp.None?)
  {
  }

  lemma ClashLost(ins: Insn, cond: bool, st: Abs, b: int)
    requires st.Ok() && EdgeClash(ins, cond, st, b)
    ensures EdgeState(ins, cond, st, b).sp.None?
  {
  }

  /** One edge into b: visits b, or meets what is known there. */
  method Merge(insns: map<int, Insn>, inIt: set<int>, succ: Succ, ghost nodes: set<int>, ghost order: seq<int>, entry: int,
               IN0: States, joins0: set<int>, work0: seq<int>, ghost busy: set<int>, b: int, es: Abs)
    returns (IN: States, joins: set<int>, work: seq<int>)
    requires LoopOk(insns, inIt, succ, nodes, entry, IN0, joins0, work0, busy)
    requires b in nodes && b in order && es.Ok()
    requires joins0 == {} && SpWritesKnown(insns, nodes) ==> es.sp.Some?
    requires JoinsLost(IN0, joins0 - {b}) && (b in joins0 ==> es.sp.None? || (b in IN0 && IN0[b].sp.None?))
    requires Best(insns, inIt, succ, entry, IN0) && BestAt(insns, inIt, succ, entry, b, es)
    ensures LoopOk(insns, inIt, succ, nodes, entry, IN, joins, work, busy)
    ensures Best(insns, inIt, succ, entry, IN)
    ensures JoinsLost(IN, joins)
    ensures b in IN && Leq(IN[b], es)
    ensures IN0.Keys <= IN.Keys && joins0 <= joins
    ensures forall c :: c in IN0 ==> Leq(IN[c], IN0[c]) && (IN[c] == IN0[c] || c in work)
    ensures forall c :: c in work0 ==> c in work
    ensures Progress(order, IN0, IN) && (IN == IN0 ==> work == work0)
  {
    hide Best, BestAt;
    LoopFacts(insns, inIt, succ, nodes, entry, IN0, joins0, work0, busy);
    BestMore(insns, inIt, succ, entry, IN0, b, es);
    forall c | c in IN0
      ensures Leq(IN0[c], IN0[c])
    {
      LeqRefl(IN0[c]);
    }
    LeqRefl(es);
    if b !in IN0 {
      GrowLoopOk(insns, inIt, succ, nodes, entry, IN0, joins0, work0, busy, b, es);
      IN, joins, work := IN0[b := es], joins0, work0 + [b];
    } else {
      var m := Meet(IN0[b], es);
      MeetLeq(IN0[b], es);
      joins := if Clash(IN0[b], es) then joins0 + {b} else joins0;
      LowerLoopOk(insns, inIt, succ, nodes, entry, IN0, joins0, work0, busy, b, m, joins);
      if m != IN0[b] {
        LowerOne(order, IN0, b, m);
        IN, work := IN0[b := m], work0 + [b];
      } else {
        IN, work := IN0, work0;
        MoreJoins(insns, inIt, succ, nodes, entry, IN0, joins0, work0, busy, joins);
      }
    }
    LostLower(IN0, joins0, b, es, IN, joins);
  }

  lemma MoreJoins(insns: map<int, Insn>, inIt: set<int>, succ: Succ, nodes: set<int>, entry: int,
                  IN: States, joins: set<int>, work: seq<int>, busy: set<int>, joins': set<int>)
    requires LoopOk(insns, inIt, succ, nodes, entry, IN, joins, work, busy) && joins <= joins'
    ensures LoopOk(insns, inIt, succ, nodes, entry, IN, joins', work, busy)
  {
    hide NoClash, NodeHolds, Leq, SpWritesKnown, AllSpKnown;
  }

  lemma EdgeSpKnown(insns: map<int, Insn>, nodes: set<int>, a: int, cond: bool, st: Abs, b: int)
    requires SpWritesKnown(insns, nodes) && a in nodes && a in insns && st.Ok() && st.sp.Some?
    requires !EdgeClash(insns[a], cond, st, b)
    ensures EdgeState(insns[a], cond, st, b).sp.Some?
  {
  }

  lemma BusyDone(insns: map<int, Insn>, inIt: set<int>, succ: Succ, nodes: set<int>, entry: int,
                 IN: States, joins: set<int>, work: seq<int>, a: int)
    requires LoopOk(insns, inIt, succ, nodes, entry, IN, joins, work, {a})
    requires a in work || (NodeHolds(insns, inIt, succ, IN, a) && (joins == {} ==> NoClash(insns, inIt, succ, IN, a)))
    ensures LoopOk(insns, inIt, succ, nodes, entry, IN, joins, work, {})
  {
    hide NoClash, NodeHolds, Leq, SpWritesKnown, AllSpKnown;
  }

  lemma PopOk(insns: map<int, Insn>, inIt: set<int>, succ: Succ, nodes: set<int>, entry: int,
              IN: States, joins: set<int>, work: seq<int>)
    requires work != [] && LoopOk(insns, inIt, succ, nodes, entry, IN, joins, work, {})
    ensures LoopOk(insns, inIt, succ, nodes, entry, IN, joins, work[..|work| - 1], {work[|work| - 1]})
  {
    hide NoClash, NodeHolds, Leq, SpWritesKnown, AllSpKnown;
    var rest := work[..|work| - 1];
    assert work == rest + [work[|work| - 1]];
  }

  lemma ProgressTrans(order: seq<int>, A: States, B: States, C: States)
    requires Progress(order, A, B) && Progress(order, B, C)
    ensures Progress(order, A, C) && (A == C ==> A == B)
  {
  }

  /** The work loop: visits every node the entry reaches, and stops when every edge
      is respected. */
  method Run(entry: int, insns: map<int, Insn>, inIt: set<int>, succ: Succ, ghost order: seq<int>)
    returns (IN: States, joins: set<int>)
    requires entry in order && Closed(succ, set v | v in order)
    requires forall v :: v in order ==> v in insns
    ensures IN.Keys <= (set v | v in order) && (forall a :: a in IN ==> IN[a].Ok())
    ensures entry in IN && Leq(IN[entry], Entry())
    ensures Fixpoint(insns, inIt, succ, IN)
    ensures joins == {} ==> forall a :: a in IN ==> NoClash(insns, inIt, succ, IN, a)
    ensures joins == {} && SpWritesKnown(insns, set v | v in order) ==> AllSpKnown(IN)
    ensures AllSpKnown(IN) ==> joins == {}
    ensures Best(insns, inIt, succ, entry, IN)
  {
    hide NoClash, NodeHolds, Leq, SpWritesKnown, AllSpKnown, LoopOk, Progress, JoinsLost, Best;
    assert JoinsLost(map[entry := Entry()], {}) by { NoneLost(map[entry := Entry()]); }
    ghost var nodes := set v | v in order;
    IN, joins := map[entry := Entry()], {};
    var work := [entry];
    RunStart(insns, inIt, succ, nodes, entry);
    BestStart(insns, inIt, succ, entry);
    while work != []
      invariant LoopOk(insns, inIt, succ, nodes, entry, IN, joins, work, {})
      invariant JoinsLost(IN, joins) && Best(insns, inIt, succ, entry, IN)
      decreases |nodes - IN.Keys|, TotalHeight(order, IN), |work|
    {
      var a := work[|work| - 1];
      PopOk(insns, inIt, succ, nodes, entry, IN, joins, work);
      LoopFacts(insns, inIt, succ, nodes, entry, IN, joins, work, {});
      ghost var IN0, n0 := IN, |work|;
      work := work[..|work| - 1];
      IN, joins, work := Edges(entry, insns, inIt, succ, order, nodes, IN, joins, work, a);
      Shrinks(order, nodes, IN0, IN);
    }
    RunEnd(insns, inIt, succ, nodes, entry, IN, joins);
    LostNotKnown(IN, joins);
  }

  lemma NoneLost(IN: States)
    ensures JoinsLost(IN, {})
  {
  }

  lemma LostNotKnown(IN: States, joins: set<int>)
    requires JoinsLost(IN, joins)
    ensures AllSpKnown(IN) ==> joins == {}
  {
    if AllSpKnown(IN) {
      assert forall b :: b !in joins;
    }
  }

  lemma RunStart(insns: map<int, Insn>, inIt: set<int>, succ: Succ, nodes: set<int>, entry: int)
    requires entry in nodes
    ensures LoopOk(insns, inIt, succ, nodes, entry, map[entry := Entry()], {}, [entry], {})
  {
    LeqRefl(Entry());
  }

  lemma LoopFacts(insns: map<int, Insn>, inIt: set<int>, succ: Succ, nodes: set<int>, entry: int,
                  IN: States, joins: set<int>, work: seq<int>, busy: set<int>)
    requires LoopOk(insns, inIt, succ, nodes, entry, IN, joins, work, busy)
    ensures forall w :: w in work ==> w in IN && w in nodes
    ensures IN.Keys <= nodes && forall w :: w in IN ==> IN[w].Ok()
    ensures joins == {} && SpWritesKnown(insns, nodes) ==> AllSpKnown(IN)
  {
    hide NoClash, NodeHolds, Leq, SpWritesKnown, AllSpKnown;
  }

  lemma RunEnd(insns: map<int, Insn>, inIt: set<int>, succ: Succ, nodes: set<int>, entry: int,
               IN: States, joins: set<int>)
    requires LoopOk(insns, inIt, succ, nodes, entry, IN, joins, [], {})
    ensures IN.Keys <= nodes && (forall a :: a in IN ==> IN[a].Ok())
    ensures entry in IN && Leq(IN[entry], Entry())
    ensures Fixpoint(insns, inIt, succ, IN)
    ensures joins == {} ==> forall a :: a in IN ==> NoClash(insns, inIt, succ, IN, a)
    ensures joins == {} && SpWritesKnown(insns, nodes) ==> AllSpKnown(IN)
  {
    hide NoClash, NodeHolds, Leq, SpWritesKnown, AllSpKnown;
  }

  lemma Shrinks(order: seq<int>, nodes: set<int>, IN0: States, IN: States)
    requires IN0.Keys <= nodes && IN.Keys <= nodes && Progress(order, IN0, IN)
    ensures |nodes - IN.Keys| < |nodes - IN0.Keys|
         || (|nodes - IN.Keys| == |nodes - IN0.Keys| && TotalHeight(order, IN) < TotalHeight(order, IN0))
         || IN == IN0
  {
    SubsetSmaller(nodes - IN.Keys, nodes - IN0.Keys);
    if IN.Keys != IN0.Keys {
      assert nodes - IN.Keys != nodes - IN0.Keys by {
        assert IN.Keys == nodes - (nodes - IN.Keys) && IN0.Keys == nodes - (nodes - IN0.Keys);
      }
    }
  }

  /** One turn of the work loop: the edges out of a, taken with the state known at a
      when the turn starts. */
  method Edges(entry: int, insns: map<int, Insn>, inIt: set<int>, succ: Succ, ghost order: seq<int>, ghost nodes: set<int>,
               IN0: States, joins0: set<int>, work0: seq<int>, a: int)
    returns (IN: States, joins: set<int>, work: seq<int>)
    requires nodes == (set v | v in order) && Closed(succ, nodes) && (forall v :: v in order ==> v in insns)
    requires a in IN0 && LoopOk(insns, inIt, succ, nodes, entry, IN0, joins0, work0, {a}) && JoinsLost(IN0, joins0)
    requires Best(insns, inIt, succ, entry, IN0)
    ensures LoopOk(insns, inIt, succ, nodes, entry, IN, joins, work, {}) && JoinsLost(IN, joins)
    ensures Best(insns, inIt, succ, entry, IN)
    ensures IN0.Keys <= nodes && IN.Keys <= nodes
    ensures Progress(order, IN0, IN) && (IN == IN0 ==> work == work0)
  {
    hide NoClash, NodeHolds, Leq, SpWritesKnown, AllSpKnown, LoopOk, Progress, EdgeHolds, JoinsLost, EdgeState, EdgeClash, Best, BestAt;
    LoopFacts(insns, inIt, succ, nodes, entry, IN0, joins0, work0, {a});
    IN, joins, work := IN0, joins0, work0;
    var st, ns := IN[a], Out(succ, a);
    ProgressRefl(order, IN0);
    for k := 0 to |ns|
      invariant LoopOk(insns, inIt, succ, nodes, entry, IN, joins, work, {a}) && JoinsLost(IN, joins)
      invariant Best(insns, inIt, succ, entry, IN)
      invariant IN0.Keys <= IN.Keys && Progress(order, IN0, IN) && (IN == IN0 ==> work == work0)
      invariant a in work || IN[a] == st
      invariant forall c :: c in IN ==> IN[c].Ok()
      invariant forall j :: 0 <= j < k ==> ns[j] in IN && Leq(IN[ns[j]], EdgeState(insns[a], a in inIt, st, ns[j]))
      invariant joins == {} ==> forall j :: 0 <= j < k ==> !EdgeClash(insns[a], a in inIt, st, ns[j])
      invariant joins0 <= joins
    {
      var b := ns[k];
      assert Edge(succ, a, b);
      var es := EdgeState(insns[a], a in inIt, st, b);
      BestEdge(insns, inIt, succ, entry, IN0, a, b);
      LostByEdge(IN, joins, b, EdgeClash(insns[a], a in inIt, st, b), es) by {
        if EdgeClash(insns[a], a in inIt, st, b) {
          ClashLost(insns[a], a in inIt, st, b);
        }
      }
      if EdgeClash(insns[a], a in inIt, st, b) {
        MoreJoins(insns, inIt, succ, nodes, entry, IN, joins, work, {a}, joins + {b});
        joins := joins + {b};
      }
      if joins == {} && SpWritesKnown(insns, nodes) {
        FirstSpKnown(insns, inIt, succ, nodes, entry, IN0, joins0, work0, {a}, a);
        EdgeSpKnown(insns, nodes, a, a in inIt, st, b);
      }
      ghost var INk, jk := IN, joins;
      IN, joins, work := Merge(insns, inIt, succ, nodes, order, entry, IN, joins, work, {a}, b, es);
      ProgressTrans(order, IN0, INk, IN);
      LoopFacts(insns, inIt, succ, nodes, entry, IN, joins, work, {a});
      forall j | 0 <= j < k
        ensures ns[j] in IN && Leq(IN[ns[j]], EdgeState(insns[a], a in inIt, st, ns[j]))
      {
        LeqTrans(IN[ns[j]], INk[ns[j]], EdgeState(insns[a], a in inIt, st, ns[j]));
      }
    }
    LoopFacts(insns, inIt, succ, nodes, entry, IN, joins, work, {a});
    if a !in work {
      AllEdges(insns, inIt, succ, IN, a, joins);
    }
    BusyDone(insns, inIt, succ, nodes, entry, IN, joins, work, a);
  }

  lemma ProgressRefl(order: seq<int>, IN: States)
    ensures Progress(order, IN, IN)
  {
  }

  lemma FirstSpKnown(insns: map<int, Insn>, inIt: set<int>, succ: Succ, nodes: set<int>, entry: int,
                     IN: States, joins: set<int>, work: seq<int>, busy: set<int>, a: int)
    requires LoopOk(insns, inIt, succ, nodes, entry, IN, joins, work, busy)
    requires joins == {} && SpWritesKnown(insns, nodes) && a in IN
    ensures IN[a].sp.Some?
  {
    hide NoClash, NodeHolds, Leq, SpWritesKnown;
  }

  lemma AllEdges(insns: map<int, Insn>, inIt: set<int>, succ: Succ, IN: States, a: int, joins: set<int>)
    requires a in IN && a in insns && (forall c :: c in IN ==> IN[c].Ok())
    requires forall j :: 0 <= j < |Out(succ, a)| ==>
      Out(succ, a)[j] in IN && Leq(IN[Out(succ, a)[j]], EdgeState(insns[a], a in inIt, IN[a], Out(succ, a)[j]))
    requires joins == {} ==> forall j :: 0 <= j < |Out(succ, a)| ==> !EdgeClash(insns[a], a in inIt, IN[a], Out(succ, a)[j])
    ensures NodeHolds(insns, inIt, succ, IN, a) && (joins == {} ==> NoClash(insns, inIt, succ, IN, a))
  {
    hide EdgeState, EdgeClash, Leq;
  }
}
