/** The analysis of one body as the gate runs it: IT blocks, frame, veneer test,
    reachable instructions, loop rule, returns.  Each pass reports an error exactly
    when its rule is broken. */
module BodyAnalysis {
  import opened Graph
  import opened Thumb
  import opened ReturnAnalysis
  import opened BodyRules
  import Tarjan

  datatype Info = Info(
    frame: nat,
    frameErrs: seq<Err>,
    flowErrs: seq<Err>,
    edges: seq<BodyRules.Edge>,
    veneer: Option<int>,
    indirect: seq<Err>)

  /** The indirect transfers among the errors. */
  ghost predicate IndirectExact(indirect: seq<Err>, errs: seq<Err>) {
    forall e :: e in indirect <==> e in errs && e.kind.Indirect?
  }

  ghost predicate NoIndirect(errs: seq<Err>) {
    IndirectExact([], errs)
  }

  // ---- IT blocks -------------------------------------------------------------

  ghost predicate BlockOk(code: seq<Insn>, k: int) {
    OpensBlock(code, k) ==> BlockOkTo(code, k, code[k].itlen + 1)
  }

  /** Places 1 to n - 1 of the block that code[k] opens exist and are filled well. */
  ghost predicate BlockOkTo(code: seq<Insn>, k: int, n: int)
    requires 0 <= k < |code|
  {
    forall m :: 1 <= m < n ==> PlaceOk(code, k, m)
  }

  ghost predicate PlaceOk(code: seq<Insn>, k: int, m: int) {
    InBlock(code, k, m) && !BadInIt(code[k + m], m, code[k].itlen)
  }

  ghost function ItSetTo(code: seq<Insn>, k: int): set<int> {
    set j, m | 0 <= j < |code| && 0 <= m < |code| && j < k && InBlock(code, j, m) :: code[j + m].addr
  }

  ghost function BlockTo(code: seq<Insn>, k: int, n: int): set<int> {
    set m | 0 <= m < |code| && m < n && InBlock(code, k, m) :: code[k + m].addr
  }

  lemma BlocksAllOk(code: seq<Insn>)
    ensures ItBlocksOk(code) <==> forall k :: 0 <= k < |code| ==> BlockOk(code, k)
  {
    if ItBlocksOk(code) {
      forall k | 0 <= k < |code|
        ensures BlockOk(code, k)
      {
        if OpensBlock(code, k) {
          forall m | 1 <= m < code[k].itlen + 1
            ensures PlaceOk(code, k, m)
          {
            assert InBlock(code, k, m);
          }
        }
      }
    }
    if forall k :: 0 <= k < |code| ==> BlockOk(code, k) {
      forall k, m | OpensBlock(code, k) && 1 <= m <= code[k].itlen
        ensures InBlock(code, k, m)
      {
        assert BlockOk(code, k) && PlaceOk(code, k, m);
      }
      forall k, m | InBlock(code, k, m)
        ensures !BadInIt(code[k + m], m, code[k].itlen)
      {
        assert BlockOk(code, k) && PlaceOk(code, k, m);
      }
    }
  }

  /** One IT block: the addresses of its instructions, and whether it is in order. */
  method ScanBlock(code: seq<Insn>, k: nat) returns (members: set<int>, errs: seq<Err>)
    requires OpensBlock(code, k)
    ensures members == BlockTo(code, k, |code|)
    ensures (errs == [] <==> BlockOk(code, k)) && NoIndirect(errs)
  {
    members, errs := {}, [];
    var m := 1;
    while m <= code[k].itlen
      invariant 1 <= m
      invariant m == 1 || InBlock(code, k, m - 1)
      invariant members == BlockTo(code, k, m)
      invariant errs == [] <==> BlockOkTo(code, k, m)
      invariant NoIndirect(errs)
    {
      if !Adjoins(code, k + m) {
        errs := errs + [Err(code[k].addr, ItRunsOut)];
        assert !PlaceOk(code, k, m);
        assert forall n :: m <= n ==> !InBlock(code, k, n);
        assert BlockTo(code, k, |code|) == BlockTo(code, k, m);
        return;
      }
      assert InBlock(code, k, m) by {
        assert forall j :: k < j <= k + m ==> j == k + m || Adjoins(code, j);
      }
      var inner := code[k + m];
      members := members + {inner.addr};
      if BadInIt(inner, m, code[k].itlen) {
        errs := errs + [Err(inner.addr, ItBranch)];
      }
      assert BlockTo(code, k, m + 1) == BlockTo(code, k, m) + {inner.addr};
      assert BlockOkTo(code, k, m + 1) <==> BlockOkTo(code, k, m) && PlaceOk(code, k, m);
      m := m + 1;
    }
    assert forall n :: InBlock(code, k, n) ==> n < m && n < |code|;
    assert BlockTo(code, k, |code|) == BlockTo(code, k, m);
  }

  method ScanIt(code: seq<Insn>) returns (inIt: set<int>, errs: seq<Err>)
    ensures inIt == ItSet(code) && (errs == [] <==> ItBlocksOk(code)) && NoIndirect(errs)
  {
    inIt, errs := {}, [];
    var k := 0;
    while k < |code|
      invariant 0 <= k <= |code|
      invariant inIt == ItSetTo(code, k)
      invariant errs == [] <==> forall j :: 0 <= j < k ==> BlockOk(code, j)
      invariant NoIndirect(errs)
    {
      if code[k].flow == It {
        var members, bad := ScanBlock(code, k);
        inIt, errs := inIt + members, errs + bad;
      }
      ItSetStep(code, k);
      k := k + 1;
    }
    BlocksAllOk(code);
    assert ItSetTo(code, |code|) == ItSet(code);
  }

  lemma ItSetStep(code: seq<Insn>, k: int)
    requires 0 <= k < |code|
    ensures ItSetTo(code, k + 1) == ItSetTo(code, k) + BlockTo(code, k, |code|)
    ensures !OpensBlock(code, k) ==> BlockTo(code, k, |code|) == {}
  {
  }

  // ---- the frame -------------------------------------------------------------

  lemma InsnMapPrefix(code: seq<Insn>, i: nat)
    requires i < |code|
    ensures code[..i + 1][..i] == code[..i] && code[..i + 1][i] == code[i]
  {
  }

  method BuildInsns(code: seq<Insn>) returns (insns: map<int, Insn>)
    ensures insns == InsnMap(code)
  {
    insns := map[];
    for i := 0 to |code|
      invariant insns == InsnMap(code[..i])
    {
      InsnMapPrefix(code, i);
      insns := insns[code[i].addr := code[i]];
    }
    assert code[..|code|] == code;
  }

  method ScanFrame(code: seq<Insn>) returns (frame: nat, errs: seq<Err>)
    ensures frame == FrameOf(code)
    ensures errs == [] <==> forall ins :: ins in code ==> InsnOk(ins)
  {
    frame, errs := 0, [];
    for i := 0 to |code|
      invariant frame == FrameOf(code[..i])
      invariant errs == [] <==> forall j :: 0 <= j < i ==> InsnOk(code[j])
    {
      var ins := code[i];
      InsnMapPrefix(code, i);
      if ins.flow == Undef {
        errs := errs + [Err(ins.addr, Frame)];
      } else if SP in ins.wr {
        if ins.spKnown {
          if ins.sp < 0 {
            frame := frame - ins.sp;
          }
        } else {
          errs := errs + [Err(ins.addr, Frame)];
        }
      }
    }
    assert code[..|code|] == code;
  }

  // ---- the reachable instructions ----------------------------------------------

  ghost predicate ErrsExact(image: Image, insns: map<int, Insn>, inIt: set<int>, node: Node, seen: set<int>, errs: seq<Err>) {
    forall e :: e in errs <==> exists a :: a in seen && a in insns && e in FlowErrs(image, insns, inIt, node, insns[a])
  }

  ghost predicate EdgesExact(image: Image, insns: map<int, Insn>, node: Node, seen: set<int>, edges: seq<BodyRules.Edge>) {
    forall e :: e in edges <==> exists a :: a in seen && a in insns && e in CallsOf(image, node, insns[a])
  }

  ghost predicate ScanOk(insns: map<int, Insn>, inIt: set<int>, node: Node, seen: set<int>, succ: Succ, work: seq<int>) {
    && seen <= insns.Keys && succ.Keys == seen
    && (forall a :: a in seen ==> succ[a] == Next(insns, inIt, node, insns[a]))
    && (forall w :: w in work ==> w in insns && Reach(succ, node.addr, w))
    && (forall a :: a in seen ==> Reach(succ, node.addr, a))
    && (forall a, b :: a in seen && Graph.Edge(succ, a, b) ==> b in seen || b in work)
  }

  lemma ReachMore(succ: Succ, a: int, ns: seq<int>, x: int, y: int)
    requires a !in succ && Reach(succ, x, y)
    ensures Reach(succ[a := ns], x, y)
  {
    var p :| WalkBetween(succ, x, y, p);
    forall i | 0 <= i < |p| - 1
      ensures Graph.Edge(succ[a := ns], p[i], p[i + 1])
    {
      assert Graph.Edge(succ, p[i], p[i + 1]);
    }
    assert WalkBetween(succ[a := ns], x, y, p);
  }

  lemma NextInInsns(insns: map<int, Insn>, inIt: set<int>, node: Node, ins: Insn)
    ensures forall b :: b in Next(insns, inIt, node, ins) ==> b in insns
  {
  }

  lemma ScanStep(insns: map<int, Insn>, inIt: set<int>, node: Node, seen: set<int>, succ: Succ, work: seq<int>, a: int)
    requires a in insns && a !in seen && ScanOk(insns, inIt, node, seen, succ, work + [a])
    ensures ScanOk(insns, inIt, node, seen + {a}, succ[a := Next(insns, inIt, node, insns[a])],
                   work + Next(insns, inIt, node, insns[a]))
  {
    var ns := Next(insns, inIt, node, insns[a]);
    NextInInsns(insns, inIt, node, insns[a]);
    hide Next;
    var succ' := succ[a := ns];
    assert a in work + [a];
    forall x | Reach(succ, node.addr, x)
      ensures Reach(succ', node.addr, x)
    {
      ReachMore(succ, a, ns, node.addr, x);
    }
    forall w | w in work + ns
      ensures w in insns && Reach(succ', node.addr, w)
    {
      if w in ns {
        ReachEdge(succ', a, w);
        ReachTrans(succ', node.addr, a, w);
      } else {
        assert w in work + [a];
      }
    }
    hide Reach;
    forall x, b | x in seen + {a} && Graph.Edge(succ', x, b)
      ensures b in seen + {a} || b in work + ns
    {
      if x != a {
        assert Graph.Edge(succ, x, b);
        assert b in seen || b in work + [a];
      }
    }
  }

  lemma ScanSkip(insns: map<int, Insn>, inIt: set<int>, node: Node, seen: set<int>, succ: Succ, work: seq<int>, a: int)
    requires a in seen && ScanOk(insns, inIt, node, seen, succ, work + [a])
    ensures ScanOk(insns, inIt, node, seen, succ, work)
  {
    hide Next, Reach;
    assert forall w :: w in work ==> w in work + [a];
  }

  lemma MoreErrs(image: Image, insns: map<int, Insn>, inIt: set<int>, node: Node, seen: set<int>, errs: seq<Err>, a: int)
    requires a in insns && ErrsExact(image, insns, inIt, node, seen, errs)
    ensures ErrsExact(image, insns, inIt, node, seen + {a}, errs + FlowErrs(image, insns, inIt, node, insns[a]))
  {
    hide FlowErrs;
  }

  lemma MoreEdges(image: Image, insns: map<int, Insn>, node: Node, seen: set<int>, edges: seq<BodyRules.Edge>, a: int)
    requires a in insns && EdgesExact(image, insns, node, seen, edges)
    ensures EdgesExact(image, insns, node, seen + {a}, edges + CallsOf(image, node, insns[a]))
  {
    hide CallsOf;
  }

  ghost function Elements(order: seq<int>): set<int> {
    set a | a in order
  }

  lemma OrderMore(order: seq<int>, seen: set<int>, a: int)
    requires seen == Elements(order)
    ensures seen + {a} == Elements(order + [a])
  {
  }

  /** What the walk over the flow keeps. */
  ghost predicate ScanInv(image: Image, node: Node, insns: map<int, Insn>, inIt: set<int>, seen: set<int>, order: seq<int>,
                          succ: Succ, edges: seq<BodyRules.Edge>, errs: seq<Err>, indirect: seq<Err>, work: seq<int>) {
    && ScanOk(insns, inIt, node, seen, succ, work)
    && ErrsExact(image, insns, inIt, node, seen, errs) && EdgesExact(image, insns, node, seen, edges)
    && IndirectExact(indirect, errs) && seen == Elements(order)
    && (node.addr in seen || node.addr in work)
  }

  lemma ScanTurn(image: Image, node: Node, insns: map<int, Insn>, inIt: set<int>, seen: set<int>, order: seq<int>,
                 succ: Succ, edges: seq<BodyRules.Edge>, errs: seq<Err>, indirect: seq<Err>, work: seq<int>, a: int)
    requires ScanInv(image, node, insns, inIt, seen, order, succ, edges, errs, indirect, work + [a])
    ensures a in insns
    ensures a in seen ==> ScanInv(image, node, insns, inIt, seen, order, succ, edges, errs, indirect, work)
    ensures a !in seen ==>
      var found := FlowErrs(image, insns, inIt, node, insns[a]);
      && ScanInv(image, node, insns, inIt, seen + {a}, order + [a], succ[a := Next(insns, inIt, node, insns[a])],
                 edges + CallsOf(image, node, insns[a]), errs + found, indirect + IndirectOf(found), work + Next(insns, inIt, node, insns[a]))
      && |insns.Keys - (seen + {a})| < |insns.Keys - seen|
  {
    hide ScanOk, ErrsExact, EdgesExact, FlowErrs, CallsOf, Next, IndirectExact, IndirectOf, Elements;
    assert a in work + [a] && forall w :: w in work + [a] <==> w in work || w == a;
    ScanFacts(insns, inIt, node, seen, succ, work + [a], a);
    if a in seen {
      ScanSkip(insns, inIt, node, seen, succ, work, a);
    } else {
      ScanStep(insns, inIt, node, seen, succ, work, a);
      MoreErrs(image, insns, inIt, node, seen, errs, a);
      MoreEdges(image, insns, node, seen, edges, a);
      MoreIndirect(indirect, errs, FlowErrs(image, insns, inIt, node, insns[a]));
      Fewer(insns.Keys, seen, a);
      OrderMore(order, seen, a);
    }
  }

  /** Follows the flow from the entry: what is reached, where it leads, what it calls
      and what is refused of it. */
  method ScanFlow(image: Image, node: Node, insns: map<int, Insn>, inIt: set<int>)
    returns (seen: set<int>, order: seq<int>, succ: Succ, edges: seq<BodyRules.Edge>, errs: seq<Err>, indirect: seq<Err>)
    requires node.addr in insns
    ensures ScanOk(insns, inIt, node, seen, succ, []) && node.addr in seen
    ensures seen == Elements(order)
    ensures ErrsExact(image, insns, inIt, node, seen, errs)
    ensures EdgesExact(image, insns, node, seen, edges)
    ensures IndirectExact(indirect, errs)
  {
    hide ScanInv, FlowErrs, CallsOf, Next, IndirectOf;
    seen, order, succ, edges, errs, indirect := {}, [], map[], [], [], [];
    var work := [node.addr];
    ScanStart(image, insns, inIt, node);
    while work != []
      invariant ScanInv(image, node, insns, inIt, seen, order, succ, edges, errs, indirect, work)
      decreases |insns.Keys - seen|, |work|
    {
      var a := work[|work| - 1];
      ghost var work0 := work;
      work := work[..|work| - 1];
      assert work0 == work + [a];
      ScanTurn(image, node, insns, inIt, seen, order, succ, edges, errs, indirect, work, a);
      if a in seen {
        continue;
      }
      var found := FlowErrs(image, insns, inIt, node, insns[a]);
      work := work + Next(insns, inIt, node, insns[a]);
      succ := succ[a := Next(insns, inIt, node, insns[a])];
      edges, errs, indirect := edges + CallsOf(image, node, insns[a]), errs + found, indirect + IndirectOf(found);
      seen, order := seen + {a}, order + [a];
    }
    ScanEnd(image, node, insns, inIt, seen, order, succ, edges, errs, indirect);
  }

  lemma ScanEnd(image: Image, node: Node, insns: map<int, Insn>, inIt: set<int>, seen: set<int>, order: seq<int>,
                succ: Succ, edges: seq<BodyRules.Edge>, errs: seq<Err>, indirect: seq<Err>)
    requires ScanInv(image, node, insns, inIt, seen, order, succ, edges, errs, indirect, [])
    ensures ScanOk(insns, inIt, node, seen, succ, []) && node.addr in seen && seen == Elements(order)
    ensures ErrsExact(image, insns, inIt, node, seen, errs) && EdgesExact(image, insns, node, seen, edges)
    ensures IndirectExact(indirect, errs)
  {
  }

  function IndirectOf(errs: seq<Err>): (out: seq<Err>)
    ensures forall e :: e in out <==> e in errs && e.kind.Indirect?
  {
    if errs == [] then []
    else (if errs[0].kind.Indirect? then [errs[0]] else []) + IndirectOf(errs[1..])
  }

  lemma MoreIndirect(indirect: seq<Err>, errs: seq<Err>, found: seq<Err>)
    requires IndirectExact(indirect, errs)
    ensures IndirectExact(indirect + IndirectOf(found), errs + found)
  {
  }

  lemma ScanStart(image: Image, insns: map<int, Insn>, inIt: set<int>, node: Node)
    requires node.addr in insns
    ensures ScanInv(image, node, insns, inIt, {}, [], map[], [], [], [], [node.addr])
  {
    ReachRefl(map[], node.addr);
  }

  lemma ScanFacts(insns: map<int, Insn>, inIt: set<int>, node: Node, seen: set<int>, succ: Succ, work: seq<int>, a: int)
    requires ScanOk(insns, inIt, node, seen, succ, work) && a in work
    ensures a in insns && seen <= insns.Keys
  {
    hide Next, Reach;
  }

  lemma Fewer(all: set<int>, seen: set<int>, a: int)
    requires a in all && a !in seen
    ensures |all - (seen + {a})| < |all - seen|
  {
    assert all - seen == (all - (seen + {a})) + {a};
  }

  // ---- the loop rule --------------------------------------------------------------

  /** Some instruction of the component changes sp, and the component is a cycle. */
  ghost predicate BadLoop(insns: map<int, Insn>, succ: Succ, comp: set<int>) {
    (|comp| != 1 || exists a :: a in comp && Graph.Edge(succ, a, a)) && exists a :: a in comp && a in insns && SP in insns[a].wr
  }

  lemma BadLoopMeaning(insns: map<int, Insn>, succ: Succ, out: seq<set<int>>)
    requires Tarjan.Components(succ, out)
    ensures (exists i :: 0 <= i < |out| && BadLoop(insns, succ, out[i]))
       <==> exists a :: a in Tarjan.Finished(out) && a in insns && SP in insns[a].wr && OnCycle(succ, a)
  {
    hide Tarjan.Components, Tarjan.Finished, OnCycle;
    if i :| 0 <= i < |out| && BadLoop(insns, succ, out[i]) {
      var a :| a in out[i] && a in insns && SP in insns[a].wr;
      Tarjan.FinishedMember(out, i);
      Tarjan.CycleIffComponent(succ, out, i, a);
      if |out[i]| == 1 {
        var b :| b in out[i] && Graph.Edge(succ, b, b);
        OneOnly(out[i], a, b);
      }
    }
    if a :| a in Tarjan.Finished(out) && a in insns && SP in insns[a].wr && OnCycle(succ, a) {
      Tarjan.FinishedCovered(out, a);
      var i :| 0 <= i < |out| && a in out[i];
      Tarjan.CycleIffComponent(succ, out, i, a);
      assert BadLoop(insns, succ, out[i]);
    }
  }

  lemma OneOnly(s: set<int>, a: int, b: int)
    requires |s| == 1 && a in s && b in s
    ensures a == b
  {
    assert s == {a} + (s - {a});
  }

  /** Refuses every change of sp on a cycle. */
  method ScanLoops(insns: map<int, Insn>, order: seq<int>, succ: Succ) returns (errs: seq<Err>)
    requires Closed(succ, set a | a in order) && forall a :: a in order ==> a in insns
    ensures errs == [] <==> forall a :: a in order && SP in insns[a].wr ==> !OnCycle(succ, a)
  {
    hide Tarjan.Components, Tarjan.Finished, OnCycle;
    errs := [];
    var out := Tarjan.Sccs(order, succ);
    BadLoopMeaning(insns, succ, out);
    for i := 0 to |out|
      invariant errs == [] <==> forall j :: 0 <= j < i ==> !BadLoop(insns, succ, out[j])
    {
      var comp := out[i];
      if |comp| != 1 || exists a :: a in comp && Graph.Edge(succ, a, a) {
        if a :| a in comp && a in insns && SP in insns[a].wr {
          errs := errs + [Err(a, Frame)];
        }
      }
    }
  }

  // ---- returns ---------------------------------------------------------------------

  predicate TailsAt(edges: seq<BodyRules.Edge>, a: int) {
    exists e :: e in edges && e.at == a && e.kind == TailEdge
  }

  /** What is wrong with the state at a reached instruction. */
  function LeaveErrs(st: Abs, ins: Insn, tail: bool): seq<Err>
    requires st.Ok()
  {
    (if StoresOk(st, ins) then [] else [Err(ins.addr, StoreAbove)])
    + if st.sp.None? then []
      else if ins.flow == RetLr || ins.flow == RetPop then (if ReturnOk(st, ins) then [] else [Err(ins.addr, LeaveBad)])
      else if tail || (ins.flow == IndJump && ins.crossing) then (if HandOverOk(st) then [] else [Err(ins.addr, LeaveBad)])
      else []
  }

  lemma LeaveKinds(st: Abs, ins: Insn, tail: bool)
    requires st.Ok()
    ensures NoIndirect(LeaveErrs(st, ins, tail))
  {
    hide StoresOk, ReturnOk, HandOverOk;
  }

  method ScanReturns(node: Node, insns: map<int, Insn>, inIt: set<int>, order: seq<int>, succ: Succ, edges: seq<BodyRules.Edge>)
    returns (IN: States, joins: set<int>, errs: seq<Err>)
    requires node.addr in order && Closed(succ, set a | a in order) && forall a :: a in order ==> a in insns
    ensures IN.Keys <= (set a | a in order) && (forall a :: a in IN ==> IN[a].Ok())
    ensures node.addr in IN && Leq(IN[node.addr], Entry()) && Fixpoint(insns, inIt, succ, IN)
    ensures joins == {} ==> forall a :: a in IN ==> NoClash(insns, inIt, succ, IN, a)
    ensures joins == {} && SpWritesKnown(insns, set a | a in order) ==> AllSpKnown(IN)
    ensures AllSpKnown(IN) ==> joins == {}
    ensures Best(insns, inIt, succ, node.addr, IN)
    ensures errs == [] <==> joins == {} && forall a :: a in IN ==> LeaveErrs(IN[a], insns[a], TailsAt(edges, a)) == []
    ensures NoIndirect(errs)
  {
    hide NoClash, NodeHolds, SpWritesKnown, LeaveErrs, TailsAt, Leq, Best;
    IN, joins := Run(node.addr, insns, inIt, succ, order);
    errs := if joins == {} then [] else [Err(node.addr, Joins)];
    for i := 0 to |order|
      invariant errs == [] <==> joins == {} && forall j :: 0 <= j < i && order[j] in IN ==> LeaveErrs(IN[order[j]], insns[order[j]], TailsAt(edges, order[j])) == []
      invariant NoIndirect(errs)
    {
      var a := order[i];
      if a in IN {
        LeaveKinds(IN[a], insns[a], TailsAt(edges, a));
        errs := errs + LeaveErrs(IN[a], insns[a], TailsAt(edges, a));
      }
    }
    assert forall a :: a in IN ==> a in order;
  }

  // ---- no better findings ---------------------------------------------------------------

  /** The flow of a body is determined by its code. */
  lemma SameFlow(node: Node, f: Findings, g: Findings)
    requires FlowKnown(node, f) && FlowKnown(node, g)
    ensures f.seen == g.seen && f.succ == g.succ
  {
    hide Next, Reach, Closed;
    SeenWithin(node, f, g);
    SeenWithin(node, g, f);
    assert forall a :: a in f.seen ==> f.succ[a] == g.succ[a];
  }

  lemma SeenWithin(node: Node, f: Findings, g: Findings)
    requires FlowKnown(node, f) && FlowKnown(node, g)
    ensures f.seen <= g.seen
  {
    hide Next, Reach;
    var both := f.seen * g.seen;
    forall u, v | u in both && Graph.Edge(f.succ, u, v)
      ensures v in both
    {
      assert Graph.Edge(g.succ, u, v);
    }
    forall a | a in f.seen
      ensures a in g.seen
    {
      ReachStays(f.succ, both, node.addr, a);
    }
  }

  lemma LeavesRise(x: Abs, y: Abs, ins: Insn, regs: set<Reg>)
    requires x.Ok() && y.Ok() && Leq(x, y) && x.sp.Some? && Within(y, regs) && DirectStores(ins, regs)
    ensures StoresOk(x, ins) ==> StoresOk(y, ins)
    ensures ReturnOk(x, ins) ==> ReturnOk(y, ins)
    ensures HandOverOk(x) ==> HandOverOk(y)
  {
    if StoresOk(x, ins) {
      forall s | s in ins.st && Addr(y, s.base, s.off).Some? && s.n.Some?
        ensures Addr(y, s.base, s.off).value + s.n.value <= 0
      {
        SameAddr(x, y, ins, s, regs);
      }
    }
    if ins.flow == RetPop && PcLoad(ins.ld).Some? {
      AddrRises(x, y, PcLoad(ins.ld).value.base, PcLoad(ins.ld).value.off);
    }
  }

  lemma ClashSame(insns: map<int, Insn>, inIt: set<int>, succ: Succ, IN: States, J: States, a: int)
    requires a in IN && a in J && IN[a].Ok() && J[a].Ok() && J[a].sp.Some? && IN[a].sp == J[a].sp
    requires NoClash(insns, inIt, succ, J, a)
    ensures NoClash(insns, inIt, succ, IN, a)
  {
    forall b | b in Out(succ, a) && a in insns
      ensures !EdgeClash(insns[a], a in inIt, IN[a], b)
    {
      assert !EdgeClash(insns[a], a in inIt, J[a], b);
    }
  }

  lemma AcceptedSolution(image: Image, node: Node, g: Findings)
    requires Accepted(image, node, g)
    ensures Solution(InsnMap(node.code), ItSet(node.code), g.succ, node.addr, g.IN)
  {
    hide Fixpoint, Leq, InsnMap, ItSet, NoClash, StoresOk, ReturnOk, HandOverOk, FlowOk, LoopsOk, ItBlocksOk, ExtentOk, Next, Reach;
  }

  /** Where any findings at all justify a body, those of the work loop do. */
  lemma BestAccepted(image: Image, node: Node, f: Findings, g: Findings, regs: set<Reg>)
    requires FlowKnown(node, f) && StatesKnown(node, f) && Direct(InsnMap(node.code), regs)
    requires Best(InsnMap(node.code), ItSet(node.code), f.succ, node.addr, f.IN)
    requires Accepted(image, node, g)
    ensures Accepted(image, node, f)
  {
    var insns, inIt := InsnMap(node.code), ItSet(node.code);
    SameFlow(node, f, g);
    AcceptedSolution(image, node, g);
    assert Above(f.IN, g.IN, regs);
    hide InsnMap, ItSet, Best, Solution, FlowErrs, OnCycle, Reach, Next, Fixpoint, ItBlocksOk, ExtentOk, NoClash, StoresOk, ReturnOk, HandOverOk, DirectStores, Within, CallsOf;
    forall a | a in f.IN
      ensures f.IN[a].sp.Some? && NoClash(insns, inIt, f.succ, f.IN, a)
      ensures StoresOk(f.IN[a], insns[a]) && ReturnOk(f.IN[a], insns[a])
      ensures TailCalls(image, node, insns[a]) ==> HandOverOk(f.IN[a])
    {
      LeavesRise(g.IN[a], f.IN[a], insns[a], regs);
      ClashSame(insns, inIt, f.succ, f.IN, g.IN, a);
    }
  }

  /** If any findings justify the body, these do. */
  ghost predicate Foremost(image: Image, node: Node, f: Findings) {
    (exists regs :: Direct(InsnMap(node.code), regs)) && (exists g :: Accepted(image, node, g)) ==> Accepted(image, node, f)
  }

  lemma ForemostFrom(image: Image, node: Node, f: Findings)
    requires FlowKnown(node, f) && StatesKnown(node, f)
    requires Best(InsnMap(node.code), ItSet(node.code), f.succ, node.addr, f.IN)
    ensures Foremost(image, node, f)
  {
    hide Accepted, Direct, FlowKnown, StatesKnown, Best;
    if (exists regs :: Direct(InsnMap(node.code), regs)) && (exists g :: Accepted(image, node, g)) {
      var regs :| Direct(InsnMap(node.code), regs);
      var g :| Accepted(image, node, g);
      BestAccepted(image, node, f, g, regs);
    }
  }

  // ---- the whole analysis -------------------------------------------------------------

  /** What the analysis says of a body that is no veneer. */
  ghost predicate BodyVerdict(image: Image, node: Node, info: Info, f: Findings) {
    && info.veneer.None? && info.frame == FrameOf(node.code)
    && (info.frameErrs == [] && info.flowErrs == [] <==> Accepted(image, node, f))
    && FlowKnown(node, f)
    && EdgesExact(image, InsnMap(node.code), node, f.seen, info.edges)
    && (info.frameErrs == [] <==> ExtentOk(image, node) && LoopsOk(node, f))
    && (info.flowErrs == [] ==> ItBlocksOk(node.code) && FlowOk(image, node, f))
    && Foremost(image, node, f)
  }

  /** What it says of a veneer: the one edge goes to the function the literal names. */
  ghost predicate VeneerVerdict(image: Image, node: Node, info: Info) {
    && node.addr in InsnMap(node.code) && VeneerShape(node, InsnMap(node.code)[node.addr])
    && info.frame == FrameOf(node.code)
    && (info.frameErrs == [] <==> ExtentOk(image, node))
    && info.veneer == ThumbEntry(image, InsnMap(node.code)[node.addr].target.value)
    && info.edges == (if info.veneer.Some? then [Edge(info.veneer.value, VeneerEdge, node.addr)] else [])
    && (info.flowErrs == [] <==> ItBlocksOk(node.code) && info.veneer.Some?)
  }

  lemma AcceptedFrom(image: Image, node: Node, f: Findings, edges: seq<BodyRules.Edge>)
    requires WellLaid(node.code)
    requires ExtentOk(image, node) && ItBlocksOk(node.code) && FlowKnown(node, f) && FlowOk(image, node, f) && LoopsOk(node, f)
    requires StatesKnown(node, f) && AllSpKnown(f.IN)
    requires EdgesExact(image, InsnMap(node.code), node, f.seen, edges)
    requires forall a :: a in f.IN ==> NoClash(InsnMap(node.code), ItSet(node.code), f.succ, f.IN, a)
    requires forall a :: a in f.IN ==> LeaveErrs(f.IN[a], InsnMap(node.code)[a], TailsAt(edges, a)) == []
    ensures Accepted(image, node, f)
  {
    hide ItBlocksOk, NoClash, Fixpoint, Leq, Reach, Closed, Next, StoresOk, OnCycle, FlowErrs, CallsOf, ReturnOk, HandOverOk;
    forall a | a in f.IN
      ensures StoresOk(f.IN[a], InsnMap(node.code)[a]) && ReturnOk(f.IN[a], InsnMap(node.code)[a])
      ensures TailCalls(image, node, InsnMap(node.code)[a]) ==> HandOverOk(f.IN[a])
    {
      InsnMapKeys(node.code, a);
      var ins := InsnMap(node.code)[a];
      assert LeaveErrs(f.IN[a], ins, TailsAt(edges, a)) == [];
      if ins.flow != RetLr && ins.flow != RetPop {
        ReturnElse(f.IN[a], ins);
      }
      if e :| e in CallsOf(image, node, ins) && e.kind == TailEdge {
        TailAt(image, node, ins, e);
        assert e in edges;
      }
    }
  }

  /** Nothing is wrong where an accepted body leaves. */
  lemma LeavesFrom(image: Image, node: Node, f: Findings, edges: seq<BodyRules.Edge>, a: int)
    requires Accepted(image, node, f) && a in f.IN && a in InsnMap(node.code) && f.IN[a].Ok() && WellLaid(node.code)
    requires EdgesExact(image, InsnMap(node.code), node, f.seen, edges)
    ensures LeaveErrs(f.IN[a], InsnMap(node.code)[a], TailsAt(edges, a)) == []
  {
    hide StoresOk, ReturnOk, HandOverOk, NoClash, Fixpoint, ItBlocksOk, ExtentOk, LoopsOk, CallsOf, Closed, Reach, Leq, AllSpKnown, TargetErrs, FallErrs, Next;
    var ins := InsnMap(node.code)[a];
    InsnMapKeys(node.code, a);
    assert a in f.seen;
    assert TransferErrs(ins) == [];
    if e :| e in edges && e.at == a && e.kind == TailEdge {
      var b :| b in f.seen && b in InsnMap(node.code) && e in CallsOf(image, node, InsnMap(node.code)[b]);
      TailAt(image, node, InsnMap(node.code)[b], e);
      InsnMapKeys(node.code, b);
      assert TailCalls(image, node, ins);
    }
  }

  lemma ReturnElse(st: Abs, ins: Insn)
    requires st.Ok() && ins.flow != RetLr && ins.flow != RetPop
    ensures ReturnOk(st, ins)
  {
  }

  lemma TailAt(image: Image, node: Node, ins: Insn, e: BodyRules.Edge)
    requires e in CallsOf(image, node, ins) && e.kind == TailEdge
    ensures e.at == ins.addr && ins.flow in {B, Bcc, Cbz}
  {
  }

  lemma SpWritesFrom(node: Node, nodes: set<int>)
    requires WellLaid(node.code) && forall ins :: ins in node.code ==> InsnOk(ins)
    ensures SpWritesKnown(InsnMap(node.code), nodes)
  {
    forall a | a in nodes && a in InsnMap(node.code) && SP in InsnMap(node.code)[a].wr
      ensures InsnMap(node.code)[a].spKnown
    {
      InsnMapKeys(node.code, a);
      assert InsnOk(InsnMap(node.code)[a]);
    }
  }

  lemma ExtentSpWrites(image: Image, node: Node, nodes: set<int>)
    requires WellLaid(node.code) && ExtentOk(image, node)
    ensures SpWritesKnown(InsnMap(node.code), nodes)
  {
    hide InsnOk, Overlapped;
    SpWritesFrom(node, nodes);
  }

  lemma FlowFrom(image: Image, node: Node, inIt: set<int>, seen: set<int>, succ: Succ, errs: seq<Err>, f: Findings)
    requires inIt == ItSet(node.code) && node.addr in seen && f.seen == seen && f.succ == succ
    requires ScanOk(InsnMap(node.code), inIt, node, seen, succ, [])
    requires ErrsExact(image, InsnMap(node.code), inIt, node, seen, errs)
    ensures FlowKnown(node, f) && (errs == [] <==> FlowOk(image, node, f))
  {
    hide Next, Reach, FlowErrs, InsnMap, ItSet;
    var insns := InsnMap(node.code);
    NoneIn(errs);
    forall a | a in f.seen && errs == []
      ensures FlowErrs(image, insns, inIt, node, insns[a]) == []
    {
      forall e
        ensures e !in FlowErrs(image, insns, inIt, node, insns[a])
      {
        assert e !in errs;
      }
      NoneIn(FlowErrs(image, insns, inIt, node, insns[a]));
    }
    forall a | a in f.seen
      ensures FlowErrs(image, insns, inIt, node, insns[a]) == [] ==>
              forall e :: e !in FlowErrs(image, insns, inIt, node, insns[a])
    {
      NoneIn(FlowErrs(image, insns, inIt, node, insns[a]));
    }
    assert FlowOk(image, node, f) ==> forall e :: e !in errs;
  }

  lemma NoneIn(errs: seq<Err>)
    ensures errs == [] <==> forall e :: e !in errs
  {
    if errs != [] {
      assert errs[0] in errs;
    }
  }

  lemma ScanClosed(insns: map<int, Insn>, inIt: set<int>, node: Node, seen: set<int>, succ: Succ)
    requires ScanOk(insns, inIt, node, seen, succ, [])
    ensures Closed(succ, seen) && seen <= insns.Keys
  {
    hide Next, Reach;
  }

  lemma StatesFrom(node: Node, f: Findings)
    requires FlowKnown(node, f)
    requires f.IN.Keys <= f.seen && (forall a :: a in f.IN ==> f.IN[a].Ok())
    requires node.addr in f.IN && Leq(f.IN[node.addr], Entry())
    requires Fixpoint(InsnMap(node.code), ItSet(node.code), f.succ, f.IN)
    ensures StatesKnown(node, f)
  {
    hide FlowKnown, Fixpoint, Leq;
  }

  lemma LoopsFrom(node: Node, f: Findings, order: seq<int>)
    requires FlowKnown(node, f) && f.seen == set a | a in order
    requires forall a :: a in order ==> a in InsnMap(node.code)
    ensures LoopsOk(node, f) <==> forall a :: a in order && SP in InsnMap(node.code)[a].wr ==> !OnCycle(f.succ, a)
  {
    hide OnCycle, InsnMap;
  }

  lemma NoErrsFrom(image: Image, node: Node, f: Findings, edges: seq<BodyRules.Edge>, joins: set<int>, errs: seq<Err>)
    requires WellLaid(node.code) && f.IN.Keys <= InsnMap(node.code).Keys && (forall a :: a in f.IN ==> f.IN[a].Ok())
    requires EdgesExact(image, InsnMap(node.code), node, f.seen, edges)
    requires AllSpKnown(f.IN) ==> joins == {}
    requires errs == [] <==> joins == {} && forall a :: a in f.IN ==> LeaveErrs(f.IN[a], InsnMap(node.code)[a], TailsAt(edges, a)) == []
    ensures Accepted(image, node, f) ==> errs == [] && ExtentOk(image, node) && LoopsOk(node, f) && ItBlocksOk(node.code) && FlowOk(image, node, f)
  {
    hide LeaveErrs, AllSpKnown, EdgesExact, TailsAt, InsnMap, ItSet, NoClash, Fixpoint, Leq, FlowErrs, StoresOk, ReturnOk, HandOverOk;
    if Accepted(image, node, f) {
      forall a | a in f.IN
        ensures LeaveErrs(f.IN[a], InsnMap(node.code)[a], TailsAt(edges, a)) == []
      {
        LeavesFrom(image, node, f, edges, a);
      }
    }
  }

  /** The analysis of one body.  `words` that a veneer loads come from the image; the
      decoded instructions come from the node. */
  method Analyse(image: Image, node: Node) returns (info: Info, ghost f: Findings)
    requires WellLaid(node.code)
    ensures if node.addr !in InsnMap(node.code) then info.flowErrs != [] && info.edges == []
            else if VeneerShape(node, InsnMap(node.code)[node.addr]) then VeneerVerdict(image, node, info)
            else BodyVerdict(image, node, info, f)
    ensures IndirectExact(info.indirect, info.flowErrs)
  {
    hide FlowKnown, FlowOk, LoopsOk, StatesKnown, Accepted, ScanOk, ErrsExact, EdgesExact, ItBlocksOk, ItSet, InsnMap, FrameOf, NoClash, Fixpoint, Leq, LeaveErrs, InsnOk, OnCycle, SpWritesKnown, AllSpKnown, ThumbEntry, Best, Foremost;
    f := Findings({}, map[], map[]);
    var problem := node.problems != 0 || exists a :: a in image.nodes && Inside(node, a);
    var frameErrs := if problem then [Err(node.addr, Frame)] else [];
    var insns := BuildInsns(node.code);
    var inIt, itErrs := ScanIt(node.code);
    var frame, insnErrs := ScanFrame(node.code);
    frameErrs := frameErrs + insnErrs;
    assert frameErrs == [] <==> ExtentOk(image, node);
    if node.addr !in insns {
      info := Info(frame, frameErrs, itErrs + [Err(node.addr, NoEntry)], [], None, []);
      return;
    }
    var entry := insns[node.addr];
    if VeneerShape(node, entry) {
      var t := ThumbEntry(image, entry.target.value);
      if t.Some? {
        info := Info(frame, frameErrs, itErrs, [Edge(t.value, VeneerEdge, node.addr)], t, []);
      } else {
        info := Info(frame, frameErrs, itErrs + [Err(node.addr, VeneerLiteral)], [], None, []);
      }
      return;
    }
    var seen, order, succ, edges, flowErrs, indirect := ScanFlow(image, node, insns, inIt);
    ScanClosed(insns, inIt, node, seen, succ);
    var loopErrs := ScanLoops(insns, order, succ);
    var IN, joins, returnErrs := ScanReturns(node, insns, inIt, order, succ, edges);
    f := Findings(seen, succ, IN);
    FlowFrom(image, node, inIt, seen, succ, flowErrs, f);
    assert StatesKnown(node, f) by { StatesFrom(node, f); }
    assert LoopsOk(node, f) <==> loopErrs == [] by { LoopsFrom(node, f, order); }
    ForemostFrom(image, node, f);
    info := Info(frame, frameErrs + loopErrs, itErrs + flowErrs + returnErrs, edges, None, indirect);
    NoErrsFrom(image, node, f, edges, joins, returnErrs);
    if info.frameErrs == [] && info.flowErrs == [] {
      ExtentSpWrites(image, node, set a | a in order);
      AcceptedFrom(image, node, f, edges);
    }
  }
}
