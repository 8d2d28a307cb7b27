/** The stack gate as a whole: every body analysed, the call tree walked, and what a
    complete walk promises of every run. */
module StackGate {
  import opened Graph
  import opened Thumb
  import opened BodyRules
  import opened BodyAnalysis
  import opened CallGraph
  import opened CallWalk
  import opened Runs
  import opened RunInvariant
  import ItBlocks
  import StackSafety

  type Infos = map<int, Info>

  // ---- from the analysis of a body to what the walk needs of it --------------------

  /** A branch through a core register: the one refusal that a crossing is spared. */
  predicate Site(e: Err) {
    e.kind.Indirect? && e.kind.register
  }

  function FactsOf(info: Info, crossing: bool): Facts {
    var errs := info.frameErrs + info.flowErrs;
    Facts(info.frame,
          forall e :: e in errs ==> crossing && e in info.indirect && Site(e),
          errs == [],
          crossing && exists e :: e in info.indirect && Site(e),
          Callees(info.edges))
  }

  function Callees(edges: seq<BodyRules.Edge>): (out: seq<int>)
    ensures forall t :: t in out <==> exists e :: e in edges && e.callee == t
  {
    if edges == [] then []
    else
      assert edges == [edges[0]] + edges[1..];
      [edges[0].callee] + Callees(edges[1..])
  }

  function BodiesOf(infos: Infos, crossings: set<int>): Bodies {
    map a | a in infos :: FactsOf(infos[a], a in crossings)
  }

  ghost predicate Verdict(image: Image, node: Node, info: Info, f: Findings) {
    if node.addr !in InsnMap(node.code) then info.flowErrs != [] && info.edges == []
    else if VeneerShape(node, InsnMap(node.code)[node.addr]) then VeneerVerdict(image, node, info)
    else BodyVerdict(image, node, info, f)
  }

  ghost predicate Analysed(image: Image, infos: Infos, findings: map<int, Findings>) {
    && infos.Keys == image.nodes.Keys && findings.Keys == image.nodes.Keys
    && forall a :: a in image.nodes ==> Verdict(image, image.nodes[a], infos[a], findings[a])
  }

  /** Functions are named by their entries, and what was decoded of each is in the order of
      addresses. */
  ghost predicate ImageOk(image: Image) {
    forall a :: a in image.nodes ==> image.nodes[a].addr == a && WellLaid(image.nodes[a].code)
  }

  /** A body with an instruction at its entry has its first one there. */
  lemma CodeFrom(node: Node, b: int)
    requires node.addr == b && WellLaid(node.code) && Decoded(node) && b in InsnMap(node.code)
    ensures CodeOk(node, b)
  {
    hide Decoded;
    InsnMapKeys(node.code, b);
    assert forall ins :: ins in node.code ==> node.addr <= ins.addr by { InBody(node); }
    var i :| 0 <= i < |node.code| && node.code[i].addr == b;
    assert node.code[0] in node.code;
    FirstLowest(node.code, i);
  }

  lemma InBody(node: Node)
    requires Decoded(node)
    ensures forall ins :: ins in node.code ==> node.addr <= ins.addr
  {
  }

  lemma FirstLowest(code: seq<Insn>, i: nat)
    requires WellLaid(code) && i < |code|
    ensures code[0].addr <= code[i].addr && (i > 0 ==> code[0].addr < code[i].addr)
  {
    if i > 0 {
      ItBlocks.Ordered(code, 0, i);
      assert code[0] in code;
    }
  }

  lemma CalleeInImage(image: Image, infos: Infos, findings: map<int, Findings>, a: int, e: BodyRules.Edge)
    requires Analysed(image, infos, findings) && a in image.nodes && e in infos[a].edges
    ensures e.callee in image.nodes
  {
    hide ExtentOk, LoopsOk, ItBlocksOk, FlowOk, Accepted, FlowKnown, FrameOf, InsnMap, ItSet;
    assert Verdict(image, image.nodes[a], infos[a], findings[a]);
  }

  lemma AllLinked(image: Image, infos: Infos, findings: map<int, Findings>, crossings: set<int>)
    requires Analysed(image, infos, findings)
    ensures Linked(BodiesOf(infos, crossings))
  {
    hide Analysed, FactsOf;
    forall a, t | a in infos && t in FactsOf(infos[a], a in crossings).callees
      ensures t in infos
    {
      LinkedOne(image, infos, findings, crossings, a, t);
    }
  }

  lemma LinkedOne(image: Image, infos: Infos, findings: map<int, Findings>, crossings: set<int>, a: int, t: int)
    requires Analysed(image, infos, findings) && a in infos && t in FactsOf(infos[a], a in crossings).callees
    ensures t in infos
  {
    hide Verdict;
    var e :| e in infos[a].edges && e.callee == t;
    CalleeInImage(image, infos, findings, a, e);
  }

  // ---- a complete walk ---------------------------------------------------------------

  function Finished(memo: map<int, Whole>): map<int, nat> {
    map a | a in memo && memo[a].ok :: memo[a].need
  }

  /** What a run is judged by: the bodies walked without fault and the need of each. */
  function GateCtx(image: Image, findings: map<int, Findings>, memo: map<int, Whole>, rise: map<int, nat>,
                   root: int, sp0: int, lr0: int, async: bool): Ctx {
    Ctx(image, findings, Finished(memo).Keys, Finished(memo), rise, root, sp0, lr0, async)
  }

  ghost predicate Walked(bodies: Bodies, memo: map<int, Whole>) {
    && (forall a :: a in memo && memo[a].ok ==> a in bodies && bodies[a].whole && WholeIs(Strict(bodies), a, memo[a]))
    && (forall a, t :: a in memo && memo[a].ok && a in bodies && t in bodies[a].callees ==> t in memo && memo[t].ok)
  }

  lemma WalkedFrom(walk: Walk)
    requires walk.Valid()
    ensures Walked(walk.bodies, walk.memo)
  {
    hide BadBelow, WholeIs, PartsExact;
    var bodies, memo, oks := walk.bodies, walk.memo, WholeOks(walk.memo);
    forall a | a in memo && memo[a].ok
      ensures a in bodies && bodies[a].whole && WholeIs(Strict(bodies), a, memo[a])
      ensures forall t :: t in bodies[a].callees ==> t in memo && memo[t].ok
    {
      assert oks[a];
      assert CalleesFirst(Strict(bodies), oks, walk.done, a);
    }
  }

  /** A body needs its frame more than anything it calls. */
  lemma NeedFalls(bodies: Bodies, memo: map<int, Whole>, a: int, t: int)
    requires Walked(bodies, memo) && a in memo && memo[a].ok && a in bodies && t in bodies[a].callees
    ensures t in memo && memo[t].ok && bodies[a].frame + memo[t].need <= memo[a].need
  {
    var strict := Strict(bodies);
    assert WholeIs(strict, a, memo[a]) && WholeIs(strict, t, memo[t]);
    var c :| IsChain(strict, t, c) && Cost(strict, c) == memo[t].need;
    ChainPrepend(strict, a, c);
  }

  lemma FrameWithin(bodies: Bodies, memo: map<int, Whole>, a: int)
    requires Walked(bodies, memo) && a in memo && memo[a].ok
    ensures a in bodies && bodies[a].frame <= memo[a].need
  {
    assert WholeIs(Strict(bodies), a, memo[a]);
    ChainAlone(Strict(bodies), a);
  }

  lemma VeneerOk(c: Ctx, infos: Infos, memo: map<int, Whole>, crossings: set<int>, b: int)
    requires Analysed(c.image, infos, c.findings) && Walked(BodiesOf(infos, crossings), memo)
    requires c.bodies == Finished(memo).Keys && c.depth == Finished(memo) && b in c.bodies && IsVeneer(c, b)
    requires b in c.image.nodes && CodeOk(c.image.nodes[b], b)
    ensures BodyOk(c, b)
  {
    hide Walked, FlowKnown, FlowOk, ItBlocksOk, LoopsOk, CodeOk, InsnMap, InsnOk, FrameOf, Overlapped, VeneerShape;
    var node, bodies := c.image.nodes[b], BodiesOf(infos, crossings);
    BodyFacts(infos, memo, crossings, b);
    assert node.addr == b by { CodeEntry(node, b); }
    assert Verdict(c.image, node, infos[b], c.findings[b]);
    var e := infos[b].edges[0];
    assert e in infos[b].edges;
    NeedFalls(bodies, memo, b, e.callee);
  }

  lemma CodeEntry(node: Node, b: int)
    requires CodeOk(node, b)
    ensures node.addr == b && WellLaid(node.code)
  {
  }

  lemma BodyFacts(infos: Infos, memo: map<int, Whole>, crossings: set<int>, b: int)
    requires Walked(BodiesOf(infos, crossings), memo) && b in memo && memo[b].ok
    ensures b in infos && infos[b].frameErrs == [] && infos[b].flowErrs == []
    ensures b in BodiesOf(infos, crossings) && BodiesOf(infos, crossings)[b].frame == infos[b].frame
    ensures BodiesOf(infos, crossings)[b].callees == Callees(infos[b].edges)
  {
    hide WholeIs;
  }

  lemma OrdinaryOk(c: Ctx, infos: Infos, memo: map<int, Whole>, crossings: set<int>, b: int)
    requires Analysed(c.image, infos, c.findings) && Walked(BodiesOf(infos, crossings), memo)
    requires c.bodies == Finished(memo).Keys && c.depth == Finished(memo) && b in c.bodies && !IsVeneer(c, b)
    requires b in c.image.nodes && CodeOk(c.image.nodes[b], b)
    ensures BodyOk(c, b)
  {
    hide Walked, FlowKnown, FlowOk, ItBlocksOk, LoopsOk, CodeOk, InsnMap, InsnOk, FrameOf, Overlapped, VeneerShape, EdgesExact, Accepted, CallsOf;
    var node, bodies, f := c.image.nodes[b], BodiesOf(infos, crossings), c.findings[b];
    BodyFacts(infos, memo, crossings, b);
    assert node.addr == b by { CodeEntry(node, b); }
    assert Verdict(c.image, node, infos[b], f);
    FrameWithin(bodies, memo, b);
    forall a, e | a in f.seen && a in Insns(c, b) && e in CallsOf(c.image, node, Insns(c, b)[a])
      ensures e.callee in c.bodies && e.callee in c.depth && FrameOf(node.code) + c.depth[e.callee] <= c.depth[b]
    {
      assert e in infos[b].edges by { EdgeFound(c.image, node, f.seen, infos[b].edges, a, e); }
      NeedFalls(bodies, memo, b, e.callee);
    }
  }

  lemma EdgeFound(image: Image, node: Node, seen: set<int>, edges: seq<BodyRules.Edge>, a: int, e: BodyRules.Edge)
    requires EdgesExact(image, InsnMap(node.code), node, seen, edges)
    requires a in seen && a in InsnMap(node.code) && e in CallsOf(image, node, InsnMap(node.code)[a])
    ensures e in edges
  {
    hide CallsOf, InsnMap;
  }

  /** A walk without fault below the root is a proof that the program is sound: every
      body it needs was accepted and its need covers its frame and its callees. */
  lemma WalkedProgramOk(image: Image, infos: Infos, findings: map<int, Findings>, crossings: set<int>, memo: map<int, Whole>,
                        rise: map<int, nat>, root: int, sp0: int, lr0: int, async: bool)
    requires ImageOk(image) && Analysed(image, infos, findings) && Walked(BodiesOf(infos, crossings), memo)
    requires forall b :: b in Finished(memo) && b in image.nodes ==> Decoded(image.nodes[b])
    requires root in memo && memo[root].ok && memo[root].need <= 0x8000_0000
    requires async ==> Calm(GateCtx(image, findings, memo, rise, root, sp0, lr0, async))
    ensures ProgramOk(GateCtx(image, findings, memo, rise, root, sp0, lr0, async))
  {
    hide CodeOk, Decoded, BodyOk, Calm, Walked, Verdict, IsVeneer, FactsOf, WellLaid;
    var c := GateCtx(image, findings, memo, rise, root, sp0, lr0, async);
    forall b | b in c.bodies
      ensures BodyOk(c, b)
    {
      BodyFacts(infos, memo, crossings, b);
      EntryThere(image, image.nodes[b], infos[b], findings[b]);
      CodeFrom(image.nodes[b], b);
      if IsVeneer(c, b) {
        VeneerOk(c, infos, memo, crossings, b);
      } else {
        OrdinaryOk(c, infos, memo, crossings, b);
      }
    }
  }

  lemma EntryThere(image: Image, node: Node, info: Info, f: Findings)
    requires Verdict(image, node, info, f) && info.flowErrs == []
    ensures node.addr in InsnMap(node.code)
  {
    hide VeneerVerdict, BodyVerdict;
  }

  /** `need` bounds the stack of every run from the root, and every run goes back to
      its caller. */
  ghost predicate Bounds(c: Ctx, need: nat) {
    forall states: seq<State>, choices: seq<Choice>, k :: IsRun(c, states, choices) && 0 <= k < |states| ==> StateBound(c, states[k], need)
  }

  ghost predicate StateBound(c: Ctx, s: State, need: nat) {
    && s != Wild
    && (s.Running? ==> c.sp0 - need <= s.cpu.sp)
    && (s.Done? ==> s.end.sp == c.sp0 && s.to == c.lr0)
  }

  lemma ProgramBounds(c: Ctx)
    requires ProgramOk(c)
    ensures c.root in c.depth && Bounds(c, c.depth[c.root])
  {
    StackSafety.RootDepth(c);
    hide ProgramOk, IsRun;
    forall states: seq<State>, choices: seq<Choice>, k: nat | IsRun(c, states, choices) && k < |states|
      ensures StateBound(c, states[k], c.depth[c.root])
    {
      StackSafety.WholeRunReturns(c, states, choices, k);
      if states[k].Running? {
        StackSafety.WholeRunStackBound(c, states, choices, k);
      }
    }
  }

  /** Analyses every body of the image. */
  method AnalyseAll(image: Image) returns (infos: Infos, ghost findings: map<int, Findings>)
    requires ImageOk(image)
    ensures Analysed(image, infos, findings)
  {
    hide WellLaid, Verdict;
    infos, findings := map[], map[];
    var todo := image.nodes.Keys;
    while todo != {}
      invariant todo <= image.nodes.Keys && infos.Keys == findings.Keys == image.nodes.Keys - todo
      invariant forall a :: a in infos ==> Verdict(image, image.nodes[a], infos[a], findings[a])
      decreases |todo|
    {
      NotEmpty(todo);
      var a :| a in todo;
      var info, f := Analyse(image, image.nodes[a]);
      assert Verdict(image, image.nodes[a], info, f) by { hide FlowKnown, ExtentOk, Accepted; VerdictIs(image, image.nodes[a], info, f); }
      infos, findings, todo := infos[a := info], findings[a := f], todo - {a};
    }
  }

  lemma NotEmpty(s: set<int>)
    ensures s != {} ==> exists a :: a in s
  {
    if forall a :: a !in s {
      assert s == {};
    }
  }

  lemma VerdictIs(image: Image, node: Node, info: Info, f: Findings)
    requires if node.addr !in InsnMap(node.code) then info.flowErrs != [] && info.edges == []
             else if VeneerShape(node, InsnMap(node.code)[node.addr]) then VeneerVerdict(image, node, info)
             else BodyVerdict(image, node, info, f)
    ensures Verdict(image, node, info, f)
  {
    hide BodyVerdict, VeneerVerdict;
  }

  /** The firmware's check of one root.  It is complete exactly when every body the root
      reaches is accepted and none lies on a cycle of calls.  A complete result is a bound:
      whatever sp and lr the root starts with, on any run, and with interrupts on the same
      stack too where no body rises above its callers' saved words. */
  method Check(image: Image, root: int)
    returns (w: Whole, ghost infos: Infos, ghost findings: map<int, Findings>, ghost memo: map<int, Whole>)
    requires ImageOk(image) && root in image.nodes
    ensures Analysed(image, infos, findings)
    ensures w.ok <==> !BadBelow(Strict(BodiesOf(infos, {})), root)
    ensures w.ok ==> WholeIs(Strict(BodiesOf(infos, {})), root, w)
    ensures w.ok && w.need <= 0x8000_0000 && (forall b :: b in Finished(memo) && b in image.nodes ==> Decoded(image.nodes[b])) ==>
      forall rise, sp0, lr0, async :: Promised(GateCtx(image, findings, memo, rise, root, sp0, lr0, async), w.need)
  {
    hide ImageOk, Analysed, BadBelow, Bounds, WholeIs, Decoded, Calm;
    var found: Infos;
    found, findings := AnalyseAll(image);
    infos := found;
    AllLinked(image, infos, findings, {});
    InBodies(image, infos, findings, root);
    var walk := new Walk(BodiesOf(found, {}));
    w := walk.Total(root, []);
    memo := walk.memo;
    WalkedFrom(walk);
    if w.ok && w.need <= 0x8000_0000 && (forall b :: b in Finished(memo) && b in image.nodes ==> Decoded(image.nodes[b])) {
      forall rise, sp0, lr0, async
        ensures Promised(GateCtx(image, findings, memo, rise, root, sp0, lr0, async), w.need)
      {
        var c := GateCtx(image, findings, memo, rise, root, sp0, lr0, async);
        if async ==> Calm(c) {
          WalkedProgramOk(image, infos, findings, {}, memo, rise, root, sp0, lr0, async);
          ProgramBounds(c);
        }
      }
    }
  }

  /** The bound, with interrupts on the running stack only where they leave it alone. */
  ghost predicate Promised(c: Ctx, need: nat) {
    (c.async ==> Calm(c)) ==> Bounds(c, need)
  }

  lemma InBodies(image: Image, infos: Infos, findings: map<int, Findings>, root: int)
    requires Analysed(image, infos, findings) && root in image.nodes
    ensures root in BodiesOf(infos, {})
  {
    hide Verdict, FactsOf;
  }
}
