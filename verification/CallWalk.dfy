/** The memoised walk down the call tree. */
module CallWalk {
  import opened Graph
  import opened Thumb
  import opened CallGraph

  // ---- the order in which bodies are finished ----------------------------------------

  ghost predicate Distinct(s: seq<int>) {
    forall i, j :: 0 <= i < j < |s| ==> s[i] != s[j]
  }

  ghost function Rank(s: seq<int>, a: int): nat
    requires a in s
    ensures Rank(s, a) < |s| && s[Rank(s, a)] == a
  {
    if s[|s| - 1] == a then |s| - 1 else Rank(s[..|s| - 1], a)
  }

  /** Every callee of a was finished before a, and without fault if a was. */
  ghost predicate CalleesFirst(bodies: Bodies, oks: map<int, bool>, done: seq<int>, a: int) {
    a in bodies && a in done && a in oks
    && forall c :: c in bodies[a].callees ==>
         c in done && c in oks && Rank(done, c) < Rank(done, a) && (oks[a] ==> oks[c])
  }

  /** What the memo knows: of a body without fault, that nothing below it is wrong; of
      one with a fault, that something is; and while no recursion was met, that callees
      were finished first. */
  ghost predicate MemoOk(bodies: Bodies, oks: map<int, bool>, done: seq<int>, recursion: set<set<int>>) {
    && Distinct(done) && oks.Keys == (set a | a in done) && oks.Keys <= bodies.Keys
    && (forall a :: a in oks && (oks[a] || recursion == {}) ==> CalleesFirst(bodies, oks, done, a))
    && (forall a :: a in oks && oks[a] ==> bodies[a].ok)
    && (forall a :: a in oks && !oks[a] ==> BadBelow(bodies, a))
  }

  lemma {:induction false} RankAppend(s: seq<int>, a: int, c: int)
    requires c in s && a !in s
    ensures Rank(s + [a], c) == Rank(s, c) && Rank(s + [a], a) == |s|
  {
    assert (s + [a])[..|s|] == s;
  }

  lemma RanksDiffer(s: seq<int>, a: int, c: int)
    requires a in s && c in s && Rank(s, a) == Rank(s, c)
    ensures a == c
  {
  }

  lemma MemoAdd(bodies: Bodies, oks: map<int, bool>, done: seq<int>, recursion: set<set<int>>, a: int, ok: bool)
    requires MemoOk(bodies, oks, done, recursion) && a in bodies && a !in oks
    requires ok || recursion == {} ==> forall c :: c in bodies[a].callees ==> c in oks && (ok ==> oks[c])
    requires if ok then bodies[a].ok else BadBelow(bodies, a)
    ensures MemoOk(bodies, oks[a := ok], done + [a], recursion)
  {
    hide BadBelow;
    var oks', done' := oks[a := ok], done + [a];
    assert a !in done;
    assert oks'.Keys == set b | b in done';
    forall b | b in oks' && (oks'[b] || recursion == {})
      ensures CalleesFirst(bodies, oks', done', b)
    {
      if b == a {
        forall c | c in bodies[a].callees
          ensures c in done' && c in oks' && Rank(done', c) < Rank(done', a) && (oks'[a] ==> oks'[c])
        {
          RankAppend(done, a, c);
        }
      } else {
        assert CalleesFirst(bodies, oks, done, b);
        RankAppend(done, a, b);
        forall c | c in bodies[b].callees
          ensures c in done' && c in oks' && Rank(done', c) < Rank(done', b) && (oks'[b] ==> oks'[c])
        {
          RankAppend(done, a, c);
        }
      }
    }
  }

  lemma MoreRecursion(bodies: Bodies, oks: map<int, bool>, done: seq<int>, recursion: set<set<int>>, k: set<int>)
    requires MemoOk(bodies, oks, done, recursion)
    ensures MemoOk(bodies, oks, done, recursion + {k})
  {
    hide BadBelow, CalleesFirst;
    assert k in recursion + {k};
  }

  // ---- what a finished body tells of everything below it -----------------------------

  /** Walks from a body whose callees all come first go down in rank. */
  lemma {:induction false} RankDescends(bodies: Bodies, oks: map<int, bool>, done: seq<int>, s: set<int>, p: seq<int>)
    requires IsWalk(Calls(bodies), p) && p[0] in s
    requires forall a :: a in s ==> a in bodies && CalleesFirst(bodies, oks, done, a)
    requires forall a, c :: a in s && c in bodies[a].callees ==> c in s
    ensures p[|p| - 1] in s && p[|p| - 1] in done && p[0] in done && Rank(done, p[|p| - 1]) <= Rank(done, p[0])
  {
    assert CalleesFirst(bodies, oks, done, p[0]);
    if |p| > 1 {
      assert Edge(Calls(bodies), p[0], p[0 + 1]);
      TailIsWalk(Calls(bodies), p);
      RankDescends(bodies, oks, done, s, p[1..]);
    }
  }

  lemma NoCycleIn(bodies: Bodies, oks: map<int, bool>, done: seq<int>, s: set<int>, a: int)
    requires a in s
    requires forall b :: b in s ==> b in bodies && CalleesFirst(bodies, oks, done, b)
    requires forall b, c :: b in s && c in bodies[b].callees ==> c in s
    ensures !OnCycle(Calls(bodies), a)
  {
    if v :| Edge(Calls(bodies), a, v) && Reach(Calls(bodies), v, a) {
      assert CalleesFirst(bodies, oks, done, a);
      var p :| WalkBetween(Calls(bodies), v, a, p);
      RankDescends(bodies, oks, done, s, p);
    }
  }

  lemma OkSet(bodies: Bodies, oks: map<int, bool>, done: seq<int>, recursion: set<set<int>>) returns (s: set<int>)
    requires MemoOk(bodies, oks, done, recursion)
    ensures s == set a | a in oks && (oks[a] || recursion == {})
    ensures forall b :: b in s ==> b in bodies && CalleesFirst(bodies, oks, done, b)
    ensures forall b, c :: b in s && c in bodies[b].callees ==> c in s
    ensures Closed(Calls(bodies), s)
  {
    hide BadBelow;
    s := set a | a in oks && (oks[a] || recursion == {});
    forall b, c | b in s && c in bodies[b].callees
      ensures c in s
    {
      assert CalleesFirst(bodies, oks, done, b);
    }
  }

  /** A body finished without fault: every body below it is accepted and none of them
      is on a cycle. */
  lemma OkMeansClean(bodies: Bodies, oks: map<int, bool>, done: seq<int>, recursion: set<set<int>>, a: int)
    requires MemoOk(bodies, oks, done, recursion) && a in oks && oks[a]
    ensures !BadBelow(bodies, a)
  {
    var ok := set b | b in oks && oks[b];
    forall b | b in ok
      ensures b in bodies && CalleesFirst(bodies, oks, done, b)
    {
    }
    forall b, c | b in ok && c in bodies[b].callees
      ensures c in ok
    {
      assert CalleesFirst(bodies, oks, done, b);
    }
    assert Closed(Calls(bodies), ok);
    forall b | Reach(Calls(bodies), a, b)
      ensures b in bodies && bodies[b].ok && !OnCycle(Calls(bodies), b)
    {
      ReachStays(Calls(bodies), ok, a, b);
      NoCycleIn(bodies, oks, done, ok, b);
    }
  }

  /** Whatever the memo already held: while no recursion was reported, there is none
      below a finished body. */
  lemma CycleReported(bodies: Bodies, oks: map<int, bool>, done: seq<int>, recursion: set<set<int>>, a: int, b: int)
    requires MemoOk(bodies, oks, done, recursion) && a in oks
    requires Reach(Calls(bodies), a, b) && OnCycle(Calls(bodies), b)
    ensures recursion != {}
  {
    var s := OkSet(bodies, oks, done, recursion);
    if recursion == {} {
      ReachStays(Calls(bodies), s, a, b);
      NoCycleIn(bodies, oks, done, s, b);
    }
  }

  // ---- faults ------------------------------------------------------------------------

  lemma BadThrough(bodies: Bodies, a: int, c: int)
    requires a in bodies && c in bodies[a].callees && BadBelow(bodies, c)
    ensures BadBelow(bodies, a)
  {
    var b :| Reach(Calls(bodies), c, b) && (b !in bodies || !bodies[b].ok || OnCycle(Calls(bodies), b));
    ReachEdge(Calls(bodies), a, c);
    ReachTrans(Calls(bodies), a, c, b);
  }

  lemma BadItself(bodies: Bodies, a: int)
    requires a in bodies && !bodies[a].ok
    ensures BadBelow(bodies, a)
  {
    ReachRefl(Calls(bodies), a);
  }

  /** The bodies being walked, each a callee of the one before. */
  ghost predicate PathOk(bodies: Bodies, path: seq<int>) {
    && Distinct(path)
    && (forall i :: 0 <= i < |path| ==> path[i] in bodies)
    && (forall i :: 0 <= i < |path| - 1 ==> path[i + 1] in bodies[path[i]].callees)
  }

  lemma {:induction false} PathReach(bodies: Bodies, path: seq<int>, i: nat, j: nat)
    requires PathOk(bodies, path) && i <= j < |path|
    ensures Reach(Calls(bodies), path[i], path[j])
  {
    if i == j {
      ReachRefl(Calls(bodies), path[i]);
    } else {
      PathReach(bodies, path, i, j - 1);
      assert path[j - 1 + 1] in bodies[path[j - 1]].callees;
      ReachEdge(Calls(bodies), path[j - 1], path[j]);
      ReachTrans(Calls(bodies), path[i], path[j - 1], path[j]);
    }
  }

  /** Coming back to a body of the path closes a cycle through all bodies from it on. */
  lemma BackOnPath(bodies: Bodies, path: seq<int>, i: nat, j: nat)
    requires PathOk(bodies, path) && i <= j < |path| && path[i] in bodies[path[|path| - 1]].callees
    ensures OnCycle(Calls(bodies), path[j])
  {
    var last := path[|path| - 1];
    PathReach(bodies, path, i, j);
    if j == |path| - 1 {
      assert Edge(Calls(bodies), last, path[i]);
    } else {
      assert path[j + 1] in bodies[path[j]].callees;
      assert Edge(Calls(bodies), path[j], path[j + 1]);
      PathReach(bodies, path, j + 1, |path| - 1);
      ReachEdge(Calls(bodies), last, path[i]);
      ReachTrans(Calls(bodies), path[j + 1], last, path[i]);
      ReachTrans(Calls(bodies), path[j + 1], path[i], path[j]);
    }
  }

  lemma PathCycle(bodies: Bodies, path: seq<int>, i: nat)
    requires PathOk(bodies, path) && i < |path| && path[i] in bodies[path[|path| - 1]].callees
    ensures forall a :: a in path[i..] ==> OnCycle(Calls(bodies), a)
    ensures OnCycle(Calls(bodies), path[i]) && Reach(Calls(bodies), path[i], path[i]) && BadBelow(bodies, path[i])
  {
    hide OnCycle;
    forall a | a in path[i..]
      ensures OnCycle(Calls(bodies), a)
    {
      var j :| 0 <= j < |path[i..]| && path[i..][j] == a;
      BackOnPath(bodies, path, i, i + j);
    }
    BackOnPath(bodies, path, i, i);
    ReachRefl(Calls(bodies), path[i]);
  }

  // ---- the walk ------------------------------------------------------------------------

  /** (A0, A1, complete) below a body. */
  datatype Parts = Parts(own: nat, cross: Option<nat>, ok: bool)

  /** The need below a body, the chain that needs it, complete. */
  datatype Whole = Whole(need: nat, chain: seq<int>, ok: bool)

  function PartsOks(m: map<int, Parts>): map<int, bool> {
    map a | a in m :: m[a].ok
  }

  function WholeOks(m: map<int, Whole>): map<int, bool> {
    map a | a in m :: m[a].ok
  }

  ghost predicate PartsExact(bodies: Bodies, m: map<int, Parts>) {
    forall a :: a in m && m[a].ok ==> OwnExact(bodies, a, m[a].own) && CrossExact(bodies, a, m[a].cross)
  }

  /** The chain is one that needs the most. */
  ghost predicate WholeIs(bodies: Bodies, a: int, w: Whole) {
    OwnExact(bodies, a, w.need) && IsChain(bodies, a, w.chain) && Cost(bodies, w.chain) == w.need
  }

  ghost predicate WholeExact(bodies: Bodies, m: map<int, Whole>) {
    forall a :: a in m && m[a].ok ==> WholeIs(bodies, a, m[a])
  }

  /** Every reported recursion is one. */
  ghost predicate CyclesReal(bodies: Bodies, recursion: set<set<int>>) {
    forall k, a :: k in recursion && a in k ==> OnCycle(Calls(bodies), a)
  }

  ghost function Others(bodies: Bodies, path: seq<int>): set<int> {
    bodies.Keys - set a | a in path
  }

  lemma OthersLess(bodies: Bodies, path: seq<int>, a: int)
    requires a in bodies && a !in path
    ensures |Others(bodies, path + [a])| < |Others(bodies, path)|
  {
    assert Others(bodies, path) == Others(bodies, path + [a]) + {a};
  }

  lemma PathAppend(bodies: Bodies, path: seq<int>, a: int)
    requires PathOk(bodies, path) && a in bodies && a !in path
    requires path != [] ==> a in bodies[path[|path| - 1]].callees
    ensures PathOk(bodies, path + [a])
  {
    var p := path + [a];
    forall i | 0 <= i < |p| - 1
      ensures p[i + 1] in bodies[p[i]].callees
    {
      if i < |path| - 1 {
        assert path[i + 1] in bodies[path[i]].callees;
      }
    }
  }

  class Walk {
    const bodies: Bodies
    var memo: map<int, Whole>
    var pmemo: map<int, Parts>
    var closure: set<int>
    var recursion: set<set<int>>
    var errors: seq<set<int>>
    ghost var done: seq<int>
    ghost var pdone: seq<int>

    ghost predicate Valid()
      reads this
    {
      && Linked(bodies)
      && MemoOk(bodies, PartsOks(pmemo), pdone, recursion) && PartsExact(bodies, pmemo)
      && MemoOk(Strict(bodies), WholeOks(memo), done, recursion) && WholeExact(Strict(bodies), memo)
      && CyclesReal(bodies, recursion)
      && (errors == [] <==> recursion == {})
    }

    constructor (image: Bodies)
      requires Linked(image)
      ensures Valid() && bodies == image
      ensures memo == map[] && pmemo == map[] && closure == {} && recursion == {} && errors == []
    {
      bodies := image;
      memo, pmemo, closure, recursion, errors := map[], map[], {}, {}, [];
      done, pdone := [], [];
    }

    /** The walk came back to addr: reports the cycle, once. */
    method Recursion(addr: int, path: seq<int>)
      requires Valid() && PathOk(bodies, path) && addr in path && addr in bodies[path[|path| - 1]].callees
      modifies `recursion, `errors
      ensures Valid() && old(recursion) <= recursion && recursion != {}
      ensures OnCycle(Calls(bodies), addr) && Reach(Calls(bodies), addr, addr) && BadBelow(bodies, addr)
      ensures recursion == old(recursion) ==> errors == old(errors)
    {
      hide MemoOk, BadBelow, PartsExact, WholeExact, OnCycle, PathOk;
      var i: nat :| i < |path| && path[i] == addr;
      var key := set a | a in path[i..];
      PathCycle(bodies, path, i);
      MoreRecursion(bodies, PartsOks(pmemo), pdone, recursion, key);
      MoreRecursion(Strict(bodies), WholeOks(memo), done, recursion, key);
      if key !in recursion {
        recursion := recursion + {key};
        errors := errors + [key];
      }
      assert key in recursion;
    }

    /** Every callee of addr has been walked: its result is remembered. */
    method Store(addr: int, r: Parts)
      requires Valid() && addr in bodies && addr !in pmemo
      requires r.ok || recursion == {} ==> CalleesDone(bodies, PartsOks(pmemo), |bodies[addr].callees|, addr, r.ok)
      requires if r.ok then bodies[addr].ok else BadBelow(bodies, addr)
      requires r.ok ==> OwnExact(bodies, addr, r.own) && CrossExact(bodies, addr, r.cross)
      modifies `pmemo, `pdone
      ensures Valid() && pmemo == old(pmemo)[addr := r]
      ensures r.ok <==> !BadBelow(bodies, addr)
    {
      hide MemoOk, BadBelow, OwnExact, CrossExact, CyclesReal, CalleesDone;
      CalleesAll(bodies, PartsOks(pmemo), addr, r.ok);
      MemoAdd(bodies, PartsOks(pmemo), pdone, recursion, addr, r.ok);
      assert PartsOks(pmemo[addr := r]) == PartsOks(pmemo)[addr := r.ok];
      pmemo := pmemo[addr := r];
      pdone := pdone + [addr];
      Verdict(bodies, PartsOks(pmemo), pdone, recursion, addr);
    }

    /** The two halves below addr, reached by the calls along path. */
    method PartsOf(addr: int, path: seq<int>) returns (r: Parts)
      requires Valid() && addr in bodies && PathOk(bodies, path)
      requires path != [] ==> addr in bodies[path[|path| - 1]].callees
      requires forall a :: a in path ==> a !in pmemo
      modifies this
      decreases |Others(bodies, path)|
      ensures Valid() && memo == old(memo) && old(closure) <= closure && old(recursion) <= recursion
      ensures forall a :: a in path ==> a !in pmemo
      ensures forall a :: a in old(pmemo) ==> a in pmemo && pmemo[a] == old(pmemo)[a]
      ensures if addr in path then !r.ok && recursion != {} else addr in pmemo && pmemo[addr] == r
      ensures r.ok <==> !BadBelow(bodies, addr)
      ensures r.ok ==> OwnExact(bodies, addr, r.own) && CrossExact(bodies, addr, r.cross)
    {
      hide MemoOk, BadBelow, OwnExact, CrossExact, CyclesReal, BestOwn, BestCross, PathOk, WholeExact, PartsExact, Others, CalleesDone;
      if addr in path {
        Recursion(addr, path);
        return Parts(0, None, false);
      }
      if addr in pmemo {
        r := pmemo[addr];
        Remembered(bodies, pmemo, pdone, recursion, addr);
        return;
      }
      closure := closure + {addr};
      var complete := bodies[addr].ok;
      var own: nat := 0;
      var cross: Option<nat> := if bodies[addr].crosses then Some(0) else None;
      ghost var before := pmemo;
      BestStart(bodies, addr);
      assert CalleesDone(bodies, PartsOks(pmemo), 0, addr, complete) by { NoCallees(bodies, PartsOks(pmemo), addr, complete); }
      PathAppend(bodies, path, addr);
      OthersLess(bodies, path, addr);
      for n := 0 to |bodies[addr].callees|
        invariant Valid() && memo == old(memo) && old(closure) <= closure && old(recursion) <= recursion
        invariant forall a :: a in path + [addr] ==> a !in pmemo
        invariant forall a :: a in before ==> a in pmemo && pmemo[a] == before[a]
        invariant recursion == {} || complete ==> CalleesDone(bodies, PartsOks(pmemo), n, addr, complete)
        invariant complete ==> bodies[addr].ok && BestOwn(bodies, addr, n, own) && BestCross(bodies, addr, n, cross)
        invariant !complete ==> BadBelow(bodies, addr)
      {
        var callee := bodies[addr].callees[n];
        assert callee in bodies[addr].callees && callee in bodies;
        ghost var earlier := pmemo;
        var p := PartsOf(callee, path + [addr]);
        if recursion == {} || (complete && p.ok) {
          CalleesDoneNext(bodies, PartsOks(earlier), PartsOks(pmemo), n, addr, complete, complete && p.ok);
        }
        BestNext(bodies, addr, n, own, cross, complete, p);
        complete := complete && p.ok;
        own := if p.own > own then p.own else own;
        cross := MaxCross(cross, p.cross);
      }
      r := Parts(bodies[addr].frame + own, if cross.None? then None else Some(bodies[addr].frame + cross.value), complete);
      if complete {
        OwnAll(bodies, addr, own);
        CrossAll(bodies, addr, cross);
      }
      assert addr in path + [addr];
      Store(addr, r);
    }

    /** Every callee of addr has been walked by Total: its result is remembered. */
    method StoreWhole(addr: int, w: Whole)
      requires Valid() && addr in bodies && addr !in memo
      requires w.ok || recursion == {} ==> CalleesDone(Strict(bodies), WholeOks(memo), |bodies[addr].callees|, addr, w.ok)
      requires if w.ok then bodies[addr].whole else BadBelow(Strict(bodies), addr)
      requires w.ok ==> WholeIs(Strict(bodies), addr, w)
      modifies `memo, `done
      ensures Valid() && memo == old(memo)[addr := w]
      ensures w.ok <==> !BadBelow(Strict(bodies), addr)
    {
      hide MemoOk, BadBelow, WholeIs, PartsExact, CyclesReal, CalleesDone;
      CalleesAll(Strict(bodies), WholeOks(memo), addr, w.ok);
      MemoAdd(Strict(bodies), WholeOks(memo), done, recursion, addr, w.ok);
      assert WholeOks(memo[addr := w]) == WholeOks(memo)[addr := w.ok];
      memo := memo[addr := w];
      done := done + [addr];
      Verdict(Strict(bodies), WholeOks(memo), done, recursion, addr);
    }

    /** The need below addr and a chain that has it, reached by the calls along path. */
    method Total(addr: int, path: seq<int>) returns (w: Whole)
      requires Valid() && addr in bodies && PathOk(bodies, path)
      requires path != [] ==> addr in bodies[path[|path| - 1]].callees
      requires forall a :: a in path ==> a !in memo
      modifies this
      decreases |Others(bodies, path)|
      ensures Valid() && pmemo == old(pmemo) && old(closure) <= closure && old(recursion) <= recursion
      ensures forall a :: a in path ==> a !in memo
      ensures forall a :: a in old(memo) ==> a in memo && memo[a] == old(memo)[a]
      ensures if addr in path then !w.ok && recursion != {} else addr in memo && memo[addr] == w
      ensures w.ok <==> !BadBelow(Strict(bodies), addr)
      ensures w.ok ==> WholeIs(Strict(bodies), addr, w)
    {
      hide MemoOk, BadBelow, WholeIs, CyclesReal, BestChain, PathOk, WholeExact, PartsExact, Others, CalleesDone;
      if addr in path {
        StrictBad(bodies, addr);
        Recursion(addr, path);
        return Whole(0, [], false);
      }
      if addr in memo {
        w := memo[addr];
        WholeRemembered(Strict(bodies), memo, done, recursion, addr);
        return;
      }
      closure := closure + {addr};
      var complete := bodies[addr].whole;
      var best: nat, chain: seq<int> := 0, [];
      ghost var before := memo;
      ChainStart(bodies, addr);
      assert CalleesDone(Strict(bodies), WholeOks(memo), 0, addr, complete) by { NoCallees(Strict(bodies), WholeOks(memo), addr, complete); }
      PathAppend(bodies, path, addr);
      OthersLess(bodies, path, addr);
      for n := 0 to |bodies[addr].callees|
        invariant Valid() && pmemo == old(pmemo) && old(closure) <= closure && old(recursion) <= recursion
        invariant forall a :: a in path + [addr] ==> a !in memo
        invariant forall a :: a in before ==> a in memo && memo[a] == before[a]
        invariant recursion == {} || complete ==> CalleesDone(Strict(bodies), WholeOks(memo), n, addr, complete)
        invariant complete ==> bodies[addr].whole && BestChain(Strict(bodies), addr, n, best, chain)
        invariant !complete ==> BadBelow(Strict(bodies), addr)
      {
        var callee := bodies[addr].callees[n];
        assert callee in bodies[addr].callees && callee in bodies;
        ghost var earlier := memo;
        var t := Total(callee, path + [addr]);
        if recursion == {} || (complete && t.ok) {
          CalleesDoneNext(Strict(bodies), WholeOks(earlier), WholeOks(memo), n, addr, complete, complete && t.ok);
        }
        ChainNext(Strict(bodies), addr, n, best, chain, complete, t);
        complete := complete && t.ok;
        if chain == [] || t.need > best {
          best, chain := t.need, t.chain;
        }
      }
      w := Whole(bodies[addr].frame + best, [addr] + chain, complete);
      if complete {
        ChainAll(Strict(bodies), addr, best, chain);
      }
      assert addr in path + [addr];
      StoreWhole(addr, w);
    }
  }

  /** The chain through the first n callees that needs the most. */
  ghost predicate BestChain(bodies: Bodies, a: int, n: int, best: nat, chain: seq<int>)
    requires a in bodies && 0 <= n <= |bodies[a].callees|
  {
    && BestOwn(bodies, a, n, best)
    && (n == 0 ==> best == 0 && chain == [])
    && (n > 0 ==> chain != [] && chain[0] in bodies[a].callees && IsChain(bodies, chain[0], chain) && Cost(bodies, chain) == best)
  }

  lemma StrictBad(bodies: Bodies, a: int)
    ensures (exists b :: Reach(Calls(bodies), a, b) && OnCycle(Calls(bodies), b)) ==> BadBelow(Strict(bodies), a)
  {
    StrictSame(bodies);
  }

  lemma ChainStart(bodies: Bodies, a: int)
    requires a in bodies
    ensures BestChain(Strict(bodies), a, 0, 0, [])
    ensures !bodies[a].whole ==> BadBelow(Strict(bodies), a)
  {
    BestStart(Strict(bodies), a);
  }

  lemma ChainNext(bodies: Bodies, a: int, n: nat, best: nat, chain: seq<int>, complete: bool, t: Whole)
    requires a in bodies && n < |bodies[a].callees|
    requires complete ==> BestChain(bodies, a, n, best, chain)
    requires t.ok ==> WholeIs(bodies, bodies[a].callees[n], t)
    requires t.ok <==> !BadBelow(bodies, bodies[a].callees[n])
    ensures complete && t.ok ==>
      if chain == [] || t.need > best then BestChain(bodies, a, n + 1, t.need, t.chain) else BestChain(bodies, a, n + 1, best, chain)
    ensures !t.ok ==> BadBelow(bodies, a)
  {
    hide BadBelow, OwnExact, BestOwn;
    if !t.ok {
      BadThrough(bodies, a, bodies[a].callees[n]);
    } else if complete {
      OwnStep(bodies, a, n, best, t.need);
    }
  }

  lemma ChainAll(bodies: Bodies, a: int, best: nat, chain: seq<int>)
    requires a in bodies && BestChain(bodies, a, |bodies[a].callees|, best, chain)
    ensures WholeIs(bodies, a, Whole(bodies[a].frame + best, [a] + chain, true))
  {
    hide OwnExact, BestOwn;
    OwnAll(bodies, a, best);
    if chain == [] {
      ChainAlone(bodies, a);
      assert [a] + chain == [a];
    } else {
      ChainPrepend(bodies, a, chain);
    }
  }

  lemma WholeRemembered(bodies: Bodies, m: map<int, Whole>, done: seq<int>, recursion: set<set<int>>, a: int)
    requires MemoOk(bodies, WholeOks(m), done, recursion) && WholeExact(bodies, m) && a in m
    ensures m[a].ok <==> !BadBelow(bodies, a)
    ensures m[a].ok ==> WholeIs(bodies, a, m[a])
  {
    hide MemoOk, BadBelow, WholeIs;
    Verdict(bodies, WholeOks(m), done, recursion, a);
  }

  /** The first n callees of a are remembered, and without fault if `ok`. */
  ghost predicate CalleesDone(bodies: Bodies, m: map<int, bool>, n: int, a: int, ok: bool) {
    a in bodies && forall i :: 0 <= i < n && i < |bodies[a].callees| ==> Remembers(m, bodies[a].callees[i], ok)
  }

  ghost predicate Remembers(m: map<int, bool>, c: int, ok: bool) {
    c in m && (ok ==> m[c])
  }

  lemma NoCallees(bodies: Bodies, m: map<int, bool>, a: int, ok: bool)
    requires a in bodies
    ensures CalleesDone(bodies, m, 0, a, ok)
  {
  }

  lemma CalleesAll(bodies: Bodies, m: map<int, bool>, a: int, ok: bool)
    requires a in bodies
    ensures CalleesDone(bodies, m, |bodies[a].callees|, a, ok) ==>
      forall c :: c in bodies[a].callees ==> c in m && (ok ==> m[c])
  {
    if CalleesDone(bodies, m, |bodies[a].callees|, a, ok) {
      forall c | c in bodies[a].callees
        ensures Remembers(m, c, ok)
      {
        var i :| 0 <= i < |bodies[a].callees| && bodies[a].callees[i] == c;
      }
    }
  }

  lemma CalleesDoneNext(bodies: Bodies, m: map<int, bool>, m': map<int, bool>, n: nat, a: int, ok: bool, ok': bool)
    requires CalleesDone(bodies, m, n, a, ok) && n < |bodies[a].callees|
    requires forall b :: b in m ==> b in m' && m'[b] == m[b]
    requires Remembers(m', bodies[a].callees[n], ok') && (ok' ==> ok)
    ensures CalleesDone(bodies, m', n + 1, a, ok')
  {
    forall i | 0 <= i < n + 1
      ensures Remembers(m', bodies[a].callees[i], ok')
    {
      assert i < n ==> Remembers(m, bodies[a].callees[i], ok);
    }
  }

  lemma Remembered(bodies: Bodies, m: map<int, Parts>, done: seq<int>, recursion: set<set<int>>, a: int)
    requires MemoOk(bodies, PartsOks(m), done, recursion) && PartsExact(bodies, m) && a in m
    ensures m[a].ok <==> !BadBelow(bodies, a)
    ensures m[a].ok ==> OwnExact(bodies, a, m[a].own) && CrossExact(bodies, a, m[a].cross)
  {
    hide MemoOk, BadBelow, OwnExact, CrossExact;
    Verdict(bodies, PartsOks(m), done, recursion, a);
  }

  /** One more callee: the best so far, and whether anything is wrong. */
  lemma BestNext(bodies: Bodies, a: int, n: nat, own: nat, cross: Option<nat>, complete: bool, p: Parts)
    requires a in bodies && n < |bodies[a].callees|
    requires complete ==> BestOwn(bodies, a, n, own) && BestCross(bodies, a, n, cross)
    requires p.ok ==> OwnExact(bodies, bodies[a].callees[n], p.own) && CrossExact(bodies, bodies[a].callees[n], p.cross)
    requires p.ok <==> !BadBelow(bodies, bodies[a].callees[n])
    ensures complete && p.ok ==>
      BestOwn(bodies, a, n + 1, if p.own > own then p.own else own) && BestCross(bodies, a, n + 1, MaxCross(cross, p.cross))
    ensures !p.ok ==> BadBelow(bodies, a)
  {
    hide BadBelow, OwnExact, CrossExact, BestOwn, BestCross;
    if !p.ok {
      BadThrough(bodies, a, bodies[a].callees[n]);
    } else if complete {
      OwnStep(bodies, a, n, own, p.own);
      CrossStep(bodies, a, n, cross, p.cross);
    }
  }

  lemma BestStart(bodies: Bodies, a: int)
    requires a in bodies
    ensures BestOwn(bodies, a, 0, 0) && BestCross(bodies, a, 0, if bodies[a].crosses then Some(0) else None)
    ensures !bodies[a].ok ==> BadBelow(bodies, a)
  {
    if !bodies[a].ok {
      BadItself(bodies, a);
    }
  }

  lemma Verdict(bodies: Bodies, oks: map<int, bool>, done: seq<int>, recursion: set<set<int>>, a: int)
    requires MemoOk(bodies, oks, done, recursion) && a in oks
    ensures oks[a] <==> !BadBelow(bodies, a)
  {
    hide BadBelow;
    if oks[a] {
      OkMeansClean(bodies, oks, done, recursion, a);
    }
  }
}
