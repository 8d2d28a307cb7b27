/** Call chains through a linked image and the stack they need. */
module CallGraph {
  import opened Graph
  import opened Thumb

  /** What the walk needs of one body: its frame, whether nothing in it was refused
      (`whole`), or nothing but the register branches of a crossing (`ok`), whether it
      branches out of the image, and what it calls. */
  datatype Facts = Facts(frame: nat, ok: bool, whole: bool, crosses: bool, callees: seq<int>)

  type Bodies = map<int, Facts>

  /** Every callee is a body of the image. */
  ghost predicate Linked(bodies: Bodies) {
    forall a, c :: a in bodies && c in bodies[a].callees ==> c in bodies
  }

  /** The same image where a crossing is refused like any other branch. */
  function Strict(bodies: Bodies): Bodies {
    map a | a in bodies :: bodies[a].(ok := bodies[a].whole)
  }

  function Calls(bodies: Bodies): Succ {
    map a | a in bodies :: bodies[a].callees
  }

  ghost predicate IsChain(bodies: Bodies, a: int, c: seq<int>) {
    && c != [] && c[0] == a
    && (forall i :: 0 <= i < |c| ==> c[i] in bodies)
    && (forall i :: 0 <= i < |c| - 1 ==> c[i + 1] in bodies[c[i]].callees)
  }

  function Cost(bodies: Bodies, c: seq<int>): nat {
    if c == [] then 0 else (if c[0] in bodies then bodies[c[0]].frame else 0) + Cost(bodies, c[1..])
  }

  /** The chain ends in a body that branches out of the image. */
  ghost predicate Crosses(bodies: Bodies, c: seq<int>) {
    c != [] && c[|c| - 1] in bodies && bodies[c[|c| - 1]].crosses
  }

  /** own is the largest cost of a chain from a. */
  ghost predicate OwnExact(bodies: Bodies, a: int, own: nat) {
    && (forall c :: IsChain(bodies, a, c) ==> Cost(bodies, c) <= own)
    && (exists c :: IsChain(bodies, a, c) && Cost(bodies, c) == own)
  }

  /** cross is the largest cost of a chain from a to a crossing, if there is one. */
  ghost predicate CrossExact(bodies: Bodies, a: int, cross: Option<nat>) {
    && (forall c :: IsChain(bodies, a, c) && Crosses(bodies, c) ==> cross.Some? && Cost(bodies, c) <= cross.value)
    && (cross.Some? ==> exists c :: IsChain(bodies, a, c) && Crosses(bodies, c) && Cost(bodies, c) == cross.value)
  }

  /** Something below a keeps the walk from being complete. */
  ghost predicate BadBelow(bodies: Bodies, a: int) {
    exists b :: Reach(Calls(bodies), a, b) && (b !in bodies || !bodies[b].ok || OnCycle(Calls(bodies), b))
  }

  // ---- chains, one call at a time --------------------------------------------------

  lemma ChainTail(bodies: Bodies, a: int, c: seq<int>)
    requires IsChain(bodies, a, c) && |c| > 1
    ensures c[1] in bodies[a].callees && IsChain(bodies, c[1], c[1..])
    ensures Cost(bodies, c) == bodies[a].frame + Cost(bodies, c[1..])
    ensures Crosses(bodies, c) <==> Crosses(bodies, c[1..])
  {
    assert c[0 + 1] in bodies[c[0]].callees;
    forall i | 0 <= i < |c[1..]| - 1
      ensures c[1..][i + 1] in bodies[c[1..][i]].callees
    {
      assert c[i + 1 + 1] in bodies[c[i + 1]].callees;
    }
  }

  lemma ChainPrepend(bodies: Bodies, a: int, c: seq<int>)
    requires a in bodies && c != [] && c[0] in bodies[a].callees && IsChain(bodies, c[0], c)
    ensures IsChain(bodies, a, [a] + c) && Cost(bodies, [a] + c) == bodies[a].frame + Cost(bodies, c)
    ensures Crosses(bodies, [a] + c) <==> Crosses(bodies, c)
  {
    var d := [a] + c;
    assert d[1..] == c;
    forall i | 0 <= i < |d| - 1
      ensures d[i + 1] in bodies[d[i]].callees
    {
      if i > 0 {
        assert c[i - 1 + 1] in bodies[c[i - 1]].callees;
      }
    }
  }

  lemma ChainAlone(bodies: Bodies, a: int)
    requires a in bodies
    ensures IsChain(bodies, a, [a]) && Cost(bodies, [a]) == bodies[a].frame
    ensures Crosses(bodies, [a]) <==> bodies[a].crosses
  {
    assert [a][1..] == [];
  }

  /** The largest of the callees' costs, over the first n callees. */
  ghost predicate BestOwn(bodies: Bodies, a: int, n: int, own: nat)
    requires a in bodies && 0 <= n <= |bodies[a].callees|
  {
    && (forall i, c :: 0 <= i < n && IsChain(bodies, bodies[a].callees[i], c) ==> Cost(bodies, c) <= own)
    && (own == 0 || exists i, c :: 0 <= i < n && IsChain(bodies, bodies[a].callees[i], c) && Cost(bodies, c) == own)
  }

  ghost predicate BestCross(bodies: Bodies, a: int, n: int, cross: Option<nat>)
    requires a in bodies && 0 <= n <= |bodies[a].callees|
  {
    && (bodies[a].crosses ==> cross.Some?)
    && (forall i, c :: 0 <= i < n && IsChain(bodies, bodies[a].callees[i], c) && Crosses(bodies, c) ==>
          cross.Some? && Cost(bodies, c) <= cross.value)
    && (cross.Some? ==>
          || (bodies[a].crosses && cross.value == 0)
          || exists i, c :: 0 <= i < n && IsChain(bodies, bodies[a].callees[i], c) && Crosses(bodies, c) && Cost(bodies, c) == cross.value)
  }

  lemma OwnStep(bodies: Bodies, a: int, n: nat, own: nat, o: nat)
    requires a in bodies && n < |bodies[a].callees| && BestOwn(bodies, a, n, own)
    requires OwnExact(bodies, bodies[a].callees[n], o)
    ensures BestOwn(bodies, a, n + 1, if o > own then o else own)
  {
    var best := if o > own then o else own;
    forall i, c | 0 <= i < n + 1 && IsChain(bodies, bodies[a].callees[i], c)
      ensures Cost(bodies, c) <= best
    {
    }
    if o > own {
      var c :| IsChain(bodies, bodies[a].callees[n], c) && Cost(bodies, c) == o;
    } else if own != 0 {
      var i, c :| 0 <= i < n && IsChain(bodies, bodies[a].callees[i], c) && Cost(bodies, c) == own;
    }
  }

  function MaxCross(x: Option<nat>, y: Option<nat>): Option<nat> {
    if y.None? then x else if x.None? || y.value > x.value then y else x
  }

  lemma CrossStep(bodies: Bodies, a: int, n: nat, cross: Option<nat>, x: Option<nat>)
    requires a in bodies && n < |bodies[a].callees| && BestCross(bodies, a, n, cross)
    requires CrossExact(bodies, bodies[a].callees[n], x)
    ensures BestCross(bodies, a, n + 1, MaxCross(cross, x))
  {
    var best := MaxCross(cross, x);
    forall i, c | 0 <= i < n + 1 && IsChain(bodies, bodies[a].callees[i], c) && Crosses(bodies, c)
      ensures best.Some? && Cost(bodies, c) <= best.value
    {
    }
    if best.Some? && !(bodies[a].crosses && best.value == 0) {
      if best == cross {
        var i, c :| 0 <= i < n && IsChain(bodies, bodies[a].callees[i], c) && Crosses(bodies, c) && Cost(bodies, c) == cross.value;
      } else {
        var c :| IsChain(bodies, bodies[a].callees[n], c) && Crosses(bodies, c) && Cost(bodies, c) == x.value;
      }
    }
  }

  lemma OwnAll(bodies: Bodies, a: int, own: nat)
    requires a in bodies && BestOwn(bodies, a, |bodies[a].callees|, own)
    ensures OwnExact(bodies, a, bodies[a].frame + own)
  {
    forall c | IsChain(bodies, a, c)
      ensures Cost(bodies, c) <= bodies[a].frame + own
    {
      if |c| > 1 {
        ChainTail(bodies, a, c);
        var i :| 0 <= i < |bodies[a].callees| && bodies[a].callees[i] == c[1];
        assert IsChain(bodies, bodies[a].callees[i], c[1..]);
      } else {
        assert c == [a];
        ChainAlone(bodies, a);
      }
    }
    ChainAlone(bodies, a);
    if own != 0 {
      var i, c :| 0 <= i < |bodies[a].callees| && IsChain(bodies, bodies[a].callees[i], c) && Cost(bodies, c) == own;
      ChainPrepend(bodies, a, c);
    }
  }

  lemma CrossAll(bodies: Bodies, a: int, cross: Option<nat>)
    requires a in bodies && BestCross(bodies, a, |bodies[a].callees|, cross)
    ensures CrossExact(bodies, a, if cross.None? then None else Some(bodies[a].frame + cross.value))
  {
    forall c | IsChain(bodies, a, c) && Crosses(bodies, c)
      ensures cross.Some? && Cost(bodies, c) <= bodies[a].frame + cross.value
    {
      if |c| > 1 {
        ChainTail(bodies, a, c);
        var i :| 0 <= i < |bodies[a].callees| && bodies[a].callees[i] == c[1];
        assert IsChain(bodies, bodies[a].callees[i], c[1..]);
      } else {
        assert c == [a];
        ChainAlone(bodies, a);
      }
    }
    ChainAlone(bodies, a);
    if cross.Some? && !(bodies[a].crosses && cross.value == 0) {
      var i, c :| 0 <= i < |bodies[a].callees| && IsChain(bodies, bodies[a].callees[i], c) && Crosses(bodies, c) && Cost(bodies, c) == cross.value;
      ChainPrepend(bodies, a, c);
    }
  }

  /** The cost of a chain when a crossing costs c more. */
  ghost function CostAt(bodies: Bodies, chain: seq<int>, c: nat): nat {
    Cost(bodies, chain) + if Crosses(bodies, chain) then c else 0
  }

  function BoundAt(own: nat, cross: Option<nat>, c: nat): nat {
    if cross.None? then own else if own > cross.value + c then own else cross.value + c
  }

  /** The two parts give the exact need for every cost of a crossing, and the part that
      crosses is never the larger. */
  lemma PartsDecompose(bodies: Bodies, a: int, own: nat, cross: Option<nat>, c: nat)
    requires OwnExact(bodies, a, own) && CrossExact(bodies, a, cross)
    ensures cross.Some? ==> cross.value <= own
    ensures forall chain :: IsChain(bodies, a, chain) ==> CostAt(bodies, chain, c) <= BoundAt(own, cross, c)
    ensures exists chain :: IsChain(bodies, a, chain) && CostAt(bodies, chain, c) == BoundAt(own, cross, c)
  {
    if cross.Some? {
      var chain :| IsChain(bodies, a, chain) && Crosses(bodies, chain) && Cost(bodies, chain) == cross.value;
      assert CostAt(bodies, chain, c) == cross.value + c;
    }
    var chain :| IsChain(bodies, a, chain) && Cost(bodies, chain) == own;
    assert CostAt(bodies, chain, c) <= BoundAt(own, cross, c);
  }

  lemma StrictSame(bodies: Bodies)
    ensures Calls(Strict(bodies)) == Calls(bodies)
    ensures Linked(bodies) ==> Linked(Strict(bodies))
  {
    assert Strict(bodies).Keys == bodies.Keys;
  }
}
