/** Finite directed graphs as the analyser keeps them: a map from an address to
    the sequence of its successors, where an absent address has none. */
module Graph {

  type Succ = map<int, seq<int>>

  function Out(succ: Succ, u: int): seq<int> {
    if u in succ then succ[u] else []
  }

  predicate Edge(succ: Succ, u: int, v: int) {
    v in Out(succ, u)
  }

  /** Every successor of a node of `nodes` is a node of `nodes`. */
  ghost predicate Closed(succ: Succ, nodes: set<int>) {
    forall u, v :: u in nodes && Edge(succ, u, v) ==> v in nodes
  }

  ghost predicate IsWalk(succ: Succ, p: seq<int>) {
    && p != []
    && forall i :: 0 <= i < |p| - 1 ==> Edge(succ, p[i], p[i + 1])
  }

  ghost predicate WalkBetween(succ: Succ, a: int, b: int, p: seq<int>) {
    IsWalk(succ, p) && p[0] == a && p[|p| - 1] == b
  }

  /** b can be reached from a in zero or more steps. */
  ghost predicate Reach(succ: Succ, a: int, b: int) {
    exists p :: WalkBetween(succ, a, b, p)
  }

  ghost predicate Mutual(succ: Succ, a: int, b: int) {
    Reach(succ, a, b) && Reach(succ, b, a)
  }

  /** u lies on a cycle: one of its successors leads back to it. */
  ghost predicate OnCycle(succ: Succ, u: int) {
    exists v :: Edge(succ, u, v) && Reach(succ, v, u)
  }

  lemma ReachRefl(succ: Succ, a: int)
    ensures Reach(succ, a, a)
  {
    assert WalkBetween(succ, a, a, [a]);
  }

  lemma ReachEdge(succ: Succ, a: int, b: int)
    requires Edge(succ, a, b)
    ensures Reach(succ, a, b)
  {
    assert WalkBetween(succ, a, b, [a, b]);
  }

  lemma ReachTrans(succ: Succ, a: int, b: int, c: int)
    requires Reach(succ, a, b) && Reach(succ, b, c)
    ensures Reach(succ, a, c)
  {
    var p :| WalkBetween(succ, a, b, p);
    var q :| WalkBetween(succ, b, c, q);
    var r := p + q[1..];
    forall i | 0 <= i < |r| - 1
      ensures Edge(succ, r[i], r[i + 1])
    {
      if i < |p| - 1 {
      } else {
        assert r[i] == q[i - |p| + 1] && r[i + 1] == q[i - |p| + 2];
      }
    }
    assert WalkBetween(succ, a, c, r);
  }

  lemma TailIsWalk(succ: Succ, p: seq<int>)
    requires IsWalk(succ, p) && |p| > 1
    ensures IsWalk(succ, p[1..])
  {
    var q := p[1..];
    forall i | 0 <= i < |q| - 1
      ensures Edge(succ, q[i], q[i + 1])
    {
      assert Edge(succ, p[i + 1], p[i + 1 + 1]);
    }
  }

  /** A successor-closed set keeps every walk that starts in it. */
  lemma {:induction false} WalkStays(succ: Succ, s: set<int>, p: seq<int>)
    requires Closed(succ, s) && IsWalk(succ, p) && p[0] in s
    ensures forall i :: 0 <= i < |p| ==> p[i] in s
  {
    if |p| > 1 {
      var q := p[1..];
      TailIsWalk(succ, p);
      assert Edge(succ, p[0], p[0 + 1]);
      WalkStays(succ, s, q);
      assert forall i :: 1 <= i < |p| ==> p[i] == q[i - 1];
    }
  }

  lemma ReachStays(succ: Succ, s: set<int>, a: int, b: int)
    requires Closed(succ, s) && a in s && Reach(succ, a, b)
    ensures b in s
  {
    var p :| WalkBetween(succ, a, b, p);
    WalkStays(succ, s, p);
  }

  /** A walk of at least one edge starts with an edge. */
  lemma ReachFirstEdge(succ: Succ, a: int, b: int)
    requires Reach(succ, a, b) && a != b
    ensures exists c :: Edge(succ, a, c) && Reach(succ, c, b)
  {
    var p :| WalkBetween(succ, a, b, p);
    assert Edge(succ, p[0], p[0 + 1]);
    TailIsWalk(succ, p);
    assert WalkBetween(succ, p[1], b, p[1..]);
  }
}
