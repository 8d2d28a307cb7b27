/** The strongly connected components of one body's control flow, by Tarjan's
    algorithm with an explicit work list. */
module Tarjan {
  import opened Graph

  /** What the proof keeps in view between two turns of the work loop: the path of
      nodes being explored, and for each how many of its out-edges are dealt with. */
  datatype State = State(
    path: seq<int>,
    done: seq<nat>,
    index: map<int, nat>,
    low: map<int, nat>,
    stack: seq<int>,
    fin: set<int>,
    counter: nat)

  /** All nodes that belong to a finished component. */
  ghost function Finished(out: seq<set<int>>): set<int> {
    if out == [] then {} else Finished(out[..|out| - 1]) + out[|out| - 1]
  }

  lemma FinishedMember(out: seq<set<int>>, i: nat)
    requires i < |out|
    ensures out[i] <= Finished(out)
  {
    if i < |out| - 1 {
      FinishedMember(out[..|out| - 1], i);
    }
  }

  lemma FinishedCovered(out: seq<set<int>>, x: int)
    requires x in Finished(out)
    ensures exists i :: 0 <= i < |out| && x in out[i]
  {
    if x !in out[|out| - 1] {
      FinishedCovered(out[..|out| - 1], x);
      var i :| 0 <= i < |out| - 1 && x in out[..|out| - 1][i];
      assert x in out[i];
    } else {
      assert x in out[|out| - 1];
    }
  }

  /** A maximal set of nodes that all reach each other. */
  ghost predicate IsComponent(succ: Succ, c: set<int>) {
    && c != {}
    && (forall x, y :: x in c && y in c ==> Reach(succ, x, y))
    && (forall x, y :: x in c && Mutual(succ, x, y) ==> y in c)
  }

  // ---- the invariant, clause by clause -----------------------------------

  /** g is numbered no later than y. */
  ghost predicate Before(index: map<int, nat>, g: int, y: int) {
    g in index && y in index && index[g] <= index[y]
  }

  /** Out-edge n of u goes to v. */
  ghost predicate Leads(succ: Succ, u: int, n: nat, v: int) {
    n < |Out(succ, u)| && Out(succ, u)[n] == v
  }

  /** Each node of the path is the out-edge of its predecessor being followed. */
  ghost predicate PathOk(succ: Succ, path: seq<int>, done: seq<nat>) {
    && |path| == |done|
    && (forall i :: 0 <= i < |path| ==> done[i] <= |Out(succ, path[i])|)
    && (forall i :: 0 <= i < |path| - 1 ==> Leads(succ, path[i], done[i], path[i + 1]))
  }

  /** The numbers of the nodes of s grow along s. */
  ghost predicate Rising(index: map<int, nat>, s: seq<int>) {
    && (forall i :: 0 <= i < |s| ==> s[i] in index)
    && (forall i, j :: 0 <= i < j < |s| ==> index[s[i]] < index[s[j]])
  }

  ghost predicate CountOk(nodes: set<int>, index: map<int, nat>, low: map<int, nat>, counter: nat) {
    && index.Keys == low.Keys
    && index.Keys <= nodes
    && (forall x :: x in index ==> index[x] < counter)
  }

  /** Every numbered node is stacked or finished, not both; the path is stacked. */
  ghost predicate Split(path: seq<int>, index: map<int, nat>, stack: seq<int>, fin: set<int>) {
    && (forall x :: x in index <==> x in stack || x in fin)
    && (forall x :: x in stack ==> x !in fin)
    && (forall x :: x in path ==> x in stack)
  }

  /** A node being explored reaches everything stacked after it. */
  ghost predicate Downward(succ: Succ, d: State) {
    forall g, y :: g in d.path && y in d.stack && Before(d.index, g, y) ==> Reach(succ, g, y)
  }

  /** y reaches a node being explored that is not above it. */
  ghost predicate Anchored(succ: Succ, d: State, y: int) {
    exists g :: g in d.path && Before(d.index, g, y) && Reach(succ, y, g)
  }

  ghost predicate Upward(succ: Succ, d: State) {
    forall y :: y in d.stack ==> Anchored(succ, d, y)
  }

  /** n is the number of a stacked node that g reaches. */
  ghost predicate LowWitness(succ: Succ, d: State, g: int, n: nat) {
    exists y :: y in d.stack && y in d.index && d.index[y] == n && Reach(succ, g, y)
  }

  ghost predicate LowReal(succ: Succ, d: State) {
    forall g :: g in d.path && g in d.low && g in d.index ==>
      d.low[g] <= d.index[g] && LowWitness(succ, d, g, d.low[g])
  }

  /** y is stacked, not below path[i], and below the next node of the path. */
  ghost predicate Owns(d: State, i: int, y: int) {
    && 0 <= i < |d.path| && y in d.stack
    && Before(d.index, d.path[i], y)
    && (i + 1 < |d.path| ==> !Before(d.index, d.path[i + 1], y))
  }

  /** z is finished, or stacked with a number of at least `bound`. */
  ghost predicate Settled(d: State, bound: nat, z: int) {
    z in d.fin || (z in d.stack && z in d.index && bound <= d.index[z])
  }

  /** The out-edges of y up to number n (excluded) are settled. */
  ghost predicate EdgesSettled(succ: Succ, d: State, bound: nat, y: int, n: int) {
    forall k :: 0 <= k < n && k < |Out(succ, y)| ==> Settled(d, bound, Out(succ, y)[k])
  }

  ghost function DoneOf(succ: Succ, d: State, i: int, y: int): int
    requires 0 <= i < |d.path| && |d.done| == |d.path|
  {
    if y == d.path[i] then d.done[i] else |Out(succ, y)|
  }

  ghost predicate Bounded(succ: Succ, d: State)
    requires |d.done| == |d.path|
  {
    forall i, y :: Owns(d, i, y) && d.path[i] in d.low ==>
      EdgesSettled(succ, d, d.low[d.path[i]], y, DoneOf(succ, d, i, y))
  }

  ghost predicate Shape(succ: Succ, nodes: set<int>, d: State) {
    && PathOk(succ, d.path, d.done)
    && Rising(d.index, d.path)
    && Rising(d.index, d.stack)
    && CountOk(nodes, d.index, d.low, d.counter)
    && Split(d.path, d.index, d.stack, d.fin)
  }

  ghost predicate Inv(succ: Succ, nodes: set<int>, d: State) {
    && Shape(succ, nodes, d)
    && Closed(succ, d.fin)
    && Downward(succ, d)
    && Upward(succ, d)
    && LowReal(succ, d)
    && Bounded(succ, d)
  }

  // ---- numbering a node --------------------------------------------------

  /** u has no number, and the path leads to it. */
  ghost predicate Next(succ: Succ, nodes: set<int>, d: State, u: int) {
    && u !in d.index && u in nodes && |d.path| == |d.done|
    && (d.path != [] ==>
          Leads(succ, d.path[|d.path| - 1], d.done[|d.path| - 1], u))
  }

  ghost function Discovered(d: State, u: int): State {
    d.(path := d.path + [u], done := d.done + [0],
       index := d.index[u := d.counter], low := d.low[u := d.counter],
       stack := d.stack + [u], counter := d.counter + 1)
  }

  lemma RisingAppend(index: map<int, nat>, s: seq<int>, u: int, n: nat)
    requires Rising(index, s) && u !in index
    requires forall x :: x in index ==> index[x] < n
    ensures Rising(index[u := n], s + [u])
  {
    var r, e := s + [u], index[u := n];
    forall i, j | 0 <= i < j < |r|
      ensures e[r[i]] < e[r[j]]
    {
      assert r[i] == s[i] && s[i] in index;
      if j < |s| {
        assert r[j] == s[j] && s[j] in index;
      }
    }
  }

  lemma DiscoverSplit(d: State, u: int)
    requires u !in d.index && Split(d.path, d.index, d.stack, d.fin)
    ensures Split(d.path + [u], Discovered(d, u).index, d.stack + [u], d.fin)
  {
    assert forall x :: x in d.stack + [u] <==> x in d.stack || x == u;
    assert forall x :: x in d.path + [u] <==> x in d.path || x == u;
  }

  lemma DiscoverPath(succ: Succ, nodes: set<int>, d: State, u: int)
    requires PathOk(succ, d.path, d.done) && Next(succ, nodes, d, u)
    ensures PathOk(succ, d.path + [u], d.done + [0])
  {
    var p, q := d.path + [u], d.done + [0];
    forall i | 0 <= i < |p| - 1
      ensures Leads(succ, p[i], q[i], p[i + 1])
    {
      if i < |d.path| - 1 {
        assert Leads(succ, d.path[i], d.done[i], d.path[i + 1]);
      }
    }
  }

  lemma DiscoverShape(succ: Succ, nodes: set<int>, d: State, u: int)
    requires Shape(succ, nodes, d) && Next(succ, nodes, d, u)
    ensures Shape(succ, nodes, Discovered(d, u))
  {
    DiscoverPath(succ, nodes, d, u);
    RisingAppend(d.index, d.path, u, d.counter);
    RisingAppend(d.index, d.stack, u, d.counter);
    DiscoverSplit(d, u);
  }

  lemma DiscoverDownward(succ: Succ, nodes: set<int>, d: State, u: int)
    requires Shape(succ, nodes, d) && Next(succ, nodes, d, u)
    requires Downward(succ, d)
    ensures Downward(succ, Discovered(d, u))
  {
    var e := Discovered(d, u);
    forall g, y | g in e.path && y in e.stack && Before(e.index, g, y)
      ensures Reach(succ, g, y)
    {
      if g == u {
        assert y == u;
        ReachRefl(succ, u);
      } else if y == u {
        var p := d.path[|d.path| - 1];
        assert Leads(succ, p, d.done[|d.path| - 1], u);
        ReachEdge(succ, p, u);
        assert Before(d.index, g, p);
        ReachTrans(succ, g, p, u);
      } else {
        assert g in d.path && y in d.stack && Before(d.index, g, y);
      }
    }
  }

  lemma DiscoverUpward(succ: Succ, d: State, u: int)
    requires u !in d.index && Upward(succ, d)
    ensures Upward(succ, Discovered(d, u))
  {
    var e := Discovered(d, u);
    forall y | y in e.stack
      ensures Anchored(succ, e, y)
    {
      if y in d.stack {
        assert Anchored(succ, d, y);
        var g :| g in d.path && Before(d.index, g, y) && Reach(succ, y, g);
        assert g in e.path && Before(e.index, g, y);
      } else {
        ReachRefl(succ, u);
        assert u in e.path && Before(e.index, u, y);
      }
    }
  }

  lemma DiscoverLowReal(succ: Succ, d: State, u: int)
    requires u !in d.index && LowReal(succ, d) && d.index.Keys == d.low.Keys
    ensures LowReal(succ, Discovered(d, u))
  {
    var e := Discovered(d, u);
    forall g | g in e.path && g in e.low && g in e.index
      ensures e.low[g] <= e.index[g] && LowWitness(succ, e, g, e.low[g])
    {
      if g == u {
        ReachRefl(succ, u);
        assert u in e.stack;
      } else {
        assert g in d.path;
        var y :| y in d.stack && y in d.index && d.index[y] == d.low[g] && Reach(succ, g, y);
        assert y in e.stack && y in e.index && e.index[y] == e.low[g];
      }
    }
  }

  lemma DiscoverBounded(succ: Succ, nodes: set<int>, d: State, u: int)
    requires Shape(succ, nodes, d) && Next(succ, nodes, d, u)
    requires Bounded(succ, d)
    ensures Bounded(succ, Discovered(d, u))
  {
    var e := Discovered(d, u);
    var t := |d.path|;
    forall i, y | Owns(e, i, y) && e.path[i] in e.low
      ensures EdgesSettled(succ, e, e.low[e.path[i]], y, DoneOf(succ, e, i, y))
    {
      if i < t {
        assert e.path[i] == d.path[i];
        assert y != u by { assert Before(e.index, e.path[i + 1], u); }
        assert Owns(d, i, y);
        assert EdgesSettled(succ, d, d.low[d.path[i]], y, DoneOf(succ, d, i, y));
      } else {
        assert y == u;
      }
    }
  }

  lemma Discover(succ: Succ, nodes: set<int>, d: State, u: int)
    requires Inv(succ, nodes, d) && Next(succ, nodes, d, u)
    ensures Inv(succ, nodes, Discovered(d, u))
  {
    DiscoverShape(succ, nodes, d, u);
    DiscoverDownward(succ, nodes, d, u);
    DiscoverUpward(succ, d, u);
    DiscoverLowReal(succ, d, u);
    DiscoverBounded(succ, nodes, d, u);
  }

  // ---- an out-edge to a node that has a number ----------------------------

  function Min(a: nat, b: nat): nat {
    if a <= b then a else b
  }

  /** The last node of the path has out-edge number done to a numbered node. */
  ghost predicate CanSettle(succ: Succ, d: State) {
    && d.path != [] && |d.path| == |d.done|
    && d.done[|d.done| - 1] < |Out(succ, d.path[|d.path| - 1])|
    && Out(succ, d.path[|d.path| - 1])[d.done[|d.done| - 1]] in d.index
    && d.path[|d.path| - 1] in d.low
  }

  ghost function SettledEdge(succ: Succ, d: State): State
    requires CanSettle(succ, d)
  {
    var t := |d.path| - 1;
    var u := d.path[t];
    var w := Out(succ, u)[d.done[t]];
    d.(done := d.done[t := d.done[t] + 1],
       low := if w in d.stack then d.low[u := Min(d.low[u], d.index[w])] else d.low)
  }

  lemma SettleEdgeLowReal(succ: Succ, nodes: set<int>, d: State)
    requires Shape(succ, nodes, d) && CanSettle(succ, d) && LowReal(succ, d)
    ensures LowReal(succ, SettledEdge(succ, d))
  {
    var e := SettledEdge(succ, d);
    var t := |d.path| - 1;
    var u := d.path[t];
    var w := Out(succ, u)[d.done[t]];
    forall g | g in e.path && g in e.low && g in e.index
      ensures e.low[g] <= e.index[g] && LowWitness(succ, e, g, e.low[g])
    {
      assert d.low[g] <= d.index[g] && LowWitness(succ, d, g, d.low[g]);
      var y :| y in d.stack && y in d.index && d.index[y] == d.low[g] && Reach(succ, g, y);
      if e.low[g] == d.low[g] {
        assert y in e.stack && y in e.index && e.index[y] == e.low[g];
      } else {
        ReachEdge(succ, u, w);
        assert w in e.stack && w in e.index && e.index[w] == e.low[g];
      }
    }
  }

  lemma SettleEdgeBounded(succ: Succ, nodes: set<int>, d: State)
    requires Shape(succ, nodes, d) && CanSettle(succ, d) && Bounded(succ, d)
    ensures Bounded(succ, SettledEdge(succ, d))
  {
    var e := SettledEdge(succ, d);
    var t := |d.path| - 1;
    forall i, y | Owns(e, i, y) && e.path[i] in e.low
      ensures EdgesSettled(succ, e, e.low[e.path[i]], y, DoneOf(succ, e, i, y))
    {
      assert Owns(d, i, y);
      assert EdgesSettled(succ, d, d.low[d.path[i]], y, DoneOf(succ, d, i, y));
      forall k | 0 <= k < DoneOf(succ, e, i, y) && k < |Out(succ, y)|
        ensures Settled(e, e.low[e.path[i]], Out(succ, y)[k])
      {
        if k < DoneOf(succ, d, i, y) {
          assert Settled(d, d.low[d.path[i]], Out(succ, y)[k]);
        }
      }
    }
  }

  /** Reachability between the path and the stack does not read `done` or `low`. */
  lemma UpwardKept(succ: Succ, d: State, e: State)
    requires Upward(succ, d) && e.path == d.path && e.index == d.index && e.stack == d.stack
    ensures Upward(succ, e)
  {
    forall y | y in e.stack
      ensures Anchored(succ, e, y)
    {
      assert Anchored(succ, d, y);
      var g :| g in d.path && Before(d.index, g, y) && Reach(succ, y, g);
      assert g in e.path;
    }
  }

  lemma SettleEdgeShape(succ: Succ, nodes: set<int>, d: State)
    requires Shape(succ, nodes, d) && CanSettle(succ, d)
    ensures Shape(succ, nodes, SettledEdge(succ, d))
  {
  }

  lemma SettleEdge(succ: Succ, nodes: set<int>, d: State)
    requires Inv(succ, nodes, d) && CanSettle(succ, d)
    ensures Inv(succ, nodes, SettledEdge(succ, d))
  {
    var e := SettledEdge(succ, d);
    SettleEdgeShape(succ, nodes, d);
    SettleEdgeLowReal(succ, nodes, d);
    SettleEdgeBounded(succ, nodes, d);
    UpwardKept(succ, d, e);
    assert Downward(succ, e) by {
      assert Downward(succ, d) && e.path == d.path && e.stack == d.stack && e.index == d.index;
    }
  }

  // ---- leaving a node whose out-edges are all dealt with -------------------

  ghost predicate CanLeave(succ: Succ, d: State) {
    && d.path != [] && |d.path| == |d.done|
    && d.done[|d.done| - 1] == |Out(succ, d.path[|d.path| - 1])|
    && d.path[|d.path| - 1] in d.low && d.path[|d.path| - 1] in d.index
  }

  /** The edge that led to the node left becomes a dealt-with edge of the node
      before it, whose low takes the lower of the two. */
  ghost function Left(d: State): State
    requires d.path != [] && |d.path| == |d.done| && d.path[|d.path| - 1] in d.low
    requires |d.path| > 1 ==> d.path[|d.path| - 2] in d.low
  {
    var t := |d.path| - 1;
    var e := d.(path := d.path[..t], done := d.done[..t]);
    if t == 0 then e
    else e.(done := e.done[t - 1 := e.done[t - 1] + 1],
            low := d.low[d.path[t - 1] := Min(d.low[d.path[t - 1]], d.low[d.path[t]])])
  }

  lemma PathInLow(nodes: set<int>, d: State, i: int)
    requires Rising(d.index, d.path) && CountOk(nodes, d.index, d.low, d.counter) && 0 <= i < |d.path|
    ensures d.path[i] in d.low
  {
  }

  /** A node that reaches below itself is not the first of its component: it has a
      predecessor on the path, and reaches a node of the path before itself. */
  lemma LowBelow(succ: Succ, d: State) returns (g: int)
    requires Upward(succ, d) && LowReal(succ, d) && Rising(d.index, d.path) && CanLeave(succ, d)
    requires d.low[d.path[|d.path| - 1]] < d.index[d.path[|d.path| - 1]]
    ensures |d.path| > 1 && g in d.path[..|d.path| - 1]
    ensures g in d.index && d.index[g] < d.index[d.path[|d.path| - 1]] && Reach(succ, d.path[|d.path| - 1], g)
  {
    var u := d.path[|d.path| - 1];
    assert u in d.path && LowWitness(succ, d, u, d.low[u]);
    var y :| y in d.stack && y in d.index && d.index[y] == d.low[u] && Reach(succ, u, y);
    assert Anchored(succ, d, y);
    hide LowReal, Upward, Rising;
    g :| g in d.path && Before(d.index, g, y) && Reach(succ, y, g);
    ReachTrans(succ, u, y, g);
    PathBelow(d, g);
  }

  lemma LeavePath(succ: Succ, d: State)
    requires PathOk(succ, d.path, d.done) && CanLeave(succ, d)
    requires |d.path| > 1 ==> d.path[|d.path| - 2] in d.low
    ensures PathOk(succ, Left(d).path, Left(d).done)
  {
    var t := |d.path| - 1;
    var e := Left(d);
    assert t > 0 ==> Leads(succ, d.path[t - 1], d.done[t - 1], d.path[t]);
    forall i | 0 <= i < t - 1
      ensures Leads(succ, e.path[i], e.done[i], e.path[i + 1])
    {
      assert Leads(succ, d.path[i], d.done[i], d.path[i + 1]);
    }
  }

  lemma LeaveShape(succ: Succ, nodes: set<int>, d: State)
    requires Shape(succ, nodes, d) && CanLeave(succ, d)
    requires |d.path| > 1 ==> d.path[|d.path| - 2] in d.low
    ensures Shape(succ, nodes, Left(d))
  {
    LeavePath(succ, d);
    hide PathOk;
    assert forall x :: x in Left(d).path ==> x in d.path;
  }

  lemma LeaveUpward(succ: Succ, d: State, low: int)
    requires Upward(succ, d) && CanLeave(succ, d)
    requires |d.path| > 1 ==> d.path[|d.path| - 2] in d.low
    requires low in d.path[..|d.path| - 1] && low in d.index
    requires d.index[low] < d.index[d.path[|d.path| - 1]] && Reach(succ, d.path[|d.path| - 1], low)
    ensures Upward(succ, Left(d))
  {
    var t := |d.path| - 1;
    var u := d.path[t];
    var e := Left(d);
    forall y | y in e.stack
      ensures Anchored(succ, e, y)
    {
      assert Anchored(succ, d, y);
      var g :| g in d.path && Before(d.index, g, y) && Reach(succ, y, g);
      if g == u {
        ReachTrans(succ, y, u, low);
        assert low in e.path && Before(e.index, low, y);
      } else {
        var i :| 0 <= i < |d.path| && d.path[i] == g;
        assert g == d.path[..t][i];
        assert g in e.path;
      }
    }
  }

  lemma LeaveLowReal(succ: Succ, nodes: set<int>, d: State)
    requires Shape(succ, nodes, d) && LowReal(succ, d) && CanLeave(succ, d)
    requires |d.path| > 1 ==> d.path[|d.path| - 2] in d.low
    ensures LowReal(succ, Left(d))
  {
    var t := |d.path| - 1;
    var u := d.path[t];
    var e := Left(d);
    forall g | g in e.path && g in e.low && g in e.index
      ensures e.low[g] <= e.index[g] && LowWitness(succ, e, g, e.low[g])
    {
      assert g in d.path && LowWitness(succ, d, g, d.low[g]);
      if e.low[g] == d.low[g] {
        var y :| y in d.stack && y in d.index && d.index[y] == d.low[g] && Reach(succ, g, y);
        assert y in e.stack && y in e.index && e.index[y] == e.low[g];
      } else {
        assert g == d.path[t - 1];
        assert Leads(succ, g, d.done[t - 1], d.path[t - 1 + 1]);
        ReachEdge(succ, g, u);
        assert u in d.path && LowWitness(succ, d, u, d.low[u]);
        var y :| y in d.stack && y in d.index && d.index[y] == d.low[u] && Reach(succ, u, y);
        ReachTrans(succ, g, u, y);
        assert y in e.stack && y in e.index && e.index[y] == e.low[g];
      }
    }
  }

  lemma LeaveBounded(succ: Succ, nodes: set<int>, d: State)
    requires PathOk(succ, d.path, d.done) && Rising(d.index, d.path) && Bounded(succ, d) && CanLeave(succ, d)
    requires |d.path| > 1 && d.path[|d.path| - 2] in d.low && d.path[|d.path| - 1] in d.stack
    requires d.low[d.path[|d.path| - 2]] <= d.index[d.path[|d.path| - 2]]
    ensures Bounded(succ, Left(d))
  {
    var t := |d.path| - 1;
    var u := d.path[t];
    var e := Left(d);
    assert Leads(succ, d.path[t - 1], d.done[t - 1], d.path[t - 1 + 1]);
    assert d.index[d.path[t - 1]] < d.index[u];
    hide PathOk, Rising;
    forall i, y | Owns(e, i, y) && e.path[i] in e.low
      ensures EdgesSettled(succ, e, e.low[e.path[i]], y, DoneOf(succ, e, i, y))
    {
      assert e.path[i] == d.path[i];
      var j := if i == t - 1 && Before(d.index, u, y) then t else i;
      assert Owns(d, j, y);
      assert EdgesSettled(succ, d, d.low[d.path[j]], y, DoneOf(succ, d, j, y));
      forall k | 0 <= k < DoneOf(succ, e, i, y) && k < |Out(succ, y)|
        ensures Settled(e, e.low[e.path[i]], Out(succ, y)[k])
      {
        if k < DoneOf(succ, d, j, y) {
          assert Settled(d, d.low[d.path[j]], Out(succ, y)[k]);
        } else {
          assert y == d.path[t - 1] && k == d.done[t - 1] && Leads(succ, y, k, d.path[t - 1 + 1]);
        }
      }
    }
  }

  lemma LeaveDownward(succ: Succ, d: State)
    requires Downward(succ, d) && CanLeave(succ, d)
    requires |d.path| > 1 ==> d.path[|d.path| - 2] in d.low
    ensures Downward(succ, Left(d))
  {
    assert forall x :: x in Left(d).path ==> x in d.path;
  }

  lemma Leave(succ: Succ, nodes: set<int>, d: State)
    requires Inv(succ, nodes, d) && CanLeave(succ, d)
    requires d.low[d.path[|d.path| - 1]] < d.index[d.path[|d.path| - 1]]
    ensures |d.path| > 1 && d.path[|d.path| - 2] in d.low
    ensures Inv(succ, nodes, Left(d))
  {
    hide LowReal, Bounded, PathOk, Split, LowWitness;
    var g := LowBelow(succ, d);
    LowAtMost(succ, nodes, d, |d.path| - 1);
    PathInLow(nodes, d, |d.path| - 2);
    LeaveShape(succ, nodes, d);
    LeaveUpward(succ, d, g);
    LeaveDownward(succ, d);
    LeaveLowReal(succ, nodes, d);
    LowAtMost(succ, nodes, d, |d.path| - 2);
    LeaveBounded(succ, nodes, d);
  }

  lemma LowAtMost(succ: Succ, nodes: set<int>, d: State, i: int)
    requires Shape(succ, nodes, d) && LowReal(succ, d) && 0 <= i < |d.path|
    ensures d.path[i] in d.low && d.path[i] in d.index && d.low[d.path[i]] <= d.index[d.path[i]]
    ensures d.path[i] in d.stack
  {
    hide PathOk;
    var p := d.path[i];
    assert p in d.path && p in d.index && p in d.low;
  }

  // ---- closing a component -------------------------------------------------

  /** The stacked nodes numbered from u on. */
  ghost function From(d: State, u: int): set<int> {
    set y | y in d.stack && Before(d.index, u, y)
  }

  ghost function Closing(d: State, pos: nat): State
    requires d.path != [] && |d.path| == |d.done| && d.path[|d.path| - 1] in d.low
    requires |d.path| > 1 ==> d.path[|d.path| - 2] in d.low
    requires pos < |d.stack|
  {
    Left(d).(stack := d.stack[..pos], fin := d.fin + From(d, d.path[|d.path| - 1]))
  }

  /** The top node of the path starts a component: the stack is cut just below it. */
  ghost predicate CanClose(succ: Succ, d: State, pos: nat) {
    && CanLeave(succ, d)
    && (|d.path| > 1 ==> d.path[|d.path| - 2] in d.low)
    && d.low[d.path[|d.path| - 1]] == d.index[d.path[|d.path| - 1]]
    && pos < |d.stack| && d.stack[pos] == d.path[|d.path| - 1]
  }

  lemma CutStack(succ: Succ, d: State, pos: nat)
    requires Rising(d.index, d.stack) && CanClose(succ, d, pos)
    ensures forall y :: y in d.stack ==> (y in d.stack[..pos] <==> y !in From(d, d.path[|d.path| - 1]))
    ensures forall y :: y in d.stack[..pos] ==> y in d.stack && d.index[y] < d.index[d.path[|d.path| - 1]]
    ensures From(d, d.path[|d.path| - 1]) == set y | y in d.stack[pos..]
  {
    var u := d.path[|d.path| - 1];
    forall y | y in d.stack
      ensures y in d.stack[..pos] <==> !Before(d.index, u, y)
      ensures y in d.stack[pos..] <==> Before(d.index, u, y)
    {
      var i :| 0 <= i < |d.stack| && d.stack[i] == y;
      if i < pos {
        assert d.stack[..pos][i] == y;
      } else {
        assert d.stack[pos..][i - pos] == y;
      }
    }
    assert forall y :: y in d.stack[pos..] ==> y in d.stack;
  }

  lemma PathBelow(d: State, g: int)
    requires Rising(d.index, d.path) && d.path != [] && g in d.path
    ensures g in d.index && Before(d.index, g, d.path[|d.path| - 1])
    ensures g in d.path[..|d.path| - 1] <==> g != d.path[|d.path| - 1]
  {
    var t := |d.path| - 1;
    var i :| 0 <= i < |d.path| && d.path[i] == g;
    if i < t {
      assert d.path[..t][i] == g;
    } else {
      assert forall j :: 0 <= j < t ==> d.path[..t][j] == d.path[j] && d.index[d.path[j]] < d.index[g];
    }
  }

  /** Nothing leaves the closed part: every edge of the component stays in it or
      goes to a finished node. */
  lemma CloseEdges(succ: Succ, nodes: set<int>, d: State, pos: nat)
    requires Shape(succ, nodes, d) && Bounded(succ, d) && Closed(succ, d.fin) && CanClose(succ, d, pos)
    ensures Closed(succ, d.fin + From(d, d.path[|d.path| - 1]))
  {
    var t := |d.path| - 1;
    var u := d.path[t];
    forall x, z | x in d.fin + From(d, u) && Edge(succ, x, z)
      ensures z in d.fin + From(d, u)
    {
      if x in From(d, u) {
        assert Owns(d, t, x);
        assert EdgesSettled(succ, d, d.low[u], x, DoneOf(succ, d, t, x));
        var k :| 0 <= k < |Out(succ, x)| && Out(succ, x)[k] == z;
        assert Settled(d, d.low[u], z);
      }
    }
  }

  lemma CloseReach(succ: Succ, d: State, x: int)
    requires Downward(succ, d) && Upward(succ, d) && Rising(d.index, d.path) && d.path != []
    requires forall g :: g in d.path ==> g in d.stack
    requires x in From(d, d.path[|d.path| - 1])
    ensures Mutual(succ, x, d.path[|d.path| - 1])
  {
    var u := d.path[|d.path| - 1];
    assert u in d.path && Reach(succ, u, x);
    assert Anchored(succ, d, x);
    var g :| g in d.path && Before(d.index, g, x) && Reach(succ, x, g);
    PathBelow(d, g);
    assert u in d.stack && Reach(succ, g, u);
    ReachTrans(succ, x, g, u);
  }

  /** A set whose nodes all reach u and back, and whose edges stay in it or go to a
      closed set beside it, is a component. */
  lemma HubComponent(succ: Succ, fin: set<int>, c: set<int>, u: int)
    requires u in c && c !! fin && Closed(succ, fin) && Closed(succ, fin + c)
    requires forall x :: x in c ==> Mutual(succ, x, u)
    ensures IsComponent(succ, c)
  {
    forall x, y | x in c && y in c
      ensures Reach(succ, x, y)
    {
      assert Mutual(succ, x, u) && Mutual(succ, y, u);
      ReachTrans(succ, x, u, y);
    }
    forall x, y | x in c && Mutual(succ, x, y)
      ensures y in c
    {
      ReachStays(succ, fin + c, x, y);
      if y in fin {
        ReachStays(succ, fin, y, x);
      }
    }
  }

  lemma CloseComponent(succ: Succ, nodes: set<int>, d: State, pos: nat)
    requires Inv(succ, nodes, d) && CanClose(succ, d, pos)
    ensures IsComponent(succ, From(d, d.path[|d.path| - 1]))
    ensures Closed(succ, d.fin + From(d, d.path[|d.path| - 1]))
  {
    hide IsComponent, Bounded, LowReal, PathOk, CountOk;
    var u := d.path[|d.path| - 1];
    CloseEdges(succ, nodes, d, pos);
    assert u in d.path && u in From(d, u);
    forall x | x in From(d, u)
      ensures Mutual(succ, x, u)
    {
      CloseReach(succ, d, x);
    }
    HubComponent(succ, d.fin, From(d, u), u);
  }

  lemma CloseSplit(succ: Succ, d: State, pos: nat)
    requires Split(d.path, d.index, d.stack, d.fin) && Rising(d.index, d.stack) && Rising(d.index, d.path)
    requires CanClose(succ, d, pos)
    ensures Split(Closing(d, pos).path, d.index, d.stack[..pos], Closing(d, pos).fin)
    ensures Rising(d.index, d.stack[..pos])
  {
    var t := |d.path| - 1;
    CutStack(succ, d, pos);
    forall x | x in d.path[..t]
      ensures x in d.stack[..pos]
    {
      var i :| 0 <= i < t && d.path[..t][i] == x;
      assert d.path[i] == x && x in d.path;
    }
  }

  lemma CloseShape(succ: Succ, nodes: set<int>, d: State, pos: nat)
    requires Shape(succ, nodes, d) && CanClose(succ, d, pos)
    ensures Shape(succ, nodes, Closing(d, pos))
  {
    LeaveShape(succ, nodes, d);
    CloseSplit(succ, d, pos);
  }

  lemma CloseUpDown(succ: Succ, d: State, pos: nat)
    requires Upward(succ, d) && Downward(succ, d) && Rising(d.index, d.stack) && Rising(d.index, d.path)
    requires CanClose(succ, d, pos)
    ensures Upward(succ, Closing(d, pos)) && Downward(succ, Closing(d, pos))
  {
    var t := |d.path| - 1;
    var e := Closing(d, pos);
    CutStack(succ, d, pos);
    forall y | y in e.stack
      ensures Anchored(succ, e, y)
    {
      assert Anchored(succ, d, y);
      var g :| g in d.path && Before(d.index, g, y) && Reach(succ, y, g);
      PathBelow(d, g);
      assert g in e.path;
    }
    assert forall x :: x in e.path ==> x in d.path;
  }

  lemma CloseLow(succ: Succ, d: State, pos: nat)
    requires Rising(d.index, d.path) && d.index.Keys == d.low.Keys && LowReal(succ, d) && CanClose(succ, d, pos)
    ensures Closing(d, pos).low == d.low
  {
    var t := |d.path| - 1;
    if t > 0 {
      var p := d.path[|d.path| - 2];
      assert p in d.path && p in d.low && p in d.index;
      assert d.low[p] <= d.index[p] < d.index[d.path[t]];
    }
  }

  lemma CloseLowReal(succ: Succ, d: State, pos: nat)
    requires Rising(d.index, d.stack) && Rising(d.index, d.path)
    requires LowReal(succ, d) && CanClose(succ, d, pos) && Closing(d, pos).low == d.low
    ensures LowReal(succ, Closing(d, pos))
  {
    var e := Closing(d, pos);
    CutStack(succ, d, pos);
    hide From, Rising;
    forall g | g in e.path && g in e.low && g in e.index
      ensures e.low[g] <= e.index[g] && LowWitness(succ, e, g, e.low[g])
    {
      var i :| 0 <= i < |e.path| && e.path[i] == g;
      assert d.path[i] == g && g in d.path && LowWitness(succ, d, g, d.low[g]);
      var y :| y in d.stack && y in d.index && d.index[y] == d.low[g] && Reach(succ, g, y);
      PathBelow(d, g);
      PathDistinct(d, i);
      assert y in e.stack;
    }
  }

  lemma PathDistinct(d: State, i: int)
    requires Rising(d.index, d.path) && 0 <= i < |d.path| - 1
    ensures d.index[d.path[i]] < d.index[d.path[|d.path| - 1]]
  {
  }

  lemma CloseBounded(succ: Succ, nodes: set<int>, d: State, pos: nat)
    requires PathOk(succ, d.path, d.done) && Rising(d.index, d.stack) && CanClose(succ, d, pos)
    requires d.path[|d.path| - 1] in d.stack && Bounded(succ, d)
    requires Closing(d, pos).low == d.low
    ensures Bounded(succ, Closing(d, pos))
  {
    var t := |d.path| - 1;
    var u := d.path[t];
    var e := Closing(d, pos);
    CutStack(succ, d, pos);
    assert t > 0 ==> Leads(succ, d.path[t - 1], d.done[t - 1], d.path[t - 1 + 1]);
    hide PathOk, Rising;
    forall i, y | Owns(e, i, y) && e.path[i] in e.low
      ensures EdgesSettled(succ, e, e.low[e.path[i]], y, DoneOf(succ, e, i, y))
    {
      assert e.path[i] == d.path[i];
      assert Owns(d, i, y);
      assert EdgesSettled(succ, d, d.low[d.path[i]], y, DoneOf(succ, d, i, y));
      forall k | 0 <= k < DoneOf(succ, e, i, y) && k < |Out(succ, y)|
        ensures Settled(e, e.low[e.path[i]], Out(succ, y)[k])
      {
        if k < DoneOf(succ, d, i, y) {
          assert Settled(d, d.low[d.path[i]], Out(succ, y)[k]);
        } else {
          assert u in From(d, u);
        }
      }
    }
  }

  lemma Close(succ: Succ, nodes: set<int>, d: State, pos: nat)
    requires Inv(succ, nodes, d) && CanClose(succ, d, pos)
    ensures Inv(succ, nodes, Closing(d, pos))
    ensures IsComponent(succ, From(d, d.path[|d.path| - 1]))
    ensures From(d, d.path[|d.path| - 1]) !! d.fin
    ensures From(d, d.path[|d.path| - 1]) == set y | y in d.stack[pos..]
  {
    hide IsComponent, Bounded, LowReal, Upward, Downward;
    CutStack(succ, d, pos);
    CloseComponent(succ, nodes, d, pos);
    assert d.path[|d.path| - 1] in d.path;
    hide CanClose;
    CloseShape(succ, nodes, d, pos);
    CloseUpDown(succ, d, pos);
    CloseLow(succ, d, pos);
    CloseLowReal(succ, d, pos);
    CloseBounded(succ, nodes, d, pos);
  }

  // ---- the algorithm -------------------------------------------------------

  /** An entry of the work list: a node and how many of its out-edges were taken. */
  datatype Entry = Entry(node: int, taken: nat)

  ghost predicate Components(succ: Succ, out: seq<set<int>>) {
    && (forall i :: 0 <= i < |out| ==> IsComponent(succ, out[i]))
    && (forall i, j :: 0 <= i < j < |out| ==> out[i] !! out[j])
  }

  lemma ComponentsAppend(succ: Succ, out: seq<set<int>>, c: set<int>)
    requires Components(succ, out) && IsComponent(succ, c) && c !! Finished(out)
    ensures Components(succ, out + [c]) && Finished(out + [c]) == Finished(out) + c
  {
    hide IsComponent;
    assert (out + [c])[..|out|] == out;
    forall i | 0 <= i < |out|
      ensures out[i] !! c
    {
      FinishedMember(out, i);
    }
  }

  ghost function Nodes(work: seq<Entry>): seq<int> {
    seq(|work|, i requires 0 <= i < |work| => work[i].node)
  }

  /** Out-edges dealt with below the top: the last edge taken is being followed. */
  ghost function Followed(work: seq<Entry>): seq<nat> {
    seq(|work|, i requires 0 <= i < |work| => if work[i].taken == 0 then 0 else work[i].taken - 1)
  }

  /** Inside the work loop: above the entries of `rest`, whose edges are being
      followed, u is numbered and has pi out-edges dealt with. */
  ghost predicate Mid(succ: Succ, nodes: set<int>, d: State, rest: seq<Entry>, u: int, pi: nat) {
    && (forall i :: 0 <= i < |rest| ==> rest[i].taken != 0)
    && d.path == Nodes(rest) + [u] && d.done == Followed(rest) + [pi]
    && u in d.index && u in nodes && pi <= |Out(succ, u)|
  }

  /** At the head of the work loop: the top entry is new, or its node is numbered. */
  ghost predicate Loop(succ: Succ, nodes: set<int>, d: State, work: seq<Entry>) {
    if work == [] then d.path == [] && d.done == []
    else
      var t := work[|work| - 1];
      var rest := work[..|work| - 1];
      if t.taken != 0 then Mid(succ, nodes, d, rest, t.node, t.taken)
      else
        && d.path == Nodes(rest) && d.done == Followed(rest)
        && (forall i :: 0 <= i < |rest| ==> rest[i].taken != 0)
        && Next(succ, nodes, d, t.node)
  }

  lemma NodesPrefix(work: seq<Entry>, e: Entry)
    ensures Nodes(work + [e]) == Nodes(work) + [e.node]
    ensures Followed(work + [e]) == Followed(work) + [if e.taken == 0 then 0 else e.taken - 1]
  {
  }

  /** What the bookkeeping below needs of the invariant. */
  ghost predicate Sound(succ: Succ, d: State) {
    && |d.path| == |d.done|
    && (forall i :: 0 <= i < |d.path| ==>
          d.path[i] in d.index && d.path[i] in d.low && d.path[i] in d.stack && d.done[i] <= |Out(succ, d.path[i])|)
  }

  lemma InvSound(succ: Succ, nodes: set<int>, d: State)
    requires Inv(succ, nodes, d)
    ensures Sound(succ, d)
  {
    hide Bounded, LowReal, Upward, Downward;
  }

  lemma MidFacts(succ: Succ, nodes: set<int>, d: State, rest: seq<Entry>, u: int, pi: nat)
    requires Sound(succ, d) && Mid(succ, nodes, d, rest, u, pi)
    ensures |d.path| == |rest| + 1 && d.path[|rest|] == u && d.done[|rest|] == pi
    ensures d.path[..|rest|] == Nodes(rest) && d.done[..|rest|] == Followed(rest)
    ensures u in d.low && u in d.stack
    ensures rest != [] ==> rest[|rest| - 1].node in d.low && d.path[|rest| - 1] == rest[|rest| - 1].node
  {
    assert d.path[..|rest|] == Nodes(rest);
    assert rest != [] ==> d.path[|rest| - 1] == d.path[..|rest|][|rest| - 1];
  }

  lemma Number(succ: Succ, nodes: set<int>, d: State, rest: seq<Entry>, u: int) returns (e: State)
    requires Loop(succ, nodes, d, rest + [Entry(u, 0)])
    requires Inv(succ, nodes, d)
    ensures e == Discovered(d, u)
    ensures Inv(succ, nodes, e)
    ensures Mid(succ, nodes, e, rest, u, 0)
  {
    hide Inv;
    assert (rest + [Entry(u, 0)])[..|rest|] == rest;
    Discover(succ, nodes, d, u);
    e := Discovered(d, u);
  }

  lemma TakeTree(succ: Succ, nodes: set<int>, d: State, rest: seq<Entry>, u: int, pi: nat)
    requires Inv(succ, nodes, d) && Mid(succ, nodes, d, rest, u, pi) && Closed(succ, nodes)
    requires pi < |Out(succ, u)| && Out(succ, u)[pi] !in d.index
    ensures Loop(succ, nodes, d, rest + [Entry(u, pi + 1)] + [Entry(Out(succ, u)[pi], 0)])
    ensures Out(succ, u)[pi] in nodes
  {
    hide Inv;
    var w := Out(succ, u)[pi];
    var work := rest + [Entry(u, pi + 1)];
    assert Edge(succ, u, w);
    NodesPrefix(rest, Entry(u, pi + 1));
    assert (work + [Entry(w, 0)])[..|work|] == work;
  }

  lemma TakeOther(succ: Succ, nodes: set<int>, d: State, rest: seq<Entry>, u: int, pi: nat) returns (e: State)
    requires Inv(succ, nodes, d) && Mid(succ, nodes, d, rest, u, pi)
    requires pi < |Out(succ, u)| && Out(succ, u)[pi] in d.index && u in d.low
    ensures Inv(succ, nodes, e) && Loop(succ, nodes, e, rest + [Entry(u, pi + 1)])
    ensures e == d.(path := e.path, done := e.done,
      low := if Out(succ, u)[pi] in d.stack then d.low[u := Min(d.low[u], d.index[Out(succ, u)[pi]])] else d.low)
  {
    hide Inv;
    InvSound(succ, nodes, d);
    MidFacts(succ, nodes, d, rest, u, pi);
    SettleEdge(succ, nodes, d);
    e := SettledEdge(succ, d);
    assert (rest + [Entry(u, pi + 1)])[..|rest|] == rest;
  }

  /** `low` after the node u was left. */
  ghost function LowLeft(low: map<int, nat>, rest: seq<Entry>, u: int): map<int, nat>
    requires u in low && (rest != [] ==> rest[|rest| - 1].node in low)
  {
    if rest == [] then low
    else low[rest[|rest| - 1].node := Min(low[rest[|rest| - 1].node], low[u])]
  }

  lemma LeftLoop(succ: Succ, nodes: set<int>, d: State, e: State, rest: seq<Entry>, u: int, pi: nat)
    requires Sound(succ, d) && Mid(succ, nodes, d, rest, u, pi)
    requires Sound(succ, e) && rest != [] && e.index.Keys <= nodes
    requires e.path == d.path[..|rest|] && e.done == d.done[..|rest|][|rest| - 1 := d.done[|rest| - 1] + 1]
    ensures Loop(succ, nodes, e, rest)
  {
    var k := |rest| - 1;
    var t := rest[k];
    MidFacts(succ, nodes, d, rest, u, pi);
    assert rest == rest[..k] + [t];
    NodesPrefix(rest[..k], t);
    assert e.path == Nodes(rest[..k]) + [t.node];
    assert e.done == Followed(rest[..k]) + [t.taken];
    assert e.done[k] <= |Out(succ, e.path[k])|;
    assert e.path[k] in e.index;
  }

  lemma LeaveNode(succ: Succ, nodes: set<int>, d: State, rest: seq<Entry>, u: int) returns (e: State)
    requires Inv(succ, nodes, d) && Mid(succ, nodes, d, rest, u, |Out(succ, u)|)
    requires u in d.low && d.low[u] < d.index[u]
    ensures rest != [] && rest[|rest| - 1].node in d.low
    ensures Inv(succ, nodes, e) && Loop(succ, nodes, e, rest)
    ensures e == d.(path := e.path, done := e.done, low := LowLeft(d.low, rest, u))
  {
    hide Inv;
    InvSound(succ, nodes, d);
    MidFacts(succ, nodes, d, rest, u, |Out(succ, u)|);
    Leave(succ, nodes, d);
    e := Left(d);
    InvSound(succ, nodes, e);
    IndexInNodes(succ, nodes, d);
    LeftLoop(succ, nodes, d, e, rest, u, |Out(succ, u)|);
  }

  lemma IndexInNodes(succ: Succ, nodes: set<int>, d: State)
    requires Inv(succ, nodes, d)
    ensures d.index.Keys <= nodes
    ensures forall g :: g in d.path ==> g in d.low && g in d.index && d.low[g] <= d.index[g]
  {
    hide Bounded, Upward, Downward;
  }

  lemma CloseNode(succ: Succ, nodes: set<int>, d: State, rest: seq<Entry>, u: int, pos: nat, out: seq<set<int>>, comp: set<int>)
    returns (e: State)
    requires Inv(succ, nodes, d) && Mid(succ, nodes, d, rest, u, |Out(succ, u)|)
    requires u in d.low && d.low[u] == d.index[u]
    requires pos < |d.stack| && d.stack[pos] == u && comp == set y | y in d.stack[pos..]
    requires Components(succ, out) && d.fin == Finished(out)
    ensures rest != [] ==> rest[|rest| - 1].node in d.low
    ensures Inv(succ, nodes, e) && Loop(succ, nodes, e, rest)
    ensures Components(succ, out + [comp])
    ensures e == d.(path := e.path, done := e.done,
      low := LowLeft(d.low, rest, u), stack := d.stack[..pos], fin := Finished(out + [comp]))
  {
    hide Inv, Components, IsComponent, Loop, From;
    InvSound(succ, nodes, d);
    MidFacts(succ, nodes, d, rest, u, |Out(succ, u)|);
    Close(succ, nodes, d, pos);
    e := Closing(d, pos);
    ComponentsAppend(succ, out, comp);
    InvSound(succ, nodes, e);
    IndexInNodes(succ, nodes, d);
    CloseLoop(succ, nodes, d, rest, u, pos);
  }

  lemma CloseLoop(succ: Succ, nodes: set<int>, d: State, rest: seq<Entry>, u: int, pos: nat)
    requires Sound(succ, d) && Mid(succ, nodes, d, rest, u, |Out(succ, u)|) && CanClose(succ, d, pos)
    requires Sound(succ, Closing(d, pos)) && d.index.Keys <= nodes
    ensures Loop(succ, nodes, Closing(d, pos), rest)
  {
    hide From;
    MidFacts(succ, nodes, d, rest, u, |Out(succ, u)|);
    if rest != [] {
      LeftLoop(succ, nodes, d, Closing(d, pos), rest, u, |Out(succ, u)|);
    }
  }

  /** With nothing left to explore the stack is empty. */
  lemma AllFinished(succ: Succ, nodes: set<int>, d: State)
    requires Inv(succ, nodes, d) && d.path == []
    ensures d.index.Keys == d.fin
  {
    hide LowReal, Bounded, Downward;
    assert d.stack != [] ==> Anchored(succ, d, d.stack[0]);
    assert forall x :: x in d.index.Keys <==> x in d.fin;
  }

  /** Out-edges still to be taken by the entries of the work list, and the entries. */
  ghost function ToTake(succ: Succ, work: seq<Entry>): nat {
    if work == [] then 0
    else
      var e := work[|work| - 1];
      ToTake(succ, work[..|work| - 1]) + 1 + if e.taken < |Out(succ, e.node)| then |Out(succ, e.node)| - e.taken else 0
  }

  lemma ToTakeTop(succ: Succ, rest: seq<Entry>, u: int, pi: nat)
    ensures ToTake(succ, rest + [Entry(u, pi)]) > ToTake(succ, rest)
    ensures pi < |Out(succ, u)| ==> ToTake(succ, rest + [Entry(u, pi)]) > ToTake(succ, rest + [Entry(u, pi + 1)])
  {
    assert (rest + [Entry(u, pi)])[..|rest|] == rest;
    assert (rest + [Entry(u, pi + 1)])[..|rest|] == rest;
  }

  /** Nodes that were never put on the work list. */
  ghost function Unseen(nodes: set<int>, index: map<int, nat>, work: seq<Entry>): set<int> {
    nodes - index.Keys - NodeSet(work)
  }

  ghost function NodeSet(work: seq<Entry>): set<int> {
    set e | e in work :: e.node
  }

  lemma NodeSetAppend(work: seq<Entry>, e: Entry)
    ensures NodeSet(work + [e]) == NodeSet(work) + {e.node}
  {
    assert e in work + [e];
    assert forall f :: f in work + [e] <==> f in work || f == e;
  }

  lemma UnseenLess(a: set<int>, b: set<int>)
    requires a <= b
    ensures |a| <= |b| && (a != b ==> |a| < |b|)
  {
    assert b == a + (b - a);
    assert |b| == |a| + |b - a|;
  }

  /** The measure of the work loop falls whichever way a turn goes. */
  lemma MeasurePop(nodes: set<int>, index0: map<int, nat>, index: map<int, nat>, rest: seq<Entry>, u: int, pi: nat)
    requires index.Keys == index0.Keys + {u}
    ensures |Unseen(nodes, index, rest)| <= |Unseen(nodes, index0, rest + [Entry(u, pi)])|
    ensures |Unseen(nodes, index, rest + [Entry(u, pi + 1)])| <= |Unseen(nodes, index0, rest + [Entry(u, pi)])|
  {
    NodeSetAppend(rest, Entry(u, pi));
    NodeSetAppend(rest, Entry(u, pi + 1));
    hide NodeSet;
    UnseenLess(Unseen(nodes, index, rest), Unseen(nodes, index0, rest + [Entry(u, pi)]));
    UnseenLess(Unseen(nodes, index, rest + [Entry(u, pi + 1)]), Unseen(nodes, index0, rest + [Entry(u, pi)]));
  }

  lemma RestNumbered(succ: Succ, nodes: set<int>, d: State, rest: seq<Entry>, u: int, pi: nat)
    requires Sound(succ, d) && Mid(succ, nodes, d, rest, u, pi)
    ensures forall e :: e in rest ==> e.node in d.index
  {
    MidFacts(succ, nodes, d, rest, u, pi);
    forall e | e in rest
      ensures e.node in d.index
    {
      var i :| 0 <= i < |rest| && rest[i] == e;
      assert Nodes(rest)[i] == d.path[i];
    }
  }

  lemma MeasureTree(nodes: set<int>, index0: map<int, nat>, index: map<int, nat>, rest: seq<Entry>, u: int, pi: nat, w: int)
    requires forall e :: e in rest ==> e.node in index
    requires w in nodes && w !in index && index.Keys == index0.Keys + {u}
    ensures |Unseen(nodes, index, rest + [Entry(u, pi + 1)] + [Entry(w, 0)])| < |Unseen(nodes, index0, rest + [Entry(u, pi)])|
  {
    assert w !in NodeSet(rest);
    NodeSetAppend(rest, Entry(u, pi));
    NodeSetAppend(rest, Entry(u, pi + 1));
    NodeSetAppend(rest + [Entry(u, pi + 1)], Entry(w, 0));
    hide NodeSet;
    var a := Unseen(nodes, index, rest + [Entry(u, pi + 1)] + [Entry(w, 0)]);
    var b := Unseen(nodes, index0, rest + [Entry(u, pi)]);
    assert w in b && w !in a && a <= b;
    UnseenLess(a, b);
  }

  lemma Start(succ: Succ, nodes: set<int>)
    ensures Inv(succ, nodes, State([], [], map[], map[], [], {}, 0))
    ensures Components(succ, []) && Finished([]) == {}
    ensures Loop(succ, nodes, State([], [], map[], map[], [], {}, 0), [])
  {
  }

  lemma StartLoop(succ: Succ, nodes: set<int>, d: State, v: int)
    requires Loop(succ, nodes, d, []) && v in nodes && v !in d.index
    ensures Loop(succ, nodes, d, [Entry(v, 0)])
  {
  }

  lemma EndLoop(succ: Succ, nodes: set<int>, d: State)
    requires Loop(succ, nodes, d, [])
    ensures d.path == [] && d.done == []
  {
  }

  lemma Popped(succ: Succ, nodes: set<int>, d: State, rest: seq<Entry>, u: int, pi: nat)
    requires Inv(succ, nodes, d)
    requires Mid(succ, nodes, d, rest, u, pi) || (pi != 0 && Loop(succ, nodes, d, rest + [Entry(u, pi)]))
    ensures Mid(succ, nodes, d, rest, u, pi)
    ensures u in nodes && u in d.index && u in d.low && u in d.stack && pi <= |Out(succ, u)| && d.low[u] <= d.index[u]
    ensures rest != [] ==> rest[|rest| - 1].node in d.low
    ensures Sound(succ, d)
  {
    hide Inv;
    InvSound(succ, nodes, d);
    IndexInNodes(succ, nodes, d);
    assert (rest + [Entry(u, pi)])[..|rest|] == rest;
    MidFacts(succ, nodes, d, rest, u, pi);
    assert d.path[|rest|] in d.path;
  }

  lemma StackDistinct(succ: Succ, nodes: set<int>, d: State)
    requires Inv(succ, nodes, d)
    ensures forall i, j :: 0 <= i < j < |d.stack| ==> d.stack[i] != d.stack[j]
  {
    hide Bounded, Upward, Downward, LowReal;
  }

  /** Pops the stack down to u, which is at position pos. */
  method PopComponent(stack0: seq<int>, onstack0: set<int>, u: int, ghost pos: nat)
    returns (stack: seq<int>, onstack: set<int>, comp: set<int>)
    requires pos < |stack0| && stack0[pos] == u && onstack0 == set y | y in stack0
    requires forall i, j :: 0 <= i < j < |stack0| ==> stack0[i] != stack0[j]
    ensures stack == stack0[..pos] && onstack == (set y | y in stack) && comp == set y | y in stack0[pos..]
  {
    stack, onstack, comp := stack0, onstack0, {};
    while true
      invariant pos < |stack| <= |stack0| && stack == stack0[..|stack|]
      invariant onstack == set y | y in stack
      invariant comp == set y | y in stack0[|stack|..]
      decreases |stack|
    {
      var k := |stack| - 1;
      var w := stack[k];
      assert stack == stack[..k] + [w] && w !in stack[..k];
      assert stack0[k..] == [w] + stack0[k + 1..];
      stack := stack[..k];
      onstack := onstack - {w};
      comp := comp + {w};
      if w == u {
        break;
      }
    }
  }

  /** The algorithm's variables. */
  datatype Vars = Vars(
    index: map<int, nat>,
    low: map<int, nat>,
    onstack: set<int>,
    stack: seq<int>,
    out: seq<set<int>>,
    counter: nat)

  ghost predicate Holds(succ: Succ, nodes: set<int>, d: State, v: Vars) {
    && Inv(succ, nodes, d) && Components(succ, v.out)
    && d.index == v.index && d.low == v.low && d.stack == v.stack && d.fin == Finished(v.out)
    && d.counter == v.counter && v.onstack == set y | y in v.stack
  }

  function Pushed(s: Vars, u: int): Vars {
    s.(index := s.index[u := s.counter], low := s.low[u := s.counter], counter := s.counter + 1,
       stack := s.stack + [u], onstack := s.onstack + {u})
  }

  lemma PushHolds(succ: Succ, nodes: set<int>, d: State, s: Vars, rest: seq<Entry>, u: int) returns (e: State)
    requires Loop(succ, nodes, d, rest + [Entry(u, 0)])
    requires Holds(succ, nodes, d, s)
    ensures Mid(succ, nodes, e, rest, u, 0)
    ensures Holds(succ, nodes, e, Pushed(s, u))
  {
    hide Inv, Components, Loop, Mid, Finished;
    e := Number(succ, nodes, d, rest, u);
  }

  /** All out-edges of u are dealt with: closes its component if it starts one, and
      hands its low to the node before it. */
  method Finish(succ: Succ, work: seq<Entry>, u: int, s0: Vars, ghost nodes: set<int>, ghost d0: State)
    returns (s: Vars, ghost d: State)
    requires Holds(succ, nodes, d0, s0) && Mid(succ, nodes, d0, work, u, |Out(succ, u)|)
    ensures Holds(succ, nodes, d, s) && Loop(succ, nodes, d, work)
    ensures s.index == s0.index
  {
    hide Inv, Components, Loop, Mid, Sound, Finished, Out;
    Popped(succ, nodes, d0, work, u, |Out(succ, u)|);
    s := s0;
    if s.low[u] == s.index[u] {
      ghost var pos: nat :| pos < |s.stack| && s.stack[pos] == u;
      StackDistinct(succ, nodes, d0);
      var stack, onstack, comp := PopComponent(s.stack, s.onstack, u, pos);
      d := CloseNode(succ, nodes, d0, work, u, pos, s.out, comp);
      s := s.(stack := stack, onstack := onstack, out := s.out + [comp]);
    } else {
      d := LeaveNode(succ, nodes, d0, work, u);
    }
    if work != [] {
      var parent := work[|work| - 1].node;
      s := s.(low := s.low[parent := Min(s.low[parent], s.low[u])]);
    }
  }

  /** Explores everything reachable from v that has no number yet. */
  method Explore(succ: Succ, v: int, s0: Vars, ghost nodes: set<int>, ghost d0: State) returns (s: Vars, ghost d: State)
    requires Closed(succ, nodes) && v in nodes && v !in s0.index
    requires Holds(succ, nodes, d0, s0) && Loop(succ, nodes, d0, [])
    ensures Holds(succ, nodes, d, s) && Loop(succ, nodes, d, [])
    ensures s0.index.Keys + {v} <= s.index.Keys
  {
    hide Inv, Components, Loop, Mid, Sound, Unseen, ToTake, Finished, Next, Edge, Closed, Out, Min, Discovered;
    s, d := s0, d0;
    var work := [Entry(v, 0)];
    StartLoop(succ, nodes, d, v);
    while work != []
      invariant Holds(succ, nodes, d, s) && Loop(succ, nodes, d, work)
      invariant v in s.index || work == [Entry(v, 0)]
      invariant s0.index.Keys <= s.index.Keys
      decreases |Unseen(nodes, s.index, work)|, ToTake(succ, work)
    {
      ghost var work0, index0 := work, s.index;
      var u, pi := work[|work| - 1].node, work[|work| - 1].taken;
      work := work[..|work| - 1];
      ghost var rest := work;
      assert work0 == rest + [Entry(u, pi)];
      if pi == 0 {
        d := PushHolds(succ, nodes, d, s, rest, u);
        s := Pushed(s, u);
      }
      Popped(succ, nodes, d, rest, u, pi);
      MeasurePop(nodes, index0, s.index, rest, u, pi);
      ToTakeTop(succ, rest, u, pi);
      var ns := Out(succ, u);
      if pi < |ns| {
        work := work + [Entry(u, pi + 1)];
        var w := ns[pi];
        if w !in s.index {
          TakeTree(succ, nodes, d, rest, u, pi);
          RestNumbered(succ, nodes, d, rest, u, pi);
          MeasureTree(nodes, index0, s.index, rest, u, pi, w);
          work := work + [Entry(w, 0)];
        } else {
          d := TakeOther(succ, nodes, d, rest, u, pi);
          if w in s.onstack {
            s := s.(low := s.low[u := Min(s.low[u], s.index[w])]);
          }
        }
        continue;
      }
      s, d := Finish(succ, work, u, s, nodes, d);
    }
  }

  /** The components of the graph on the nodes of `order`, in the order Tarjan's
      algorithm closes them. */
  method Sccs(order: seq<int>, succ: Succ) returns (out: seq<set<int>>)
    requires Closed(succ, set v | v in order)
    ensures Components(succ, out) && Finished(out) == set v | v in order
  {
    hide Inv, Components, Loop, Finished;
    ghost var nodes := set v | v in order;
    var s := Vars(map[], map[], {}, [], [], 0);
    ghost var d := State([], [], map[], map[], [], {}, 0);
    Start(succ, nodes);
    for n := 0 to |order|
      invariant Holds(succ, nodes, d, s) && Loop(succ, nodes, d, [])
      invariant forall i :: 0 <= i < n ==> order[i] in s.index
    {
      if order[n] !in s.index {
        s, d := Explore(succ, order[n], s, nodes, d);
      }
    }
    EndLoop(succ, nodes, d);
    AllFinished(succ, nodes, d);
    IndexInNodes(succ, nodes, d);
    assert forall v :: v in order ==> v in s.index;
    out := s.out;
  }

  /** Two nodes share a component exactly when each reaches the other. */
  lemma SameComponentIffMutual(succ: Succ, out: seq<set<int>>, x: int, y: int)
    requires Components(succ, out) && x in Finished(out) && y in Finished(out)
    ensures (exists i :: 0 <= i < |out| && x in out[i] && y in out[i]) <==> Mutual(succ, x, y)
  {
    FinishedCovered(out, x);
    var i :| 0 <= i < |out| && x in out[i];
    assert IsComponent(succ, out[i]);
    if j :| 0 <= j < |out| && x in out[j] && y in out[j] {
      assert IsComponent(succ, out[j]);
    }
  }

  lemma OnlyOne(c: set<int>, x: int)
    requires x in c && forall y :: y in c ==> y == x
    ensures c == {x}
  {
    assert forall y :: y in c <==> y in {x};
  }

  /** A node lies on a cycle exactly when its component has another node or it is
      its own successor: the test of the loop rule. */
  lemma CycleIffComponent(succ: Succ, out: seq<set<int>>, i: nat, x: int)
    requires Components(succ, out) && i < |out| && x in out[i]
    ensures OnCycle(succ, x) <==> |out[i]| != 1 || Edge(succ, x, x)
  {
    var c := out[i];
    assert IsComponent(succ, c);
    if c != {x} {
      if forall y :: y in c ==> y == x {
        OnlyOne(c, x);
        assert false;
      }
      var y :| y in c && y != x;
      ReachFirstEdge(succ, x, y);
      var z :| Edge(succ, x, z) && Reach(succ, z, y);
      ReachTrans(succ, z, y, x);
      assert c > {x};
      if |c| == 1 {
        UnseenLess({x}, c);
      }
    } else if v :| Edge(succ, x, v) && Reach(succ, v, x) {
      ReachEdge(succ, x, v);
      assert Mutual(succ, x, v);
    }
    if Edge(succ, x, x) {
      ReachRefl(succ, x);
    }
  }
}
