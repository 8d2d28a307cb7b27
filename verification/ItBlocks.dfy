/** The processor's count of conditional instructions agrees with the blocks the
    analysis reads off the code: refusing a branch into an IT block is what makes the
    two agree on every path. */
module ItBlocks {
  import opened Thumb
  import opened BodyRules

  /** n more instructions from address a on are conditional, a's included. */
  ghost predicate ItPlace(code: seq<Insn>, a: int, n: nat) {
    if n == 0 then a !in ItSet(code)
    else exists k :: Opener(code, k, a, n)
  }

  /** The block that code[k] opens has a as its n-th instruction from the end. */
  ghost predicate Opener(code: seq<Insn>, k: int, a: int, n: nat) {
    && OpensBlock(code, k) && 1 <= n <= code[k].itlen
    && InBlock(code, k, code[k].itlen - n + 1) && code[k + code[k].itlen - n + 1].addr == a
  }

  /** The count after an instruction. */
  function ItNext(ins: Insn, n: nat): nat {
    if ins.flow == It then ins.itlen else if n > 0 then n - 1 else 0
  }

  lemma InItSet(code: seq<Insn>, a: int)
    ensures a in ItSet(code) <==> exists k, m :: InBlock(code, k, m) && code[k + m].addr == a
  {
    if k, m :| InBlock(code, k, m) && code[k + m].addr == a {
      assert 0 <= k < |code| && 0 <= m < |code|;
    }
  }

  lemma PlaceConditional(code: seq<Insn>, a: int, n: nat)
    requires ItPlace(code, a, n)
    ensures n > 0 <==> a in ItSet(code)
  {
    InItSet(code, a);
    if n > 0 {
      var k :| Opener(code, k, a, n);
      assert InBlock(code, k, code[k].itlen - n + 1);
    }
  }

  lemma Ordered(code: seq<Insn>, i: int, j: int)
    requires WellLaid(code) && 0 <= i < |code| && 0 <= j < |code|
    ensures i < j ==> code[i].addr < code[i].Fall() <= code[j].addr
  {
  }

  lemma SameIndex(code: seq<Insn>, i: int, j: int)
    requires WellLaid(code) && 0 <= i < |code| && 0 <= j < |code| && code[i].addr == code[j].addr
    ensures i == j
  {
    Ordered(code, i, j);
    Ordered(code, j, i);
  }

  /** The instruction at the end of code[i] is code[i + 1]. */
  lemma NextIndex(code: seq<Insn>, i: int, j: int)
    requires WellLaid(code) && 0 <= i < |code| && 0 <= j < |code| && code[i].Fall() == code[j].addr
    ensures j == i + 1
  {
    Ordered(code, j, i);
    assert code[i].size > 0;
    if i + 1 < |code| {
      Ordered(code, i, i + 1);
      Ordered(code, i + 1, j);
    }
  }

  lemma InnerBlock(code: seq<Insn>, k: int, m: int, m': int)
    requires InBlock(code, k, m) && 1 <= m' <= m
    ensures InBlock(code, k, m')
  {
  }

  /** No block is opened inside another. */
  lemma NoOpenerInside(code: seq<Insn>, k: int, m: int)
    requires ItBlocksOk(code) && InBlock(code, k, m)
    ensures !OpensBlock(code, k + m)
  {
    assert !BadInIt(code[k + m], m, code[k].itlen);
  }

  /** An instruction belongs to one block only. */
  lemma BlocksApart(code: seq<Insn>, k: int, m: int, k': int, m': int)
    requires ItBlocksOk(code)
    requires InBlock(code, k, m) && InBlock(code, k', m') && k + m == k' + m'
    ensures k == k'
  {
    if k < k' {
      InnerBlock(code, k, m, k' - k);
      NoOpenerInside(code, k, k' - k);
    } else if k' < k {
      InnerBlock(code, k', m', k - k');
      NoOpenerInside(code, k', k - k');
    }
  }

  /** The instruction before place m of a block is the opener or place m - 1. */
  lemma BeforePlace(code: seq<Insn>, i: int, k: int, m: int)
    requires WellLaid(code) && InBlock(code, k, m) && i + 1 == k + m
    ensures (i == k && m == 1) || (InBlock(code, k, m - 1) && i == k + (m - 1))
  {
    if m > 1 {
      InnerBlock(code, k, m, m - 1);
    }
  }

  /** Unless it is the next of the same block, the instruction after one of a block
      is in no block. */
  lemma AfterLast(code: seq<Insn>, i: int, k: int)
    requires WellLaid(code) && ItBlocksOk(code) && OpensBlock(code, k) && code[k].itlen >= 1
    requires InBlock(code, k, code[k].itlen) && i == k + code[k].itlen
    ensures code[i].Fall() !in ItSet(code)
  {
    InItSet(code, code[i].Fall());
    if k', m' :| InBlock(code, k', m') && code[k' + m'].addr == code[i].Fall() {
      NextIndex(code, i, k' + m');
      BeforePlace(code, i, k', m');
      if i == k' {
        NoOpenerInside(code, k, code[k].itlen);
      } else {
        BlocksApart(code, k, code[k].itlen, k', m' - 1);
      }
    }
  }

  lemma FallPlace(code: seq<Insn>, i: int, n: nat)
    requires WellLaid(code) && ItBlocksOk(code) && 0 <= i < |code|
    requires code[i].flow == It ==> code[i].itlen >= 1
    requires ItPlace(code, code[i].addr, n)
    requires code[i].Fall() in ItSet(code) ==> code[i].flow == It || code[i].addr in ItSet(code)
    ensures ItPlace(code, code[i].Fall(), ItNext(code[i], n))
  {
    PlaceConditional(code, code[i].addr, n);
    var fall := code[i].Fall();
    hide ItSet;
    if code[i].flow == It {
      assert InBlock(code, i, 1);
      assert Adjoins(code, i + 1);
      assert Opener(code, i, fall, code[i].itlen);
    } else if n > 0 {
      var k :| Opener(code, k, code[i].addr, n);
      var m := code[k].itlen - n + 1;
      SameIndex(code, i, k + m);
      if n > 1 {
        assert InBlock(code, k, m + 1);
        assert Adjoins(code, k + m + 1);
        assert Opener(code, k, fall, n - 1);
      } else {
        AfterLast(code, i, k);
      }
    }
  }

  /** An instruction of an IT block that may leave it is the last of it. */
  lemma LastPlace(code: seq<Insn>, i: int, n: nat)
    requires WellLaid(code) && ItBlocksOk(code) && 0 <= i < |code| && ItPlace(code, code[i].addr, n)
    requires code[i].flow !in {Seq, It, Undef, Trap}
    ensures ItNext(code[i], n) == 0
    ensures code[i].flow in {Bcc, Cbz, Le, Wls} ==> n == 0
  {
    if n > 0 {
      var k :| Opener(code, k, code[i].addr, n);
      var m := code[k].itlen - n + 1;
      SameIndex(code, i, k + m);
      assert !BadInIt(code[k + m], m, code[k].itlen);
    }
  }

  /** The first instruction of the code is in no block. */
  lemma EntryPlace(code: seq<Insn>, a: int)
    requires WellLaid(code) && code != [] && code[0].addr == a
    ensures ItPlace(code, a, 0)
  {
    InItSet(code, a);
    if k, m :| InBlock(code, k, m) && code[k + m].addr == a {
      SameIndex(code, 0, k + m);
      assert false;
    }
  }
}
