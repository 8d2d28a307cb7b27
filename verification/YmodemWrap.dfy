/** With 256 messages under way the number byte no longer suffices: a run in which a block
    is delivered in place of another.  With 255 there is none. */
module YmodemWrap {
  import opened Thumb
  import opened YmodemWire
  import opened YmodemBlock0
  import opened YmodemReceiver
  import opened YmodemContract
  import opened YmodemSender
  import opened YmodemLink
  import opened YmodemSafety
  import opened YmodemFinish

  // ---- a file of 300 blocks -----------------------------------------------------------------

  const BLOCKS: nat := 300

  const LONG: File := FileId([0x61], DATA_MAX * BLOCKS)

  /** Block i: zeros up to block 256, ones behind it. */
  function Piece(i: nat): (c: seq<bv8>)
    ensures |c| == DATA_MAX
  {
    seq(DATA_MAX, _ => if i > 256 then 1 else 0)
  }

  /** The source after n blocks. */
  function RestOf(n: nat): Source
    requires n <= BLOCKS
  {
    seq(BLOCKS - n, j requires 0 <= j < BLOCKS - n => Some(Piece(n + 1 + j)))
  }

  function Pieces(n: nat): seq<seq<bv8>> {
    if n == 0 then [] else Pieces(n - 1) + [Piece(n)]
  }

  /** The sink's calls for a receiver that waits for block k. */
  function CallsFor(k: nat): seq<Call>
    requires k > 0
  {
    if k == 1 then [Begin(SentName(LONG.name), LONG.size)] else CallsFor(k - 1) + [Write(Piece(k - 1))]
  }

  function LeftAt(n: nat): nat
    requires 0 < n <= BLOCKS
  {
    DATA_MAX * (BLOCKS + 1 - n)
  }

  // ---- the states of the run ------------------------------------------------------------------

  function Copies(m: Msg, n: nat): (c: seq<Msg>)
    ensures |c| == n
  {
    seq(n, _ => m)
  }

  function AcksOnly(n: nat): (c: seq<bv8>)
    ensures |c| == n
  {
    seq(n, _ => ACK)
  }

  function BlockMsg(n: nat): Msg {
    Msg(n, Block(SeqOf(n), Piece(n)))
  }

  /** The sender has block n out for the (tries+1)th time, the receiver waits for block k;
      f copies of the block and b ACKs are under way. */
  function At(room: nat, n: nat, k: nat, tries: nat, f: nat, b: nat): Link
    requires 0 < n <= BLOCKS && 0 < k <= BLOCKS
  {
    Link(DataOut(tries, SeqOf(n), Piece(n), LeftAt(n)), RestOf(n),
         Receiving(0, SeqOf(k), if k == 1 then CRC_C else NAK, true, LeftAt(k)),
         Copies(BlockMsg(n), f), AcksOnly(b), CallsFor(k), Pieces(n), n, k, false, false, room)
  }

  ghost predicate EndsIn(room: nat, s: Link, states: seq<Link>, moves: seq<Move>) {
    IsRun(LONG, RestOf(0), room, states, moves) && states[|moves|] == s
  }

  ghost predicate Reached(room: nat, s: Link) {
    exists states, moves :: EndsIn(room, s, states, moves)
  }

  lemma ReachedStep(room: nat, s: Link, mv: Move, s': Link)
    requires Reached(room, s) && FitStep(LONG, s, mv, s')
    ensures Reached(room, s')
  {
    hide FitStep, RestOf;
    var states, moves :| EndsIn(room, s, states, moves);
    var states', moves' := states + [s'], moves + [mv];
    forall i | 0 <= i < |moves'|
      ensures FitStep(LONG, states'[i], moves'[i], states'[i + 1])
    {
      if i < |moves| {
        assert FitStep(LONG, states[i], moves[i], states[i + 1]);
      }
    }
    assert EndsIn(room, s', states', moves');
  }

  // ---- single steps -------------------------------------------------------------------------------

  lemma PieceWhole(n: nat)
    ensures Padded(Piece(n)) == Piece(n)
  {
  }

  lemma PieceTaken(n: nat, left: nat)
    requires left >= DATA_MAX
    ensures Taken(Piece(n), true, left) == Piece(n) != []
  {
  }

  /** After a timeout the block is put again. */
  lemma PutAgain(room: nat, n: nat, k: nat, tries: nat, f: nat, b: nat)
    requires 0 < n <= BLOCKS && 0 < k <= BLOCKS && tries < BLOCK_RETRIES && f + 1 + b <= room
    requires Reached(room, At(room, n, k, tries, f, b))
    ensures Reached(room, At(room, n, k, tries + 1, f + 1, b))
  {
    hide Reached, SeqOf, Piece, Padded, RestOf, CallsFor, Pieces;
    PieceWhole(n);
    var s, s' := At(room, n, k, tries, f, b), At(room, n, k, tries + 1, f + 1, b);
    assert s.fwd + [BlockMsg(n)] == s'.fwd;
    assert FitStep(LONG, s, SenderWaits(Silence, true), s');
    ReachedStep(room, s, SenderWaits(Silence, true), s');
  }

  lemma LoseOne(room: nat, n: nat, k: nat, tries: nat, f: nat, b: nat)
    requires 0 < n <= BLOCKS && 0 < k <= BLOCKS && f > 0
    requires Reached(room, At(room, n, k, tries, f, b))
    ensures Reached(room, At(room, n, k, tries, f - 1, b))
  {
    hide Reached, SeqOf, Piece, RestOf, CallsFor, Pieces;
    var s, s' := At(room, n, k, tries, f, b), At(room, n, k, tries, f - 1, b);
    assert Without(s.fwd, 0) == s'.fwd;
    assert FitStep(LONG, s, LosePacket(0), s');
    ReachedStep(room, s, LosePacket(0), s');
  }

  lemma FewOnly(m: Msg)
    ensures Copies(m, 0) == [] && Copies(m, 1) == [m] && AcksOnly(0) == []
    ensures Pieces(0) == [] && Pieces(1) == [Piece(1)]
  {
    assert Pieces(0) == [];
    hide Piece;
  }

  lemma OneFewer(n: nat, f: nat, b: nat)
    ensures f > 0 ==> Copies(BlockMsg(n), f)[0] == BlockMsg(n) && Copies(BlockMsg(n), f)[1..] == Copies(BlockMsg(n), f - 1)
    ensures AcksOnly(b) + [ACK] == AcksOnly(b + 1)
    ensures b > 0 ==> AcksOnly(b)[0] == ACK && AcksOnly(b)[1..] == AcksOnly(b - 1)
  {
    hide BlockMsg;
  }

  /** The block that is due arrives. */
  lemma HearsDue(room: nat, n: nat, tries: nat, f: nat, b: nat)
    requires 0 < n < BLOCKS && f > 0 && Reached(room, At(room, n, n, tries, f, b))
    ensures Reached(room, At(room, n, n + 1, tries, f - 1, b + 1))
  {
    hide Reached, SeqOf, Piece, RestOf, Pieces, On, OutBytes, Taken, NumAfter, NumBefore, FitStep, Copies, AcksOnly;
    var s, s' := At(room, n, n, tries, f, b), At(room, n, n + 1, tries, f - 1, b + 1);
    OneFewer(n, f, b);
    DueNext(n);
    NumbersMove(SeqOf(n));
    DuePlan(s.q, Piece(n));
    PieceTaken(n, LeftAt(n));
    BytesSaid(ACK, ACK, true);
    HearsClean(LONG, s);
    ReachedStep(room, s, ReceiverHears(false, [], []), s');
  }

  /** A block with the number before the one that is due: its ACK is repeated. */
  lemma HearsBehind(room: nat, n: nat, k: nat, tries: nat, f: nat, b: nat)
    requires 0 < n <= BLOCKS && 1 < k <= BLOCKS && f > 0 && n % 256 == (k - 1) % 256
    requires Reached(room, At(room, n, k, tries, f, b))
    ensures Reached(room, At(room, n, k, tries, f - 1, b + 1))
  {
    hide Reached, SeqOf, Piece, RestOf, Pieces, CallsFor, On, OutBytes, NumAfter, NumBefore, FitStep, Copies, AcksOnly;
    var s, s' := At(room, n, k, tries, f, b), At(room, n, k, tries, f - 1, b + 1);
    OneFewer(n, f, b);
    DueNext(k - 1);
    BackAgain(SeqOf(k - 1));
    SeqApart(n, k - 1);
    BehindPlan(s.q, SeqOf(n), Piece(n));
    BytesSaid(ACK, ACK, true);
    HearsClean(LONG, s);
    assert s.calls + [] == s.calls;
    ReachedStep(room, s, ReceiverHears(false, [], []), s');
  }

  lemma LoadsPiece(n: nat)
    requires n < BLOCKS
    ensures LoadBlock(SeqOf(n + 1), LeftAt(n + 1), RestOf(n)) == (DataOut(0, SeqOf(n + 1), Piece(n + 1), LeftAt(n + 1)), RestOf(n + 1))
  {
    hide SeqOf;
    var src := RestOf(n);
    assert src[0] == Some(Piece(n + 1)) && src[1..] == RestOf(n + 1);
    assert FillBlock(RestOf(n + 1), 0) == (Some([]), RestOf(n + 1));
    assert Piece(n + 1) + [] == Piece(n + 1);
  }

  /** An ACK arrives, whatever it was for: the next block. */
  lemma TakesAck(room: nat, n: nat, k: nat, tries: nat, b: nat)
    requires 0 < n < BLOCKS && 0 < k <= BLOCKS && 0 < b <= room
    requires Reached(room, At(room, n, k, tries, 0, b))
    ensures Reached(room, At(room, n + 1, k, 0, 1, b - 1))
  {
    hide Reached, SeqOf, Piece, RestOf, CallsFor, LoadBlock, NumAfter, Copies, AcksOnly, FitStep;
    var s, s' := At(room, n, k, tries, 0, b), At(room, n + 1, k, 0, 1, b - 1);
    OneFewer(n, 0, b);
    CodesDiffer();
    DueNext(n);
    LoadsPiece(n);
    PieceWhole(n + 1);
    FewOnly(BlockMsg(n));
    FewOnly(BlockMsg(n + 1));
    AnswersClean(LONG, s, Acked);
    assert AfterBlock(s.p, s.src) == (s'.p, s'.src);
    var s0 := Answered(LONG, s.(back := s.back[1..]), Acked);
    assert s0.p == s'.p && s0.src == s'.src;
    assert s0.chunks == s'.chunks;
    assert s0.fwd == s'.fwd;
    assert s0 == s';
    ReachedStep(room, s, SenderHears(false, true), s');
  }

  // ---- many steps ------------------------------------------------------------------------------------

  lemma {:induction false} PutMany(room: nat, n: nat, k: nat, b: nat, m: nat)
    requires 0 < n <= BLOCKS && 0 < k <= BLOCKS && m <= BLOCK_RETRIES && m + 1 + b <= room
    requires Reached(room, At(room, n, k, 0, 1, b))
    ensures Reached(room, At(room, n, k, m, m + 1, b))
  {
    hide Reached, At;
    if m > 0 {
      PutMany(room, n, k, b, m - 1);
      PutAgain(room, n, k, m - 1, m, b);
    }
  }

  lemma {:induction false} HearsMany(room: nat, n: nat, k: nat, tries: nat, f: nat, b: nat)
    requires 0 < n <= BLOCKS && 1 < k <= BLOCKS && n % 256 == (k - 1) % 256
    requires Reached(room, At(room, n, k, tries, f, b))
    ensures Reached(room, At(room, n, k, tries, 0, b + f))
    decreases f
  {
    hide Reached, At;
    if f > 0 {
      HearsBehind(room, n, k, tries, f, b);
      HearsMany(room, n, k, tries, f - 1, b + 1);
    }
  }

  /** A block put m + 1 times leaves m ACKs more on the line than the sender needs. */
  lemma Heaps(room: nat, n: nat, b: nat, m: nat)
    requires 0 < n < BLOCKS && m <= BLOCK_RETRIES && m + 1 + b <= room
    requires Reached(room, At(room, n, n, 0, 1, b))
    ensures Reached(room, At(room, n, n + 1, m, 0, b + m + 1))
  {
    hide Reached, At;
    PutMany(room, n, n, b, m);
    HearsDue(room, n, m, m + 1, b);
    HearsMany(room, n, n + 1, m, m, b + 1);
  }

  lemma {:induction false} Piles(room: nat, j: nat)
    requires j <= 25 && room >= 256
    ensures Reached(room, At(room, j + 1, j + 1, 0, 1, 10 * j))
  {
    hide Reached, At;
    if j == 0 {
      Begins(room);
    } else {
      Piles(room, j - 1);
      Heaps(room, j, 10 * (j - 1), 10);
      TakesAck(room, j, j + 1, 10, 10 * j + 1);
    }
  }

  /** The sender runs ahead on the ACKs it finds, and its blocks are lost. */
  lemma {:induction false} RunsAhead(room: nat, m: nat)
    requires m <= 255 && room >= 256
    ensures Reached(room, At(room, 26 + m, 27, if m == 0 then 5 else 0, 0, 256 - m))
  {
    hide Reached, At;
    if m == 0 {
      Piles(room, 25);
      Heaps(room, 26, 250, 5);
    } else {
      RunsAhead(room, m - 1);
      TakesAck(room, 25 + m, 27, if m == 1 then 5 else 0, 257 - m);
      LoseOne(room, 26 + m, 27, 0, 1, 256 - m);
    }
  }

  // ---- the beginning -----------------------------------------------------------------------------------

  /** Greeting, block 0, its ACK, and the 'C' for the data. */
  lemma Begins(room: nat)
    requires room > 0
    ensures Reached(room, At(room, 1, 1, 0, 1, 0))
  {
    hide Reached, SeqOf, Piece, RestOf, LoadBlock, On, OutBytes, FitStep, Block0, SentName;
    CodesDiffer();
    var begun := Begun(RestOf(0), room);
    ReachedFirst(room);
    var header := Msg(0, Block(0, Block0(LONG.name, LONG.size)));
    var s1 := begun.(p := HeaderOut(0), fwd := [header], back := []);
    assert [CRC_C][1..] == [] && [] + [header] == [header];
    AnswersClean(LONG, begun, Asked);
    ReachedStep(room, begun, SenderHears(false, true), s1);
    HeaderPlan(LONG, 0);
    BytesSaid(ACK, CRC_C, true);
    assert [header][1..] == [] && [] + [ACK, CRC_C] == [ACK, CRC_C] && [] + CallsFor(1) == CallsFor(1);
    HearsClean(LONG, s1);
    var s2 := s1.(q := Receiving(0, 1, CRC_C, true, LONG.size), fwd := [], back := [ACK, CRC_C], calls := CallsFor(1), k := 1);
    ReachedStep(room, s1, ReceiverHears(false, [], []), s2);
    DataBegins(room, s2);
  }

  lemma ReachedFirst(room: nat)
    requires room > 0
    ensures Reached(room, Begun(RestOf(0), room))
  {
    hide RestOf;
    var begun := Begun(RestOf(0), room);
    assert EndsIn(room, begun, [begun], []);
  }

  lemma DataBegins(room: nat, s: Link)
    requires Reached(room, s) && room > 0
    requires s == Link(HeaderOut(0), RestOf(0), Receiving(0, 1, CRC_C, true, LONG.size), [], [ACK, CRC_C], CallsFor(1), [],
                       0, 1, false, false, room)
    ensures Reached(room, At(room, 1, 1, 0, 1, 0))
  {
    hide Reached, SeqOf, Piece, RestOf, LoadBlock, FitStep, CallsFor, Copies, AcksOnly;
    CodesDiffer();
    assert [ACK, CRC_C][1..] == [CRC_C] && [CRC_C][1..] == [];
    AnswersClean(LONG, s, Acked);
    var s1 := s.(p := Asking(0), at := 1, back := [CRC_C]);
    ReachedStep(room, s, SenderHears(false, true), s1);
    FirstNumber();
    LoadsPiece(0);
    PieceWhole(1);
    AnswersClean(LONG, s1, Asked);
    FewOnly(BlockMsg(1));
    var s0, s2 := Answered(LONG, s1.(back := []), Asked), At(room, 1, 1, 0, 1, 0);
    assert s0.p == s2.p && s0.src == s2.src;
    assert s0.chunks == s2.chunks;
    assert s0.fwd == s2.fwd;
    assert s0 == s2;
    ReachedStep(room, s1, SenderHears(false, true), At(room, 1, 1, 0, 1, 0));
  }

  // ---- a block in place of another ----------------------------------------------------------------------

  /** The receiver has block 283 where block 27 was due. */
  lemma WrongBlock(room: nat) returns (s: Link)
    requires room >= 256
    ensures Reached(room, s) && s.calls == CallsFor(27) + [Write(Piece(283))]
  {
    hide Reached, SeqOf, Piece, RestOf, Pieces, On, OutBytes, Taken, NumAfter, NumBefore, FitStep, Copies, AcksOnly, CallsFor;
    RunsAhead(room, 255);
    TakesAck(room, 281, 27, 0, 1);
    HearsBehind(room, 282, 27, 0, 1, 0);
    TakesAck(room, 282, 27, 0, 1);
    var s0 := At(room, 283, 27, 0, 1, 0);
    OneFewer(283, 1, 0);
    SeqApart(283, 27);
    NumbersMove(SeqOf(27));
    DuePlan(s0.q, Piece(283));
    PieceTaken(283, LeftAt(27));
    HearsClean(LONG, s0);
    s := Settled(s0.(fwd := s0.fwd[1..]), On(s0.q, s0.fwd[0].item));
    ReachedStep(room, s0, ReceiverHears(false, [], []), s);
  }

  lemma {:induction false} GivenAt(n: nat, i: nat)
    requires n + i < BLOCKS
    ensures |Given(RestOf(n))| == DATA_MAX * (BLOCKS - n) && Given(RestOf(n))[DATA_MAX * i] == Piece(n + 1 + i)[0]
    decreases BLOCKS - n
  {
    hide Piece;
    var src := RestOf(n);
    assert src != [] && src[0] == Some(Piece(n + 1)) && src[1..] == RestOf(n + 1);
    assert Given(src) == Piece(n + 1) + Given(RestOf(n + 1));
    if i > 0 {
      GivenAt(n + 1, i - 1);
    } else if n + 1 < BLOCKS {
      GivenAt(n + 1, 0);
    } else {
      assert RestOf(n + 1) == [];
    }
  }

  lemma {:induction false} WrittenLength(k: nat)
    requires k > 0
    ensures |Written(CallsFor(k))| == DATA_MAX * (k - 1)
  {
    hide Written, Piece;
    if k == 1 {
      NothingYet(CallsFor(1)[0]);
    } else {
      WrittenLength(k - 1);
      WrittenJoin(CallsFor(k - 1), [Write(Piece(k - 1))]);
      PieceWritten(k - 1);
    }
  }

  lemma NothingYet(c: Call)
    ensures c.Begin? ==> Written([c]) == []
  {
    assert [c][..0] == [];
  }

  lemma PieceWritten(n: nat)
    ensures Written([Write(Piece(n))]) == Piece(n)
  {
    hide Written;
    WrittenOne(Piece(n));
    assert WriteOf(Piece(n)) == [Write(Piece(n))];
  }

  /** What the safety of the protocol promises of one state of one run. */
  ghost predicate Delivers(file: File, src: Source, room: nat, states: seq<Link>, moves: seq<Move>, n: nat) {
    NameOk(file) && IsRun(file, src, room, states, moves) && n < |states| ==> Written(states[n].calls) <= Expected(file, src)
  }

  lemma WrongIsWrong(room: nat, s: Link)
    requires s.calls == CallsFor(27) + [Write(Piece(283))]
    ensures !(Written(s.calls) <= Expected(LONG, RestOf(0)))
  {
    hide Written, Given, RestOf;
    WrittenLength(27);
    WrittenJoin(CallsFor(27), [Write(Piece(283))]);
    PieceWritten(283);
    GivenAt(0, 26);
    assert Written(s.calls)[DATA_MAX * 26] == Piece(283)[0] == 1;
    assert Expected(LONG, RestOf(0))[DATA_MAX * 26] == Piece(27)[0] == 0;
  }

  /** The sink is given the beginning of the file in every state of every run over a line of
      this room exactly when the room is at most 255. */
  lemma SafeIffRoom(room: nat)
    requires room > 0
    ensures (forall file, src, states, moves, n :: Delivers(file, src, room, states, moves, n)) <==> room <= CAPACITY
  {
    hide IsRun, NameOk, Expected, Written, RestOf, Piece;
    if room <= CAPACITY {
      forall file, src, states, moves, n: nat
        ensures Delivers(file, src, room, states, moves, n)
      {
        if NameOk(file) && IsRun(file, src, room, states, moves) && n < |states| {
          ProtocolSafe(file, src, room, states, moves, n);
        }
      }
    } else {
      var s := WrongBlock(room);
      WrongIsWrong(room, s);
      NamedLong();
      var states, moves :| EndsIn(room, s, states, moves);
      RunLength(room, states, moves);
      assert !Delivers(LONG, RestOf(0), room, states, moves, |moves|);
    }
  }

  lemma NamedLong()
    ensures NameOk(LONG)
  {
  }

  lemma RunLength(room: nat, states: seq<Link>, moves: seq<Move>)
    requires IsRun(LONG, RestOf(0), room, states, moves)
    ensures |states| == |moves| + 1
  {
  }
}
