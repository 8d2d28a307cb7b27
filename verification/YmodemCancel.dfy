/** How one side's failure ends the other: every failed transfer puts CANs on the line last,
    and whoever waits and reads them stops, at once and with no more done. */
module YmodemCancel {
  import opened YmodemWire
  import opened YmodemBlock0
  import opened YmodemReceiver
  import opened YmodemSender

  lemma CancelSplits(rest: Input)
    ensures Bytes(CANCEL) + rest == [Got(CAN), Got(CAN)] + (Bytes(CANCEL[2..]) + rest)
  {
  }

  /** A wait for a reply is cut off by an abort, by two CANs, and by nothing else. */
  lemma HaltExact(input: Input)
    ensures NextReply(input).0 == Halt <==>
      First(input) == Aborted || (First(input) == Got(CAN) && First(Rest(input)) == Got(CAN))
    ensures NextReply(Bytes(CANCEL) + input) == (Halt, Bytes(CANCEL[2..]) + input)
  {
    CancelSplits(input);
    var rest := Bytes(CANCEL[2..]) + input;
    assert ([Got(CAN), Got(CAN)] + rest)[1..][1..] == rest;
  }

  /** Whatever it is waiting for, a sender that reads a cancel ends there. */
  lemma SenderCancelled(p: Sending, file: File, w: SWorld, rest: Input)
    requires !p.Over? && p.Ok() && w.input == Bytes(CANCEL) + rest
    ensures SRun(p, file, w) == (ErrCancel, w.(input := Bytes(CANCEL[2..]) + rest))
  {
    hide NextReply, Packet, Advance;
    HaltExact(rest);
  }

  /** Whatever it is waiting for, a receiver that reads a cancel ends there, with noise in
      front or not; the sink hears nothing more. */
  lemma ReceiverCancelled(p: Phase, w: World, noise: seq<bv8>, rest: Input)
    requires !p.Ended? && IsNoise(noise) && |noise| < DISCARD_MAX && w.input == Bytes(noise) + (Bytes(CANCEL) + rest)
    ensures Run(p, w) == (ErrCancel, w.(input := Bytes(CANCEL[2..]) + rest))
  {
    hide NextItem;
    CancelSplits(rest);
    CancelIsRead(noise, Bytes(CANCEL[2..]) + rest);
    var w' := w.(input := Bytes(CANCEL[2..]) + rest);
    assert Step(p, w) == (Ended(ErrCancel), w');
    assert Run(Ended(ErrCancel), w') == (ErrCancel, w');
  }

  /** What a failed receive puts on the line last ends the sender that reads it. */
  lemma FailedReceiveEndsSend(rw: World, p: Sending, file: File, sw: SWorld, rest: Input)
    requires Receive(rw).0 != Done && !p.Over? && p.Ok()
    ensures var sent := Receive(rw).1.sent;
      sent != [] && (sw.input == Bytes(sent[|sent| - 1]) + rest ==>
        SRun(p, file, sw).0 == ErrCancel && SRun(p, file, sw).1.sent == sw.sent)
  {
    hide ReceiveRun, SRun;
    if sw.input == Bytes(CANCEL) + rest {
      SenderCancelled(p, file, sw, rest);
    }
  }

  /** What a failed send puts on the line last ends the receiver that reads it. */
  lemma FailedSendEndsReceive(sw: SWorld, file: File, p: Phase, rw: World, noise: seq<bv8>, rest: Input)
    requires Send(file, sw).0 != Done && !p.Ended? && IsNoise(noise) && |noise| < DISCARD_MAX
    ensures var sent := Send(file, sw).1.sent;
      sent != [] && (rw.input == Bytes(noise) + (Bytes(sent[|sent| - 1]) + rest) ==>
        Run(p, rw).0 == ErrCancel && Run(p, rw).1.sent == rw.sent && Run(p, rw).1.calls == rw.calls)
  {
    hide SRun, Run;
    if rw.input == Bytes(noise) + (Bytes(CANCEL) + rest) {
      ReceiverCancelled(p, rw, noise, rest);
    }
  }
}
