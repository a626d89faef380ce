/** Whole calls put together from single link steps: with one copy, with a lost reply, with an overtaken one. */
module LinkRuns {
  import opened Bytes
  import opened Codes
  import opened Esp
  import opened Frame
  import opened HmacSha
  import opened DeviceMachine
  import opened LossyLink
  import opened RemoteCall
  import opened CopyCount
  import CallTheory
  import opened Transport
  import opened RequestTrace
  import M = OtaMachine
  import T = DispatchTheory

  // ---- Calls built from link steps ----

  lemma FirstCopySent(h: Hash, l: Link, number: nat, p: Packet)
    requires Inv(h, l) && Idle(l) && MayIssue(l, number, p)
    ensures var i, t := Issue(l, number, p), Transmit(Issue(l, number, p));
      && Grew(l, i) && Waited(h, i, t) && T.Shaped(t.device)
      && t.toDevice == [|l.requests|] && t.toHost == [] && t.requests[|l.requests|].packet == p
      && t.log == l.log && t.device == l.device && Outstanding(t) == 1
  {
    hide Inv, Grew, MayIssue, T.Shaped, Copies, Ordered;
    var i := Issue(l, number, p);
    IssueGrows(h, l, number, p);
    TransmitWaits(h, i);
    DeviceShaped(h, l);
    OrderedOf(h, l);
    IssueOutstanding(l, number, p);
    TransmitCopies(i, |l.requests|);
  }

  lemma OrderedOf(h: Hash, l: Link)
    requires Inv(h, l)
    ensures Ordered(l)
  {
  }

  /** A delivered copy whose reply is the only one in flight completes the call. */
  lemma DeliveredCompletes(h: Hash, l: Link, number: nat, p: Packet, b: Link, o: Outcome) returns (x: Pass)
    requires Inv(h, l) && Grew(l, Issue(l, number, p)) && Waited(h, Issue(l, number, p), b)
    requires b.toDevice == [|l.requests|] && b.toHost == [] && T.Shaped(b.device) && Possible(o, b.device)
    requires b.requests[|l.requests|].packet == p
    ensures Passed(h, Outstanding(b), x) && x.before == l && x.number == number && x.packet == p
    ensures Idle(x.after) && x.after.device == After(h, b.device, p, o) && x.reply == Answer(h, b.device, p, o)
    ensures x.record == |b.log| && |x.after.log| == |b.log| + 1 && x.after.log[|b.log|].outcome == o
  {
    hide Inv, Grew, Handle, T.Shaped, Copies, Possible, After;
    var d := Deliver(h, b, o);
    HappenWaits(h, b, Delivers(o));
    HappenCopies(h, b, Delivers(o));
    WaitedAgain(h, Issue(l, number, p), b, d);
    ReplyEchoed(h, b, p, o);
    CompleteReceives(h, d);
    var m := CompleteCall(d);
    WaitedThenReceived(h, Issue(l, number, p), d, m, |b.log|);
    IssuedReceived(h, l, m, number, p, |b.log|);
    SameCopies(d, m);
    AfterIsHandled(h, b.device, p, o);
    x := Pass(l, number, p, |b.log|, m, m.log[|b.log|].reply);
  }

  lemma ReplyEchoed(h: Hash, b: Link, p: Packet, o: Outcome)
    requires b.toDevice != [] && b.toDevice[0] < |b.requests| && T.Shaped(b.device)
    requires b.requests[b.toDevice[0]].packet == p
    ensures Deliver(h, b, o).log[|b.log|].reply.sequence == p.sequence
  {
    EchoesSequence(h, b.device, p, o);
    hide Handle;
  }

  lemma AfterIsHandled(h: Hash, d: Device, p: Packet, o: Outcome)
    requires T.Shaped(d)
    ensures After(h, d, p, o) == Handle(h, d, p, o).device && Answer(h, d, p, o) == Handle(h, d, p, o).reply
  {
    hide Handle;
  }

  lemma OneCall(h: Hash, l: Link, number: nat, p: Packet, o: Outcome) returns (x: Pass)
    requires Inv(h, l) && Idle(l) && MayIssue(l, number, p) && Possible(o, l.device)
    ensures T.Shaped(l.device) && Passed(h, 1, x) && x.before == l && x.number == number && x.packet == p
    ensures Idle(x.after) && x.after.device == After(h, l.device, p, o) && x.reply == Answer(h, l.device, p, o)
    ensures x.record == |l.log| && |x.after.log| == |l.log| + 1 && x.after.log[|l.log|].outcome == o
  {
    hide Inv, Grew, MayIssue, T.Shaped, After, Answer, Outstanding, Possible, Passed;
    DeviceShaped(h, l);
    FirstCopySent(h, l, number, p);
    x := DeliveredCompletes(h, l, number, p, Transmit(Issue(l, number, p)), o);
  }

  /** The first copy is handled and its reply lost, and the host sends a second one. */
  lemma SecondCopySent(h: Hash, l: Link, number: nat, p: Packet, o: Outcome) returns (b: Link)
    requires Inv(h, l) && Idle(l) && MayIssue(l, number, p) && Possible(o, l.device)
    ensures T.Shaped(l.device) && Grew(l, Issue(l, number, p)) && Waited(h, Issue(l, number, p), b)
    ensures b.toDevice == [|l.requests|] && b.toHost == [] && b.requests[|l.requests|].packet == p
    ensures T.Shaped(b.device) && b.device == After(h, l.device, p, o) && Outstanding(b) <= 2
  {
    hide Inv, Grew, MayIssue, T.Shaped, Copies, Possible, After, Handle;
    DeviceShaped(h, l);
    FirstCopySent(h, l, number, p);
    var i, t := Issue(l, number, p), Transmit(Issue(l, number, p));
    var d := Deliver(h, t, o);
    HappenWaits(h, t, Delivers(o));
    HappenCopies(h, t, Delivers(o));
    WaitedAgain(h, i, t, d);
    HappenWaits(h, d, LosesReply(0));
    HappenCopies(h, d, LosesReply(0));
    var e := LoseReply(d, 0);
    WaitedAgain(h, i, d, e);
    TransmitWaits(h, e);
    TransmitCopies(e, |l.requests|);
    b := Transmit(e);
    WaitedAgain(h, i, e, b);
    AfterIsHandled(h, l.device, p, o);
    DeviceShaped(h, b);
  }

  /** The device handles the request twice, and the host gets the second reply. */
  lemma RetriedCall(h: Hash, l: Link, number: nat, p: Packet, o: Outcome, again: Outcome) returns (x: Pass)
    requires Inv(h, l) && Idle(l) && MayIssue(l, number, p) && Possible(o, l.device) && T.Shaped(l.device)
    requires Possible(again, After(h, l.device, p, o))
    ensures Passed(h, 2, x) && x.before == l && x.number == number && x.packet == p && Idle(x.after)
    ensures var v := After(h, l.device, p, o);
      x.after.device == After(h, v, p, again) && x.reply == Answer(h, v, p, again)
  {
    hide Inv, Grew, MayIssue, T.Shaped, After, Answer, Outstanding, Possible, Answered;
    var b := SecondCopySent(h, l, number, p, o);
    x := DeliveredCompletes(h, l, number, p, b, again);
  }

  /** Two copies are on their way, the first has been handled, and its reply is in flight. */
  lemma TwoCopiesSent(h: Hash, l: Link, number: nat, p: Packet, o: Outcome) returns (b: Link)
    requires Inv(h, l) && Idle(l) && MayIssue(l, number, p) && Possible(o, l.device)
    ensures T.Shaped(l.device) && Grew(l, Issue(l, number, p)) && Waited(h, Issue(l, number, p), b)
    ensures b.toDevice == [|l.requests|] && b.requests[|l.requests|].packet == p
    ensures b.toHost == [|l.log|] && |b.log| == |l.log| + 1 && b.log[|l.log|].reply == Answer(h, l.device, p, o)
    ensures T.Shaped(b.device) && b.device == After(h, l.device, p, o) && Outstanding(b) <= 2
  {
    hide Inv, Grew, MayIssue, T.Shaped, Copies, Possible, After, Handle, Answer;
    DeviceShaped(h, l);
    FirstCopySent(h, l, number, p);
    var i, t := Issue(l, number, p), Transmit(Issue(l, number, p));
    TransmitWaits(h, t);
    TransmitCopies(t, |l.requests|);
    var u := Transmit(t);
    WaitedAgain(h, i, t, u);
    b := Deliver(h, u, o);
    HappenWaits(h, u, Delivers(o));
    HappenCopies(h, u, Delivers(o));
    WaitedAgain(h, i, u, b);
    AfterIsHandled(h, l.device, p, o);
    DeviceShaped(h, b);
  }

  /** The host gets the first reply, but the device has handled the second copy before it does. */
  lemma OvertakenCall(h: Hash, l: Link, number: nat, p: Packet, o: Outcome, again: Outcome) returns (x: Pass)
    requires Inv(h, l) && Idle(l) && MayIssue(l, number, p) && Possible(o, l.device) && T.Shaped(l.device)
    requires Possible(again, After(h, l.device, p, o))
    ensures Passed(h, 2, x) && x.before == l && x.number == number && x.packet == p
    ensures x.after.device == After(h, After(h, l.device, p, o), p, again) && x.reply == Answer(h, l.device, p, o)
  {
    hide Inv, Grew, MayIssue, T.Shaped, After, Answer, Copies, Possible, Handle;
    var b := TwoCopiesSent(h, l, number, p, o);
    var i, d := Issue(l, number, p), Deliver(h, b, again);
    HappenWaits(h, b, Delivers(again));
    HappenCopies(h, b, Delivers(again));
    WaitedAgain(h, i, b, d);
    AfterIsHandled(h, b.device, p, again);
    AnswerEchoes(h, l.device, p, o);
    CompleteReceives(h, d);
    var m := CompleteCall(d);
    WaitedThenReceived(h, i, d, m, |l.log|);
    IssuedReceived(h, l, m, number, p, |l.log|);
    SameCopies(d, m);
    x := Pass(l, number, p, |l.log|, m, m.log[|l.log|].reply);
  }

  lemma AnswerEchoes(h: Hash, d: Device, p: Packet, o: Outcome)
    requires T.Shaped(d)
    ensures Answer(h, d, p, o).sequence == p.sequence
  {
    EchoesSequence(h, d, p, o);
    hide Handle;
  }

  /**
   * Without authentication a NACK does not tell that a chunk was not written: the
   * copy it answers may have met a flash error and a later one not.
   */
  lemma NackedYetWritten(h: Hash, l: Link, number: nat, p: Packet, o: Outcome, again: Outcome) returns (x: Pass)
    requires Inv(h, l) && Idle(l) && MayIssue(l, number, p) && T.Shaped(l.device) && !l.device.auth.required
    requires Possible(o, l.device) && Possible(again, l.device)
    requires p.version == VERSION && p.command == CMD_OTA_DATA
    requires M.Write(l.device.ota, p.payload, o).error == ERR_OTA_FLASH_ERROR
    requires M.Write(l.device.ota, p.payload, again).error == ERR_OK
    ensures Passed(h, 2, x) && x.before == l && x.packet == p && x.reply == Nack(p, ERR_OTA_FLASH_ERROR)
    ensures x.after.device.ota == M.Write(l.device.ota, p.payload, again).state
  {
    hide Inv, Handle, Answered, T.Shaped, Possible, MayIssue, Outstanding;
    CallTheory.PlainSteps(h, l.device, p, o);
    CallTheory.PlainSteps(h, l.device, p, again);
    FailedWrite(l.device.ota, p.payload, o);
    x := OvertakenCall(h, l, number, p, o, again);
  }

  lemma FailedWrite(ota: M.State, payload: seq<byte>, o: Outcome)
    requires M.Write(ota, payload, o).error == ERR_OTA_FLASH_ERROR
    ensures M.Write(ota, payload, o).state == ota
  {
  }
}
