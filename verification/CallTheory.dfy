/** Which requests are steady, and what a completed call of each kind means. */
module CallTheory {
  import opened Bytes
  import opened Codes
  import opened Esp
  import opened Frame
  import opened HmacSha
  import opened DeviceMachine
  import opened LossyLink
  import opened RemoteCall
  import S = SessionTheory
  import T = DispatchTheory
  import M = OtaMachine
  import OT = OtaTheory

  // ---- With a session ----

  lemma RestartedRefuses(h: Hash, d: Device, p: Packet, o: Outcome)
    requires T.Shaped(d) && d.auth.required && !d.auth.authenticated && p.version == VERSION && IsProtected(p.command)
    ensures After(h, d, p, o) == d && Answer(h, d, p, o) == Nack(p, ERR_AUTH_REQUIRED)
  {
    hide FindEntry, RequestDigest, Execute, Unwrap;
  }

  /** Without a session a device that requires one refuses protected requests and does not move. */
  lemma RefusedIsInert(h: Hash, d: Device, p: Packet)
    requires T.Shaped(d) && d.auth.required && !d.auth.authenticated && p.version == VERSION && IsProtected(p.command)
    ensures Inert(h, d, p)
  {
    forall o | Usable(o)
      ensures After(h, d, p, o) == d
    {
      RestartedRefuses(h, d, p, o);
    }
    hide After;
  }

  lemma RestartForgetsSession(h: Hash, d: Device, p: Packet, o: Outcome)
    requires T.Shaped(d) && Handle(h, d, p, o).device.restarts != d.restarts
    ensures Handle(h, d, p, o).device.auth == Configure(d.auth.key, d.auth.required)
    ensures p.version == VERSION && IsProtected(p.command)
  {
    hide CheckReplay, Unwrap, Execute, HandleAuth, Respond, Configure;
  }

  /** A request answered for the first time in this session is steady, and all its replies are honest. */
  lemma FreshIsSteady(h: Hash, d: Device, p: Packet, reply: Packet)
    requires S.Inv(h, d.auth) && S.SessionOn(d.auth, p) && p.version == VERSION && CheckReplay(h, d.auth, p).New?
    requires 0 < |d.auth.key| <= KEY_MAX_SIZE
    ensures T.Shaped(d) && Steady(h, d, p) && Honest(h, d, p, reply)
  {
    assert T.Shaped(d) by { S.ShapeOfInv(h, d.auth); hide S.Inv; }
    forall o, again | Usable(o) && Usable(again)
      ensures SteadyFor(h, d, p, o, again) && HonestFor(h, d, p, reply, o, again)
    {
      FreshRepeats(h, d, p, reply, o, again);
    }
  }

  lemma FreshRepeats(h: Hash, d: Device, p: Packet, reply: Packet, o: Outcome, again: Outcome)
    requires S.Inv(h, d.auth) && S.SessionOn(d.auth, p) && p.version == VERSION && CheckReplay(h, d.auth, p).New?
    requires T.Shaped(d) && 0 < |d.auth.key| <= KEY_MAX_SIZE
    ensures SteadyFor(h, d, p, o, again) && HonestFor(h, d, p, reply, o, again)
  {
    hide Handle, CheckReplay, S.Inv, RingShape;
    var v := After(h, d, p, o);
    if v.restarts == d.restarts {
      T.ExactRetry(h, d, p, o, again);
    } else {
      RestartForgetsSession(h, d, p, o);
      RestartedRefuses(h, v, p, again);
    }
  }

  /** Answering such a request always moves the device: the reply is cached, or it restarts. */
  lemma FreshMoves(h: Hash, d: Device, p: Packet, o: Outcome)
    requires T.Shaped(d) && S.SessionOn(d.auth, p) && p.version == VERSION && CheckReplay(h, d.auth, p).New?
    ensures After(h, d, p, o) != d
  {
    hide Handle, CheckReplay, RespondStatus;
    if After(h, d, p, o).restarts == d.restarts {
      var error := T.AnswerOf(h, d, p, o);
      S.StatusCases(h, d.auth, p, error);
      PushMoves(d.auth, S.EntryFor(h, p, RespondStatus(h, d.auth, p, error).reply));
    }
  }

  lemma PushMoves(a: Auth, e: Entry)
    requires RingShape(a)
    ensures S.Push(a, e) != a
  {
    assert (a.nextEntry + 1) % CACHE_SIZE != a.nextEntry;
  }

  /** A request with its tag, whatever session key the tag was made with. */
  function Sealed(command: byte, sequence: uint16, payload: seq<byte>, tag: seq<byte>): Packet
  {
    Packet(VERSION, command, sequence, payload + tag)
  }

  // ---- Without authentication ----

  predicate IsOta(command: byte)
  {
    command == CMD_OTA_BEGIN || command == CMD_OTA_DATA || command == CMD_OTA_END || command == CMD_OTA_ABORT
  }

  /**
   * Whatever an OTA command did to the transfer, doing it again does nothing more,
   * and reports success only if the first time did.
   */
  lemma OtaRepeats(ota: M.State, session: OT.Session, command: byte, payload: seq<byte>, o: Outcome, again: Outcome)
    requires OT.Inv(ota, session) && IsOta(command)
    ensures var x := Execute(ota, command, payload, o); x.ota != ota ==>
      var y := Execute(x.ota, command, payload, again); y.ota == x.ota && (y.error == ERR_OK ==> x.error == ERR_OK)
  {
    if command == CMD_OTA_DATA {
      hide M.Write, OT.Inv;
      OT.DataRepeats(ota, session, payload, o, again);
    } else {
      hide M.Write, OT.Inv, ReadLe32;
    }
  }

  lemma PlainSteps(h: Hash, d: Device, p: Packet, o: Outcome)
    requires T.Shaped(d) && !d.auth.required && p.version == VERSION && IsOta(p.command)
    ensures var x := Execute(d.ota, p.command, p.payload, o);
      After(h, d, p, o) == d.(ota := x.ota) &&
      Answer(h, d, p, o) == Reply(p, if x.error == ERR_OK then CMD_ACK else CMD_NACK, [x.error])
  {
    hide M.Begin, M.Write, M.End, M.Abort;
  }

  /**
   * Without authentication the OTA commands still take effect at most once per
   * call, and a success reply still tells that the command succeeded.
   */
  lemma PlainIsSteady(h: Hash, d: Device, p: Packet, session: OT.Session, reply: Packet)
    requires T.Shaped(d) && !d.auth.required && p.version == VERSION && IsOta(p.command)
    requires OT.Inv(d.ota, session)
    ensures Steady(h, d, p)
    ensures reply.command == CMD_ACK ==> Honest(h, d, p, reply)
  {
    forall o, again | Usable(o) && Usable(again)
      ensures SteadyFor(h, d, p, o, again)
      ensures reply.command == CMD_ACK ==> HonestFor(h, d, p, reply, o, again)
    {
      hide Execute, OT.Inv, Handle;
      PlainSteps(h, d, p, o);
      PlainSteps(h, After(h, d, p, o), p, again);
      OtaRepeats(d.ota, session, p.command, p.payload, o, again);
    }
    hide Handle, OT.Inv;
  }

  /** Doing an OTA command again after it took effect reports the same just for DATA. */
  lemma OtaReportsAgain(
    ota: M.State, session: OT.Session, command: byte, payload: seq<byte>, o: Outcome, again: Outcome)
    requires OT.Inv(ota, session) && IsOta(command) && Execute(ota, command, payload, o).ota != ota
    ensures var x := Execute(ota, command, payload, o);
      Execute(x.ota, command, payload, again).error == x.error <==> command == CMD_OTA_DATA
  {
    if command == CMD_OTA_DATA {
      hide M.Write, OT.Inv;
      OT.DataRepeats(ota, session, payload, o, again);
    } else {
      hide M.Write, OT.Inv, ReadLe32;
    }
  }

  /**
   * What only authentication adds is the reply itself: without it, a command that
   * took effect and whose reply was lost is answered the same when it is sent again
   * if and only if it is a DATA.
   */
  lemma PlainRepeatsReplyExactly(h: Hash, d: Device, p: Packet, session: OT.Session, o: Outcome, again: Outcome)
    requires T.Shaped(d) && !d.auth.required && p.version == VERSION && IsOta(p.command)
    requires OT.Inv(d.ota, session) && After(h, d, p, o) != d
    ensures Answer(h, After(h, d, p, o), p, again) == Answer(h, d, p, o) <==> p.command == CMD_OTA_DATA
  {
    hide Execute, OT.Inv, Handle;
    PlainSteps(h, d, p, o);
    PlainSteps(h, After(h, d, p, o), p, again);
    OtaReportsAgain(d.ota, session, p.command, p.payload, o, again);
  }

  /** Its instance for END: a success whose reply was lost is refused when it is sent again. */
  lemma PlainEndIsNotAnsweredTwice(h: Hash, d: Device, p: Packet, o: Outcome, again: Outcome)
    requires T.Shaped(d) && !d.auth.required && p == Packet(VERSION, CMD_OTA_END, p.sequence, [])
    requires Answer(h, d, p, o).command == CMD_ACK
    ensures Answer(h, After(h, d, p, o), p, again) == Nack(p, ERR_OTA_NOT_STARTED)
  {
    hide M.Begin, M.Write, M.Abort;
  }
}
