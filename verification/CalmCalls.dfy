/**
 * Calls in calm surroundings: the link loses nothing, there is time enough, and the
 * platform grants what it is asked. Then one copy is sent and handled, and what the
 * host gets is what the device answered.
 */
module CalmCalls {
  import opened Bytes
  import opened Codes
  import opened Esp
  import opened Frame
  import opened HmacSha
  import opened Sealing
  import opened DeviceMachine
  import opened LossyLink
  import opened RemoteCall
  import CopyCount
  import opened CallTheory
  import opened HandshakeTheory
  import opened SealedCalls
  import opened Payloads
  import opened Transport
  import opened RequestTrace
  import RepeatedRestart
  import S = SessionTheory
  import T = DispatchTheory

  /** The pass whose one copy was handled, and answered. */
  predicate SmoothPass(h: Hash, g: Platform, x: Pass)
  {
    x.record == |x.before.log| && Smooth(h, g, x.before, x.after, x.packet)
  }

  /** What the platform answered in it. */
  function AnswerGiven(x: Pass): Outcome
    requires |x.before.log| < |x.after.log|
  {
    x.after.log[|x.before.log|].outcome
  }

  /** The session is common to both ends, and the replay window is clear. */
  predicate Common(d: Device, sessionKey: Option<seq<byte>>, counter: nat)
  {
    T.Shaped(d) && d.auth.authenticated && sessionKey == Some(d.auth.sessionKey) && RingClear(d.auth, counter)
  }

  /** Both ends are configured alike, and a session of the client is the device's, or the device has none. */
  predicate Matched(h: Hash, authKey: Option<seq<byte>>, d: Device, sessionKey: Option<seq<byte>>, counter: nat)
  {
    match authKey
    case None => sessionKey.None? && T.Shaped(d) && !d.auth.required
    case Some(key) =>
      Keyed(h, key, d) && (sessionKey.None? || !d.auth.authenticated || Common(d, sessionKey, counter))
  }

  /** Nothing is in flight, and client and device are where a call may begin. */
  predicate Undisturbed(h: Hash, authKey: Option<seq<byte>>, s: Standing)
  {
    && Inv(h, s.link) && Idle(s.link) && NumbersUpTo(s.link, s.counter) && WindowOpen(s.link, s.counter, 1)
    && Matched(h, authKey, s.link.device, s.sessionKey, s.counter)
  }

  /** The reply a client reads: the status of the command. */
  function StatusReply(sequence: uint16, error: byte): Packet
  {
    Packet(VERSION, if error == ERR_OK then CMD_ACK else CMD_NACK, sequence, [error])
  }

  /** The device went from `d` to `v` by one execution under `o`, and `result` is its status. */
  predicate Done(
    g: Platform, d: Device, v: Device, command: byte, payload: seq<byte>, o: Outcome, result: Packet)
    requires IsProtected(command)
  {
    var x := Execute(d.ota, command, payload, o);
    && Possible(o, d) && Grants(g, o) && v.ota == x.ota && v.restarts == d.restarts + (if x.restart then 1 else 0)
    && result == StatusReply(result.sequence, x.error)
  }

  /** The command was executed exactly once on a platform that granted it, and both ends are ready for the next call. */
  ghost predicate CalmlyDone(
    h: Hash, authKey: Option<seq<byte>>, g: Platform, s: Standing, command: byte, payload: seq<byte>, result: Packet,
    r: Standing)
    requires IsProtected(command)
  {
    && Undisturbed(h, authKey, r)
    && exists o :: Done(g, s.link.device, r.link.device, command, payload, o, result)
  }

  // ---- The device's part ----

  /** The packet with which a client of this session sends a command. */
  function FreshPacket(h: Hash, d: Device, counter: nat, command: byte, payload: seq<byte>): Packet
  {
    var q := SequenceOf(counter + 1);
    Sealed(command, q, payload, RequestTag(h, d.auth.sessionKey, command, q, payload))
  }

  /** What the device makes of it: one execution, whose signed status the client can read. */
  predicate Accepts(h: Hash, key: seq<byte>, d: Device, counter: nat, command: byte, payload: seq<byte>, o: Outcome)
  {
    && T.Shaped(d) && IsProtected(command)
    && var p := FreshPacket(h, d, counter, command, payload); var v := After(h, d, p, o);
       var x := Execute(d.ota, command, payload, o);
    && v.ota == x.ota && v.restarts == d.restarts + (if x.restart then 1 else 0) && Keyed(h, key, v)
    && (if x.restart then !v.auth.authenticated else Common(v, Some(d.auth.sessionKey), counter + 1))
    && Verified(h, d.auth.sessionKey, command, SequenceOf(counter + 1), Answer(h, d, p, o)) ==
         Some(StatusReply(SequenceOf(counter + 1), x.error))
  }

  lemma SealedAccepted(
    h: Hash, key: seq<byte>, d: Device, counter: nat, command: byte, payload: seq<byte>, o: Outcome)
    requires Keyed(h, key, d) && Common(d, Some(d.auth.sessionKey), counter) && IsProtected(command) && Possible(o, d)
    ensures Accepts(h, key, d, counter, command, payload, o)
  {
    hide After, Answer, Execute, S.Inv, Verified, Common, FreshPacket, StatusReply, Possible;
    CommonShape(d, Some(d.auth.sessionKey), counter);
    var p, x := FreshPacket(h, d, counter, command, payload), Execute(d.ota, command, payload, o);
    FreshExecuted(h, d, counter, command, payload, o);
    RepeatedRestart.PossibleIsUsable(o, d);
    KeyedAfter(h, key, d, p, o);
    if x.restart {
      RestartForgets(h, d, p, o);
    } else {
      StaysCommon(h, d, counter, command, payload, x.error);
    }
  }

  lemma CommonShape(d: Device, sessionKey: Option<seq<byte>>, counter: nat)
    requires Common(d, sessionKey, counter)
    ensures T.Shaped(d) && d.auth.authenticated
  {
    hide RingClear;
  }

  /** The fresh packet is executed once, and answered with its signed status. */
  lemma FreshExecuted(h: Hash, d: Device, counter: nat, command: byte, payload: seq<byte>, o: Outcome)
    requires d.auth.required && Common(d, Some(d.auth.sessionKey), counter) && IsProtected(command)
    ensures T.Shaped(d)
    ensures var p := FreshPacket(h, d, counter, command, payload); var v := After(h, d, p, o);
      var x := Execute(d.ota, command, payload, o);
      && v.ota == x.ota && v.restarts == d.restarts + (if x.restart then 1 else 0)
      && (x.restart || v.auth == RespondStatus(h, d.auth, p, x.error).auth)
      && Verified(h, d.auth.sessionKey, command, SequenceOf(counter + 1), Answer(h, d, p, o)) ==
           Some(StatusReply(SequenceOf(counter + 1), x.error))
  {
    hide RingClear, After, Answer, Execute, RespondStatus, RequestTag, Verified, SequenceOf, StatusReply;
    var q := SequenceOf(counter + 1);
    var tag := RequestTag(h, d.auth.sessionKey, command, q, payload);
    var p := Sealed(command, q, payload, tag);
    ClearRingMisses(d.auth, counter, p);
    SealedEffect(h, d, command, q, payload, tag, o);
    StatusVerifies(h, d.auth, p, Execute(d.ota, command, payload, o).error);
  }

  /** The status leaves the session on and the window clear. */
  lemma StaysCommon(h: Hash, d: Device, counter: nat, command: byte, payload: seq<byte>, error: byte)
    requires d.auth.required && Common(d, Some(d.auth.sessionKey), counter) && IsProtected(command)
    ensures RingShape(d.auth)
    ensures var p := FreshPacket(h, d, counter, command, payload);
      forall v: Device | v.auth == RespondStatus(h, d.auth, p, error).auth ::
        Common(v, Some(d.auth.sessionKey), counter + 1)
  {
    hide RingClear, RespondStatus, RequestTag, SequenceOf, S.Push, S.EntryFor, S.Signed;
    var p := FreshPacket(h, d, counter, command, payload);
    StatusStaysOn(h, d.auth, p, error);
    S.StatusCases(h, d.auth, p, error);
    PushedStaysReady(d.auth, counter, p, h, RespondStatus(h, d.auth, p, error).reply);
  }

  lemma StatusVerifies(h: Hash, a: Auth, p: Packet, error: byte)
    requires RingShape(a) && S.SessionOn(a, p)
    ensures Verified(h, a.sessionKey, p.command, p.sequence, RespondStatus(h, a, p, error).reply) ==
      Some(StatusReply(p.sequence, error))
  {
    hide ResponseTag, RequestDigest;
    var command := StatusReply(p.sequence, error).command;
    TaggedParts([error], ResponseTag(h, a.sessionKey, p.command, command, p.sequence, [error]));
  }

  lemma StatusStaysOn(h: Hash, a: Auth, p: Packet, error: byte)
    requires RingShape(a) && S.SessionOn(a, p)
    ensures var b := RespondStatus(h, a, p, error).auth; b.authenticated && b.sessionKey == a.sessionKey
  {
    hide RespondStatus, S.Signed;
    S.StatusCases(h, a, p, error);
  }

  // ---- Protected requests with a key ----

  lemma SmoothParts(h: Hash, g: Platform, x: Pass)
    requires SmoothPass(h, g, x) && Replied(x)
    ensures T.Shaped(x.before.device) && |x.before.log| < |x.after.log| && Idle(x.after)
    ensures var d, o := x.before.device, AnswerGiven(x);
      && Possible(o, d) && Usable(o) && Grants(g, o)
      && x.after.device == After(h, d, x.packet, o) && x.reply == Answer(h, d, x.packet, o)
  {
    hide Handle, Grants;
  }

  /** A pass in a common session: the raw reply is decided on as the status of one execution. */
  predicate Accepted(
    h: Hash, key: seq<byte>, g: Platform, s: Standing, command: byte, payload: seq<byte>, x: Pass, result: Packet)
  {
    && s.sessionKey.Some? && IsProtected(command) && |x.before.log| < |x.after.log|
    && Done(g, s.link.device, x.after.device, command, payload, AnswerGiven(x), result)
    && Verified(h, s.sessionKey.value, command, SequenceOf(x.number), x.reply) == Some(result)
    && !IsAuthRequired(x.reply) && (IsOta(command) ==> x.after.device.auth.authenticated)
    && Undisturbed(h, Some(key), Standing(x.after, x.number, s.sessionKey))
  }

  lemma SmoothInSession(
    h: Hash, key: seq<byte>, g: Platform, retries: nat, s: Standing, command: byte, payload: seq<byte>, x: Pass)
    returns (result: Packet)
    requires Undisturbed(h, Some(key), s) && s.sessionKey.Some? && s.link.device.auth.authenticated
    requires IsProtected(command) && SealedPass(h, retries, s, command, payload, x) && SmoothPass(h, g, x)
    ensures Accepted(h, key, g, s, command, payload, x, result)
  {
    hide Inv, Passed, SmoothPass, Keyed, RingClear, Execute, After, Answer, Accepts, Verified, Possible, Grants;
    hide RequestTag, SequenceOf, NumbersUpTo, WindowOpen, UpToDate, Handle, StatusReply, Sealed, AnswerGiven, T.Shaped;
    PassedReplied(h, retries, x);
    SmoothParts(h, g, x);
    var d, o := s.link.device, AnswerGiven(x);
    CommonOf(h, key, s);
    SealedAccepted(h, key, d, s.counter, command, payload, o);
    RepeatedRestart.PassedIsCurrent(h, retries, x);
    result := StatusReply(SequenceOf(x.number), Execute(d.ota, command, payload, o).error);
    AcceptedIs(h, key, g, s, command, payload, x, o);
  }

  lemma CommonOf(h: Hash, key: seq<byte>, s: Standing)
    requires Undisturbed(h, Some(key), s) && s.sessionKey.Some? && s.link.device.auth.authenticated
    ensures Keyed(h, key, s.link.device) && Common(s.link.device, s.sessionKey, s.counter)
    ensures s.sessionKey == Some(s.link.device.auth.sessionKey)
  {
    hide Inv, Keyed, RingClear, NumbersUpTo, WindowOpen;
  }

  lemma PassedReplied(h: Hash, retries: nat, x: Pass)
    requires Passed(h, retries, x)
    ensures Replied(x)
  {
    hide Inv, Grew, CopyCount.Outstanding;
  }

  lemma AcceptedIs(
    h: Hash, key: seq<byte>, g: Platform, s: Standing, command: byte, payload: seq<byte>, x: Pass, o: Outcome)
    requires s.sessionKey == Some(s.link.device.auth.sessionKey)
    requires Accepts(h, key, s.link.device, s.counter, command, payload, o)
    requires x.before == s.link && x.number == s.counter + 1
    requires x.packet == FreshPacket(h, s.link.device, s.counter, command, payload)
    requires |x.before.log| < |x.after.log| && o == AnswerGiven(x) && Possible(o, s.link.device) && Grants(g, o)
    requires x.after.device == After(h, s.link.device, x.packet, o) && x.reply == Answer(h, s.link.device, x.packet, o)
    requires Inv(h, x.after) && Idle(x.after) && NumbersUpTo(x.after, x.number) && WindowOpen(x.after, x.number, 1)
    ensures Accepted(h, key, g, s, command, payload, x,
      StatusReply(SequenceOf(x.number), Execute(s.link.device.ota, command, payload, o).error))
  {
    hide Inv, Keyed, RingClear, Execute, After, Answer, Verified, Possible, Grants, Idle;
    hide RequestTag, SequenceOf, NumbersUpTo, WindowOpen, AnswerGiven, T.Shaped;
    ExecuteErrors(s.link.device.ota, command, payload, o);
    StatusIsNoDemand(h, s.link.device.auth.sessionKey, command, SequenceOf(x.number), x.reply,
                     Execute(s.link.device.ota, command, payload, o).error);
  }

  lemma StatusIsNoDemand(h: Hash, sessionKey: seq<byte>, command: byte, sequence: uint16, reply: Packet, error: byte)
    requires Verified(h, sessionKey, command, sequence, reply) == Some(StatusReply(sequence, error))
    requires error != ERR_AUTH_REQUIRED
    ensures !IsAuthRequired(reply)
  {
    hide ResponseTag;
    assert Untagged(reply.payload) == [error];
    assert reply.payload[0] == Untagged(reply.payload)[0];
  }

  /** A device without a session asks for authentication and stays as it is. */
  lemma SmoothWithoutSession(
    h: Hash, key: seq<byte>, g: Platform, retries: nat, s: Standing, command: byte, payload: seq<byte>, x: Pass)
    requires Undisturbed(h, Some(key), s) && !s.link.device.auth.authenticated
    requires IsProtected(command) && SealedPass(h, retries, s, command, payload, x) && SmoothPass(h, g, x)
    ensures IsAuthRequired(x.reply) && x.after.device == s.link.device && Undisturbed(h, Some(key), Dropped(x))
  {
    hide Inv, Passed, SmoothPass, Keyed, RingClear, After, Answer, Possible, Grants, T.Shaped;
    hide RequestTag, SequenceOf, NumbersUpTo, WindowOpen, UpToDate, Handle, AnswerGiven, Sealed;
    PassedReplied(h, retries, x);
    SmoothParts(h, g, x);
    KeyedIsRequired(h, key, s.link.device);
    SealedHead(h, retries, s, command, payload, x);
    RestartedRefuses(h, s.link.device, x.packet, AnswerGiven(x));
    RepeatedRestart.PassedIsCurrent(h, retries, x);
  }

  lemma KeyedIsRequired(h: Hash, key: seq<byte>, d: Device)
    requires Keyed(h, key, d)
    ensures d.auth.required
  {
    hide S.Inv;
  }

  lemma SealedHead(h: Hash, retries: nat, s: Standing, command: byte, payload: seq<byte>, x: Pass)
    requires SealedPass(h, retries, s, command, payload, x)
    ensures x.packet.version == VERSION && x.packet.command == command
  {
    hide Passed, RequestTag, SequenceOf;
  }

  // ---- The handshake ----

  /** After the smooth answer to the challenge the device waits for the proof of just these nonces. */
  predicate Waiting(h: Hash, key: seq<byte>, d: Device, v: Device, client: seq<byte>, server: seq<byte>)
  {
    && Keyed(h, key, v) && CacheClear(v) && v.auth.pending && v.auth.clientNonce == client
    && v.auth.serverNonce == server && v.ota == d.ota && v.restarts == d.restarts
  }

  lemma SmoothChallenge(h: Hash, key: seq<byte>, g: Platform, retries: nat, client: seq<byte>, x: Pass)
    requires Passed(h, retries, x) && SmoothPass(h, g, x) && Keyed(h, key, x.before.device) && |client| == NONCE_SIZE
    requires x.packet == ChallengePacket(SequenceOf(x.number), client)
    ensures ChallengePasses(h, key, client, x.reply)
    ensures Waiting(h, key, x.before.device, x.after.device, client, x.reply.payload[1..1 + NONCE_SIZE])
    ensures Idle(x.after)
  {
    hide Passed, SmoothPass, Keyed, After, Answer, SequenceOf, AnswerGiven, DeviceProof, CacheClear, Possible;
    PassedReplied(h, retries, x);
    SmoothParts(h, g, x);
    HonestChallengePasses(h, key, x.before.device, SequenceOf(x.number), client, AnswerGiven(x));
    RepeatedRestart.ChallengeTakes(h, key, x.before.device, SequenceOf(x.number), client, AnswerGiven(x));
  }

  lemma SmoothProof(
    h: Hash, key: seq<byte>, g: Platform, retries: nat, d: Device, client: seq<byte>, server: seq<byte>, x: Pass)
    requires Passed(h, retries, x) && SmoothPass(h, g, x) && |client| == NONCE_SIZE
    requires Waiting(h, key, d, x.before.device, client, server)
    requires x.packet == ProofPacket(h, key, SequenceOf(x.number), client, server)
    ensures EnsureAck(x.reply)
    ensures var v := x.after.device; v.ota == d.ota && v.restarts == d.restarts
    ensures Undisturbed(h, Some(key), Standing(x.after, x.number, Some(SessionKey(h, key, client, server))))
    ensures x.after.device.auth.authenticated
  {
    hide Inv, Passed, SmoothPass, Keyed, After, Answer, SequenceOf, AnswerGiven, CacheClear, SessionKey, Proof;
    hide NumbersUpTo, WindowOpen, UpToDate, RingClear, Possible, T.Shaped;
    PassedReplied(h, retries, x);
    SmoothParts(h, g, x);
    RepeatedRestart.ProofTakes(h, key, x.before.device, SequenceOf(x.number), client, AnswerGiven(x));
    RepeatedRestart.PassedIsCurrent(h, retries, x);
    EmptyRingClear(x.after.device, x.number);
  }

  // ---- Requests without a key ----

  lemma SmoothPlain(
    h: Hash, g: Platform, retries: nat, s: Standing, command: byte, payload: seq<byte>, x: Pass)
    requires Undisturbed(h, None, s) && IsOta(command)
    requires PlainPass(h, retries, s, command, payload, x) && SmoothPass(h, g, x)
    ensures |x.before.log| < |x.after.log|
    ensures Done(g, s.link.device, x.after.device, command, payload, AnswerGiven(x), x.reply)
    ensures Undisturbed(h, None, Standing(x.after, x.number, None))
  {
    hide Inv, Passed, SmoothPass, Execute, After, Answer, SequenceOf, AnswerGiven, NumbersUpTo, WindowOpen, UpToDate;
    hide T.Shaped, Possible, Grants, Handle;
    PassedReplied(h, retries, x);
    SmoothParts(h, g, x);
    PlainSteps(h, s.link.device, x.packet, AnswerGiven(x));
    ExecuteErrors(s.link.device.ota, command, payload, AnswerGiven(x));
    RepeatedRestart.PassedIsCurrent(h, retries, x);
    DeviceShaped(h, x.after);
  }
}
