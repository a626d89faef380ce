/**
 * A REBOOT or ROLLBACK can take effect twice in one request: its lost reply is asked
 * for again, but the restart has wiped the cache that was to answer. It takes two
 * copies of the same packet, no more and no less.
 */
module RepeatedRestart {
  import opened Bytes
  import opened Codes
  import opened Esp
  import opened Frame
  import opened HmacSha
  import opened Sealing
  import opened DeviceMachine
  import opened LossyLink
  import opened RemoteCall
  import CopyCount
  import opened CallTheory
  import opened HandshakeTheory
  import opened SealedCalls
  import opened Payloads
  import opened RequestTrace
  import RequestOutcome
  import opened LinkRuns
  import M = OtaMachine
  import S = SessionTheory
  import T = DispatchTheory

  /** The command that restarts, and a platform that lets it. */
  predicate Restarting(command: byte, o: Outcome)
  {
    command == CMD_REBOOT || (command == CMD_ROLLBACK && o.rollbackPossible && o.rollbackSlot.Some?)
  }

  /** A client in a session with an idle device, with nothing in flight. */
  predicate InSession(h: Hash, key: seq<byte>, s: Standing)
  {
    && Inv(h, s.link) && Idle(s.link) && NumbersUpTo(s.link, s.counter) && WindowOpen(s.link, s.counter, 1)
    && Ready(h, key, s.link.device, s.counter) && s.link.device.auth.authenticated && !s.link.device.ota.active
    && s.sessionKey == Some(s.link.device.auth.sessionKey)
  }

  /**
   * Executed on an idle device, such a command succeeds and restarts it to an idle state in which
   * the platform may answer the same.
   */
  lemma RestartTakes(d: Device, command: byte, o: Outcome)
    requires Restarting(command, o) && !d.ota.active && Possible(o, d)
    ensures var x := Execute(d.ota, command, [], o);
      x.error == ERR_OK && x.restart && !x.ota.active && Plausible(o, x.ota.flash)
  {
    hide M.Begin, M.Write, M.End, M.Abort;
  }

  /** A device in a session executes the freshly sealed command and restarts. */
  lemma SealedRestart(h: Hash, key: seq<byte>, d: Device, counter: nat, command: byte, o: Outcome)
    requires Keyed(h, key, d) && T.Shaped(d) && d.auth.authenticated && RingClear(d.auth, counter)
    requires Restarting(command, o) && !d.ota.active && Possible(o, d)
    ensures var q := SequenceOf(counter + 1);
      var p := Sealed(command, q, [], RequestTag(h, d.auth.sessionKey, command, q, []));
      var v := After(h, d, p, o);
      && v.restarts == d.restarts + 1 && !v.auth.authenticated && Keyed(h, key, v) && !v.ota.active && Possible(o, v)
      && Verified(h, d.auth.sessionKey, command, q, Answer(h, d, p, o)) == Some(Reply(p, CMD_ACK, [ERR_OK]))
  {
    hide RingClear, After, Answer, Handle, Execute, RespondStatus, RequestTag, S.Inv, Verified, Plausible;
    var q := SequenceOf(counter + 1);
    var tag := RequestTag(h, d.auth.sessionKey, command, q, []);
    var p := Sealed(command, q, [], tag);
    RestartTakes(d, command, o);
    ClearRingMisses(d.auth, counter, p);
    SealedEffect(h, d, command, q, [], tag, o);
    RestartForgets(h, d, p, o);
    PossibleIsUsable(o, d);
    KeyedAfter(h, key, d, p, o);
    StatusVerifies(h, d.auth, p);
  }

  lemma PossibleIsUsable(o: Outcome, d: Device)
    requires Possible(o, d)
    ensures Usable(o)
  {
  }

  lemma StatusVerifies(h: Hash, a: Auth, p: Packet)
    requires RingShape(a) && S.SessionOn(a, p)
    ensures Verified(h, a.sessionKey, p.command, p.sequence, RespondStatus(h, a, p, ERR_OK).reply) ==
      Some(Reply(p, CMD_ACK, [ERR_OK]))
  {
    hide ResponseTag, RequestDigest;
    TaggedParts([ERR_OK], ResponseTag(h, a.sessionKey, p.command, CMD_ACK, p.sequence, [ERR_OK]));
  }

  // ---- The run ----

  lemma PassedIsCurrent(h: Hash, retries: nat, x: Pass)
    requires Passed(h, retries, x)
    ensures Inv(h, x.after) && Grew(x.before, x.after) && UpToDate(x.after, x.number)
    ensures NumbersUpTo(x.after, x.number) && WindowOpen(x.after, x.number, 1)
  {
    hide Inv, Grew, CopyCount.Outstanding;
  }

  /** The packet with which this client asks for the command, and what the device does with it. */
  ghost predicate Restarts(h: Hash, key: seq<byte>, s: Standing, command: byte, o: Outcome, p: Packet)
  {
    && s.sessionKey.Some? && T.Shaped(s.link.device) && MayIssue(s.link, s.counter + 1, p)
    && var q := SequenceOf(s.counter + 1);
    && p == Sealed(command, q, [], RequestTag(h, s.sessionKey.value, command, q, []))
    && var v := After(h, s.link.device, p, o);
    && v.restarts == s.link.device.restarts + 1 && !v.auth.authenticated && Keyed(h, key, v) && !v.ota.active
    && Possible(o, v)
    && Verified(h, s.sessionKey.value, command, q, Answer(h, s.link.device, p, o)) ==
         Some(Reply(p, CMD_ACK, [ERR_OK]))
  }

  lemma InSessionRestarts(h: Hash, key: seq<byte>, s: Standing, command: byte, o: Outcome) returns (p: Packet)
    requires InSession(h, key, s) && Restarting(command, o) && Possible(o, s.link.device)
    ensures Restarts(h, key, s, command, o, p)
  {
    hide Inv, RequestTag, After, Answer, RingClear, Handle, Possible, Verified, Keyed, MayIssue, NumbersUpTo;
    hide WindowOpen, T.Shaped, SequenceOf;
    var q := SequenceOf(s.counter + 1);
    p := Sealed(command, q, [], RequestTag(h, s.sessionKey.value, command, q, []));
    SealedRestart(h, key, s.link.device, s.counter, command, o);
    NextMayIssue(s.link, s.counter, p);
  }

  /** The lost reply: the device restarts on the first copy and refuses the second. */
  lemma LostRestart(h: Hash, key: seq<byte>, s: Standing, command: byte, o: Outcome) returns (x: Pass)
    requires InSession(h, key, s) && Restarting(command, o) && Possible(o, s.link.device)
    ensures SealedPass(h, 2, s, command, [], x) && Idle(x.after) && DecideOn(h, s, command, x, false) == Renew
    ensures var d, v := s.link.device, x.after.device;
      v.restarts == d.restarts + 1 && Keyed(h, key, v) && !v.ota.active && Possible(o, v)
  {
    hide Inv, RequestTag, After, Answer, Ready, Passed, Handle, Possible, Verified, MayIssue, NumbersUpTo, Idle;
    hide WindowOpen, S.Inv, SequenceOf, T.Shaped;
    var p := InSessionRestarts(h, key, s, command, o);
    x := RetriedCall(h, s.link, s.counter + 1, p, o, o);
    var v := After(h, s.link.device, p, o);
    KeyedShape(h, key, v);
    RestartedRefuses(h, v, p, o);
  }

  lemma ChallengeTakes(h: Hash, key: seq<byte>, d: Device, sequence: uint16, client: seq<byte>, o: Outcome)
    requires Keyed(h, key, d) && |client| == NONCE_SIZE && Usable(o)
    ensures T.Shaped(d)
    ensures var v := After(h, d, ChallengePacket(sequence, client), o);
      && Keyed(h, key, v) && v.auth.pending && v.auth.clientNonce == client && v.auth.serverNonce == o.nonce
      && v.ota == d.ota && v.restarts == d.restarts && CacheClear(v)
  {
    KeyedAfter(h, key, d, ChallengePacket(sequence, client), o);
    AuthPacketEffect(h, d, ChallengePacket(sequence, client), o);
    hide S.Inv, SessionKey, DeviceProof, CacheClear;
  }

  lemma ProofTakes(h: Hash, key: seq<byte>, d: Device, sequence: uint16, client: seq<byte>, o: Outcome)
    requires Keyed(h, key, d) && |client| == NONCE_SIZE && Usable(o) && CacheClear(d)
    requires d.auth.pending && d.auth.clientNonce == client
    ensures T.Shaped(d)
    ensures var p := ProofPacket(h, key, sequence, client, d.auth.serverNonce); var v := After(h, d, p, o);
      && Established(h, key, v, client) && v.auth.serverNonce == d.auth.serverNonce && CacheClear(v)
      && v.ota == d.ota && v.restarts == d.restarts && EnsureAck(Answer(h, d, p, o))
  {
    hide S.Inv, SessionKey, Proof, After, Answer, CacheClear;
    ProofAnswered(h, key, d, sequence, client, d.auth.serverNonce, o);
    AuthPacketEffect(h, d, ProofPacket(h, key, sequence, client, d.auth.serverNonce), o);
  }

  lemma MorePasses(h: Hash, few: nat, many: nat, x: Pass)
    requires Passed(h, few, x) && few <= many
    ensures Passed(h, many, x)
  {
    hide Answered, CopyCount.Outstanding;
  }

  /** A handshake in which nothing is lost. */
  lemma HandshakeRun(h: Hash, key: seq<byte>, l: Link, counter: nat, client: seq<byte>, o: Outcome) returns (k: Shake)
    requires Inv(h, l) && Idle(l) && NumbersUpTo(l, counter) && WindowOpen(l, counter, 1)
    requires Keyed(h, key, l.device) && |client| == NONCE_SIZE && Possible(o, l.device)
    ensures Shaken(h, key, 1, k) && k.challenge.before == l && k.challenge.number == counter + 1
    ensures var m := k.proof.after;
      && Idle(m) && Keyed(h, key, m.device) && m.device.auth.authenticated && CacheClear(m.device)
      && m.device.auth.sessionKey == ShakeKey(h, key, k)
      && m.device.ota == l.device.ota && m.device.restarts == l.device.restarts
  {
    hide Inv, Passed, After, Answer, Handle, Possible, SessionKey, Proof, DeviceProof, S.Inv, CacheClear, Grew;
    hide MayIssue, NumbersUpTo, WindowOpen, UpToDate;
    PossibleIsUsable(o, l.device);
    var q1, q2 := SequenceOf(counter + 1), SequenceOf(counter + 2);
    var p1 := ChallengePacket(q1, client);
    NextMayIssue(l, counter, p1);
    var x := OneCall(h, l, counter + 1, p1, o);
    HonestChallengePasses(h, key, l.device, q1, client, o);
    ChallengeTakes(h, key, l.device, q1, client, o);
    PassedIsCurrent(h, 1, x);
    var d := x.after.device;
    SamePossible(o, l.device, d);
    var p2 := ProofPacket(h, key, q2, client, o.nonce);
    NextMayIssue(x.after, counter + 1, p2);
    var y := OneCall(h, x.after, counter + 2, p2, o);
    ProofTakes(h, key, d, q2, client, o);
    k := Shake(client, o.nonce, x, y);
  }

  lemma SamePossible(o: Outcome, d: Device, v: Device)
    requires Possible(o, d) && v.ota == d.ota
    ensures Possible(o, v)
  {
  }

  /** The command again, sealed under the new session, on a link with nothing in flight. */
  lemma FinalRestart(h: Hash, key: seq<byte>, s: Standing, command: byte, o: Outcome) returns (x: Pass)
    requires InSession(h, key, s) && Restarting(command, o) && Possible(o, s.link.device)
    ensures SealedPass(h, 1, s, command, [], x)
    ensures DecideOn(h, s, command, x, true) == Return(Reply(x.packet, CMD_ACK, [ERR_OK]))
    ensures x.after.device.restarts == s.link.device.restarts + 1
  {
    hide Inv, RequestTag, After, Answer, Ready, Passed, Handle, Possible, Verified, Keyed, MayIssue, NumbersUpTo;
    hide WindowOpen, T.Shaped, SequenceOf, Idle;
    var p := InSessionRestarts(h, key, s, command, o);
    x := OneCall(h, s.link, s.counter + 1, p, o);
  }

  lemma MoreCopiesSealed(
    h: Hash, few: nat, many: nat, s: Standing, command: byte, payload: seq<byte>, x: Pass)
    requires SealedPass(h, few, s, command, payload, x) && few <= many
    ensures SealedPass(h, many, s, command, payload, x)
  {
    hide Passed, RequestTag;
    MorePasses(h, few, many, x);
  }

  lemma MoreCopiesShaken(h: Hash, key: seq<byte>, few: nat, many: nat, k: Shake)
    requires Shaken(h, key, few, k) && few <= many
    ensures Shaken(h, key, many, k)
  {
    hide Passed, Proof, DeviceProof;
    MorePasses(h, few, many, k.challenge);
    MorePasses(h, few, many, k.proof);
  }

  /** After the refused copy and the new handshake, the client is in a session again. */
  lemma BackInSession(h: Hash, key: seq<byte>, x: Pass, o: Outcome, client: seq<byte>) returns (k: Shake)
    requires Passed(h, 2, x) && Idle(x.after) && Keyed(h, key, x.after.device) && !x.after.device.ota.active
    requires |client| == NONCE_SIZE && Possible(o, x.after.device)
    ensures Opens(h, key, 2, Dropped(x), Some(k))
    ensures var b := Opened(h, key, Dropped(x), Some(k));
      && InSession(h, key, b) && Possible(o, b.link.device)
      && b.link.device.restarts == x.after.device.restarts
  {
    hide Inv, Passed, Possible, SessionKey, Keyed, CacheClear, NumbersUpTo, WindowOpen, Shaken, InSession;
    PassedIsCurrent(h, 2, x);
    k := HandshakeRun(h, key, x.after, x.number, client, o);
    MoreCopiesShaken(h, key, 1, 2, k);
    ShakeNumbers(h, key, 2, k);
    NewSession(h, key, k.proof.after, x.number + 2, ShakeKey(h, key, k));
    SamePossible(o, x.after.device, k.proof.after.device);
  }

  lemma NewSession(h: Hash, key: seq<byte>, m: Link, counter: nat, sessionKey: seq<byte>)
    requires Inv(h, m) && Idle(m) && NumbersUpTo(m, counter) && WindowOpen(m, counter, 1) && Keyed(h, key, m.device)
    requires m.device.auth.authenticated && !m.device.ota.active && CacheClear(m.device)
    requires m.device.auth.sessionKey == sessionKey
    ensures InSession(h, key, Standing(m, counter, Some(sessionKey)))
  {
    hide Inv, S.Inv, NumbersUpTo, WindowOpen, CacheClear, RingClear;
    KeyedShape(h, key, m.device);
    EmptyRingClear(m.device, counter);
  }

  lemma ShakeNumbers(h: Hash, key: seq<byte>, retries: nat, k: Shake)
    requires Shaken(h, key, retries, k)
    ensures Inv(h, k.proof.after)
    ensures var n := k.challenge.number + 1; NumbersUpTo(k.proof.after, n) && WindowOpen(k.proof.after, n, 1)
  {
    hide Passed, Inv, Proof, DeviceProof, NumbersUpTo, WindowOpen, UpToDate;
    PassedIsCurrent(h, retries, k.proof);
  }

  /**
   * The witness: in any session with an idle device, a REBOOT, or a ROLLBACK the
   * platform allows, whose first reply is lost is sent again to the restarted device,
   * refused there, and executed a second time after the new handshake. The caller
   * sees one acknowledgement.
   */
  lemma RestartsTwice(h: Hash, key: seq<byte>, s: Standing, command: byte, o: Outcome, client: seq<byte>)
    returns (t: Trace, result: Packet, m: Link)
    requires InSession(h, key, s) && Restarting(command, o) && Possible(o, s.link.device) && |client| == NONCE_SIZE
    ensures Completes(h, key, 2, s, command, [], t, result, m)
    ensures result.command == CMD_ACK && m.device.restarts == s.link.device.restarts + 2
  {
    hide InSession, SealedPass, DecideOn, Possible, Keyed, Shaken, SessionKey;
    var x := LostRestart(h, key, s, command, o);
    SealedIsPassed(h, 2, s, command, [], x);
    var k := BackInSession(h, key, x, o, client);
    var b := Opened(h, key, Dropped(x), Some(k));
    var y := FinalRestart(h, key, b, command, o);
    MoreCopiesSealed(h, 1, 2, b, command, [], y);
    t, m, result := Trace(None, x, Some(Again(k, y))), y.after, Reply(y.packet, CMD_ACK, [ERR_OK]);
    HasSession(h, key, s);
  }

  lemma HasSession(h: Hash, key: seq<byte>, s: Standing)
    requires InSession(h, key, s)
    ensures s.sessionKey.Some?
  {
    hide Inv, Ready;
  }

  lemma SealedIsPassed(h: Hash, retries: nat, s: Standing, command: byte, payload: seq<byte>, x: Pass)
    requires SealedPass(h, retries, s, command, payload, x)
    ensures Passed(h, retries, x) && s.sessionKey.Some?
  {
    hide Passed, RequestTag;
  }

  lemma MoreCopiesComplete(
    h: Hash, key: seq<byte>, few: nat, many: nat, s: Standing, command: byte, payload: seq<byte>, t: Trace,
    result: Packet, m: Link)
    requires Completes(h, key, few, s, command, payload, t, result, m) && few <= many
    ensures Completes(h, key, many, s, command, payload, t, result, m)
  {
    hide SealedPass, Shaken, DecideOn, SessionKey;
    if t.opening.Some? { MoreCopiesShaken(h, key, few, many, t.opening.value); }
    MoreCopiesSealed(h, few, many, Opened(h, key, s, t.opening), command, payload, t.first);
    if t.again.Some? {
      var a := t.again.value;
      MoreCopiesShaken(h, key, few, many, a.shake);
      MoreCopiesSealed(h, few, many, Opened(h, key, Dropped(t.first), Some(a.shake)), command, payload, a.pass);
    }
  }

  /** Some completed run of the request restarts the device twice. */
  ghost predicate CanRestartTwice(h: Hash, key: seq<byte>, retries: nat, s: Standing, command: byte)
  {
    exists t, result, m :: RestartsTwiceBy(h, key, retries, s, command, t, result, m)
  }

  predicate RestartsTwiceBy(
    h: Hash, key: seq<byte>, retries: nat, s: Standing, command: byte, t: Trace, result: Packet, m: Link)
  {
    Completes(h, key, retries, s, command, [], t, result, m) && m.device.restarts >= s.link.device.restarts + 2
  }

  /**
   * A completed REBOOT or ROLLBACK can restart the device twice if and only if the
   * host sends a packet more than once, which its `retries` setting tells beforehand.
   */
  lemma RestartsTwiceExactly(h: Hash, key: seq<byte>, retries: nat, s: Standing, command: byte, o: Outcome)
    requires InSession(h, key, s) && T.Shaped(s.link.device) && Settled(h, s.link)
    requires Restarting(command, o) && Possible(o, s.link.device)
    ensures CanRestartTwice(h, key, retries, s, command) <==> retries >= 2
  {
    hide InSession, Completes, Possible, Settled, CanRestartTwice, T.Shaped;
    if retries >= 2 {
      CanWithCopies(h, key, retries, s, command, o);
    } else {
      SessionIsPrepared(h, key, s);
      CannotWithout(h, key, retries, s, command);
    }
  }

  lemma CanWithCopies(h: Hash, key: seq<byte>, retries: nat, s: Standing, command: byte, o: Outcome)
    requires InSession(h, key, s) && Restarting(command, o) && Possible(o, s.link.device) && retries >= 2
    ensures CanRestartTwice(h, key, retries, s, command)
  {
    hide InSession, Completes, Possible;
    var t, result, m := RestartsTwice(h, key, s, command, o, ZeroBytes(NONCE_SIZE));
    MoreCopiesComplete(h, key, 2, retries, s, command, [], t, result, m);
    assert RestartsTwiceBy(h, key, retries, s, command, t, result, m);
  }

  lemma CannotWithout(h: Hash, key: seq<byte>, retries: nat, s: Standing, command: byte)
    requires Prepared(h, Some(key), s.link, s.counter) && IsProtected(command) && retries <= 1
    ensures !CanRestartTwice(h, key, retries, s, command)
  {
    hide Completes, Prepared;
    forall t, result, m | Completes(h, key, retries, s, command, [], t, result, m)
      ensures !RestartsTwiceBy(h, key, retries, s, command, t, result, m)
    {
      OnceOnly(h, key, retries, s, command, t, result, m);
    }
  }

  lemma SessionIsPrepared(h: Hash, key: seq<byte>, s: Standing)
    requires InSession(h, key, s) && T.Shaped(s.link.device) && Settled(h, s.link)
    ensures Prepared(h, Some(key), s.link, s.counter)
  {
    hide Inv, Settled, Ready, T.Shaped;
  }

  lemma OnceOnly(
    h: Hash, key: seq<byte>, retries: nat, s: Standing, command: byte, t: Trace, result: Packet, m: Link)
    requires Completes(h, key, retries, s, command, [], t, result, m) && IsProtected(command) && retries <= 1
    requires Prepared(h, Some(key), s.link, s.counter)
    ensures m.device.restarts <= s.link.device.restarts + 1
  {
    hide Completes, Prepared, Execute, Possible;
    var o := RequestOutcome.RequestOnce(h, key, retries, s, command, [], t, result, m);
  }
}
