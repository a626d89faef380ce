/**
 * What a completed request has done: exactly once, and after at most one handshake.
 *
 * The host accepts a refusal only after it has renewed its session, and after a
 * handshake both ends hold the same session key, so that it cannot be refused.
 * The exception is concrete: the two server nonces of that handshake have the same
 * proof.
 */
module RequestOutcome {
  import opened Bytes
  import opened Codes
  import opened Esp
  import opened Frame
  import opened HmacSha
  import opened Sealing
  import opened DeviceMachine
  import opened LossyLink
  import opened RemoteCall
  import opened CopyCount
  import opened CallTheory
  import opened HandshakeTheory
  import opened SealedCalls
  import opened Payloads
  import opened RequestTrace
  import T = DispatchTheory

  /** An OTA command may be sent any number of times, a restarting command only once. */
  predicate SafelySent(command: byte, retries: nat) { IsProtected(command) && (IsOta(command) || retries <= 1) }

  /** The command was executed exactly once, restart included, and the reply the caller gets is its status. */
  predicate DoneExactly(d: Device, v: Device, command: byte, payload: seq<byte>, o: Outcome, reply: Packet)
    requires IsProtected(command)
  {
    var x := Execute(d.ota, command, payload, o);
    && Took(d, v, command, payload, o)
    && reply.command == (if x.error == ERR_OK then CMD_ACK else CMD_NACK) && reply.payload == [x.error]
  }

  /** It was not executed, and the caller is told so. */
  predicate NotDoneAtAll(d: Device, v: Device, reply: Packet) { NotDone(d, v, reply) && v.restarts == d.restarts }

  /** The server nonce the host saw and the one the device ended with have the same proof. */
  predicate Collided(h: Hash, key: seq<byte>, k: Shake)
  {
    ProofsCollide(h, key, k.client, k.server, k.proof.after.device.auth.serverNonce)
  }

  function Handshakes(t: Trace): nat { (if t.opening.Some? then 1 else 0) + (if t.again.Some? then 1 else 0) }

  // ---- One pass ----

  lemma OnlyOneCopy(h: Hash, retries: nat, s: Standing, command: byte, payload: seq<byte>, x: Pass)
    requires SealedPass(h, retries, s, command, payload, x) && retries <= 1
    ensures HandledCopies(x.after.log, |s.link.requests|) <= 1
  {
    hide Inv, Grew, HandledCopies, Count, RequestTag, Sealed, SequenceOf;
  }

  /** The client's session is the device's. */
  predicate Synced(s: Standing)
  {
    s.link.device.auth.authenticated && s.sessionKey == Some(s.link.device.auth.sessionKey)
  }

  /** The pass is one execution with its own reply, or one refusal; in a common session it is an execution. */
  predicate OnceOrRefused(s: Standing, command: byte, payload: seq<byte>, x: Pass, o: Outcome)
    requires IsProtected(command)
  {
    var d, v := s.link.device, x.after.device;
    && (RefusedCall(d, v, x.reply) || ExecutedExactly(d, v, command, payload, o, x.reply))
    && (Synced(s) ==> ExecutedExactly(d, v, command, payload, o, x.reply))
  }

  lemma OnePass(h: Hash, key: seq<byte>, retries: nat, s: Standing, command: byte, payload: seq<byte>, x: Pass)
    returns (o: Outcome)
    requires SealedPass(h, retries, s, command, payload, x) && SafelySent(command, retries)
    requires Prepared(h, Some(key), s.link, s.counter)
    ensures Prepared(h, Some(key), x.after, x.number)
    ensures OnceOrRefused(s, command, payload, x, o)
  {
    hide SealedPass, Prepared, OnceOrRefused;
    if IsOta(command) {
      o := OtaPass(h, key, retries, s, command, payload, x);
    } else {
      o := SinglePass(h, key, retries, s, command, payload, x);
    }
    var _ := PassConcludes(h, key, retries, s, command, payload, x);
    PassNumber(h, retries, s, command, payload, x);
  }

  /** The tag of the pass, and the pass as an answered sealed packet. */
  lemma PassAnswered(h: Hash, key: seq<byte>, retries: nat, s: Standing, command: byte, payload: seq<byte>, x: Pass)
    returns (tag: seq<byte>)
    requires SealedPass(h, retries, s, command, payload, x) && IsProtected(command)
    requires Prepared(h, Some(key), s.link, s.counter)
    ensures SealedAnswered(h, key, s.link, x.after, s.counter, command, payload, tag, x.record) && Replied(x)
    ensures s.sessionKey.Some? && tag == RequestTag(h, s.sessionKey.value, command, SequenceOf(s.counter + 1), payload)
  {
    hide SealedPass, Answered, RequestTag, Ready, Settled, T.Shaped, Sealed, SequenceOf;
    tag := PassPacket(h, retries, s, command, payload, x);
  }

  lemma OtaPass(h: Hash, key: seq<byte>, retries: nat, s: Standing, command: byte, payload: seq<byte>, x: Pass)
    returns (o: Outcome)
    requires SealedPass(h, retries, s, command, payload, x) && IsOta(command)
    requires Prepared(h, Some(key), s.link, s.counter)
    ensures OnceOrRefused(s, command, payload, x, o)
  {
    hide SealedPass, Prepared, SealedAnswered, RequestTag, RefusedCall, ExecutedExactly, ExecutedOnce, SequenceOf;
    hide Ready, Settled;
    var tag := PassAnswered(h, key, retries, s, command, payload, x);
    o := SealedCall(h, key, s.link, x.after, s.counter, command, payload, tag, x.record);
    OtaIsExact(s.link.device, x.after.device, command, payload, o, x.reply);
  }

  lemma SinglePass(h: Hash, key: seq<byte>, retries: nat, s: Standing, command: byte, payload: seq<byte>, x: Pass)
    returns (o: Outcome)
    requires SealedPass(h, retries, s, command, payload, x) && IsProtected(command) && retries <= 1
    requires Prepared(h, Some(key), s.link, s.counter)
    ensures OnceOrRefused(s, command, payload, x, o)
  {
    hide SealedPass, Prepared, SealedAnswered, RequestTag, RefusedCall, ExecutedExactly, ExecutedOnce, SequenceOf,
      HandledCopies;
    var tag := PassAnswered(h, key, retries, s, command, payload, x);
    OnlyOneCopy(h, retries, s, command, payload, x);
    SealedSingleCall(h, key, s.link, x.after, s.counter, command, payload, tag, x.record);
    o := x.after.log[x.record].outcome;
  }

  lemma OtaIsExact(d: Device, v: Device, command: byte, payload: seq<byte>, o: Outcome, reply: Packet)
    requires IsOta(command)
    ensures ExecutedOnce(d, v, command, payload, o, reply) ==> ExecutedExactly(d, v, command, payload, o, reply)
  {
    hide Execute, Possible, StatusIs;
    ExecuteErrors(d.ota, command, payload, o);
  }

  /** An executed command is not answered with a demand to authenticate. */
  lemma ExecutedIsNoDemand(d: Device, v: Device, command: byte, payload: seq<byte>, o: Outcome, reply: Packet)
    requires IsProtected(command) && ExecutedExactly(d, v, command, payload, o, reply)
    ensures !IsAuthRequired(reply)
  {
    hide Execute, Possible;
    ExecuteErrors(d.ota, command, payload, o);
  }

  /** What the caller reads in the verified reply. */
  lemma VerifiedOutcome(
    h: Hash, sessionKey: seq<byte>, d: Device, v: Device, command: byte, sequence: uint16, payload: seq<byte>,
    o: Outcome, reply: Packet, result: Packet)
    requires IsProtected(command) && Verified(h, sessionKey, command, sequence, reply) == Some(result)
    ensures RefusedCall(d, v, reply) ==> NotDoneAtAll(d, v, result) && IsAuthRequired(reply)
    ensures ExecutedExactly(d, v, command, payload, o, reply) ==> DoneExactly(d, v, command, payload, o, result)
  {
    hide Execute, Possible, ResponseTag;
    assert |reply.payload| == |result.payload| + TAG_SIZE;
    if |result.payload| == 1 { assert result.payload == [reply.payload[0]]; }
  }

  // ---- After a handshake ----

  /** After a handshake without a collision the client's session is the device's. */
  lemma ShakeSyncs(h: Hash, key: seq<byte>, retries: nat, k: Shake, counter: nat)
    requires Shaken(h, key, retries, k) && Keyed(h, key, k.challenge.before.device) && !Collided(h, key, k)
    ensures Synced(Standing(k.proof.after, counter, Some(ShakeKey(h, key, k))))
  {
    hide Shaken, Keyed, SessionKey, CacheClear, Settled, T.Shaped;
    ShakeAgrees(h, key, retries, k);
  }

  lemma PreparedIsKeyed(h: Hash, key: seq<byte>, l: Link, counter: nat)
    requires Prepared(h, Some(key), l, counter)
    ensures Keyed(h, key, l.device)
  {
    hide Keyed, Settled, T.Shaped, RingClear;
  }

  /** What `authenticate` leaves: a prepared link with nothing done, and a common session if it ran a handshake. */
  lemma OpeningSyncs(h: Hash, key: seq<byte>, retries: nat, s: Standing, opening: Option<Shake>)
    requires Opens(h, key, retries, s, opening) && Prepared(h, Some(key), s.link, s.counter)
    ensures var b := Opened(h, key, s, opening);
      && Prepared(h, Some(key), b.link, b.counter)
      && b.link.device.ota == s.link.device.ota && b.link.device.restarts == s.link.device.restarts
      && (opening.Some? && !Collided(h, key, opening.value) ==> Synced(b))
  {
    hide Prepared, Shaken, SessionKey, Collided, Synced;
    OpeningUndone(h, key, retries, s, opening);
    PreparedIsKeyed(h, key, s.link, s.counter);
    if opening.Some? && !Collided(h, key, opening.value) { ShakeSyncs(h, key, retries, opening.value, s.counter + 2); }
  }

  // ---- The whole request ----

  /** A demand to authenticate means that nothing was done, and that the session was not a common one. */
  lemma RefusedFirst(h: Hash, key: seq<byte>, retries: nat, s: Standing, command: byte, payload: seq<byte>, x: Pass)
    requires SealedPass(h, retries, s, command, payload, x) && SafelySent(command, retries)
    requires Prepared(h, Some(key), s.link, s.counter) && IsAuthRequired(x.reply)
    ensures Prepared(h, Some(key), x.after, x.number) && !Synced(s)
    ensures x.after.device.ota == s.link.device.ota && x.after.device.restarts == s.link.device.restarts
  {
    hide Prepared, SealedPass, ExecutedExactly, Synced;
    var o := OnePass(h, key, retries, s, command, payload, x);
    if ExecutedExactly(s.link.device, x.after.device, command, payload, o, x.reply) {
      ExecutedIsNoDemand(s.link.device, x.after.device, command, payload, o, x.reply);
    }
  }

  /** Before its last pass a request has done nothing, and a handshake just before it made the session common. */
  lemma BeforeLast(
    h: Hash, key: seq<byte>, retries: nat, s: Standing, command: byte, payload: seq<byte>, t: Trace, result: Packet,
    m: Link)
    requires Completes(h, key, retries, s, command, payload, t, result, m) && SafelySent(command, retries)
    requires Prepared(h, Some(key), s.link, s.counter)
    ensures var b := Origin(h, key, s, t);
      && Prepared(h, Some(key), b.link, b.counter)
      && b.link.device.ota == s.link.device.ota && b.link.device.restarts == s.link.device.restarts
      && (t.again.Some? && !Collided(h, key, t.again.value.shake) ==> Synced(b))
  {
    hide Prepared, SealedPass, SessionKey, Shaken, Verified, Collided, Synced;
    OpeningSyncs(h, key, retries, s, t.opening);
    if t.again.Some? {
      RefusedFirst(h, key, retries, Opened(h, key, s, t.opening), command, payload, t.first);
      PassNumber(h, retries, Opened(h, key, s, t.opening), command, payload, t.first);
      OpeningSyncs(h, key, retries, Dropped(t.first), Some(t.again.value.shake));
    }
  }

  /** What is returned from the first pass was no demand to authenticate. */
  lemma FirstIsNoDemand(
    h: Hash, key: seq<byte>, retries: nat, s: Standing, command: byte, payload: seq<byte>, t: Trace, result: Packet,
    m: Link)
    requires Completes(h, key, retries, s, command, payload, t, result, m) && t.again.None?
    ensures !IsAuthRequired(Last(t).reply)
  {
    hide SealedPass, SessionKey, Shaken, Verified;
  }

  ghost predicate RenewalCollided(h: Hash, key: seq<byte>, t: Trace)
  {
    t.again.Some? && Collided(h, key, t.again.value.shake)
  }

  /**
   * A completed request was executed exactly once and its status returned, however
   * often it was sent and even if the session had to be renewed. It can have been
   * refused only if two concrete server nonces of that renewal have the same proof.
   * This holds for every OTA command, and for REBOOT and ROLLBACK if the host sends
   * a packet only once.
   */
  lemma RequestOnce(
    h: Hash, key: seq<byte>, retries: nat, s: Standing, command: byte, payload: seq<byte>, t: Trace, result: Packet,
    m: Link) returns (o: Outcome)
    requires Completes(h, key, retries, s, command, payload, t, result, m) && SafelySent(command, retries)
    requires Prepared(h, Some(key), s.link, s.counter)
    ensures Prepared(h, Some(key), m, Last(t).number)
    ensures var d, v := s.link.device, m.device;
      DoneExactly(d, v, command, payload, o, result) || (RenewalCollided(h, key, t) && NotDoneAtAll(d, v, result))
  {
    hide Prepared, SealedPass, SessionKey, Shaken, Verified, Completes, Origin, Last, RefusedCall, ExecutedExactly;
    hide NotDoneAtAll, DoneExactly, Synced, Collided;
    var b, x := Origin(h, key, s, t), Last(t);
    BeforeLast(h, key, retries, s, command, payload, t, result, m);
    CompletesInLast(h, key, retries, s, command, payload, t, result, m);
    PassNumber(h, retries, b, command, payload, x);
    o := OnePass(h, key, retries, b, command, payload, x);
    VerifiedOutcome(
      h, b.sessionKey.value, b.link.device, m.device, command, SequenceOf(x.number), payload, o, x.reply, result);
    OnceFrom(b.link.device, s.link.device, m.device, command, payload, o, result);
    if t.again.None? { FirstIsNoDemand(h, key, retries, s, command, payload, t, result, m); }
  }

  lemma OnceFrom(d: Device, e: Device, v: Device, command: byte, payload: seq<byte>, o: Outcome, result: Packet)
    requires IsProtected(command) && d.ota == e.ota && d.restarts == e.restarts
    ensures NotDoneAtAll(d, v, result) ==> NotDoneAtAll(e, v, result)
    ensures DoneExactly(d, v, command, payload, o, result) ==> DoneExactly(e, v, command, payload, o, result)
  {
    hide Execute;
  }

  // ---- How many handshakes it takes ----

  /** A device without a session refuses the pass and stays as it is. */
  lemma RefusedWithoutSession(
    h: Hash, key: seq<byte>, retries: nat, s: Standing, command: byte, payload: seq<byte>, x: Pass)
    requires SealedPass(h, retries, s, command, payload, x) && IsProtected(command)
    requires Prepared(h, Some(key), s.link, s.counter) && !s.link.device.auth.authenticated
    ensures IsAuthRequired(x.reply) && x.after.device == s.link.device
  {
    hide Answered, Inv, Settled, T.Shaped, RingClear, RequestTag, SequenceOf;
    var tag := PassPacket(h, retries, s, command, payload, x);
    UnauthenticatedCall(
      h, s.link, x.after, s.counter + 1, Sealed(command, SequenceOf(s.counter + 1), payload, tag), x.record);
  }

  /** In a common session a request needs no handshake. */
  lemma SyncedNeedsNone(
    h: Hash, key: seq<byte>, retries: nat, s: Standing, command: byte, payload: seq<byte>, t: Trace, result: Packet,
    m: Link)
    requires Completes(h, key, retries, s, command, payload, t, result, m) && SafelySent(command, retries)
    requires Prepared(h, Some(key), s.link, s.counter) && Synced(s)
    ensures Handshakes(t) == 0
  {
    hide Prepared, SealedPass, SessionKey, Shaken, Verified;
    if t.again.Some? { RefusedFirst(h, key, retries, s, command, payload, t.first); }
  }

  /** A request that began with a handshake does not run another one, or the nonces of the first collide. */
  lemma OneIsEnough(
    h: Hash, key: seq<byte>, retries: nat, s: Standing, command: byte, payload: seq<byte>, t: Trace, result: Packet,
    m: Link)
    requires Completes(h, key, retries, s, command, payload, t, result, m) && SafelySent(command, retries)
    requires Prepared(h, Some(key), s.link, s.counter)
    ensures t.opening.Some? && t.again.Some? ==> Collided(h, key, t.opening.value)
  {
    hide Prepared, SealedPass, SessionKey, Shaken, Verified, Collided, Synced;
    OpeningSyncs(h, key, retries, s, t.opening);
    if t.again.Some? {
      RefusedFirst(h, key, retries, Opened(h, key, s, t.opening), command, payload, t.first);
    }
  }

  /**
   * A client that takes itself for authenticated to a device without a session is
   * refused once, with the device as it was, and then authenticates again.
   */
  lemma StaleSessionRenews(
    h: Hash, key: seq<byte>, retries: nat, s: Standing, command: byte, payload: seq<byte>, t: Trace, result: Packet,
    m: Link)
    requires Completes(h, key, retries, s, command, payload, t, result, m) && IsProtected(command)
    requires Prepared(h, Some(key), s.link, s.counter) && !s.link.device.auth.authenticated && s.sessionKey.Some?
    ensures t.opening.None? && t.again.Some? && t.first.after.device == s.link.device
  {
    hide Prepared, SealedPass, SessionKey, Shaken, Verified;
    RefusedWithoutSession(h, key, retries, s, command, payload, t.first);
  }

  /** Whatever the client believes, a request to a device without a session runs one handshake. */
  lemma AuthenticatesOnce(
    h: Hash, key: seq<byte>, retries: nat, s: Standing, command: byte, payload: seq<byte>, t: Trace, result: Packet,
    m: Link)
    requires Completes(h, key, retries, s, command, payload, t, result, m) && SafelySent(command, retries)
    requires Prepared(h, Some(key), s.link, s.counter) && !s.link.device.auth.authenticated
    ensures Handshakes(t) == 1 || (t.opening.Some? && Collided(h, key, t.opening.value))
  {
    hide Prepared, SealedPass, SessionKey, Shaken, Verified, Collided, Completes;
    OneIsEnough(h, key, retries, s, command, payload, t, result, m);
    if s.sessionKey.Some? {
      StaleSessionRenews(h, key, retries, s, command, payload, t, result, m);
    } else {
      NoSessionOpens(h, key, retries, s, command, payload, t, result, m);
    }
  }

  lemma NoSessionOpens(
    h: Hash, key: seq<byte>, retries: nat, s: Standing, command: byte, payload: seq<byte>, t: Trace, result: Packet,
    m: Link)
    requires Completes(h, key, retries, s, command, payload, t, result, m) && s.sessionKey.None?
    ensures t.opening.Some?
  {
    hide SealedPass, SessionKey, Shaken, Verified;
  }

  // ---- Which replies are acted on ----

  /** The session key under which the host reads the reply to its first pass. */
  function FirstKey(h: Hash, key: seq<byte>, s: Standing, t: Trace): seq<byte>
    requires Opened(h, key, s, t.opening).sessionKey.Some?
  {
    Opened(h, key, s, t.opening).sessionKey.value
  }

  /**
   * Of the raw replies of a completed request the last one verified under the session
   * key for this command and number, and is what the caller gets. An earlier one did
   * so or not: it was acted on because, and only if, it asked for authentication.
   */
  lemma RepliesActedOn(
    h: Hash, key: seq<byte>, retries: nat, s: Standing, command: byte, payload: seq<byte>, t: Trace, result: Packet,
    m: Link)
    requires Completes(h, key, retries, s, command, payload, t, result, m)
    ensures var b, x := Origin(h, key, s, t), Last(t);
      b.sessionKey.Some? && Verified(h, b.sessionKey.value, command, SequenceOf(x.number), x.reply) == Some(result)
    ensures t.again.Some? <==> IsAuthRequired(t.first.reply)
    ensures Opened(h, key, s, t.opening).sessionKey.Some?
    ensures Verified(h, FirstKey(h, key, s, t), command, SequenceOf(t.first.number), t.first.reply).None? ==>
      IsAuthRequired(t.first.reply)
  {
    hide SealedPass, SessionKey, Shaken, Verified, SequenceOf, Decide;
    var b := Opened(h, key, s, t.opening);
    CompletesInLast(h, key, retries, s, command, payload, t, result, m);
    PassNumber(h, retries, b, command, payload, t.first);
    PassNumber(h, retries, Origin(h, key, s, t), command, payload, Last(t));
    UnverifiedIsActedOnExactly(
      h, b.sessionKey.value, command, SequenceOf(t.first.number), t.first.reply, false);
  }
}
