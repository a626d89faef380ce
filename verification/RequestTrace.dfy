/**
 * What the host does on the link to complete one request, as a trace of answered
 * packets, and what a completed trace means for the device.
 */
module RequestTrace {
  import opened Bytes
  import opened Codes
  import opened Esp
  import opened Frame
  import opened HmacSha
  import opened Sealing
  import opened DeviceMachine
  import opened LossyLink
  import opened RemoteCall
  import opened CopyCount
  import opened CallTheory
  import opened HandshakeTheory
  import opened SealedCalls
  import opened PlainCalls
  import opened Transport
  import opened Payloads
  import M = OtaMachine
  import T = DispatchTheory

  // ---- Facts about the link as the client sees it ----

  /** The counter is not behind the numbers already used. */
  predicate NumbersUpTo(l: Link, counter: nat)
  {
    l.requests != [] ==> l.requests[|l.requests| - 1].number <= counter
  }

  /** Fewer than 2^16 numbers pass between the last completed request and `room` requests from now. */
  predicate WindowOpen(l: Link, counter: nat, room: nat)
  {
    l.floor < |l.requests| ==> counter + room - l.requests[l.floor].number < SEQUENCES
  }

  /** The state a call starts from: nothing in flight can change the device, and it matches the host's configuration. */
  ghost predicate Prepared(h: Hash, authKey: Option<seq<byte>>, l: Link, counter: nat)
  {
    && T.Shaped(l.device) && Settled(h, l)
    && match authKey
       case None => !l.device.auth.required && Transferable(l.device.ota)
       case Some(key) => Ready(h, key, l.device, counter)
  }

  /** The link when the host has given up on a request. */
  predicate Unanswered(h: Hash, l: Link, m: Link, number: nat, p: Packet)
  {
    m.requests == l.requests + [Request.Request(number, p)] && Inv(h, m) && Grew(l, m) && m.floor == l.floor
  }

  lemma NextMayIssue(l: Link, counter: nat, p: Packet)
    requires NumbersUpTo(l, counter) && WindowOpen(l, counter, 1) && p.sequence == SequenceOf(counter + 1)
    ensures MayIssue(l, counter + 1, p)
  {
  }

  lemma IssueGrows(h: Hash, l: Link, number: nat, p: Packet)
    requires Inv(h, l) && MayIssue(l, number, p)
    ensures var i := Issue(l, number, p); Inv(h, i) && Grew(l, i)
  {
    hide Inv, MayIssue;
    IssueKeepsInv(h, l, number, p);
    IssueOnlyGrows(h, l, number, p);
  }

  lemma IssueOnlyGrows(h: Hash, l: Link, number: nat, p: Packet)
    requires Inv(h, l)
    ensures Grew(l, Issue(l, number, p))
  {
    hide Inv;
    FloorBelow(h, l);
  }

  lemma IssuedReceived(h: Hash, l: Link, m: Link, number: nat, p: Packet, k: nat)
    requires Inv(h, l) && Grew(l, Issue(l, number, p)) && Received(h, Issue(l, number, p), m, k)
    ensures Answered(h, l, m, number, p, k)
  {
    hide Inv;
    GrewTransitive(l, Issue(l, number, p), m);
    OldRecords(h, l);
    NewRecord(l, m, k);
  }

  lemma NewRecord(l: Link, m: Link, k: nat)
    requires l.log <= m.log && k < |m.log| && m.log[k].id == |l.requests|
    requires forall j | 0 <= j < |l.log| :: l.log[j].id < |l.requests|
    ensures |l.log| <= k
  {
    if k < |l.log| { assert false; }
  }

  lemma OldRecords(h: Hash, l: Link)
    requires Inv(h, l)
    ensures forall j | 0 <= j < |l.log| :: l.log[j].id < |l.requests|
  {
    hide Recorded, Numbered;
  }

  lemma IssuedWaited(h: Hash, l: Link, m: Link, number: nat, p: Packet)
    requires Grew(l, Issue(l, number, p)) && Waited(h, Issue(l, number, p), m)
    ensures Unanswered(h, l, m, number, p)
  {
    hide Inv;
    GrewTransitive(l, Issue(l, number, p), m);
  }

  lemma IssuedStays(h: Hash, l: Link, m: Link, number: nat, p: Packet)
    requires Waited(h, Issue(l, number, p), m)
    ensures Inv(h, m) && m.requests != [] && m.requests[Current(m)].packet == p
  {
    hide Inv, Grew;
  }

  /** The last request issued is complete. */
  predicate UpToDate(l: Link, counter: nat)
  {
    l.requests != [] && l.floor == |l.requests| - 1 && l.requests[l.floor].number == counter
  }

  lemma UpToDateIsOpen(l: Link, counter: nat)
    requires UpToDate(l, counter)
    ensures WindowOpen(l, counter, 1) && NumbersUpTo(l, counter)
  {
  }

  /** What came of sending `p`: the reply of record `k`, or none. */
  predicate Requested(h: Hash, l: Link, m: Link, number: nat, p: Packet, reply: Option<Packet>, k: nat)
  {
    match reply
    case Some(r) => Answered(h, l, m, number, p, k) && m.log[k].reply == r
    case None => Unanswered(h, l, m, number, p)
  }

  lemma RequestOver(h: Hash, l: Link, m: Link, number: nat, p: Packet, reply: Option<Packet>, k: nat)
    requires Inv(h, l) && Grew(l, Issue(l, number, p))
    requires reply.None? ==> Waited(h, Issue(l, number, p), m)
    requires reply.Some? ==> Received(h, Issue(l, number, p), m, k) && m.log[k].reply == reply.value
    ensures Requested(h, l, m, number, p, reply, k)
  {
    hide Inv, Grew, Waited, Received, Answered, Unanswered, Issue;
    if reply.Some? { IssuedReceived(h, l, m, number, p, k); } else { IssuedWaited(h, l, m, number, p); }
  }

  /** What a handshake that returned has established, whatever the link did to it. */
  ghost predicate Agreement(
    h: Hash, key: seq<byte>, l: Link, m: Link, sessionKey: seq<byte>, client: seq<byte>, server: seq<byte>)
  {
    Keyed(h, key, l.device) ==>
      && Established(h, key, m.device, client) && CacheClear(m.device) && T.Shaped(m.device) && Settled(h, m)
      && (m.device.auth.sessionKey == sessionKey || ProofsCollide(h, key, client, server, m.device.auth.serverNonce))
      && (T.Shaped(l.device) && Settled(h, l) ==>
            m.device.ota == l.device.ota && m.device.restarts == l.device.restarts)
  }

  lemma HandshakeAgrees(
    h: Hash, key: seq<byte>, l: Link, c: Link, m: Link, n1: nat, k1: nat, n2: nat, k2: nat, q1: uint16, q2: uint16,
    client: seq<byte>, server: seq<byte>)
    requires Answered(h, l, c, n1, ChallengePacket(q1, client), k1)
    requires Answered(h, c, m, n2, ProofPacket(h, key, q2, client, server), k2)
    requires m.log[k2].reply.command == CMD_ACK && |client| == NONCE_SIZE
    ensures Agreement(h, key, l, m, SessionKey(h, key, client, server), client, server)
  {
    hide Inv, Keyed, Grew, Settled, SessionKey, Proof, T.Shaped, Established, CacheClear, ProofsCollide, StateAt;
    var p1, p2 := ChallengePacket(q1, client), ProofPacket(h, key, q2, client, server);
    TwoCalls(h, l, c, m, n1, p1, k1, n2, p2, k2);
    if Keyed(h, key, l.device) {
      HandshakeAgreement(h, key, l, m, n1, k1, n2, k2, q1, q2, client, server);
      if T.Shaped(l.device) && Settled(h, l) { QuietAtEnd(h, key, l, m); }
    }
  }

  lemma QuietAtEnd(h: Hash, key: seq<byte>, l: Link, m: Link)
    requires Shaking(h, key, l, m)
    ensures m.device.ota == l.device.ota && m.device.restarts == l.device.restarts
  {
    hide Inv, Keyed, Settled, T.Shaped, OnlyAuth;
    GrewStart(l, m);
    HandshakeIsQuiet(h, key, l, m, |m.log|);
  }

  lemma AgreementPrepares(
    h: Hash, key: seq<byte>, l: Link, m: Link, counter: nat, sessionKey: seq<byte>, client: seq<byte>,
    server: seq<byte>)
    requires Agreement(h, key, l, m, sessionKey, client, server) && Keyed(h, key, l.device)
    ensures Prepared(h, Some(key), m, counter)
    ensures T.Shaped(l.device) && Settled(h, l) ==>
      m.device.ota == l.device.ota && m.device.restarts == l.device.restarts
  {
    hide Keyed, Settled, RingClear, CacheClear, SessionKey, ProofsCollide;
    EmptyRingClear(m.device, counter);
  }

  /** What an answered attempt amounts to on a link that was prepared for it. */
  ghost predicate Concluded(
    h: Hash, authKey: Option<seq<byte>>, l: Link, m: Link, counter: nat, command: byte, payload: seq<byte>, o: Outcome,
    reply: Packet)
  {
    && (authKey.Some? && IsProtected(command) ==>
          && Prepared(h, authKey, m, counter)
          && (RefusedCall(l.device, m.device, reply) || ExecutedOnce(l.device, m.device, command, payload, o, reply)))
    && (authKey.None? && IsOta(command) && reply.command == CMD_ACK ==>
          && Succeeded(l.device, command, payload, o)
          && var x := Execute(l.device.ota, command, payload, o);
             x.ota != l.device.ota ==> m.device.ota == x.ota && Prepared(h, authKey, m, counter))
  }

  lemma SealedConcludes(
    h: Hash, key: seq<byte>, l: Link, m: Link, counter: nat, command: byte, payload: seq<byte>, tag: seq<byte>, k: nat,
    reply: Packet) returns (o: Outcome)
    requires Prepared(h, Some(key), l, counter) && IsProtected(command) && |tag| == TAG_SIZE
    requires Answered(h, l, m, counter + 1, Sealed(command, SequenceOf(counter + 1), payload, tag), k)
    requires m.log[k].reply == reply
    ensures Concluded(h, Some(key), l, m, counter + 1, command, payload, o, reply)
  {
    hide Answered, Settled, Ready, ExecutedOnce, RefusedCall, Sealed, T.Shaped;
    o := SealedCall(h, key, l, m, counter, command, payload, tag, k);
    ReadyShape(h, key, m.device, counter + 1);
  }

  lemma PlainConcludes(h: Hash, l: Link, m: Link, counter: nat, p: Packet, k: nat, reply: Packet) returns (o: Outcome)
    requires Prepared(h, None, l, counter) && p.version == VERSION
    requires Answered(h, l, m, counter + 1, p, k) && m.log[k].reply == reply
    ensures Concluded(h, None, l, m, counter + 1, p.command, p.payload, o, reply)
  {
    hide Answered, Settled, Transferable, Execute, Possible, T.Shaped;
    o := AnyOutcome();
    if IsOta(p.command) && reply.command == CMD_ACK {
      o := PlainCall(h, l, m, counter + 1, p, k);
      PossiblyTransferable(l.device, p.command, p.payload, o);
    }
  }

  lemma ReadyShape(h: Hash, key: seq<byte>, d: Device, counter: nat)
    requires Ready(h, key, d, counter)
    ensures T.Shaped(d)
  {
  }

  lemma PossiblyTransferable(d: Device, command: byte, payload: seq<byte>, o: Outcome)
    requires IsOta(command) && Transferable(d.ota) && Possible(o, d)
    ensures Transferable(Execute(d.ota, command, payload, o).ota)
  {
    ExecuteStaysTransferable(d.ota, command, payload, o);
  }

  lemma ExecuteErrors(ota: M.State, command: byte, payload: seq<byte>, o: Outcome)
    requires IsProtected(command)
    ensures var x := Execute(ota, command, payload, o);
      && x.error != ERR_AUTH_REQUIRED && (IsOta(command) ==> !x.restart)
      && (command == CMD_REBOOT && x.error == ERR_OK ==> x.restart)
  {
    hide ReadLe32, M.IsDuplicate;
  }

  /** An answer that asks for authentication means that the command was not executed. */
  lemma AuthRequiredMeansNothingDone(
    h: Hash, key: seq<byte>, l: Link, m: Link, counter: nat, command: byte, payload: seq<byte>, o: Outcome,
    reply: Packet)
    requires Concluded(h, Some(key), l, m, counter, command, payload, o, reply) && IsOta(command)
    requires IsAuthRequired(reply)
    ensures Prepared(h, Some(key), m, counter)
    ensures m.device.ota == l.device.ota && m.device.restarts == l.device.restarts
  {
    hide Prepared, Execute, Possible;
    ExecuteErrors(l.device.ota, command, payload, o);
  }

  /** The command was executed exactly once, and the reply the caller gets is its status. */
  predicate DoneOnce(d: Device, v: Device, command: byte, payload: seq<byte>, o: Outcome, reply: Packet)
    requires IsOta(command)
  {
    var x := Execute(d.ota, command, payload, o);
    && Possible(o, d) && v.ota == x.ota
    && reply.command == (if x.error == ERR_OK then CMD_ACK else CMD_NACK) && reply.payload == [x.error]
  }

  predicate NotDone(d: Device, v: Device, reply: Packet)
  {
    v.ota == d.ota && reply.command == CMD_NACK && reply.payload == [ERR_AUTH_REQUIRED]
  }

  /** What a returned OTA request means, however often it was sent and even if it had to authenticate again. */
  ghost predicate Finished(
    h: Hash, authKey: Option<seq<byte>>, d: Device, m: Link, counter: nat, command: byte, payload: seq<byte>,
    o: Outcome, reply: Packet)
    requires IsOta(command)
  {
    if authKey.Some? then
      && Prepared(h, authKey, m, counter)
      && (NotDone(d, m.device, reply) || DoneOnce(d, m.device, command, payload, o, reply))
    else
      reply.command == CMD_ACK ==>
        && Succeeded(d, command, payload, o)
        && var x := Execute(d.ota, command, payload, o);
           x.ota != d.ota ==> m.device.ota == x.ota && Prepared(h, authKey, m, counter)
  }

  lemma VerifiedFinishes(
    h: Hash, key: seq<byte>, sessionKey: seq<byte>, l: Link, m: Link, counter: nat, command: byte, sequence: uint16,
    payload: seq<byte>, o: Outcome, reply: Packet)
    requires IsOta(command) && Concluded(h, Some(key), l, m, counter, command, payload, o, reply)
    requires Verified(h, sessionKey, command, sequence, reply).Some?
    ensures Finished(h, Some(key), l.device, m, counter, command, payload, o,
                     Verified(h, sessionKey, command, sequence, reply).value)
  {
    hide Prepared, Execute, Possible, ResponseTag;
    ExecuteErrors(l.device.ota, command, payload, o);
    var r := Verified(h, sessionKey, command, sequence, reply).value;
    assert |reply.payload| == 1 + TAG_SIZE;
    assert r.payload == [reply.payload[0]];
  }

  /** Device states that agree on the transfer and its flash are the same starting point for a command. */
  lemma FinishedFrom(
    h: Hash, authKey: Option<seq<byte>>, d: Device, e: Device, m: Link, counter: nat, command: byte, payload: seq<byte>,
    o: Outcome, reply: Packet)
    requires IsOta(command) && d.ota == e.ota && Finished(h, authKey, d, m, counter, command, payload, o, reply)
    ensures Finished(h, authKey, e, m, counter, command, payload, o, reply)
  {
    hide Prepared, Execute;
  }

  lemma PlainFinishes(
    h: Hash, l: Link, m: Link, counter: nat, command: byte, payload: seq<byte>, o: Outcome, reply: Packet)
    requires IsOta(command) && Concluded(h, None, l, m, counter, command, payload, o, reply)
    ensures Finished(h, None, l.device, m, counter, command, payload, o, reply)
  {
    hide Prepared, Execute, Succeeded;
  }

  /** Nothing has been done since `l`: the link is still prepared, and the transfer is as it was. */
  ghost predicate Undone(h: Hash, authKey: Option<seq<byte>>, l: Link, counter: nat, m: Link, later: nat)
  {
    Prepared(h, authKey, l, counter) ==>
      && Prepared(h, authKey, m, later)
      && m.device.ota == l.device.ota && m.device.restarts == l.device.restarts
  }

  lemma HandshakeUndone(
    h: Hash, key: seq<byte>, l: Link, counter: nat, m: Link, later: nat, sessionKey: seq<byte>, client: seq<byte>,
    server: seq<byte>)
    requires Agreement(h, key, l, m, sessionKey, client, server)
    ensures Undone(h, Some(key), l, counter, m, later)
  {
    hide Agreement, Settled, Keyed, T.Shaped, RingClear;
    if Prepared(h, Some(key), l, counter) {
      AgreementPrepares(h, key, l, m, later, sessionKey, client, server);
    }
  }

  lemma NothingUndone(h: Hash, authKey: Option<seq<byte>>, l: Link, counter: nat)
    ensures Undone(h, authKey, l, counter, l, counter)
  {
  }

  // ---- Traces ----

  /** One packet sent under a number and answered: the link before and after, and the record of the reply. */
  datatype Pass = Pass(before: Link, number: nat, packet: Packet, record: nat, after: Link, reply: Packet)

  predicate Passed(h: Hash, retries: nat, x: Pass)
  {
    && Answered(h, x.before, x.after, x.number, x.packet, x.record)
    && x.after.log[x.record].reply == x.reply
    && Outstanding(x.after) <= retries
  }

  predicate Replied(x: Pass) { x.record < |x.after.log| && x.after.log[x.record].reply == x.reply }

  /** The handshake: a challenge and a proof, and the nonces the host used. */
  datatype Shake = Shake(client: seq<byte>, server: seq<byte>, challenge: Pass, proof: Pass)

  function ShakeKey(h: Hash, key: seq<byte>, s: Shake): seq<byte> { SessionKey(h, key, s.client, s.server) }

  predicate Shaken(h: Hash, key: seq<byte>, retries: nat, s: Shake)
  {
    && |s.client| == NONCE_SIZE && Passed(h, retries, s.challenge) && Passed(h, retries, s.proof)
    && s.proof.before == s.challenge.after && s.proof.number == s.challenge.number + 1
    && s.challenge.packet == ChallengePacket(SequenceOf(s.challenge.number), s.client)
    && ChallengePasses(h, key, s.client, s.challenge.reply) && s.server == s.challenge.reply.payload[1..1 + NONCE_SIZE]
    && s.proof.packet == ProofPacket(h, key, SequenceOf(s.proof.number), s.client, s.server)
    && EnsureAck(s.proof.reply)
  }

  /** Where the client stands: its link, its counter, and its session key while it takes itself for authenticated. */
  datatype Standing = Standing(link: Link, counter: nat, sessionKey: Option<seq<byte>>)

  /** What `authenticate` does: nothing with a session, a handshake without. */
  predicate Opens(h: Hash, key: seq<byte>, retries: nat, s: Standing, opening: Option<Shake>)
  {
    match opening
    case None => s.sessionKey.Some?
    case Some(k) =>
      && s.sessionKey.None? && Shaken(h, key, retries, k)
      && k.challenge.before == s.link && k.challenge.number == s.counter + 1
  }

  function Opened(h: Hash, key: seq<byte>, s: Standing, opening: Option<Shake>): Standing
  {
    match opening
    case None => s
    case Some(k) => Standing(k.proof.after, s.counter + 2, Some(ShakeKey(h, key, k)))
  }

  /** The host tags and sends the command under its session key. */
  predicate SealedPass(h: Hash, retries: nat, s: Standing, command: byte, payload: seq<byte>, x: Pass)
  {
    && s.sessionKey.Some? && Passed(h, retries, x) && x.before == s.link && x.number == s.counter + 1
    && x.packet == Sealed(command, SequenceOf(x.number), payload,
                          RequestTag(h, s.sessionKey.value, command, SequenceOf(x.number), payload))
  }

  /** What the host does with a raw reply. */
  datatype Move = Renew | Return(packet: Packet) | Exit

  function Decide(h: Hash, sessionKey: seq<byte>, command: byte, sequence: uint16, reply: Packet, retried: bool): Move
  {
    if IsAuthRequired(reply) && !retried then Renew
    else
      var verified := Verified(h, sessionKey, command, sequence, reply);
      if verified.None? then Exit else Return(verified.value)
  }

  function DecideOn(h: Hash, s: Standing, command: byte, x: Pass, retried: bool): Move
    requires s.sessionKey.Some?
  {
    Decide(h, s.sessionKey.value, command, SequenceOf(x.number), x.reply, retried)
  }

  datatype Again = Again(shake: Shake, pass: Pass)

  /** A protected request with a key: authenticate, one pass, and at most one renewal with a second pass. */
  datatype Trace = Trace(opening: Option<Shake>, first: Pass, again: Option<Again>)

  /** The client after a reply that made it drop its session. */
  function Dropped(x: Pass): Standing { Standing(x.after, x.number, None) }

  predicate Completes(
    h: Hash, key: seq<byte>, retries: nat, s: Standing, command: byte, payload: seq<byte>, t: Trace, result: Packet,
    m: Link)
  {
    && Opens(h, key, retries, s, t.opening)
    && var b := Opened(h, key, s, t.opening);
       && SealedPass(h, retries, b, command, payload, t.first)
       && match t.again
          case None => DecideOn(h, b, command, t.first, false) == Return(result) && m == t.first.after
          case Some(a) =>
            && DecideOn(h, b, command, t.first, false) == Renew
            && Opens(h, key, retries, Dropped(t.first), Some(a.shake))
            && var c := Opened(h, key, Dropped(t.first), Some(a.shake));
               && SealedPass(h, retries, c, command, payload, a.pass)
               && DecideOn(h, c, command, a.pass, true) == Return(result) && m == a.pass.after
  }

  /** A packet sent without a tag and answered: unprotected commands, and every command without a key. */
  predicate PlainPass(h: Hash, retries: nat, s: Standing, command: byte, payload: seq<byte>, x: Pass)
  {
    && Passed(h, retries, x) && x.before == s.link && x.number == s.counter + 1
    && x.packet == Packet(VERSION, command, SequenceOf(x.number), payload)
  }

  // ---- When a reply is acted on ----

  /**
   * A reply whose tag does not verify is acted on if and only if it asks for
   * authentication on the first pass; what is returned always verified.
   */
  lemma UnverifiedIsActedOnExactly(
    h: Hash, sessionKey: seq<byte>, command: byte, sequence: uint16, reply: Packet, retried: bool)
    ensures var move := Decide(h, sessionKey, command, sequence, reply, retried);
      var verified := Verified(h, sessionKey, command, sequence, reply);
      && (verified.None? ==> (move != Exit <==> IsAuthRequired(reply) && !retried))
      && (forall q :: move == Return(q) <==> verified == Some(q) && !(IsAuthRequired(reply) && !retried))
  {
    hide ResponseTag;
  }

  /** Such a reply exists: the unsigned refusal of a device without a session. */
  lemma UnsignedRefusalIsActedOn(h: Hash, sessionKey: seq<byte>, command: byte, request: Packet)
    ensures var reply := Nack(request, ERR_AUTH_REQUIRED);
      && Verified(h, sessionKey, command, request.sequence, reply).None?
      && Decide(h, sessionKey, command, request.sequence, reply, false) == Renew
  {
  }

  lemma RenewIsDecided(h: Hash, retries: nat, s: Standing, command: byte, payload: seq<byte>, x: Pass)
    requires SealedPass(h, retries, s, command, payload, x) && IsAuthRequired(x.reply)
    ensures s.sessionKey.Some? && DecideOn(h, s, command, x, false) == Renew
  {
    hide Passed, RequestTag, Verified;
  }

  lemma ReturnIsDecided(
    h: Hash, retries: nat, s: Standing, command: byte, payload: seq<byte>, x: Pass, retried: bool, result: Packet)
    requires SealedPass(h, retries, s, command, payload, x) && !(IsAuthRequired(x.reply) && !retried)
    requires s.sessionKey.Some? &&
      Verified(h, s.sessionKey.value, command, SequenceOf(x.number), x.reply) == Some(result)
    ensures DecideOn(h, s, command, x, retried) == Return(result)
  {
    hide Passed, RequestTag, Verified;
  }

  // ---- What a completed trace means ----

  lemma ShakeAgrees(h: Hash, key: seq<byte>, retries: nat, s: Shake)
    requires Shaken(h, key, retries, s)
    ensures Agreement(h, key, s.challenge.before, s.proof.after, ShakeKey(h, key, s), s.client, s.server)
  {
    hide Answered, Agreement, SessionKey, Proof, Outstanding, ChallengePacket, ProofPacket, DeviceProof;
    HandshakeAgrees(
      h, key, s.challenge.before, s.challenge.after, s.proof.after, s.challenge.number, s.challenge.record,
      s.proof.number, s.proof.record, SequenceOf(s.challenge.number), SequenceOf(s.proof.number), s.client, s.server);
  }

  lemma OpeningUndone(h: Hash, key: seq<byte>, retries: nat, s: Standing, opening: Option<Shake>)
    requires Opens(h, key, retries, s, opening)
    ensures var b := Opened(h, key, s, opening); Undone(h, Some(key), s.link, s.counter, b.link, b.counter)
  {
    hide Undone, Agreement, SessionKey, Shaken;
    match opening {
      case None => NothingUndone(h, Some(key), s.link, s.counter);
      case Some(k) =>
        ShakeAgrees(h, key, retries, k);
        HandshakeUndone(h, key, s.link, s.counter, k.proof.after, s.counter + 2, ShakeKey(h, key, k), k.client,
          k.server);
    }
  }

  lemma PassConcludes(
    h: Hash, key: seq<byte>, retries: nat, s: Standing, command: byte, payload: seq<byte>, x: Pass) returns (o: Outcome)
    requires SealedPass(h, retries, s, command, payload, x) && IsProtected(command)
    requires Prepared(h, Some(key), s.link, s.counter)
    ensures Concluded(h, Some(key), s.link, x.after, x.number, command, payload, o, x.reply)
  {
    hide SealedPass, Prepared, Concluded, Answered, RequestTag, Sealed, SequenceOf;
    var tag := PassPacket(h, retries, s, command, payload, x);
    o := SealedConcludes(h, key, s.link, x.after, s.counter, command, payload, tag, x.record, x.reply);
  }

  lemma PassPacket(
    h: Hash, retries: nat, s: Standing, command: byte, payload: seq<byte>, x: Pass) returns (tag: seq<byte>)
    requires SealedPass(h, retries, s, command, payload, x)
    ensures |tag| == TAG_SIZE && x.number == s.counter + 1 && Replied(x)
    ensures s.sessionKey.Some? &&
      tag == RequestTag(h, s.sessionKey.value, command, SequenceOf(s.counter + 1), payload)
    ensures Answered(h, s.link, x.after, s.counter + 1, Sealed(command, SequenceOf(s.counter + 1), payload, tag),
      x.record)
  {
    hide Answered, Sealed, SequenceOf, Outstanding;
    RecordExists(h, x.before, x.after, x.number, x.packet, x.record);
    tag := RequestTag(h, s.sessionKey.value, command, SequenceOf(x.number), payload);
    hide RequestTag;
  }

  /** The last pass of a trace, and where the client stood before it. */
  function Last(t: Trace): Pass { if t.again.Some? then t.again.value.pass else t.first }

  function Origin(h: Hash, key: seq<byte>, s: Standing, t: Trace): Standing
  {
    if t.again.Some? then Opened(h, key, Dropped(t.first), Some(t.again.value.shake)) else Opened(h, key, s, t.opening)
  }

  lemma CompletesInLast(
    h: Hash, key: seq<byte>, retries: nat, s: Standing, command: byte, payload: seq<byte>, t: Trace, result: Packet,
    m: Link)
    requires Completes(h, key, retries, s, command, payload, t, result, m)
    ensures var b, x := Origin(h, key, s, t), Last(t);
      && SealedPass(h, retries, b, command, payload, x) && m == x.after
      && Verified(h, b.sessionKey.value, command, SequenceOf(x.number), x.reply) == Some(result)
  {
    hide Passed, Shaken, Verified, SessionKey, RequestTag;
  }

  /** The same request, seen from after its opening handshake. */
  lemma CompletesOnceOpened(
    h: Hash, key: seq<byte>, retries: nat, s: Standing, command: byte, payload: seq<byte>, t: Trace, result: Packet,
    m: Link)
    requires Completes(h, key, retries, s, command, payload, t, result, m)
    ensures Completes(h, key, retries, Opened(h, key, s, t.opening), command, payload, t.(opening := None), result, m)
  {
    hide SealedPass, Shaken, DecideOn, SessionKey;
  }

  /** What a pass that asks for authentication leaves behind: everything as it was, or one restart. */
  predicate Spared(d: Device, v: Device, command: byte)
  {
    (v.ota == d.ota && v.restarts == d.restarts) || (!IsOta(command) && v.restarts == d.restarts + 1)
  }

  lemma AuthRequiredSpares(
    h: Hash, key: seq<byte>, l: Link, m: Link, counter: nat, command: byte, payload: seq<byte>, o: Outcome,
    reply: Packet)
    requires Concluded(h, Some(key), l, m, counter, command, payload, o, reply)
    requires IsProtected(command) && IsAuthRequired(reply)
    ensures Prepared(h, Some(key), m, counter) && Spared(l.device, m.device, command)
  {
    hide Prepared, Execute, Possible;
    ExecuteErrors(l.device.ota, command, payload, o);
  }

  /** Before the last pass of a request the link is prepared, and nothing has been done but at most one restart. */
  lemma OriginIsPrepared(
    h: Hash, key: seq<byte>, retries: nat, s: Standing, command: byte, payload: seq<byte>, t: Trace, result: Packet,
    m: Link)
    requires Completes(h, key, retries, s, command, payload, t, result, m) && IsProtected(command)
    requires Prepared(h, Some(key), s.link, s.counter)
    ensures var b := Origin(h, key, s, t);
      Prepared(h, Some(key), b.link, b.counter) && Spared(s.link.device, b.link.device, command)
  {
    hide Prepared, Concluded, SealedPass, SessionKey, Shaken, Verified;
    var b := Opened(h, key, s, t.opening);
    OpeningUndone(h, key, retries, s, t.opening);
    if t.again.Some? {
      var o := PassConcludes(h, key, retries, b, command, payload, t.first);
      PassNumber(h, retries, b, command, payload, t.first);
      AuthRequiredSpares(h, key, b.link, t.first.after, t.first.number, command, payload, o, t.first.reply);
      OpeningUndone(h, key, retries, Dropped(t.first), Some(t.again.value.shake));
    }
  }

  lemma PassNumber(h: Hash, retries: nat, s: Standing, command: byte, payload: seq<byte>, x: Pass)
    requires SealedPass(h, retries, s, command, payload, x)
    ensures x.number == s.counter + 1 && x.before == s.link && s.sessionKey.Some?
  {
    hide Passed, RequestTag;
  }

  /**
   * A completed OTA request was executed exactly once, with its status returned, or
   * it was not executed and says so: however often it was sent, and even if the
   * session had to be renewed.
   */
  lemma RequestFinishes(
    h: Hash, key: seq<byte>, retries: nat, s: Standing, command: byte, payload: seq<byte>, t: Trace, result: Packet,
    m: Link) returns (o: Outcome)
    requires Completes(h, key, retries, s, command, payload, t, result, m) && IsOta(command)
    requires Prepared(h, Some(key), s.link, s.counter)
    ensures Finished(h, Some(key), s.link.device, m, Last(t).number, command, payload, o, result)
  {
    hide Prepared, Concluded, SealedPass, SessionKey, Shaken, Verified, Completes, Finished, Origin, Last;
    var b, x := Origin(h, key, s, t), Last(t);
    OriginIsPrepared(h, key, retries, s, command, payload, t, result, m);
    CompletesInLast(h, key, retries, s, command, payload, t, result, m);
    PassNumber(h, retries, b, command, payload, x);
    o := PassConcludes(h, key, retries, b, command, payload, x);
    VerifiedFinishes(h, key, b.sessionKey.value, b.link, m, x.number, command, SequenceOf(x.number), payload, o,
      x.reply);
    FinishedFrom(h, Some(key), b.link.device, s.link.device, m, x.number, command, payload, o, result);
  }

  // ---- Commands that restart the device ----

  predicate AcknowledgedReboot(command: byte, reply: Packet) { command == CMD_REBOOT && reply.command == CMD_ACK }

  /**
   * However often it was sent, a completed request restarts the device at most twice, and an
   * acknowledged REBOOT does.
   */
  lemma RequestRestarts(
    h: Hash, key: seq<byte>, retries: nat, s: Standing, command: byte, payload: seq<byte>, t: Trace, result: Packet,
    m: Link)
    requires Completes(h, key, retries, s, command, payload, t, result, m) && IsProtected(command)
    requires Prepared(h, Some(key), s.link, s.counter)
    ensures Prepared(h, Some(key), m, Last(t).number)
    ensures s.link.device.restarts <= m.device.restarts <= s.link.device.restarts + 2
    ensures AcknowledgedReboot(command, result) ==> m.device.restarts > s.link.device.restarts
  {
    hide Prepared, Concluded, SealedPass, SessionKey, Shaken, Verified, Completes, Origin, Last;
    var b, x := Origin(h, key, s, t), Last(t);
    OriginIsPrepared(h, key, retries, s, command, payload, t, result, m);
    CompletesInLast(h, key, retries, s, command, payload, t, result, m);
    PassNumber(h, retries, b, command, payload, x);
    var o := PassConcludes(h, key, retries, b, command, payload, x);
    VerifiedCommand(h, b.sessionKey.value, command, SequenceOf(x.number), x.reply, result);
    PassRestarts(h, key, b.link, m, x.number, command, payload, o, x.reply);
  }

  lemma VerifiedCommand(h: Hash, sessionKey: seq<byte>, command: byte, sequence: uint16, reply: Packet, result: Packet)
    requires Verified(h, sessionKey, command, sequence, reply) == Some(result)
    ensures result.command == reply.command
  {
  }

  /** One answered pass restarts the device at most once, and an acknowledged REBOOT does restart it. */
  lemma PassRestarts(
    h: Hash, key: seq<byte>, l: Link, m: Link, counter: nat, command: byte, payload: seq<byte>, o: Outcome,
    reply: Packet)
    requires Concluded(h, Some(key), l, m, counter, command, payload, o, reply) && IsProtected(command)
    ensures Prepared(h, Some(key), m, counter)
    ensures l.device.restarts <= m.device.restarts <= l.device.restarts + 1
    ensures AcknowledgedReboot(command, reply) ==> m.device.restarts > l.device.restarts
  {
    hide Prepared, Execute, Possible;
    ExecuteErrors(l.device.ota, command, payload, o);
  }

  lemma RecordExists(h: Hash, l: Link, m: Link, number: nat, p: Packet, k: nat)
    requires Answered(h, l, m, number, p, k)
    ensures k < |m.log|
  {
    hide Inv, Grew;
  }
}
