/** The steps of the client's methods: what each may come to, and what follows from it. */
module ClientSteps {
  import opened Bytes
  import opened Codes
  import opened Esp
  import opened Frame
  import opened HmacSha
  import opened Sealing
  import opened LossyLink
  import RemoteCall
  import CopyCount
  import opened CallTheory
  import opened HandshakeTheory
  import opened Transport
  import opened Payloads
  import opened RequestTrace
  import opened RequestMoments
  import opened CalmCalls
  import D = DeviceMachine

  /** What came of building and sending `p`: the answered pass, or an error; an over-long payload touches nothing. */
  predicate SendResult(
    h: Hash, retries: nat, l: Link, m: Link, counter: nat, p: Packet, response: Response, x: Pass)
  {
    && (response == Raised(TooLargeError) <==> |p.payload| > MAX_PAYLOAD)
    && match response
       case Delivered(r) => Passed(h, retries, x) && x == Pass(l, counter, p, x.record, m, r)
       case Raised(TooLargeError) => m == l
       case Raised(TimeoutError) => Unanswered(h, l, m, counter, p)
       case Raised(SystemExit) => false
  }

  /** In calm surroundings, with nothing in flight, a packet that fits is answered. */
  predicate SentCalmly(
    h: Hash, calm: Option<Platform>, retries: nat, l: Link, p: Packet, response: Response, x: Pass)
  {
    calm.Some? && retries > 0 && Idle(l) && |p.payload| <= MAX_PAYLOAD ==>
      response.Delivered? && SmoothPass(h, calm.value, x)
  }

  /** `authenticate` in calm surroundings: it returns, in a common session if it ran a handshake, with nothing done. */
  predicate ShookCalmly(
    h: Hash, authKey: Option<seq<byte>>, calm: Option<Platform>, retries: nat, s: Standing, r: Standing,
    error: Option<HostError>)
  {
    calm.Some? && retries > 0 && authKey.Some? && Undisturbed(h, authKey, s) ==>
      && error.None? && Undisturbed(h, authKey, r) && SameTransfer(s.link.device, r.link.device)
      && (s.sessionKey.None? ==> r.link.device.auth.authenticated)
  }

  predicate SameTransfer(d: D.Device, v: D.Device) { v.ota == d.ota && v.restarts == d.restarts }

  /** The payload fits a frame, with its tag if the client has a key. */
  predicate FitsFrame(authKey: Option<seq<byte>>, payload: seq<byte>)
  {
    |payload| + (if authKey.Some? then TAG_SIZE else 0) <= MAX_PAYLOAD
  }

  /** In calm surroundings this request is answered. */
  predicate Promised(
    h: Hash, authKey: Option<seq<byte>>, calm: Option<Platform>, retries: nat, s: Standing, command: byte,
    payload: seq<byte>)
  {
    && calm.Some? && retries > 0 && Undisturbed(h, authKey, s) && FitsFrame(authKey, payload)
    && IsProtected(command) && (authKey.None? ==> IsOta(command))
  }

  /** Then it is delivered, with the status of one execution, and the next one is promised too. */
  ghost predicate RequestedCalmly(
    h: Hash, authKey: Option<seq<byte>>, calm: Option<Platform>, retries: nat, s: Standing, command: byte,
    payload: seq<byte>, response: Response, r: Standing)
  {
    Promised(h, authKey, calm, retries, s, command, payload) ==>
      response.Delivered? && CalmlyDone(h, authKey, calm.value, s, command, payload, response.packet, r)
  }

  lemma SentKeeps(h: Hash, retries: nat, l: Link, m: Link, counter: nat, p: Packet, response: Response, x: Pass)
    requires Inv(h, l) && counter > 0 && NumbersUpTo(l, counter - 1)
    requires SendResult(h, retries, l, m, counter, p, response, x)
    ensures Inv(h, m) && NumbersUpTo(m, counter)
    ensures response.Delivered? ==> UpToDate(m, counter)
  {
    hide Inv, RemoteCall.Grew, CopyCount.Outstanding;
  }

  lemma SentOneMore(h: Hash, retries: nat, l: Link, m: Link, number: nat, p: Packet, response: Response, x: Pass)
    requires Inv(h, l) && SendResult(h, retries, l, m, number, p, response, x)
    ensures OneMore(h, l, m, number, p)
  {
    GrewSelf(h, l);
    hide Inv, RemoteCall.Grew, CopyCount.Outstanding;
  }

  lemma TooLargeSendsNothing(
    h: Hash, calm: Option<Platform>, retries: nat, l: Link, counter: nat, p: Packet, x: Pass)
    requires |p.payload| > MAX_PAYLOAD
    ensures SendResult(h, retries, l, l, counter, p, Raised(TooLargeError), x)
    ensures SentCalmly(h, calm, retries, l, p, Raised(TooLargeError), x)
  {
  }

  lemma RequestedIsSent(
    h: Hash, retries: nat, l: Link, m: Link, counter: nat, p: Packet, reply: Option<Packet>, k: nat)
    requires Requested(h, l, m, counter, p, reply, k) && CopyCount.Outstanding(m) <= retries
    requires |p.payload| <= MAX_PAYLOAD
    ensures match reply
      case Some(r) => SendResult(h, retries, l, m, counter, p, Delivered(r), Pass(l, counter, p, k, m, r))
      case None => forall x :: SendResult(h, retries, l, m, counter, p, Raised(TimeoutError), x)
  {
    hide RemoteCall.Answered, Unanswered, CopyCount.Outstanding;
  }

  /** A smooth answer to the packet just issued. */
  predicate AnsweredCalmly(
    h: Hash, calm: Option<Platform>, retries: nat, l: Link, m: Link, p: Packet, reply: Option<Packet>, k: nat)
  {
    calm.Some? && retries > 0 && Idle(l) ==> reply.Some? && k == |l.log| && Smooth(h, calm.value, l, m, p)
  }

  lemma IssuedCalmly(
    h: Hash, calm: Option<Platform>, retries: nat, l: Link, number: nat, m: Link, p: Packet, reply: Option<Packet>,
    k: nat)
    requires var i := Issue(l, number, p);
      calm.Some? && Idle(i) && retries > 0 ==> HeardSmoothly(h, calm.value, i, m, reply, k)
    ensures AnsweredCalmly(h, calm, retries, l, m, p, reply, k)
  {
    hide D.Handle, Grants, Possible, D.RingShape;
  }

  lemma HeardIsRequested(h: Hash, l: Link, m: Link, number: nat, p: Packet, reply: Option<Packet>, k: nat)
    requires Inv(h, l) && RemoteCall.Grew(l, Issue(l, number, p)) && Heard(h, Issue(l, number, p), m, reply, k)
    ensures Requested(h, l, m, number, p, reply, k)
  {
    hide Inv, RemoteCall.Grew, Waited, Received, Requested, Issue;
    RequestOver(h, l, m, number, p, reply, k);
  }

  lemma CalmlySent(
    h: Hash, calm: Option<Platform>, retries: nat, l: Link, m: Link, number: nat, p: Packet, reply: Option<Packet>,
    k: nat, x: Pass)
    requires AnsweredCalmly(h, calm, retries, l, m, p, reply, k)
    ensures match reply
      case None => SentCalmly(h, calm, retries, l, p, Raised(TimeoutError), x)
      case Some(r) => SentCalmly(h, calm, retries, l, p, Delivered(r), Pass(l, number, p, k, m, r))
  {
    hide Smooth;
  }

  function NoPass(l: Link): Pass { Pass(l, 0, Packet(0, 0, 0, []), 0, l, Packet(0, 0, 0, [])) }

  lemma SentPasses(
    h: Hash, retries: nat, s: Standing, m: Link, command: byte, payload: seq<byte>, response: Response, x: Pass)
    requires response.Delivered?
    requires SendResult(h, retries, s.link, m, s.counter + 1, Outgoing(h, s, command, payload), response, x)
    ensures x.after == m && x.number == s.counter + 1 && x.reply == response.packet
    ensures if s.sessionKey.Some? && IsProtected(command) then SealedPass(h, retries, s, command, payload, x)
            else PlainPass(h, retries, s, command, payload, x)
  {
    hide Passed, RequestTag, SequenceOf;
  }

  lemma NowRenewal(
    h: Hash, key: seq<byte>, retries: nat, s: Standing, command: byte, payload: seq<byte>, g: Progress, now: Standing,
    x: Pass)
    requires Ongoing(h, key, retries, s, command, payload, g, now) && g.Fresh?
    requires SealedPass(h, retries, now, command, payload, x) && IsAuthRequired(x.reply)
    ensures Renewal(h, key, retries, s, command, payload, g, now, x)
  {
    hide Ongoing, SealedPass, DecideOn;
    RenewIsDecided(h, retries, now, command, payload, x);
  }

  lemma NowCompletes(
    h: Hash, key: seq<byte>, retries: nat, s: Standing, command: byte, payload: seq<byte>, g: Progress, now: Standing,
    x: Pass, result: Packet)
    requires Ongoing(h, key, retries, s, command, payload, g, now) && now.sessionKey.Some?
    requires SealedPass(h, retries, now, command, payload, x) && !(IsAuthRequired(x.reply) && g.Fresh?)
    requires Verified(h, now.sessionKey.value, command, SequenceOf(x.number), x.reply) == Some(result)
    ensures Completes(h, key, retries, s, command, payload, Traced(g, x), result, x.after)
    ensures Last(Traced(g, x)) == x && Origin(h, key, s, Traced(g, x)) == now
  {
    hide SealedPass, DecideOn, Verified, Completes, Advanced, SequenceOf, Shaken, SessionKey;
    ReturnIsDecided(h, retries, now, command, payload, x, g.Renewed?, result);
    UnderwayCompletes(h, key, retries, s, command, payload, g, now, x, result);
  }

  /** Why the pass raised. */
  lemma SentFails(
    h: Hash, retries: nat, s: Standing, m: Link, command: byte, payload: seq<byte>, response: Response, x: Pass)
    requires response.Raised?
    requires SendResult(h, retries, s.link, m, s.counter + 1, Outgoing(h, s, command, payload), response, x)
    ensures PassFailed(h, s, command, payload, m, s.counter + 1, response.error)
  {
    hide Unanswered, RequestTag, SequenceOf, OutgoingPayload;
  }

  lemma FailedShaking(
    h: Hash, key: seq<byte>, retries: nat, command: byte, payload: seq<byte>, stop: Stop, k: Shake, m: Link,
    later: nat, error: HostError)
    requires !stop.phase.Passing? && ShakeFailed(h, key, retries, stop.now, k, m, later, error)
    ensures SealedFailed(h, key, retries, command, payload, stop, m, later, error)
  {
    hide ShakeFailed;
  }

  lemma FailedPassing(
    h: Hash, key: seq<byte>, retries: nat, command: byte, payload: seq<byte>, stop: Stop, m: Link, later: nat,
    error: HostError)
    requires stop.phase.Passing? && PassFailed(h, stop.now, command, payload, m, later, error)
    ensures SealedFailed(h, key, retries, command, payload, stop, m, later, error)
  {
    hide PassFailed, PassRejected, ShakeFailed;
  }

  /** A reply that is neither acted on nor verified. */
  lemma FailedVerifying(
    h: Hash, key: seq<byte>, retries: nat, command: byte, payload: seq<byte>, stop: Stop, x: Pass)
    requires stop.phase.Passing? && SealedPass(h, retries, stop.now, command, payload, x)
    requires !(IsAuthRequired(x.reply) && stop.phase.g.Fresh?) && stop.now.sessionKey.Some?
    requires Verified(h, stop.now.sessionKey.value, command, SequenceOf(x.number), x.reply).None?
    ensures SealedFailed(h, key, retries, command, payload, stop, x.after, x.number, SystemExit)
  {
    hide SealedPass, Verified, SequenceOf, PassFailed, ShakeFailed;
    assert PassRejected(h, retries, stop.now, command, payload, x, stop.phase.g.Renewed?, x.after, x.number);
  }

  // ---- The two halves of a handshake ----

  /** What the first packet of a handshake came to. */
  lemma FirstHalf(
    h: Hash, key: seq<byte>, calm: Option<Platform>, retries: nat, b: Standing, k: Shake, r: Standing,
    challenge: Response)
    requires b.sessionKey.None? && |k.client| == NONCE_SIZE && r.counter == b.counter + 1
    requires SendResult(h, retries, b.link, r.link, r.counter, ChallengePacket(SequenceOf(r.counter), k.client),
                        challenge, k.challenge)
    requires SentCalmly(h, calm, retries, b.link, ChallengePacket(SequenceOf(r.counter), k.client), challenge,
                        k.challenge)
    ensures challenge.Raised? ==>
      && ShakeFailed(h, key, retries, b, k, r.link, r.counter, challenge.error)
      && ShookCalmly(h, Some(key), calm, retries, b, r, Some(challenge.error))
    ensures challenge.Delivered? && !ChallengePasses(h, key, k.client, challenge.packet) ==>
      && ShakeFailed(h, key, retries, b, k, r.link, r.counter, SystemExit)
      && ShookCalmly(h, Some(key), calm, retries, b, r, Some(SystemExit))
    ensures calm.Some? && retries > 0 && Undisturbed(h, Some(key), b) ==> challenge.Delivered?
  {
    hide Inv, SequenceOf, Unanswered, Passed, SmoothPass, Keyed, DeviceProof, NumbersUpTo, WindowOpen, Common;
    if calm.Some? && retries > 0 && Undisturbed(h, Some(key), b) {
      SmoothChallenge(h, key, calm.value, retries, k.client, k.challenge);
    }
  }

  /** And the second. */
  lemma SecondHalf(
    h: Hash, key: seq<byte>, calm: Option<Platform>, retries: nat, b: Standing, c: Link, k: Shake, r: Standing,
    challenge: Response, response: Response)
    requires b.sessionKey.None? && |k.client| == NONCE_SIZE && r.counter == b.counter + 2 && challenge.Delivered?
    requires SendResult(h, retries, b.link, c, b.counter + 1,
                        ChallengePacket(SequenceOf(b.counter + 1), k.client), challenge, k.challenge)
    requires SentCalmly(h, calm, retries, b.link, ChallengePacket(SequenceOf(b.counter + 1), k.client), challenge,
                        k.challenge)
    requires ChallengePasses(h, key, k.client, challenge.packet)
    requires k.server == challenge.packet.payload[1..1 + NONCE_SIZE]
    requires SendResult(h, retries, c, r.link, r.counter,
                        ProofPacket(h, key, SequenceOf(r.counter), k.client, k.server), response, k.proof)
    requires SentCalmly(h, calm, retries, c, ProofPacket(h, key, SequenceOf(r.counter), k.client, k.server), response,
                        k.proof)
    ensures response.Raised? ==>
      && ShakeFailed(h, key, retries, b, k, r.link, r.counter, response.error)
      && ShookCalmly(h, Some(key), calm, retries, b, r, Some(response.error))
    ensures response.Delivered? && !EnsureAck(response.packet) ==>
      && ShakeFailed(h, key, retries, b, k, r.link, r.counter, SystemExit)
      && ShookCalmly(h, Some(key), calm, retries, b, r, Some(SystemExit))
    ensures ShookCalmly(h, Some(key), calm, retries, b,
      Standing(r.link, r.counter, Some(SessionKey(h, key, k.client, k.server))), None)
  {
    hide Inv, SequenceOf, Unanswered, SmoothPass, Keyed, DeviceProof, NumbersUpTo, WindowOpen, Common;
    hide Passed, Proof, Waiting, SessionKey, EnsureAck, ChallengePasses, Undisturbed;
    if calm.Some? && retries > 0 && Undisturbed(h, Some(key), b) {
      UndisturbedParts(h, Some(key), b);
      SmoothChallenge(h, key, calm.value, retries, k.client, k.challenge);
      SmoothProof(h, key, calm.value, retries, b.link.device, k.client, k.server, k.proof);
    }
  }

  lemma UndisturbedParts(h: Hash, authKey: Option<seq<byte>>, s: Standing)
    requires Undisturbed(h, authKey, s)
    ensures Idle(s.link) && (authKey.Some? ==> Keyed(h, authKey.value, s.link.device))
  {
    hide Inv, Keyed, NumbersUpTo, WindowOpen, Common;
  }

  lemma CalmlyNothing(h: Hash, authKey: Option<seq<byte>>, calm: Option<Platform>, retries: nat, s: Standing)
    requires authKey.Some? ==> s.sessionKey.Some?
    ensures ShookCalmly(h, authKey, calm, retries, s, s, None)
  {
    hide Undisturbed;
  }

  // ---- Requests in calm surroundings ----

  /** Before a pass: nothing has been done, and after a renewal the session is common. */
  predicate CalmSoFar(
    h: Hash, authKey: Option<seq<byte>>, calm: Option<Platform>, retries: nat, s: Standing, command: byte,
    payload: seq<byte>, now: Standing, retried: bool)
  {
    Promised(h, authKey, calm, retries, s, command, payload) ==>
      && Undisturbed(h, authKey, now) && SameTransfer(s.link.device, now.link.device)
      && (retried ==> now.link.device.auth.authenticated)
  }

  lemma BeginsCalmly(
    h: Hash, authKey: Option<seq<byte>>, calm: Option<Platform>, retries: nat, s: Standing, command: byte,
    payload: seq<byte>, r: Standing, error: Option<HostError>)
    requires authKey.Some? && ShookCalmly(h, authKey, calm, retries, s, r, error)
    ensures error.None? ==> CalmSoFar(h, authKey, calm, retries, s, command, payload, r, false)
    ensures error.Some? ==>
      RequestedCalmly(h, authKey, calm, retries, s, command, payload, Raised(error.value), r)
  {
    hide Undisturbed;
  }

  /** What a pass comes to: the status of one execution, or the demand of a device without a session. */
  ghost predicate PassedWell(
    h: Hash, key: seq<byte>, g: Platform, command: byte, payload: seq<byte>, now: Standing, retried: bool, x: Pass)
  {
    if now.link.device.auth.authenticated
    then exists result :: Accepted(h, key, g, now, command, payload, x, result)
    else
      !retried && IsAuthRequired(x.reply) && x.after.device == now.link.device && Undisturbed(h, Some(key), Dropped(x))
  }

  lemma PassedCalmly(
    h: Hash, key: seq<byte>, calm: Option<Platform>, retries: nat, s: Standing, command: byte, payload: seq<byte>,
    now: Standing, retried: bool, response: Response, x: Pass, r: Standing)
    requires CalmSoFar(h, Some(key), calm, retries, s, command, payload, now, retried) && now.sessionKey.Some?
    requires SentCalmly(h, calm, retries, now.link, Outgoing(h, now, command, payload), response, x)
    requires response.Delivered? ==>
      SealedPass(h, retries, now, command, payload, x) && x.reply == response.packet
    ensures response.Raised? ==> RequestedCalmly(h, Some(key), calm, retries, s, command, payload, response, r)
    ensures Promised(h, Some(key), calm, retries, s, command, payload) ==>
      response.Delivered? && PassedWell(h, key, calm.value, command, payload, now, retried, x)
  {
    hide Undisturbed, SmoothPass, SealedPass, RequestTag, SequenceOf, Accepted, Idle, D.Execute;
    if Promised(h, Some(key), calm, retries, s, command, payload) {
      UndisturbedParts(h, Some(key), now);
      if now.link.device.auth.authenticated {
        var result := SmoothInSession(h, key, calm.value, retries, now, command, payload, x);
      } else {
        SmoothWithoutSession(h, key, calm.value, retries, now, command, payload, x);
      }
    }
  }

  lemma RenewsCalmly(
    h: Hash, key: seq<byte>, calm: Option<Platform>, retries: nat, s: Standing, command: byte, payload: seq<byte>,
    now: Standing, x: Pass, r: Standing, error: Option<HostError>)
    requires CalmSoFar(h, Some(key), calm, retries, s, command, payload, now, false) && IsAuthRequired(x.reply)
    requires Promised(h, Some(key), calm, retries, s, command, payload) ==>
      PassedWell(h, key, calm.value, command, payload, now, false, x)
    requires ShookCalmly(h, Some(key), calm, retries, Dropped(x), r, error)
    ensures error.None? ==> CalmSoFar(h, Some(key), calm, retries, s, command, payload, r, true)
    ensures error.Some? ==>
      RequestedCalmly(h, Some(key), calm, retries, s, command, payload, Raised(error.value), r)
  {
    hide Undisturbed, Done, Verified;
  }

  /** The reply of the last pass verifies, and tells what was done. */
  lemma FinishesCalmly(
    h: Hash, key: seq<byte>, calm: Option<Platform>, retries: nat, s: Standing, command: byte, payload: seq<byte>,
    now: Standing, retried: bool, x: Pass, r: Standing)
    requires CalmSoFar(h, Some(key), calm, retries, s, command, payload, now, retried)
    requires Promised(h, Some(key), calm, retries, s, command, payload) ==>
      PassedWell(h, key, calm.value, command, payload, now, retried, x)
    requires !(IsAuthRequired(x.reply) && !retried) && now.sessionKey.Some?
    requires r.link == x.after && r.counter == x.number && (r.sessionKey == now.sessionKey || r.sessionKey == None)
    ensures match Verified(h, now.sessionKey.value, command, SequenceOf(x.number), x.reply)
      case None => RequestedCalmly(h, Some(key), calm, retries, s, command, payload, Raised(SystemExit), r)
      case Some(v) => RequestedCalmly(h, Some(key), calm, retries, s, command, payload, Delivered(v), r)
  {
    hide Undisturbed, Verified, SequenceOf, D.Execute, Possible, Grants;
    if Promised(h, Some(key), calm, retries, s, command, payload) {
      var result :| Accepted(h, key, calm.value, now, command, payload, x, result);
      SessionDropped(h, key, Standing(x.after, x.number, now.sessionKey));
      DoneFrom(calm.value, now.link.device, s.link.device, x.after.device, command, payload, AnswerGiven(x), result);
    }
  }

  /** Without its session a client may call as before. */
  lemma SessionDropped(h: Hash, key: seq<byte>, s: Standing)
    requires Undisturbed(h, Some(key), s)
    ensures Undisturbed(h, Some(key), s.(sessionKey := None))
  {
    hide Inv, Keyed, NumbersUpTo, WindowOpen, Common;
  }

  lemma DoneFrom(
    g: Platform, d: D.Device, e: D.Device, v: D.Device, command: byte, payload: seq<byte>, o: Outcome, result: Packet)
    requires IsProtected(command) && Done(g, d, v, command, payload, o, result) && SameTransfer(e, d)
    ensures Done(g, e, v, command, payload, o, result)
  {
    hide D.Execute, Grants;
  }

  lemma PlainIsCalm(
    h: Hash, authKey: Option<seq<byte>>, calm: Option<Platform>, retries: nat, s: Standing, command: byte,
    payload: seq<byte>, response: Response, x: Pass, r: Standing)
    requires !(authKey.Some? && IsProtected(command))
    requires SentCalmly(h, calm, retries, s.link, Outgoing(h, s, command, payload), response, x)
    requires response.Delivered? ==>
      && PlainPass(h, retries, s, command, payload, x) && x.reply == response.packet
      && r == Standing(x.after, x.number, s.sessionKey)
    ensures RequestedCalmly(h, authKey, calm, retries, s, command, payload, response, r)
  {
    hide Undisturbed, SmoothPass, PlainPass, RequestTag, SequenceOf, Done, Idle;
    if Promised(h, authKey, calm, retries, s, command, payload) {
      UndisturbedParts(h, authKey, s);
      NoSession(h, s);
      SmoothPlain(h, calm.value, retries, s, command, payload, x);
    }
  }

  lemma NoSession(h: Hash, s: Standing)
    requires Undisturbed(h, None, s)
    ensures s.sessionKey.None?
  {
    hide Inv, NumbersUpTo, WindowOpen;
  }

  lemma NotPromised(
    h: Hash, authKey: Option<seq<byte>>, calm: Option<Platform>, retries: nat, s: Standing, command: byte,
    payload: seq<byte>, response: Response, r: Standing)
    requires !(authKey.Some? && IsProtected(command)) && !IsOta(command)
    ensures RequestedCalmly(h, authKey, calm, retries, s, command, payload, response, r)
  {
    hide Undisturbed;
  }

  lemma NewRequestHasNoCopies(h: Hash, l: Link, number: nat, p: Packet)
    requires Inv(h, l)
    ensures CopyCount.Outstanding(Issue(l, number, p)) == 0
  {
    hide Recorded, Numbered, CopyCount.Outstanding;
    CopyCount.IssueOutstanding(l, number, p);
  }

  lemma NumbersStart(l: Link, counter: nat)
    requires NumbersUpTo(l, counter)
    ensures NumbersUpTo(l, counter + 1 - 1)
  {
  }

  /** The two answered packets of a handshake make the shake. */
  predicate ShakenFrom(h: Hash, key: seq<byte>, retries: nat, l: Link, counter: nat, s: Shake)
  {
    Shaken(h, key, retries, s) && s.challenge.before == l && s.challenge.number == counter + 1
  }

  lemma SentShake(
    h: Hash, key: seq<byte>, retries: nat, l: Link, c: Link, m: Link, counter: nat, challenge: Response,
    response: Response, s: Shake)
    requires |s.client| == NONCE_SIZE && challenge.Delivered? && response.Delivered?
    requires SendResult(h, retries, l, c, counter + 1, ChallengePacket(SequenceOf(counter + 1), s.client), challenge,
                        s.challenge)
    requires ChallengePasses(h, key, s.client, challenge.packet)
    requires s.server == challenge.packet.payload[1..1 + NONCE_SIZE]
    requires SendResult(h, retries, c, m, counter + 2,
                        ProofPacket(h, key, SequenceOf(counter + 2), s.client, s.server), response, s.proof)
    requires EnsureAck(response.packet)
    ensures ShakenFrom(h, key, retries, l, counter, s) && s.proof.after == m
    ensures Opened(h, key, Standing(l, counter, None), Some(s)) ==
      Standing(m, counter + 2, Some(SessionKey(h, key, s.client, s.server)))
  {
    hide Passed, Proof, DeviceProof;
  }
}
