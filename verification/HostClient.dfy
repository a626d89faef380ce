/**
 * `OtaLinkClient`: sequence numbers, retries, the handshake and signed requests,
 * over the lossy link. What it does on the link is recorded as a ghost trace.
 */
module HostClient {
  import opened Bytes
  import opened Codes
  import opened Esp
  import opened Frame
  import opened HmacSha
  import opened Sealing
  import opened LossyLink
  import RemoteCall
  import CopyCount
  import opened HandshakeTheory
  import opened Transport
  import opened Payloads
  import opened RequestTrace
  import opened RequestMoments
  import opened ClientSteps
  import M = OtaMachine

  method RandomNonce() returns (nonce: seq<byte>)
    ensures |nonce| == NONCE_SIZE
  {
    nonce := *;
    if |nonce| != NONCE_SIZE { nonce := ZeroBytes(NONCE_SIZE); }
  }

  class OtaLinkClient {
    const transport: SerialTransport
    const retries: nat
    const authKey: Option<seq<byte>>
    var sequence: uint16
    /** `sequence` before it is reduced to 16 bits. */
    var counter: nat
    var sessionKey: Option<seq<byte>>
    var authenticated: bool

    ghost predicate Valid()
      reads this, transport
    {
      && Inv(transport.hash, transport.link) && NumbersUpTo(transport.link, counter)
      && sequence == SequenceOf(counter)
      && (authenticated ==> sessionKey.Some? && authKey.Some?)
    }

    ghost function Stands(): Standing
      reads this, transport
    {
      Standing(transport.link, counter, if authenticated then sessionKey else None)
    }

    constructor (t: SerialTransport, retries: nat, key: Option<seq<byte>>, start: uint16)
      requires Inv(t.hash, t.link) && t.link.requests == []
      ensures Valid() && transport == t && this.retries == retries && authKey == key && !authenticated
      ensures counter == start
    {
      transport, this.retries, authKey := t, retries, key;
      sequence, counter := start, start;
      sessionKey, authenticated := None, false;
    }

    /** A sequence number has been drawn and not yet used. */
    ghost predicate Drawn()
      reads this, transport
    {
      && Inv(transport.hash, transport.link) && counter > 0
      && NumbersUpTo(transport.link, counter - 1) && WindowOpen(transport.link, counter - 1, 1)
      && sequence == SequenceOf(counter)
    }

    method NextSequence() returns (next: uint16)
      requires Valid()
      modifies this`sequence, this`counter
      ensures Valid() && counter == old(counter) + 1 && next == sequence && next as nat == counter % 0x1_0000
      ensures WindowOpen(transport.link, old(counter), 1) ==> Drawn()
    {
      hide Inv;
      sequence := (sequence + 1) % SEQUENCES;
      counter := counter + 1;
      next := sequence;
    }

    /** A full chunk fills a frame: with its header, and its tag if there is a key. */
    function MaxOtaChunkDataSize(): (size: nat)
      reads this
      ensures size == ChunkSize(authKey)
      ensures M.DATA_HEADER_SIZE + size + (if authKey.Some? then TAG_SIZE else 0) == MAX_PAYLOAD
    {
      if authKey.Some? then AUTH_OTA_CHUNK_DATA_SIZE else OTA_CHUNK_DATA_SIZE
    }

    /** The host may issue `p` under its current number. */
    ghost predicate MaySend(p: Packet)
      reads this, transport
    {
      Inv(transport.hash, transport.link) && MayIssue(transport.link, counter, p)
    }

    /** The same bytes are sent until they are answered, and `retries` times if they are not. */
    method RequestPacket(p: Packet) returns (reply: Option<Packet>, ghost k: nat)
      requires MaySend(p)
      modifies transport
      ensures Requested(transport.hash, old(transport.link), transport.link, counter, p, reply, k)
      ensures CopyCount.Outstanding(transport.link) <= retries
      ensures WrittenOver(old(transport.written), transport.written, p, retries, reply.Some?)
      ensures AnsweredCalmly(transport.hash, transport.calm, retries, old(transport.link), transport.link, p, reply, k)
    {
      hide Inv, RemoteCall.Grew, Waited, Heard, HeardSmoothly, MayIssue, Requested, Issue, Current,
        CopyCount.Outstanding, WrittenOver, AnsweredCalmly, Idle;
      ghost var before := transport.link;
      IssueGrows(transport.hash, before, counter, p);
      NewRequestHasNoCopies(transport.hash, before, counter, p);
      transport.link := Issue(transport.link, counter, p);
      StillWaits(transport.hash, Issue(before, counter, p));
      IssuedStays(transport.hash, before, transport.link, counter, p);
      reply, k := transport.Retry(p.sequence, retries);
      HeardIsRequested(transport.hash, before, transport.link, counter, p, reply, k);
      IssuedCalmly(transport.hash, transport.calm, retries, before, counter, transport.link, p, reply, k);
    }

    /** `build_packet` and `_request_packet`. */
    method Send(command: byte, payload: seq<byte>) returns (response: Response, ghost x: Pass)
      requires Drawn()
      modifies transport
      ensures SendResult(transport.hash, retries, old(transport.link), transport.link, counter,
                         Packet(VERSION, command, sequence, payload), response, x)
      ensures SentCalmly(transport.hash, transport.calm, retries, old(transport.link),
                         Packet(VERSION, command, sequence, payload), response, x)
    {
      hide Inv, MayIssue, CopyCount.Outstanding, SendResult, Requested, AnsweredCalmly, SentCalmly, WrittenOver;
      ghost var before := transport.link;
      x := NoPass(before);
      var p := Packet(VERSION, command, sequence, payload);
      if BuildPacket(command, sequence, payload).PacketTooLarge? {
        TooLargeSendsNothing(transport.hash, transport.calm, retries, before, counter, p, x);
        return Raised(TooLargeError), x;
      }
      NextMayIssue(before, counter - 1, p);
      var reply;
      ghost var k;
      reply, k := RequestPacket(p);
      RequestedIsSent(transport.hash, retries, before, transport.link, counter, p, reply, k);
      CalmlySent(transport.hash, transport.calm, retries, before, transport.link, counter, p, reply, k, x);
      if reply.None? {
        return Raised(TimeoutError), x;
      }
      return Delivered(reply.value), Pass(before, counter, p, k, transport.link, reply.value);
    }

    /** A request with its payload as it is, under the next number. */
    method RequestUnprotected(command: byte, payload: seq<byte>) returns (response: Response, ghost x: Pass)
      requires Valid() && WindowOpen(transport.link, counter, 1)
      modifies this, transport
      ensures Valid() && counter == old(counter) + 1
      ensures sessionKey == old(sessionKey) && authenticated == old(authenticated)
      ensures SendResult(transport.hash, retries, old(transport.link), transport.link, counter,
                         Packet(VERSION, command, SequenceOf(counter), payload), response, x)
      ensures SentCalmly(transport.hash, transport.calm, retries, old(transport.link),
                         Packet(VERSION, command, SequenceOf(counter), payload), response, x)
      ensures OneMore(transport.hash, old(transport.link), transport.link, counter,
                      Packet(VERSION, command, SequenceOf(counter), payload))
      ensures response.Delivered? ==> UpToDate(transport.link, counter) && WindowOpen(transport.link, counter, 1)
    {
      hide Inv, SendResult, SentCalmly, UpToDate, WindowOpen, OneMore;
      ghost var l := transport.link;
      NumbersStart(l, counter);
      var q := NextSequence();
      response, x := Send(command, payload);
      ghost var p := Packet(VERSION, command, q, payload);
      SentKeeps(transport.hash, retries, l, transport.link, counter, p, response, x);
      SentOneMore(transport.hash, retries, l, transport.link, counter, p, response, x);
      if response.Delivered? { UpToDateIsOpen(transport.link, counter); }
    }

    /** The host's nonce. */
    method SendChallenge(client: seq<byte>) returns (response: Response, ghost x: Pass)
      requires Valid() && WindowOpen(transport.link, counter, 1) && !authenticated
      modifies this, transport
      ensures Valid() && counter == old(counter) + 1 && !authenticated
      ensures SendResult(transport.hash, retries, old(transport.link), transport.link, counter,
                         ChallengePacket(SequenceOf(counter), client), response, x)
      ensures SentCalmly(transport.hash, transport.calm, retries, old(transport.link),
                         ChallengePacket(SequenceOf(counter), client), response, x)
      ensures ShookOnly(transport.hash, old(transport.link), old(counter), transport.link, counter)
      ensures response.Delivered? ==> UpToDate(transport.link, counter) && WindowOpen(transport.link, counter, 1)
    {
      hide Inv, UpToDate, WindowOpen, SendResult, SentCalmly, SequenceOf, NumbersUpTo, OneMore, ShookOnly;
      ghost var l, n := transport.link, counter;
      response, x := RequestUnprotected(CMD_AUTH, client);
      OneShake(transport.hash, l, n, transport.link, ChallengePacket(SequenceOf(counter), client));
    }

    /** The session key is kept as soon as it can be derived, before the proof is sent. */
    method SendProof(key: seq<byte>, client: seq<byte>, server: seq<byte>, ghost l: Link, ghost n: nat)
      returns (response: Response, ghost x: Pass)
      requires Valid() && WindowOpen(transport.link, counter, 1) && !authenticated
      requires counter == n + 1 && ShookOnly(transport.hash, l, n, transport.link, counter)
      modifies this, transport
      ensures Valid() && counter == n + 2 && !authenticated
      ensures sessionKey == Some(SessionKey(transport.hash, key, client, server))
      ensures SendResult(transport.hash, retries, old(transport.link), transport.link, counter,
                         ProofPacket(transport.hash, key, SequenceOf(counter), client, server), response, x)
      ensures SentCalmly(transport.hash, transport.calm, retries, old(transport.link),
                         ProofPacket(transport.hash, key, SequenceOf(counter), client, server), response, x)
      ensures ShookOnly(transport.hash, l, n, transport.link, counter)
      ensures response.Delivered? ==> UpToDate(transport.link, counter) && WindowOpen(transport.link, counter, 1)
    {
      hide Inv, SessionKey, Proof, UpToDate, WindowOpen, SendResult, SentCalmly, SequenceOf, NumbersUpTo, OneMore,
        ShookOnly;
      ghost var c := transport.link;
      sessionKey := Some(SessionKey(transport.hash, key, client, server));
      response, x := RequestUnprotected(CMD_AUTH, client + Proof(transport.hash, key, client, server));
      TwoShakes(transport.hash, l, n, c, transport.link,
                ProofPacket(transport.hash, key, SequenceOf(counter), client, server));
    }

    /** The body of `authenticate`. */
    method Handshake(key: seq<byte>) returns (error: Option<HostError>, ghost s: Shake)
      requires Valid() && WindowOpen(transport.link, counter, 1) && authKey == Some(key) && !authenticated
      modifies this, transport
      ensures Valid() && ShookOnly(transport.hash, old(transport.link), old(counter), transport.link, counter)
      ensures error.None? ==> UpToDate(transport.link, counter) && authenticated
      ensures error.None? ==> ShakenFrom(transport.hash, key, retries, old(transport.link), old(counter), s)
      ensures error.None? ==> Stands() == Opened(transport.hash, key, old(Stands()), Some(s))
      ensures error.Some? ==> !authenticated
      ensures error.Some? ==>
        ShakeFailed(transport.hash, key, retries, old(Stands()), s, transport.link, counter, error.value)
      ensures ShookCalmly(transport.hash, authKey, transport.calm, retries, old(Stands()), Stands(), error)
    {
      hide Inv, SessionKey, Proof, DeviceProof, UpToDate, WindowOpen, SendResult, ShakenFrom, SequenceOf, NumbersUpTo;
      hide NoPass, Opened, ProofPacket, ChallengePacket, ShookOnly, SentCalmly, ShookCalmly, ShakeFailed;
      ghost var b := Stands();
      var nonce := RandomNonce();
      var challenge, x := SendChallenge(nonce);
      ghost var c := transport.link;
      s := Shake(nonce, [], x, x);
      FirstHalf(transport.hash, key, transport.calm, retries, b, s, Stands(), challenge);
      if challenge.Raised? {
        return Some(challenge.error), s;
      }
      if !ChallengePasses(transport.hash, key, nonce, challenge.packet) {
        return Some(SystemExit), s;
      }
      var serverNonce := challenge.packet.payload[1..1 + NONCE_SIZE];
      var response, y := SendProof(key, nonce, serverNonce, b.link, b.counter);
      s := Shake(nonce, serverNonce, x, y);
      SecondHalf(transport.hash, key, transport.calm, retries, b, c, s, Stands(), challenge, response);
      if response.Raised? {
        return Some(response.error), s;
      }
      if !EnsureAck(response.packet) {
        return Some(SystemExit), s;
      }
      SentShake(transport.hash, key, retries, b.link, c, transport.link, b.counter, challenge, response, s);
      authenticated := true;
      return None, s;
    }

    method Authenticate() returns (error: Option<HostError>, ghost opening: Option<Shake>)
      requires Valid() && WindowOpen(transport.link, counter, 1)
      modifies this, transport
      ensures Valid() && ShookOnly(transport.hash, old(transport.link), old(counter), transport.link, counter)
      ensures error.None? ==> WindowOpen(transport.link, counter, 1) && (authKey.Some? ==> authenticated)
      ensures error.None? && authKey.None? ==> Stands() == old(Stands())
      ensures error.None? && authKey.Some? ==>
        && Opens(transport.hash, authKey.value, retries, old(Stands()), opening)
        && Stands() == Opened(transport.hash, authKey.value, old(Stands()), opening)
      ensures error.Some? ==> authKey.Some? && opening.Some? && !authenticated
      ensures error.Some? ==> ShakeFailed(
        transport.hash, authKey.value, retries, old(Stands()), opening.value, transport.link, counter, error.value)
      ensures ShookCalmly(transport.hash, authKey, transport.calm, retries, old(Stands()), Stands(), error)
    {
      hide Inv, UpToDate, WindowOpen, Shaken, SessionKey, ShookOnly, ShookCalmly, ShakeFailed;
      if authKey.None? || authenticated {
        NoShake(transport.hash, transport.link, counter);
        CalmlyNothing(transport.hash, authKey, transport.calm, retries, Stands());
        return None, None;
      }
      ghost var s;
      error, s := Handshake(authKey.value);
      opening := Some(s);
      if error.None? { UpToDateIsOpen(transport.link, counter); }
    }

    method ClearAuthentication()
      modifies this`sessionKey, this`authenticated
      ensures sessionKey == None && !authenticated
    {
      sessionKey, authenticated := None, false;
    }

    /** `_authenticated_payload`, under the number that is drawn next. */
    method AuthenticatedPayload(command: byte, payload: seq<byte>) returns (outgoing: seq<byte>)
      requires Valid() && (authKey.Some? && IsProtected(command) ==> authenticated)
      ensures outgoing == OutgoingPayload(transport.hash, Stands(), command, payload)
    {
      hide Inv, RequestTag, SequenceOf;
      outgoing := payload;
      if authKey.Some? && IsProtected(command) {
        outgoing := payload + RequestTag(transport.hash, sessionKey.value, command, SequenceOf(counter + 1), payload);
      }
    }

    /** One pass: the command, tagged under the session key if it is protected, sent and answered. */
    method Attempt(command: byte, payload: seq<byte>) returns (response: Response, ghost x: Pass)
      requires Valid() && WindowOpen(transport.link, counter, 1)
      requires authKey.Some? && IsProtected(command) ==> authenticated
      modifies this, transport
      ensures Valid() && counter == old(counter) + 1
      ensures authenticated == old(authenticated) && sessionKey == old(sessionKey)
      ensures OneMore(transport.hash, old(transport.link), transport.link, counter,
                      Outgoing(transport.hash, old(Stands()), command, payload))
      ensures response.Delivered? ==> WindowOpen(transport.link, counter, 1)
      ensures response.Delivered? ==> x.after == transport.link && x.number == counter && x.reply == response.packet
      ensures response.Raised? ==> PassFailed(
        transport.hash, old(Stands()), command, payload, transport.link, counter, response.error)
      ensures SentCalmly(transport.hash, transport.calm, retries, old(transport.link),
                         Outgoing(transport.hash, old(Stands()), command, payload), response, x)
      ensures response.Delivered? ==>
        if authKey.Some? && IsProtected(command)
        then SealedPass(transport.hash, retries, old(Stands()), command, payload, x)
        else PlainPass(transport.hash, retries, old(Stands()), command, payload, x)
    {
      hide Inv, Passed, RequestTag, WindowOpen, UpToDate, OneMore, OutgoingPayload, SealedPass, PlainPass, SendResult;
      hide SequenceOf, NumbersUpTo, SentCalmly, PassFailed;
      ghost var s := Stands();
      var outgoing := AuthenticatedPayload(command, payload);
      response, x := RequestUnprotected(command, outgoing);
      if response.Delivered? {
        SentPasses(transport.hash, retries, s, transport.link, command, payload, response, x);
      } else {
        SentFails(transport.hash, retries, s, transport.link, command, payload, response, x);
      }
    }

    /**
     * At most two passes, the second only after the device asked for authentication.
     * What was done is on the trace: a completed protected request, or one plain pass.
     * However it ends, the link is at a moment of this request, at most six numbers on,
     * and it raises an error only for a reason. In calm surroundings it is delivered.
     */
    method Request(command: byte, payload: seq<byte>) returns (response: Response, ghost t: Trace, ghost stop: Stop)
      requires Valid() && WindowOpen(transport.link, counter, 1)
      modifies this, transport
      ensures Valid()
      ensures Stopped(transport.hash, authKey, retries, old(Stands()), command, payload, stop, transport.link, counter)
      ensures response.Delivered? ==> WindowOpen(transport.link, counter, 1) && counter == Last(t).number
      ensures response.Delivered? ==>
        Conducted(transport.hash, authKey, retries, old(Stands()), command, payload, t, response.packet, transport.link)
      ensures response.Raised? ==> RequestFailed(
        transport.hash, authKey, retries, old(Stands()), command, payload, stop, transport.link, counter,
        response.error)
      ensures Stands().sessionKey == SessionLeft(transport.hash, authKey, old(Stands()), command, t, stop, response)
      ensures command in {CMD_REBOOT, CMD_ROLLBACK} && response.Delivered? && response.packet.command == CMD_ACK ==>
        !authenticated
      ensures RequestedCalmly(
        transport.hash, authKey, transport.calm, retries, old(Stands()), command, payload, response, Stands())
    {
      hide Inv, WindowOpen, OneMore, Ended, Completes, PlainPass, SealedPass, Outgoing, SealedFailed, PassFailed;
      hide SentCalmly, RequestedCalmly, Origin;
      if authKey.Some? && IsProtected(command) {
        response, t, stop := RequestSealed(command, payload);
        return;
      }
      ghost var s := Stands();
      stop := Stop(Starting, s);
      ghost var x;
      response, x := Attempt(command, payload);
      t := Trace(None, x, None);
      PlainIsCalm(transport.hash, authKey, transport.calm, retries, s, command, payload, response, x, Stands());
      if (command == CMD_REBOOT || command == CMD_ROLLBACK) && response.Delivered? &&
         response.packet.command == CMD_ACK {
        ClearAuthentication();
        NotPromised(transport.hash, authKey, transport.calm, retries, s, command, payload, response, Stands());
      }
    }

    /** The loop of `request` for a protected command with a key. */
    method RequestSealed(command: byte, payload: seq<byte>)
      returns (response: Response, ghost t: Trace, ghost stop: Stop)
      requires Valid() && WindowOpen(transport.link, counter, 1) && authKey.Some? && IsProtected(command)
      modifies this, transport
      ensures Valid()
      ensures Ended(transport.hash, authKey.value, retries, old(Stands()), command, payload, stop, transport.link,
                    counter)
      ensures response.Delivered? ==> WindowOpen(transport.link, counter, 1) && counter == Last(t).number
      ensures response.Delivered? ==>
        Completes(transport.hash, authKey.value, retries, old(Stands()), command, payload, t, response.packet,
                  transport.link)
      ensures response.Raised? ==> SealedFailed(transport.hash, authKey.value, retries, command, payload, stop,
                                                       transport.link, counter, response.error)
      ensures Stands().sessionKey == SessionLeft(transport.hash, authKey, old(Stands()), command, t, stop, response)
      ensures command in {CMD_REBOOT, CMD_ROLLBACK} && response.Delivered? && response.packet.command == CMD_ACK ==>
        !authenticated
      ensures RequestedCalmly(
        transport.hash, authKey, transport.calm, retries, old(Stands()), command, payload, response, Stands())
    {
      hide Inv, WindowOpen, SealedPass, PlainPass, Opens, Opened, DecideOn, Completes, Verified, SentCalmly;
      hide Ongoing, Renewal, OneMore, Ended, ShookOnly, Outgoing, NumbersUpTo, SequenceOf, SealedFailed, PassFailed;
      hide ShookCalmly, RequestedCalmly, CalmSoFar, ShakeFailed, Last, Origin, PassedWell, Promised;
      ghost var s := Stands();
      t, stop := Trace(None, NoPass(s.link), None), Stop(Starting, s);
      var error;
      ghost var opening;
      error, opening := Authenticate();
      BeginsCalmly(transport.hash, authKey, transport.calm, retries, s, command, payload, Stands(), error);
      if error.Some? {
        EndedOpening(transport.hash, authKey.value, retries, s, command, payload, transport.link, counter);
        FailedShaking(transport.hash, authKey.value, retries, command, payload, stop, opening.value, transport.link,
                      counter, error.value);
        return Raised(error.value), t, stop;
      }
      ghost var g := Fresh(opening);
      OpenedOngoing(transport.hash, authKey.value, retries, s, command, payload, opening, Stands());
      var authRetried := false;
      while true
        invariant Valid() && WindowOpen(transport.link, counter, 1) && authenticated && g.Renewed? == authRetried
        invariant Ongoing(transport.hash, authKey.value, retries, s, command, payload, g, Stands())
        invariant CalmSoFar(
          transport.hash, authKey, transport.calm, retries, s, command, payload, Stands(), authRetried)
        decreases !authRetried
      {
        ghost var now := Stands();
        ghost var x;
        response, x := Attempt(command, payload);
        stop := Stop(Passing(g), now);
        EndedPassing(transport.hash, authKey.value, retries, s, command, payload, g, now, transport.link);
        PassedCalmly(transport.hash, authKey.value, transport.calm, retries, s, command, payload, now, authRetried,
                     response, x, Stands());
        if response.Raised? {
          FailedPassing(transport.hash, authKey.value, retries, command, payload, stop, transport.link, counter,
                        response.error);
          return;
        }
        if IsAuthRequired(response.packet) && !authRetried {
          authRetried := true;
          NowRenewal(transport.hash, authKey.value, retries, s, command, payload, g, now, x);
          ClearAuthentication();
          ghost var shake;
          error, shake := Authenticate();
          RenewsCalmly(transport.hash, authKey.value, transport.calm, retries, s, command, payload, now, x, Stands(),
                       error);
          if error.Some? {
            stop := Stop(Renewing(g.opening, x), Dropped(x));
            EndedRenewing(transport.hash, authKey.value, retries, s, command, payload, g, now, x, transport.link,
                          counter);
            FailedShaking(transport.hash, authKey.value, retries, command, payload, stop, shake.value, transport.link,
                          counter, error.value);
            return Raised(error.value), t, stop;
          }
          RenewedOngoing(transport.hash, authKey.value, retries, s, command, payload, g, now, x, shake, Stands());
          g := Renewed(g.opening, x, shake.value);
          continue;
        }
        var verified := Verified(transport.hash, sessionKey.value, command, sequence, response.packet);
        FinishesCalmly(transport.hash, authKey.value, transport.calm, retries, s, command, payload, now, authRetried, x,
                       Stands());
        if verified.None? {
          FailedVerifying(transport.hash, authKey.value, retries, command, payload, stop, x);
          return Raised(SystemExit), t, stop;
        }
        NowCompletes(transport.hash, authKey.value, retries, s, command, payload, g, now, x, verified.value);
        t := Traced(g, x);
        response := Delivered(verified.value);
        if (command == CMD_REBOOT || command == CMD_ROLLBACK) && response.packet.command == CMD_ACK {
          ClearAuthentication();
          FinishesCalmly(transport.hash, authKey.value, transport.calm, retries, s, command, payload, now, authRetried,
                         x, Stands());
        }
        return;
      }
    }
  }
}
