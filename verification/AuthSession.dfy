/** `auth.c`: the session and its reply cache as the firmware runs them, on its static state. */
module AuthSession {
  import opened Bytes
  import opened Codes
  import opened Esp
  import opened Frame
  import opened HmacSha
  import opened Sealing
  import D = DeviceMachine

  /** The transmit side of the serial port: the packets handed to `protocol_send_packet`. */
  class Uart {
    var sent: seq<Packet>

    constructor ()
      ensures sent == []
    {
      sent := [];
    }

    method SendPacket(command: byte, sequence: uint16, payload: seq<byte>)
      modifies this
      ensures sent == old(sent) + [Packet(VERSION, command, sequence, payload)]
    {
      sent := sent + [Packet(VERSION, command, sequence, payload)];
    }
  }

  // ---- The search through the ring ----

  /** None of the first `count` places holds the request's pair. */
  predicate Missed(ring: seq<Option<D.Entry>>, p: Packet, count: nat)
    requires count <= |ring|
  {
    forall j | 0 <= j < count :: !D.SamePair(ring[j], p)
  }

  lemma NoneMissed(ring: seq<Option<D.Entry>>, p: Packet)
    ensures Missed(ring, p, 0)
  {
  }

  lemma MissedAlso(ring: seq<Option<D.Entry>>, p: Packet, i: nat)
    requires i < |ring| && Missed(ring, p, i)
    requires ring[i].None? || ring[i].value.command != p.command || ring[i].value.sequence != p.sequence
    ensures Missed(ring, p, i + 1)
  {
  }

  lemma FirstMatch(ring: seq<Option<D.Entry>>, p: Packet, i: nat)
    requires i < |ring| && Missed(ring, p, i)
    requires ring[i].Some? && ring[i].value.command == p.command && ring[i].value.sequence == p.sequence
    ensures D.FindEntry(ring, p) == i
  {
    hide D.FindEntry;
  }

  lemma NoMatch(ring: seq<Option<D.Entry>>, p: Packet)
    requires Missed(ring, p, |ring|)
    ensures D.FindEntry(ring, p) == -1
  {
    hide D.FindEntry, D.SamePair;
  }

  class Session {
    const hash: Hash
    const uart: Uart
    const replayCache: array<Option<D.Entry>>
    var required: bool
    var pending: bool
    var authenticated: bool
    var key: seq<byte>
    var clientNonce: seq<byte>
    var serverNonce: seq<byte>
    var sessionKey: seq<byte>
    var nextReplayEntry: nat

    ghost predicate Valid()
      reads this
    {
      && replayCache.Length == D.CACHE_SIZE && nextReplayEntry < D.CACHE_SIZE
      && |clientNonce| == |serverNonce| == NONCE_SIZE
    }

    ghost function State(): D.Auth
      reads this, replayCache
    {
      D.Auth(required, pending, authenticated, key, clientNonce, serverNonce, sessionKey,
        replayCache[..], nextReplayEntry)
    }

    constructor (h: Hash, u: Uart, key: seq<byte>, requireAuthentication: bool)
      ensures Valid() && fresh(replayCache) && hash == h && uart == u
      ensures State() == D.Configure(key, requireAuthentication)
    {
      hash, uart := h, u;
      replayCache := new Option<D.Entry>[D.CACHE_SIZE](_ => None);
      nextReplayEntry := 0;
      required, pending, authenticated := false, false, false;
      this.key, sessionKey := [], [];
      clientNonce, serverNonce := ZeroBytes(NONCE_SIZE), ZeroBytes(NONCE_SIZE);
      new;
      Configure(key, requireAuthentication);
    }

    method ClearReplayCache()
      requires Valid()
      modifies this`nextReplayEntry, replayCache
      ensures Valid() && replayCache[..] == D.EmptyRing() && nextReplayEntry == 0
    {
      for i := 0 to D.CACHE_SIZE
        invariant forall j | 0 <= j < i :: replayCache[j].None?
      {
        replayCache[i] := None;
      }
      assert forall j | 0 <= j < D.CACHE_SIZE :: replayCache[..][j] == D.EmptyRing()[j];
      nextReplayEntry := 0;
    }

    /** Clears everything; a missing or over-long key leaves authentication off. */
    method Configure(newKey: seq<byte>, requireAuthentication: bool)
      requires Valid()
      modifies this, replayCache
      ensures Valid() && State() == D.Configure(newKey, requireAuthentication)
    {
      ClearReplayCache();
      required, pending, authenticated := false, false, false;
      key := [];
      clientNonce, serverNonce, sessionKey := ZeroBytes(NONCE_SIZE), ZeroBytes(NONCE_SIZE), ZeroBytes(SHA256_SIZE);
      if |newKey| == 0 || |newKey| > D.KEY_MAX_SIZE {
        return;
      }
      key := newKey;
      required := requireAuthentication;
    }

    /** HMAC of a prefix and a nonce pair under the pre-shared key. */
    method HmacNoncePair(prefix: seq<byte>, client: seq<byte>, server: seq<byte>) returns (output: Option<seq<byte>>)
      requires |client| == |server| == NONCE_SIZE && prefix in {PROOF_PREFIX, DEVICE_PROOF_PREFIX, SESSION_PREFIX}
      ensures output == Some(Hmac(hash, key, NonceInput(prefix, client, server)))
    {
      hide Hmac;
      InputsFit(0, 0, 0, [], prefix, client, server);
      output := HmacSha256(hash, key, prefix + client + server);
    }

    method ComputePacketTag(command: byte, sequence: uint16, payload: seq<byte>) returns (tag: Option<seq<byte>>)
      requires |payload| <= MAX_PAYLOAD
      ensures tag == Some(RequestTag(hash, sessionKey, command, sequence, payload))
    {
      hide Hmac, Le16;
      InputsFit(command, 0, sequence, payload, SESSION_PREFIX, ZeroBytes(NONCE_SIZE), ZeroBytes(NONCE_SIZE));
      var digest := HmacSha256(hash, sessionKey, RequestInput(command, sequence, payload));
      tag := Some(digest.value[..TAG_SIZE]);
    }

    method ComputeResponseTag(request: byte, response: byte, sequence: uint16, payload: seq<byte>)
      returns (tag: seq<byte>)
      requires |payload| <= MAX_PAYLOAD
      ensures tag == ResponseTag(hash, sessionKey, request, response, sequence, payload)
    {
      hide Hmac, Le16;
      InputsFit(request, response, sequence, payload, SESSION_PREFIX, ZeroBytes(NONCE_SIZE), ZeroBytes(NONCE_SIZE));
      var digest := HmacSha256(hash, sessionKey, ResponseInput(request, response, sequence, payload));
      tag := digest.value[..TAG_SIZE];
    }

    /** What `auth_handle_packet` has to do: send the reply itself, or report an error and send nothing. */
    ghost predicate Handles(result: D.AuthResult, before: seq<Packet>, error: byte)
      reads this, replayCache, uart
    {
      && State() == result.auth
      && match result
         case Sent(_, reply) => error == ERR_OK && uart.sent == before + [reply]
         case Failed(_, e) => error == e != ERR_OK && uart.sent == before
    }

    method HandlePacket(p: Packet, nonce: seq<byte>) returns (error: byte)
      requires Valid() && |nonce| == NONCE_SIZE
      modifies this, replayCache, uart
      ensures Valid() && Handles(D.HandleAuth(hash, old(State()), p, nonce), old(uart.sent), error)
    {
      hide Hmac;
      if !required {
        return ERR_UNKNOWN_COMMAND;
      }
      if |p.payload| == NONCE_SIZE {
        error := StartChallenge(p, nonce);
        return;
      }
      if |p.payload| == NONCE_SIZE + TAG_SIZE {
        if !pending && !authenticated {
          return ERR_AUTH_REQUIRED;
        }
        if p.payload[..NONCE_SIZE] != clientNonce {
          return ERR_AUTH_REQUIRED;
        }
        var expected := HmacNoncePair(PROOF_PREFIX, clientNonce, serverNonce);
        if expected.None? || p.payload[NONCE_SIZE..] != expected.value[..TAG_SIZE] {
          return ERR_AUTH_REQUIRED;
        }
        pending := false;
        authenticated := true;
        uart.SendPacket(CMD_ACK, p.sequence, [ERR_OK]);
        return ERR_OK;
      }
      return ERR_INVALID_LENGTH;
    }

    method StartChallenge(p: Packet, nonce: seq<byte>) returns (error: byte)
      requires Valid() && |nonce| == NONCE_SIZE && |p.payload| == NONCE_SIZE
      modifies this, replayCache, uart
      ensures Valid() && Handles(D.Challenge(hash, old(State()), p, nonce), old(uart.sent), error)
    {
      hide Hmac;
      clientNonce := p.payload;
      serverNonce := nonce;
      var derived := HmacNoncePair(SESSION_PREFIX, clientNonce, serverNonce);
      if derived.None? {
        return ERR_AUTH_REQUIRED;
      }
      sessionKey := derived.value;
      pending := true;
      authenticated := false;
      ClearReplayCache();
      var deviceProof := HmacNoncePair(DEVICE_PROOF_PREFIX, clientNonce, serverNonce);
      if deviceProof.None? {
        return ERR_AUTH_REQUIRED;
      }
      uart.SendPacket(CMD_ACK, p.sequence, [ERR_OK] + serverNonce + deviceProof.value[..TAG_SIZE]);
      return ERR_OK;
    }

    /** Looks the request up before any side effect: resends the cached reply, or reports an error, or neither. */
    method CheckReplay(p: Packet) returns (error: byte, replayed: bool)
      requires Valid() && |p.payload| <= MAX_PAYLOAD
      modifies uart
      ensures match D.CheckReplay(hash, State(), p)
        case New => error == ERR_OK && !replayed && uart.sent == old(uart.sent)
        case Refused(e) => error == e != ERR_OK && !replayed && uart.sent == old(uart.sent)
        case Replayed(reply) => error == ERR_OK && replayed && uart.sent == old(uart.sent) + [reply]
    {
      hide D.RequestDigest, D.FindEntry, D.SamePair, D.Respond, Missed;
      if !required || !IsProtected(p.command) {
        return ERR_OK, false;
      }
      if !authenticated {
        return ERR_AUTH_REQUIRED, false;
      }
      var digest := D.RequestDigest(hash, p);
      ghost var ring := replayCache[..];
      NoneMissed(ring, p);
      for i := 0 to D.CACHE_SIZE
        invariant uart.sent == old(uart.sent) && Missed(ring, p, i)
      {
        var entry := replayCache[i];
        if entry.None? || entry.value.command != p.command || entry.value.sequence != p.sequence {
          MissedAlso(ring, p, i);
          continue;
        }
        FirstMatch(ring, p, i);
        if entry.value.digest != digest {
          return ERR_AUTH_REQUIRED, false;
        }
        uart.SendPacket(entry.value.responseCommand, p.sequence, entry.value.response);
        return ERR_OK, true;
      }
      NoMatch(ring, p);
      return ERR_OK, false;
    }

    /** Checks the tag; `length` says how much of the payload is the command's own. */
    method UnwrapPacket(p: Packet) returns (error: byte, length: nat)
      requires Valid() && |p.payload| <= MAX_PAYLOAD
      ensures length <= |p.payload|
      ensures match D.Unwrap(hash, State(), p)
        case Payload(payload) => error == ERR_OK && p.payload[..length] == payload
        case Denied(e) => error == e != ERR_OK
    {
      hide RequestTag;
      if !required || !IsProtected(p.command) {
        return ERR_OK, |p.payload|;
      }
      if !authenticated || |p.payload| < TAG_SIZE {
        return ERR_AUTH_REQUIRED, |p.payload|;
      }
      var unwrapped := |p.payload| - TAG_SIZE;
      var expected := ComputePacketTag(p.command, p.sequence, p.payload[..unwrapped]);
      if expected.None? || p.payload[unwrapped..] != expected.value {
        return ERR_AUTH_REQUIRED, |p.payload|;
      }
      return ERR_OK, unwrapped;
    }

    /** Writes the next place of the ring. */
    method Remember(entry: D.Entry)
      requires Valid()
      modifies this`nextReplayEntry, replayCache
      ensures Valid()
      ensures State() == old(State()).(ring := old(replayCache[..])[old(nextReplayEntry) := Some(entry)],
                                       nextEntry := (old(nextReplayEntry) + 1) % D.CACHE_SIZE)
    {
      replayCache[nextReplayEntry] := Some(entry);
      nextReplayEntry := (nextReplayEntry + 1) % D.CACHE_SIZE;
    }

    method SendSigned(request: Packet, command: byte, response: seq<byte>)
      requires Valid()
      modifies this`nextReplayEntry, replayCache, uart
      ensures Valid()
      ensures uart.sent == old(uart.sent) + [Packet(VERSION, command, request.sequence, response)]
      ensures var entry := D.Entry(request.command, request.sequence, D.RequestDigest(hash, request), command,
        response);
        State() == old(State()).(ring := old(replayCache[..])[old(nextReplayEntry) := Some(entry)],
                                 nextEntry := (old(nextReplayEntry) + 1) % D.CACHE_SIZE)
    {
      hide D.RequestDigest;
      Remember(D.Entry(request.command, request.sequence, D.RequestDigest(hash, request), command, response));
      uart.SendPacket(command, request.sequence, response);
    }

    method SendResponse(request: Packet, command: byte, payload: seq<byte>)
      requires Valid() && |request.payload| <= MAX_PAYLOAD && |payload| <= MAX_PAYLOAD
      modifies this`nextReplayEntry, replayCache, uart
      ensures Valid()
      ensures var r := D.Respond(hash, old(State()), request, command, payload);
        State() == r.auth && uart.sent == old(uart.sent) + [r.reply]
    {
      hide ResponseTag, D.RequestDigest;
      if !(required && authenticated && IsProtected(request.command)) {
        uart.SendPacket(command, request.sequence, payload);
        return;
      }
      if |payload| + TAG_SIZE > MAX_PAYLOAD {
        uart.SendPacket(CMD_NACK, request.sequence, [ERR_INVALID_LENGTH]);
        return;
      }
      var tag := ComputeResponseTag(request.command, command, request.sequence, payload);
      SendSigned(request, command, payload + tag);
    }

    /** `auth_send_ack` and `auth_send_nack`. */
    method SendStatus(request: Packet, error: byte)
      requires Valid() && |request.payload| <= MAX_PAYLOAD
      modifies this`nextReplayEntry, replayCache, uart
      ensures Valid()
      ensures var r := D.RespondStatus(hash, old(State()), request, error);
        State() == r.auth && uart.sent == old(uart.sent) + [r.reply]
    {
      hide D.Respond;
      SendResponse(request, if error == ERR_OK then CMD_ACK else CMD_NACK, [error]);
    }
  }
}
