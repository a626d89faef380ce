/**
 * The challenge/response handshake over the lossy link: whenever the host takes it
 * for complete, the device agrees, whatever was lost, repeated or redrawn.
 */
module HandshakeTheory {
  import opened Bytes
  import opened Codes
  import opened Esp
  import opened Frame
  import opened HmacSha
  import opened Sealing
  import opened DeviceMachine
  import opened LossyLink
  import opened RemoteCall
  import S = SessionTheory
  import T = DispatchTheory

  /** A device that requires authentication with this pre-shared key. */
  predicate Keyed(h: Hash, key: seq<byte>, d: Device)
  {
    S.Inv(h, d.auth) && d.auth.required && d.auth.key == key && 0 < |key| <= KEY_MAX_SIZE
  }

  lemma KeyedShape(h: Hash, key: seq<byte>, d: Device)
    requires Keyed(h, key, d)
    ensures T.Shaped(d)
  {
    S.ShapeOfInv(h, d.auth);
  }

  lemma KeyedAfter(h: Hash, key: seq<byte>, d: Device, p: Packet, o: Outcome)
    requires Keyed(h, key, d) && Usable(o)
    ensures T.Shaped(d) && Keyed(h, key, After(h, d, p, o))
  {
    KeyedShape(h, key, d);
    S.HandleKeepsInv(h, d, p, o);
    T.RequiredStays(h, d, p, o);
    hide S.Inv, Handle;
  }

  lemma {:induction false} KeyedStays(h: Hash, key: seq<byte>, l: Link, m: Link, j: nat)
    requires Inv(h, m) && Grew(l, m) && Keyed(h, key, l.device) && |l.log| <= j <= |m.log|
    ensures Keyed(h, key, StateAt(m, j))
    decreases j
  {
    hide Inv, Keyed, After, Answer, T.Shaped, Grew;
    if j == |l.log| {
      GrewStart(l, m);
    } else {
      KeyedStays(h, key, l, m, j - 1);
      KeyedRecord(h, key, m, j - 1);
    }
  }

  lemma KeyedRecord(h: Hash, key: seq<byte>, m: Link, j: nat)
    requires Inv(h, m) && j < |m.log| && Keyed(h, key, StateAt(m, j))
    ensures Keyed(h, key, StateAt(m, j + 1))
  {
    RecordStep(h, m, j);
    hide Inv, Keyed, After, Answer, T.Shaped;
    KeyedAfter(h, key, m.log[j].before, m.requests[m.log[j].id].packet, m.log[j].outcome);
  }

  // ---- One packet of the handshake ----

  function ChallengePacket(sequence: uint16, client: seq<byte>): Packet
  {
    Packet(VERSION, CMD_AUTH, sequence, client)
  }

  function ProofPacket(h: Hash, key: seq<byte>, sequence: uint16, client: seq<byte>, server: seq<byte>): Packet
  {
    Packet(VERSION, CMD_AUTH, sequence, client + Proof(h, key, client, server))
  }

  /** The session is on, with these nonces. */
  predicate Established(h: Hash, key: seq<byte>, d: Device, client: seq<byte>)
  {
    && Keyed(h, key, d) && d.auth.authenticated
    && d.auth.clientNonce == client && |client| == |d.auth.serverNonce| == NONCE_SIZE
    && d.auth.sessionKey == SessionKey(h, key, client, d.auth.serverNonce)
  }

  /** Two different server nonces give the same proof. */
  predicate ProofsCollide(h: Hash, key: seq<byte>, client: seq<byte>, s1: seq<byte>, s2: seq<byte>)
  {
    s1 != s2 && Proof(h, key, client, s1) == Proof(h, key, client, s2)
  }

  /** The device accepts the proof just when its own nonces give the same one. */
  lemma ProofAnswered(
    h: Hash, key: seq<byte>, d: Device, sequence: uint16, client: seq<byte>, server: seq<byte>, o: Outcome)
    requires Keyed(h, key, d) && |client| == NONCE_SIZE && Usable(o)
    ensures T.Shaped(d)
    ensures var p := ProofPacket(h, key, sequence, client, server); var r := Answer(h, d, p, o);
      var v := After(h, d, p, o);
      if (d.auth.pending || d.auth.authenticated) && d.auth.clientNonce == client &&
         Proof(h, key, client, d.auth.serverNonce) == Proof(h, key, client, server)
      then r == Reply(p, CMD_ACK, [ERR_OK]) && Established(h, key, v, client) &&
           v.auth.serverNonce == d.auth.serverNonce && (d.auth.authenticated ==> v == d)
      else r == Nack(p, ERR_AUTH_REQUIRED) && v == d
  {
    KeyedShape(h, key, d);
    var p := ProofPacket(h, key, sequence, client, server);
    KeyedAfter(h, key, d, p, o);
    assert p.payload[..NONCE_SIZE] == client && p.payload[NONCE_SIZE..] == Proof(h, key, client, server);
    hide SessionKey, Proof, S.EmptyFirst, S.Aged, S.AllSigned, S.AllEmpty;
  }

  /** A device whose session is on with this proof, and stays so while the proof is repeated. */
  predicate Agreed(h: Hash, key: seq<byte>, d: Device, client: seq<byte>, server: seq<byte>)
  {
    Established(h, key, d, client) && Proof(h, key, client, d.auth.serverNonce) == Proof(h, key, client, server)
  }

  lemma AgreedIsInert(h: Hash, key: seq<byte>, d: Device, sequence: uint16, client: seq<byte>, server: seq<byte>)
    requires Agreed(h, key, d, client, server)
    ensures T.Shaped(d) && Inert(h, d, ProofPacket(h, key, sequence, client, server))
  {
    KeyedShape(h, key, d);
    forall o | Usable(o)
      ensures After(h, d, ProofPacket(h, key, sequence, client, server), o) == d
    {
      ProofAnswered(h, key, d, sequence, client, server, o);
      hide Keyed, After, Answer;
    }
    hide Keyed, After;
  }

  /** The reply cache is empty. */
  predicate CacheClear(d: Device) { d.auth.ring == EmptyRing() && d.auth.nextEntry == 0 }

  lemma AuthPacketEffect(h: Hash, d: Device, p: Packet, o: Outcome)
    requires T.Shaped(d) && p.version == VERSION && p.command == CMD_AUTH
    ensures var v := After(h, d, p, o);
      && v.ota == d.ota && v.restarts == d.restarts
      && (CacheClear(d) ==> CacheClear(v))
      && (d.auth.required && |p.payload| == NONCE_SIZE ==> CacheClear(v))
  {
    hide SessionKey, Proof, DeviceProof;
  }

  /** The host's reading of the reply to its challenge. */
  predicate ChallengePasses(h: Hash, key: seq<byte>, client: seq<byte>, reply: Packet)
  {
    && reply.command == CMD_ACK && |reply.payload| == 1 + NONCE_SIZE + TAG_SIZE && reply.payload[0] == ERR_OK
    && reply.payload[1 + NONCE_SIZE..] == DeviceProof(h, key, client, reply.payload[1..1 + NONCE_SIZE])
  }

  /** A device that holds the key always passes the host's checks. */
  lemma HonestChallengePasses(h: Hash, key: seq<byte>, d: Device, sequence: uint16, client: seq<byte>, o: Outcome)
    requires Keyed(h, key, d) && |client| == NONCE_SIZE && Usable(o)
    ensures T.Shaped(d) && ChallengePasses(h, key, client, Answer(h, d, ChallengePacket(sequence, client), o))
    ensures Answer(h, d, ChallengePacket(sequence, client), o).payload[1..1 + NONCE_SIZE] == o.nonce
  {
    KeyedShape(h, key, d);
    hide SessionKey, DeviceProof, S.Inv;
    var r := Answer(h, d, ChallengePacket(sequence, client), o);
    assert r.payload == [ERR_OK] + o.nonce + DeviceProof(h, key, client, o.nonce);
    assert r.payload[1..17] == o.nonce && r.payload[17..] == DeviceProof(h, key, client, o.nonce);
  }

  // ---- The handshake over the link ----

  /** From `l` the host sent a challenge and then a proof, and accepted the replies of records `k1` and `k2`. */
  predicate Handshake(
    h: Hash, l: Link, m: Link, n1: nat, p1: Packet, k1: nat, n2: nat, p2: Packet, k2: nat)
  {
    && m.requests == l.requests + [Request.Request(n1, p1), Request.Request(n2, p2)]
    && Inv(h, m) && Grew(l, m) && m.floor == |l.requests| + 1
    && |l.log| <= k1 < |m.log| && m.log[k1].id == |l.requests|
    && |l.log| <= k2 < |m.log| && forall j | k2 <= j < |m.log| :: m.log[j].id == |l.requests| + 1
  }

  lemma TwoCalls(h: Hash, l: Link, c: Link, m: Link, n1: nat, p1: Packet, k1: nat, n2: nat, p2: Packet, k2: nat)
    requires Answered(h, l, c, n1, p1, k1) && Answered(h, c, m, n2, p2, k2)
    ensures Handshake(h, l, m, n1, p1, k1, n2, p2, k2)
    ensures m.log[k1] == c.log[k1]
  {
    hide Inv;
    GrewTransitive(l, c, m);
    assert m.log[k1] == c.log[k1];
  }

  /** Record `j` is the handling of this packet. */
  predicate Carries(m: Link, j: nat, p: Packet)
  {
    j < |m.log| && m.log[j].id < |m.requests| && m.requests[m.log[j].id].packet == p
  }

  /** What is known of each record of the handshake. */
  lemma HandshakeRecord(
    h: Hash, key: seq<byte>, l: Link, m: Link, n1: nat, p1: Packet, k1: nat, n2: nat, p2: Packet, k2: nat, j: nat)
    requires Keyed(h, key, l.device) && Handshake(h, l, m, n1, p1, k1, n2, p2, k2)
    requires k1 <= j < |m.log| || k2 <= j < |m.log|
    ensures Inv(h, m) && Keyed(h, key, StateAt(m, j)) && k1 < k2
    ensures k1 <= j ==> Carries(m, j, p1) || Carries(m, j, p2)
    ensures j == k1 ==> Carries(m, j, p1)
    ensures k2 <= j ==> Carries(m, j, p2)
  {
    hide Inv, Keyed, Grew;
    SortedRecords(h, m, k1, k2, j);
    KeyedStays(h, key, l, m, j);
  }

  lemma SortedRecords(h: Hash, m: Link, k1: nat, k2: nat, j: nat)
    requires Inv(h, m) && k1 < |m.log| && k2 < |m.log| && j < |m.log|
    ensures m.log[j].id < |m.requests|
    ensures k1 <= j ==> m.log[k1].id <= m.log[j].id
    ensures k1 >= k2 ==> m.log[k1].id >= m.log[k2].id
  {
    hide Recorded, Numbered;
  }

  lemma ProofRecord(
    h: Hash, key: seq<byte>, m: Link, j: nat, sequence: uint16, client: seq<byte>, server: seq<byte>)
    requires Inv(h, m) && j < |m.log| && Keyed(h, key, StateAt(m, j)) && |client| == NONCE_SIZE
    requires Carries(m, j, ProofPacket(h, key, sequence, client, server))
    requires m.log[j].reply.command == CMD_ACK || Agreed(h, key, StateAt(m, j), client, server)
    ensures Agreed(h, key, StateAt(m, j + 1), client, server)
  {
    RecordStep(h, m, j);
    hide Inv, Keyed, After, Answer, T.Shaped, Proof, SessionKey;
    ProofAnswered(h, key, m.log[j].before, sequence, client, server, m.log[j].outcome);
  }

  /** The accepted proof leaves the session on, and every later record keeps it. */
  lemma {:induction false} ProofHolds(
    h: Hash, key: seq<byte>, l: Link, m: Link, n1: nat, p1: Packet, k1: nat, n2: nat, k2: nat, sequence: uint16,
    client: seq<byte>, server: seq<byte>, j: nat)
    requires Keyed(h, key, l.device) && |client| == NONCE_SIZE
    requires Handshake(h, l, m, n1, p1, k1, n2, ProofPacket(h, key, sequence, client, server), k2)
    requires m.log[k2].reply.command == CMD_ACK && k2 <= j < |m.log|
    ensures Agreed(h, key, StateAt(m, j + 1), client, server)
    decreases j
  {
    hide Inv, Keyed, Handshake, ProofPacket, Agreed, Carries, StateAt, Proof;
    var p2 := ProofPacket(h, key, sequence, client, server);
    HandshakeRecord(h, key, l, m, n1, p1, k1, n2, p2, k2, j);
    if j > k2 {
      ProofHolds(h, key, l, m, n1, p1, k1, n2, k2, sequence, client, server, j - 1);
      assert j - 1 + 1 == j;
    }
    ProofRecord(h, key, m, j, sequence, client, server);
  }

  predicate IsHandshake(p1: Packet, p2: Packet)
  {
    p1.version == p2.version == VERSION && p1.command == p2.command == CMD_AUTH && |p1.payload| == NONCE_SIZE
  }

  lemma AuthRecord(h: Hash, key: seq<byte>, m: Link, j: nat, p: Packet)
    requires Inv(h, m) && Carries(m, j, p) && Keyed(h, key, StateAt(m, j))
    requires p.version == VERSION && p.command == CMD_AUTH && (CacheClear(StateAt(m, j)) || |p.payload| == NONCE_SIZE)
    ensures CacheClear(StateAt(m, j + 1))
  {
    RecordStep(h, m, j);
    hide Inv, S.Inv, After, Answer, T.Shaped, CacheClear;
    AuthPacketEffect(h, m.log[j].before, m.requests[m.log[j].id].packet, m.log[j].outcome);
  }

  lemma CacheRecord(h: Hash, key: seq<byte>, m: Link, j: nat, p1: Packet, p2: Packet)
    requires j < |m.log| && (Carries(m, j, p1) || Carries(m, j, p2)) && IsHandshake(p1, p2)
    requires Keyed(h, key, StateAt(m, j)) && Inv(h, m)
    requires CacheClear(StateAt(m, j)) || Carries(m, j, p1)
    ensures CacheClear(StateAt(m, j + 1))
  {
    hide Inv, Keyed, CacheClear, StateAt;
    if Carries(m, j, p1) { AuthRecord(h, key, m, j, p1); } else { AuthRecord(h, key, m, j, p2); }
  }

  predicate ClearAfter(m: Link, j: nat) { CacheClear(StateAt(m, j + 1)) }

  lemma ClearBefore(m: Link, j: nat)
    requires 0 < j && ClearAfter(m, j - 1)
    ensures CacheClear(StateAt(m, j))
  {
  }

  lemma CacheAdvances(
    h: Hash, key: seq<byte>, l: Link, m: Link, n1: nat, p1: Packet, k1: nat, n2: nat, p2: Packet, k2: nat, j: nat)
    requires Keyed(h, key, l.device) && Handshake(h, l, m, n1, p1, k1, n2, p2, k2) && IsHandshake(p1, p2)
    requires k1 <= j < |m.log| && (j == k1 || ClearAfter(m, j - 1))
    ensures ClearAfter(m, j)
  {
    hide Inv, Keyed, Handshake, CacheClear, Carries, StateAt;
    HandshakeRecord(h, key, l, m, n1, p1, k1, n2, p2, k2, j);
    if j > k1 { ClearBefore(m, j); }
    CacheRecord(h, key, m, j, p1, p2);
  }

  /** From the accepted challenge on, the reply cache is empty after every record. */
  lemma {:induction false} CacheStaysClear(
    h: Hash, key: seq<byte>, l: Link, m: Link, n1: nat, p1: Packet, k1: nat, n2: nat, p2: Packet, k2: nat, j: nat)
    requires Keyed(h, key, l.device) && Handshake(h, l, m, n1, p1, k1, n2, p2, k2) && IsHandshake(p1, p2)
    requires k1 <= j < |m.log|
    ensures ClearAfter(m, j)
    decreases j
  {
    hide Keyed, Handshake, ClearAfter;
    if j > k1 {
      CacheStaysClear(h, key, l, m, n1, p1, k1, n2, p2, k2, j - 1);
    }
    CacheAdvances(h, key, l, m, n1, p1, k1, n2, p2, k2, j);
  }

  /**
   * Whenever both replies are accepted and the second is an ACK, the device's
   * session is on with the host's session key and an empty reply cache, and
   * nothing in flight changes the device any more: or else the two server nonces
   * are a collision of the proof.
   */
  lemma HandshakeAgreement(
    h: Hash, key: seq<byte>, l: Link, m: Link, n1: nat, k1: nat, n2: nat, k2: nat,
    q1: uint16, q2: uint16, client: seq<byte>, server: seq<byte>)
    requires Keyed(h, key, l.device) && |client| == NONCE_SIZE
    requires Handshake(h, l, m, n1, ChallengePacket(q1, client), k1, n2, ProofPacket(h, key, q2, client, server), k2)
    requires m.log[k2].reply.command == CMD_ACK
    ensures Established(h, key, m.device, client) && CacheClear(m.device)
    ensures T.Shaped(m.device) && Settled(h, m)
    ensures m.device.auth.sessionKey == SessionKey(h, key, client, server) ||
            ProofsCollide(h, key, client, server, m.device.auth.serverNonce)
  {
    hide Keyed, Inert, Inv, Grew, Proof, SessionKey, CacheClear, S.Inv, After, Answer;
    var p1, p2 := ChallengePacket(q1, client), ProofPacket(h, key, q2, client, server);
    ProofHolds(h, key, l, m, n1, p1, k1, n2, k2, q2, client, server, |m.log| - 1);
    HandshakeRecord(h, key, l, m, n1, p1, k1, n2, p2, k2, k2);
    CacheStaysClear(h, key, l, m, n1, p1, k1, n2, p2, k2, |m.log| - 1);
    AgreedIsInert(h, key, m.device, q2, client, server);
    assert m.requests[|l.requests| + 1].packet == p2;
  }

  // ---- The handshake touches nothing but the session ----

  /**
   * Before record `j` of the handshake: no command has had any effect, and none of the session
   * before the challenge.
   */
  predicate Quiet(l: Link, m: Link, j: nat)
  {
    var v := StateAt(m, j);
    && v.ota == l.device.ota && v.restarts == l.device.restarts
    && (j <= |l.log| || (j <= |m.log| && m.log[j - 1].id < |l.requests|) ==> v == l.device)
  }

  /** Everything sent since `l` belongs to a handshake, completed or not. */
  predicate OnlyAuth(l: Link, m: Link)
  {
    l.requests <= m.requests && forall id | |l.requests| <= id < |m.requests| :: IsAuth(m.requests[id].packet)
  }

  predicate IsAuth(p: Packet) { p.version == VERSION && p.command == CMD_AUTH }

  /** From a settled link to a device with the key the host has sent nothing but challenges and proofs. */
  ghost predicate Shaking(h: Hash, key: seq<byte>, l: Link, m: Link)
  {
    && Keyed(h, key, l.device) && T.Shaped(l.device) && Settled(h, l)
    && OnlyAuth(l, m) && Inv(h, m) && Grew(l, m)
  }

  lemma QuietRecord(h: Hash, key: seq<byte>, l: Link, m: Link, j: nat)
    requires Shaking(h, key, l, m) && |l.log| <= j < |m.log| && Quiet(l, m, j)
    ensures Quiet(l, m, j + 1)
  {
    hide Inv, Keyed, After, Answer, T.Shaped, Inert;
    KeyedStays(h, key, l, m, j);
    RecordStep(h, m, j);
    var x := m.log[j];
    KeyedShape(h, key, x.before);
    var p := m.requests[x.id].packet;
    if x.id < |l.requests| {
      if 0 < j { SortedLog(h, m, j); }
      assert x.before == l.device;
      assert p == l.requests[x.id].packet;
      InertStep(h, l.device, p, x.outcome);
    } else {
      AuthPacketEffect(h, x.before, p, x.outcome);
    }
  }

  lemma QuietNext(h: Hash, key: seq<byte>, l: Link, m: Link, j: nat)
    requires Shaking(h, key, l, m) && |l.log| < j <= |m.log| && Quiet(l, m, j - 1)
    ensures Quiet(l, m, j)
  {
    hide Shaking;
    QuietRecord(h, key, l, m, j - 1);
  }

  lemma QuietStart(h: Hash, key: seq<byte>, l: Link, m: Link)
    requires Shaking(h, key, l, m)
    ensures Quiet(l, m, |l.log|)
  {
    hide Inv, Keyed, T.Shaped, Settled, OnlyAuth;
  }

  lemma InertStep(h: Hash, d: Device, p: Packet, o: Outcome)
    requires T.Shaped(d) && Inert(h, d, p) && Usable(o)
    ensures After(h, d, p, o) == d
  {
    hide After;
  }

  /**
   * If nothing in flight could change the device, a handshake leaves transfer, flash
   * and boot pointer as they were, at each of its moments and whether or not it is
   * ever completed.
   */
  lemma {:induction false} HandshakeIsQuiet(h: Hash, key: seq<byte>, l: Link, m: Link, j: nat)
    requires Shaking(h, key, l, m) && |l.log| <= j <= |m.log|
    ensures Quiet(l, m, j)
    decreases j
  {
    hide Shaking, Quiet;
    if j == |l.log| {
      QuietStart(h, key, l, m);
    } else {
      HandshakeIsQuiet(h, key, l, m, j - 1);
      QuietNext(h, key, l, m, j);
    }
  }
}
