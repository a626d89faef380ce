/** The authenticated inputs of the link and the tags made from them. */
module Sealing {
  import opened Bytes
  import opened Codes
  import opened HmacSha

  const NONCE_SIZE: nat := 16
  const TAG_SIZE: nat := 16

  // "auth-proof", "device-proof", "session" and "response" in ASCII.
  const PROOF_PREFIX: seq<byte> := [0x61, 0x75, 0x74, 0x68, 0x2D, 0x70, 0x72, 0x6F, 0x6F, 0x66]
  const DEVICE_PROOF_PREFIX: seq<byte> :=
    [0x64, 0x65, 0x76, 0x69, 0x63, 0x65, 0x2D, 0x70, 0x72, 0x6F, 0x6F, 0x66]
  const SESSION_PREFIX: seq<byte> := [0x73, 0x65, 0x73, 0x73, 0x69, 0x6F, 0x6E]
  const RESPONSE_PREFIX: seq<byte> := [0x72, 0x65, 0x73, 0x70, 0x6F, 0x6E, 0x73, 0x65]

  function Tag(h: Hash, key: seq<byte>, input: seq<byte>): (t: seq<byte>)
    ensures |t| == TAG_SIZE
  {
    Hmac(h, key, input)[..TAG_SIZE]
  }

  function RequestInput(command: byte, sequence: uint16, payload: seq<byte>): seq<byte>
  {
    [command] + Le16(sequence) + payload
  }

  function ResponseInput(request: byte, response: byte, sequence: uint16, payload: seq<byte>): seq<byte>
  {
    RESPONSE_PREFIX + [request, response] + Le16(sequence) + payload
  }

  function NonceInput(prefix: seq<byte>, client: seq<byte>, server: seq<byte>): seq<byte>
  {
    prefix + client + server
  }

  function SessionKey(h: Hash, key: seq<byte>, client: seq<byte>, server: seq<byte>): seq<byte>
  {
    Hmac(h, key, NonceInput(SESSION_PREFIX, client, server))
  }

  function Proof(h: Hash, key: seq<byte>, client: seq<byte>, server: seq<byte>): (t: seq<byte>)
    ensures |t| == TAG_SIZE
  {
    Tag(h, key, NonceInput(PROOF_PREFIX, client, server))
  }

  function DeviceProof(h: Hash, key: seq<byte>, client: seq<byte>, server: seq<byte>): (t: seq<byte>)
    ensures |t| == TAG_SIZE
  {
    Tag(h, key, NonceInput(DEVICE_PROOF_PREFIX, client, server))
  }

  function RequestTag(h: Hash, key: seq<byte>, command: byte, sequence: uint16, payload: seq<byte>): (t: seq<byte>)
    ensures |t| == TAG_SIZE
  {
    Tag(h, key, RequestInput(command, sequence, payload))
  }

  function ResponseTag(
    h: Hash, key: seq<byte>, request: byte, response: byte, sequence: uint16, payload: seq<byte>): (t: seq<byte>)
    ensures |t| == TAG_SIZE
  {
    Tag(h, key, ResponseInput(request, response, sequence, payload))
  }

  /** What a payload looks like once a tag has been appended. */
  function Untagged(payload: seq<byte>): seq<byte>
    requires |payload| >= TAG_SIZE
  {
    payload[..|payload| - TAG_SIZE]
  }

  function TagOf(payload: seq<byte>): (t: seq<byte>)
    requires |payload| >= TAG_SIZE
    ensures |t| == TAG_SIZE
  {
    payload[|payload| - TAG_SIZE..]
  }

  lemma TaggedParts(payload: seq<byte>, tag: seq<byte>)
    requires |tag| == TAG_SIZE
    ensures Untagged(payload + tag) == payload && TagOf(payload + tag) == tag
  {
  }

  lemma PartsTagged(payload: seq<byte>)
    requires |payload| >= TAG_SIZE
    ensures Untagged(payload) + TagOf(payload) == payload
  {
  }

  // ---- The encodings are injective and their domains disjoint ----

  lemma Le16Injective(a: uint16, b: uint16)
    requires Le16(a) == Le16(b)
    ensures a == b
  {
    Le16RoundTrip(a, Le16(a), 0);
    Le16RoundTrip(b, Le16(b), 0);
  }

  lemma RequestInputInjective(c1: byte, s1: uint16, p1: seq<byte>, c2: byte, s2: uint16, p2: seq<byte>)
    requires RequestInput(c1, s1, p1) == RequestInput(c2, s2, p2)
    ensures c1 == c2 && s1 == s2 && p1 == p2
  {
    hide Le16;
    var x, y := RequestInput(c1, s1, p1), RequestInput(c2, s2, p2);
    assert x[0] == c1 && y[0] == c2;
    assert x[1..3] == Le16(s1) && y[1..3] == Le16(s2);
    assert x[3..] == p1 && y[3..] == p2;
    Le16Injective(s1, s2);
  }

  lemma ResponseInputInjective(
    q1: byte, r1: byte, s1: uint16, p1: seq<byte>, q2: byte, r2: byte, s2: uint16, p2: seq<byte>)
    requires ResponseInput(q1, r1, s1, p1) == ResponseInput(q2, r2, s2, p2)
    ensures q1 == q2 && r1 == r2 && s1 == s2 && p1 == p2
  {
    hide Le16;
    var x, y := ResponseInput(q1, r1, s1, p1), ResponseInput(q2, r2, s2, p2);
    assert x[8] == q1 && y[8] == q2 && x[9] == r1 && y[9] == r2;
    assert x[10..12] == Le16(s1) && y[10..12] == Le16(s2);
    assert x[12..] == p1 && y[12..] == p2;
    Le16Injective(s1, s2);
  }

  lemma NonceInputInjective(prefix: seq<byte>, c1: seq<byte>, s1: seq<byte>, c2: seq<byte>, s2: seq<byte>)
    requires |c1| == |c2| && NonceInput(prefix, c1, s1) == NonceInput(prefix, c2, s2)
    ensures c1 == c2 && s1 == s2
  {
    var x, y, n := NonceInput(prefix, c1, s1), NonceInput(prefix, c2, s2), |prefix|;
    assert x[n..n + |c1|] == c1 && y[n..n + |c1|] == c2;
    assert x[n + |c1|..] == s1 && y[n + |c1|..] == s2;
  }

  /** Under the session key no tagged request can pass for a tagged response. */
  lemma RequestIsNoResponse(c: byte, s: uint16, p: seq<byte>, q: byte, r: byte, t: uint16, u: seq<byte>)
    requires IsProtected(c)
    ensures RequestInput(c, s, p) != ResponseInput(q, r, t, u)
  {
    hide Le16;
    assert RequestInput(c, s, p)[0] == c && ResponseInput(q, r, t, u)[0] == 0x72;
  }

  /** Under the pre-shared key the two proofs and the session derivation never share an input. */
  lemma NonceDomainsDisjoint(c1: seq<byte>, s1: seq<byte>, c2: seq<byte>, s2: seq<byte>)
    requires |c1| == |s1| == |c2| == |s2| == NONCE_SIZE
    ensures NonceInput(PROOF_PREFIX, c1, s1) != NonceInput(DEVICE_PROOF_PREFIX, c2, s2)
    ensures NonceInput(PROOF_PREFIX, c1, s1) != NonceInput(SESSION_PREFIX, c2, s2)
    ensures NonceInput(DEVICE_PROOF_PREFIX, c1, s1) != NonceInput(SESSION_PREFIX, c2, s2)
  {
    assert |NonceInput(PROOF_PREFIX, c1, s1)| == 42;
    assert |NonceInput(DEVICE_PROOF_PREFIX, c1, s1)| == |NonceInput(DEVICE_PROOF_PREFIX, c2, s2)| == 44;
    assert |NonceInput(SESSION_PREFIX, c2, s2)| == 39;
  }

  /** No input the component builds exceeds the HMAC bound, so its failure path is never taken. */
  lemma InputsFit(
    c: byte, r: byte, s: uint16, payload: seq<byte>, prefix: seq<byte>, client: seq<byte>, server: seq<byte>)
    requires |payload| <= 1024 && |client| == |server| == NONCE_SIZE
    requires prefix in {PROOF_PREFIX, DEVICE_PROOF_PREFIX, SESSION_PREFIX}
    ensures |RequestInput(c, s, payload)| <= MAX_DATA_SIZE
    ensures |ResponseInput(c, r, s, payload)| <= MAX_DATA_SIZE
    ensures |NonceInput(prefix, client, server)| <= 64 <= MAX_DATA_SIZE
  {
    hide Le16;
    assert |PROOF_PREFIX| == 10 && |DEVICE_PROOF_PREFIX| == 12 && |SESSION_PREFIX| == 7 && |RESPONSE_PREFIX| == 8;
  }
}
