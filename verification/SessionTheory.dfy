/** What session and reply cache keep over every run of packets. */
module SessionTheory {
  import opened Bytes
  import opened Codes
  import opened Esp
  import opened Frame
  import opened HmacSha
  import opened Sealing
  import opened DeviceMachine

  type Ring = seq<Option<Entry>>

  /** The cache from its oldest place to its newest. */
  function Aged(ring: Ring, next: nat): (s: Ring)
    requires next <= |ring|
    ensures |s| == |ring|
  {
    ring[next..] + ring[..next]
  }

  predicate EmptyFirst(s: Ring)
  {
    forall i, j | 0 <= i < j < |s| :: s[i].Some? ==> s[j].Some?
  }

  predicate AllEmpty(s: Ring) { forall i | 0 <= i < |s| :: s[i].None? }

  function Values(s: Ring): seq<Entry>
  {
    if s == [] then [] else (if s[0].Some? then [s[0].value] else []) + Values(s[1..])
  }

  /** The retained responses, oldest first. */
  function Recent(a: Auth): seq<Entry>
    requires RingShape(a)
  {
    Values(Aged(a.ring, a.nextEntry))
  }

  function LastEight(s: seq<Entry>): seq<Entry> { if |s| <= 8 then s else s[|s| - 8..] }

  /** The cached reply carries a valid tag for the request it answers. */
  predicate Signed(h: Hash, sessionKey: seq<byte>, e: Entry)
  {
    && TAG_SIZE <= |e.response| <= MAX_PAYLOAD
    && TagOf(e.response) == ResponseTag(h, sessionKey, e.command, e.responseCommand, e.sequence, Untagged(e.response))
  }

  predicate AllSigned(h: Hash, sessionKey: seq<byte>, ring: Ring)
  {
    forall i | 0 <= i < |ring| && ring[i].Some? :: Signed(h, sessionKey, ring[i].value)
  }

  /** The session key belongs to the nonces of a pending or established session. */
  predicate KeyDerived(h: Hash, a: Auth)
  {
    && a.required && |a.clientNonce| == |a.serverNonce| == NONCE_SIZE
    && a.sessionKey == SessionKey(h, a.key, a.clientNonce, a.serverNonce)
  }

  predicate Inv(h: Hash, a: Auth)
  {
    && RingShape(a) && EmptyFirst(Aged(a.ring, a.nextEntry))
    && !(a.pending && a.authenticated)
    && (!AllEmpty(a.ring) ==> a.required && a.authenticated)
    && AllSigned(h, a.sessionKey, a.ring)
    && (a.pending || a.authenticated ==> KeyDerived(h, a))
  }

  lemma EmptyInv(h: Hash, a: Auth)
    requires a.ring == EmptyRing() && a.nextEntry == 0 && !(a.pending && a.authenticated)
    requires a.pending || a.authenticated ==> KeyDerived(h, a)
    ensures Inv(h, a)
  {
    hide Signed, KeyDerived;
  }

  lemma HandleAuthKeepsInv(h: Hash, a: Auth, p: Packet, nonce: seq<byte>)
    requires Inv(h, a) && |nonce| == NONCE_SIZE
    ensures Inv(h, HandleAuth(h, a, p, nonce).auth)
  {
    hide AllSigned, SessionKey, Aged, AllEmpty, EmptyFirst, Proof, DeviceProof;
    if a.required && |p.payload| == NONCE_SIZE {
      EmptyInv(h, HandleAuth(h, a, p, nonce).auth);
    }
  }

  // ---- Answering ----

  /** A response to this request is signed and cached. */
  predicate SessionOn(a: Auth, p: Packet) { a.required && a.authenticated && IsProtected(p.command) }

  function EntryFor(h: Hash, p: Packet, reply: Packet): Entry
  {
    Entry(p.command, p.sequence, RequestDigest(h, p), reply.command, reply.payload)
  }

  function Push(a: Auth, e: Entry): Auth
    requires RingShape(a)
  {
    a.(ring := a.ring[a.nextEntry := Some(e)], nextEntry := (a.nextEntry + 1) % CACHE_SIZE)
  }

  lemma StatusCases(h: Hash, a: Auth, p: Packet, error: byte)
    requires RingShape(a)
    ensures !SessionOn(a, p) ==> RespondStatus(h, a, p, error).auth == a
    ensures SessionOn(a, p) ==>
      RespondStatus(h, a, p, error).auth == Push(a, EntryFor(h, p, RespondStatus(h, a, p, error).reply))
    ensures SessionOn(a, p) ==> Signed(h, a.sessionKey, EntryFor(h, p, RespondStatus(h, a, p, error).reply))
  {
    hide ResponseTag, RequestDigest, TagOf, Untagged;
    var command := if error == ERR_OK then CMD_ACK else CMD_NACK;
    TaggedParts([error], ResponseTag(h, a.sessionKey, p.command, command, p.sequence, [error]));
  }

  /** Answering rotates the ring by one place. */
  lemma AgedPush(a: Auth, e: Entry)
    requires RingShape(a)
    ensures RingShape(Push(a, e))
    ensures Aged(Push(a, e).ring, Push(a, e).nextEntry) == Aged(a.ring, a.nextEntry)[1..] + [Some(e)]
  {
    var b := Push(a, e);
    if a.nextEntry == CACHE_SIZE - 1 {
      assert b.nextEntry == 0 && Aged(b.ring, 0) == b.ring;
    } else {
      assert b.nextEntry == a.nextEntry + 1;
    }
  }

  lemma PushKeepsInv(h: Hash, a: Auth, e: Entry)
    requires Inv(h, a) && a.required && a.authenticated && Signed(h, a.sessionKey, e)
    ensures Inv(h, Push(a, e))
  {
    hide Signed, SessionKey;
    AgedPush(a, e);
    hide Aged;
  }

  lemma StatusKeepsInv(h: Hash, a: Auth, p: Packet, error: byte)
    requires Inv(h, a)
    ensures Inv(h, RespondStatus(h, a, p, error).auth)
  {
    hide Inv, RespondStatus, Push, Signed;
    assert RingShape(a) by { ShapeOfInv(h, a); }
    StatusCases(h, a, p, error);
    if SessionOn(a, p) { PushKeepsInv(h, a, EntryFor(h, p, RespondStatus(h, a, p, error).reply)); }
  }

  lemma ShapeOfInv(h: Hash, a: Auth)
    requires Inv(h, a)
    ensures RingShape(a)
  {
  }

  lemma ConfigureInv(h: Hash, key: seq<byte>, required: bool)
    ensures Inv(h, Configure(key, required))
  {
    EmptyInv(h, Configure(key, required));
  }

  lemma ProtectedKeepsInv(h: Hash, d: Device, p: Packet, o: Outcome)
    requires Inv(h, d.auth) && IsProtected(p.command)
    ensures RingShape(d.auth) && Inv(h, HandleProtected(h, d, p, o).device.auth)
  {
    hide Inv, RespondStatus, CheckReplay, Unwrap, Execute, Configure, IsProtected;
    ShapeOfInv(h, d.auth);
    ConfigureInv(h, d.auth.key, d.auth.required);
    forall error: byte
      ensures Inv(h, RespondStatus(h, d.auth, p, error).auth)
    {
      StatusKeepsInv(h, d.auth, p, error);
    }
  }

  /** Every packet keeps the session invariant, restarts included. */
  lemma HandleKeepsInv(h: Hash, d: Device, p: Packet, o: Outcome)
    requires Inv(h, d.auth) && |o.nonce| == NONCE_SIZE
    ensures RingShape(d.auth) && Inv(h, Handle(h, d, p, o).device.auth)
  {
    hide Inv, HandleAuth, HandleProtected, IsProtected;
    ShapeOfInv(h, d.auth);
    HandleAuthKeepsInv(h, d.auth, p, o.nonce);
    if IsProtected(p.command) { ProtectedKeepsInv(h, d, p, o); }
  }

  // ---- The ring is the last eight responses ----

  lemma {:induction false} ValuesPush(s: Ring, e: Entry)
    ensures Values(s + [Some(e)]) == Values(s) + [e]
  {
    TailPush(s, Some(e));
    if s == [] {
      assert Values([Some(e)][1..]) == [];
    } else {
      ValuesPush(s[1..], e);
    }
  }

  lemma TailPush(s: Ring, x: Option<Entry>)
    ensures (s + [x])[0] == if s == [] then x else s[0]
    ensures (s + [x])[1..] == if s == [] then [] else s[1..] + [x]
  {
  }

  lemma {:induction false} ValuesLength(s: Ring)
    ensures |Values(s)| <= |s|
    ensures |Values(s)| == |s| <==> forall i | 0 <= i < |s| :: s[i].Some?
  {
    if s != [] {
      ValuesLength(s[1..]);
      assert (forall i | 0 <= i < |s| :: s[i].Some?) <==> s[0].Some? && forall i | 0 <= i < |s| - 1 :: s[1..][i].Some?;
    }
  }

  lemma {:induction false} ValuesNone(s: Ring)
    requires AllEmpty(s)
    ensures Values(s) == []
  {
    if s != [] { ValuesNone(s[1..]); }
  }

  lemma RecentPush(s: Ring, e: Entry)
    requires |s| == CACHE_SIZE && EmptyFirst(s)
    ensures Values(s[1..] + [Some(e)]) == LastEight(Values(s) + [e])
  {
    ValuesPush(s[1..], e);
    ValuesLength(s);
    var v, w := Values(s), Values(s[1..]);
    if s[0].Some? {
      assert forall i | 0 <= i < |s| :: s[i].Some?;
      hide Values, EmptyFirst;
      DropOldest(s[0].value, w, e);
    } else {
      assert v == [] + w && |v| < CACHE_SIZE;
    }
  }

  lemma DropOldest(oldest: Entry, w: seq<Entry>, e: Entry)
    requires |w| == CACHE_SIZE - 1
    ensures LastEight([oldest] + w + [e]) == w + [e]
  {
  }

  lemma LastEightAgain(history: seq<Entry>, e: Entry)
    ensures LastEight(LastEight(history) + [e]) == LastEight(history + [e])
  {
  }

  /** The cache holds the last eight of these responses. */
  predicate Retains(a: Auth, history: seq<Entry>)
  {
    RingShape(a) && Recent(a) == LastEight(history)
  }

  lemma EmptyRetains(a: Auth)
    requires a.ring == EmptyRing() && a.nextEntry == 0
    ensures Retains(a, [])
  {
    ValuesNone(Aged(a.ring, a.nextEntry));
  }

  lemma StatusRetains(h: Hash, a: Auth, p: Packet, error: byte, history: seq<Entry>)
    requires Inv(h, a) && Retains(a, history)
    ensures var r := RespondStatus(h, a, p, error);
      Retains(r.auth, if SessionOn(a, p) then history + [EntryFor(h, p, r.reply)] else history)
  {
    hide RespondStatus, Signed, LastEight, SessionKey, Values, AllSigned, AllEmpty;
    StatusCases(h, a, p, error);
    if SessionOn(a, p) {
      var e := EntryFor(h, p, RespondStatus(h, a, p, error).reply);
      AgedPush(a, e);
      RecentPush(Aged(a.ring, a.nextEntry), e);
      LastEightAgain(history, e);
    }
  }

  /** A packet that starts a new reply cache: a restart, or a fresh challenge. */
  predicate Clears(h: Hash, d: Device, p: Packet, o: Outcome)
    requires RingShape(d.auth)
  {
    Handle(h, d, p, o).device.restarts != d.restarts ||
    (p.version == VERSION && p.command == CMD_AUTH && d.auth.required && |p.payload| == NONCE_SIZE)
  }

  /** A packet whose response enters the reply cache: every protected one that is not itself a replay. */
  predicate Caches(h: Hash, a: Auth, p: Packet)
  {
    p.version == VERSION && SessionOn(a, p) && !CheckReplay(h, a, p).Replayed?
  }

  function NextHistory(h: Hash, d: Device, p: Packet, o: Outcome, history: seq<Entry>): seq<Entry>
    requires RingShape(d.auth)
  {
    if Clears(h, d, p, o) then []
    else if Caches(h, d.auth, p) then history + [EntryFor(h, p, Handle(h, d, p, o).reply)]
    else history
  }

  lemma ProtectedRetains(h: Hash, d: Device, p: Packet, o: Outcome, history: seq<Entry>)
    requires Inv(h, d.auth) && Retains(d.auth, history) && p.version == VERSION && IsProtected(p.command)
    ensures RingShape(d.auth) && Retains(Handle(h, d, p, o).device.auth, NextHistory(h, d, p, o, history))
  {
    hide Inv, Retains, RespondStatus, CheckReplay, Unwrap, Execute, EntryFor, HandleAuth;
    ShapeOfInv(h, d.auth);
    EmptyRetains(Configure(d.auth.key, d.auth.required));
    NotReplayedOff(h, d.auth, p);
    forall error: byte
      ensures Retains(RespondStatus(h, d.auth, p, error).auth,
        if SessionOn(d.auth, p) then history + [EntryFor(h, p, RespondStatus(h, d.auth, p, error).reply)] else history)
    {
      StatusRetains(h, d.auth, p, error, history);
    }
  }

  lemma NotReplayedOff(h: Hash, a: Auth, p: Packet)
    ensures CheckReplay(h, a, p).Replayed? ==> SessionOn(a, p)
  {
  }

  lemma AuthRetains(h: Hash, a: Auth, p: Packet, nonce: seq<byte>, history: seq<Entry>)
    requires Retains(a, history)
    ensures Retains(HandleAuth(h, a, p, nonce).auth, if a.required && |p.payload| == NONCE_SIZE then [] else history)
  {
    hide ProofAccepted, SessionKey, Values, LastEight, DeviceProof;
    if a.required && |p.payload| == NONCE_SIZE { EmptyRetains(HandleAuth(h, a, p, nonce).auth); }
  }

  /** After every packet the cache holds the last eight responses since it was cleared. */
  lemma RingRefinesLastEight(h: Hash, d: Device, p: Packet, o: Outcome, history: seq<Entry>)
    requires Inv(h, d.auth) && Retains(d.auth, history)
    ensures RingShape(d.auth) && Retains(Handle(h, d, p, o).device.auth, NextHistory(h, d, p, o, history))
  {
    ShapeOfInv(h, d.auth);
    if p.version == VERSION && IsProtected(p.command) {
      ProtectedRetains(h, d, p, o, history);
    } else {
      hide Inv, Retains, HandleProtected, HandleAuth, CheckReplay, EntryFor;
      AuthRetains(h, d.auth, p, o.nonce, history);
    }
  }
}
