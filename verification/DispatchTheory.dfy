/** The authenticated dispatcher refines the plain machine on the requests it admits. */
module DispatchTheory {
  import opened Bytes
  import opened Codes
  import opened Esp
  import opened Frame
  import opened HmacSha
  import opened Sealing
  import opened DeviceMachine
  import opened SessionTheory
  import M = OtaMachine

  datatype Arrival = Arrival(packet: Packet, outcome: Outcome)

  // ---- Admission ----

  predicate Answers(e: Entry, p: Packet) { e.command == p.command && e.sequence == p.sequence }

  /** The request's command and sequence number are those of none of these responses. */
  predicate FreshPair(responses: seq<Entry>, p: Packet)
  {
    forall i | 0 <= i < |responses| :: !Answers(responses[i], p)
  }

  /** The payload ends in the tag of the rest under the session key. */
  predicate Tagged(h: Hash, sessionKey: seq<byte>, p: Packet)
  {
    |p.payload| >= TAG_SIZE &&
    TagOf(p.payload) == RequestTag(h, sessionKey, p.command, p.sequence, Untagged(p.payload))
  }

  /** What an authenticated device executes: correctly tagged requests outside the replay window. */
  predicate Admitted(h: Hash, a: Auth, responses: seq<Entry>, p: Packet)
  {
    && p.version == VERSION && IsProtected(p.command) && a.authenticated
    && FreshPair(LastEight(responses), p) && Tagged(h, a.sessionKey, p)
  }

  lemma {:induction false} FreshPairValues(s: Ring, p: Packet)
    ensures FreshPair(Values(s), p) <==> forall i | 0 <= i < |s| :: !SamePair(s[i], p)
  {
    if s != [] {
      FreshPairValues(s[1..], p);
      var head := if s[0].Some? then [s[0].value] else [];
      assert Values(s) == head + Values(s[1..]);
      assert FreshPair(head + Values(s[1..]), p) <==> FreshPair(head, p) && FreshPair(Values(s[1..]), p) by {
        FreshPairConcat(head, Values(s[1..]), p);
      }
      assert (forall i | 0 <= i < |s| :: !SamePair(s[i], p)) <==>
        !SamePair(s[0], p) && forall i | 0 <= i < |s| - 1 :: !SamePair(s[1..][i], p);
    }
  }

  lemma FreshPairConcat(a: seq<Entry>, b: seq<Entry>, p: Packet)
    ensures FreshPair(a + b, p) <==> FreshPair(a, p) && FreshPair(b, p)
  {
    if FreshPair(a + b, p) {
      assert forall i | 0 <= i < |a| :: a[i] == (a + b)[i];
      assert forall i | 0 <= i < |b| :: b[i] == (a + b)[|a| + i];
    }
  }

  lemma RotationKeepsPairs(ring: Ring, next: nat, p: Packet)
    requires next <= |ring|
    ensures (forall i | 0 <= i < |ring| :: !SamePair(ring[i], p)) <==>
            (forall i | 0 <= i < |ring| :: !SamePair(Aged(ring, next)[i], p))
  {
    var s := Aged(ring, next);
    assert forall i | 0 <= i < next :: ring[i] == s[|ring| - next + i];
    assert forall i | next <= i < |ring| :: ring[i] == s[i - next];
    assert forall i | 0 <= i < |ring| - next :: s[i] == ring[next + i];
    assert forall i | |ring| - next <= i < |ring| :: s[i] == ring[i - (|ring| - next)];
  }

  /** The ring search misses exactly when the pair is none of the last eight responses. */
  lemma SearchIsWindow(a: Auth, responses: seq<Entry>, p: Packet)
    requires Retains(a, responses)
    ensures FindEntry(a.ring, p) < 0 <==> FreshPair(LastEight(responses), p)
  {
    hide LastEight, Aged, Values;
    FreshPairValues(Aged(a.ring, a.nextEntry), p);
    RotationKeepsPairs(a.ring, a.nextEntry, p);
  }

  /** A request is executed exactly when it is admitted. */
  lemma ExecutedExactlyWhenAdmitted(h: Hash, a: Auth, responses: seq<Entry>, p: Packet)
    requires a.required && Retains(a, responses) && p.version == VERSION && IsProtected(p.command)
    ensures CheckReplay(h, a, p).New? && Unwrap(h, a, p).Payload? <==> Admitted(h, a, responses, p)
    ensures Admitted(h, a, responses, p) ==> Unwrap(h, a, p) == Payload(Untagged(p.payload))
  {
    hide LastEight, Retains, FindEntry, FreshPair, RequestTag, TagOf;
    SearchIsWindow(a, responses, p);
  }

  // ---- One packet ----

  /** The device without authentication. */
  function PlainAuth(): Auth { Configure([], false) }

  function PlainDevice(d: Device): Device { Device(PlainAuth(), d.ota, d.restarts) }

  /** The admitted request with its tag stripped. */
  function Strip(p: Packet): Packet
    requires |p.payload| >= TAG_SIZE
  {
    p.(payload := Untagged(p.payload))
  }

  /** The effect of a protected request on everything but the session. */
  lemma ProtectedEffect(h: Hash, d: Device, p: Packet, o: Outcome)
    requires RingShape(d.auth) && p.version == VERSION && IsProtected(p.command)
    ensures var r := Handle(h, d, p, o).device;
      if CheckReplay(h, d.auth, p).New? && Unwrap(h, d.auth, p).Payload? then
        var x := Execute(d.ota, p.command, Unwrap(h, d.auth, p).payload, o);
        r.ota == x.ota && r.restarts == d.restarts + (if x.restart then 1 else 0)
      else r.ota == d.ota && r.restarts == d.restarts
  {
    hide CheckReplay, Unwrap, Execute, RespondStatus, Configure;
  }

  lemma UnprotectedEffect(h: Hash, d: Device, p: Packet, o: Outcome)
    requires RingShape(d.auth) && !(p.version == VERSION && IsProtected(p.command))
    ensures var r := Handle(h, d, p, o).device; r.ota == d.ota && r.restarts == d.restarts
  {
    hide HandleAuth, HandleProtected;
  }

  /** Without authentication every protected request is executed on its whole payload. */
  lemma PlainEffect(h: Hash, d: Device, p: Packet, o: Outcome)
    requires p.version == VERSION && IsProtected(p.command)
    ensures RingShape(PlainAuth())
    ensures var x := Execute(d.ota, p.command, p.payload, o);
      Handle(h, PlainDevice(d), p, o).device ==
      Device(PlainAuth(), x.ota, d.restarts + (if x.restart then 1 else 0))
  {
    hide Execute;
  }

  /** One packet of the authenticated device is one packet of the plain device, or none. */
  lemma StepRefines(h: Hash, d: Device, responses: seq<Entry>, p: Packet, o: Outcome)
    requires d.auth.required && Retains(d.auth, responses)
    ensures RingShape(d.auth) && RingShape(PlainAuth())
    ensures PlainDevice(Handle(h, d, p, o).device) ==
      if Admitted(h, d.auth, responses, p) then Handle(h, PlainDevice(d), Strip(p), o).device else PlainDevice(d)
  {
    hide Retains, Execute, CheckReplay, Unwrap, Handle, FreshPair, RequestTag, LastEight, Configure;
    assert RingShape(d.auth) by { ShapeOfRetains(d.auth, responses); }
    assert RingShape(PlainAuth()) by { PlainShape(); }
    if p.version == VERSION && IsProtected(p.command) {
      ExecutedExactlyWhenAdmitted(h, d.auth, responses, p);
      ProtectedEffect(h, d, p, o);
      if Admitted(h, d.auth, responses, p) { PlainEffect(h, d, Strip(p), o); }
    } else {
      UnprotectedEffect(h, d, p, o);
    }
  }

  lemma ShapeOfRetains(a: Auth, responses: seq<Entry>)
    requires Retains(a, responses)
    ensures RingShape(a)
  {
  }

  lemma PlainShape()
    ensures RingShape(PlainAuth())
  {
  }

  // ---- Whole runs ----

  predicate Shaped(d: Device) { RingShape(d.auth) }

  lemma HandleKeepsShape(h: Hash, d: Device, p: Packet, o: Outcome)
    requires Shaped(d)
    ensures Shaped(Handle(h, d, p, o).device)
  {
    hide CheckReplay, Unwrap, Execute, ResponseTag, ProofAccepted;
  }

  /** The device after a run of packets. */
  function Run(h: Hash, d: Device, arrivals: seq<Arrival>): (v: Device)
    requires Shaped(d)
    ensures Shaped(v)
    decreases |arrivals|
  {
    if arrivals == [] then d
    else
      HandleKeepsShape(h, d, arrivals[0].packet, arrivals[0].outcome);
      Run(h, Handle(h, d, arrivals[0].packet, arrivals[0].outcome).device, arrivals[1..])
  }

  /** The requests of a run that are admitted, stripped of their tags. */
  function AdmittedOf(h: Hash, d: Device, responses: seq<Entry>, arrivals: seq<Arrival>): seq<Arrival>
    requires Shaped(d)
    decreases |arrivals|
  {
    if arrivals == [] then []
    else
      var p, o := arrivals[0].packet, arrivals[0].outcome;
      HandleKeepsShape(h, d, p, o);
      (if Admitted(h, d.auth, responses, p) then [Arrival(Strip(p), o)] else []) +
      AdmittedOf(h, Handle(h, d, p, o).device, NextHistory(h, d, p, o, responses), arrivals[1..])
  }

  predicate NoncesOk(arrivals: seq<Arrival>)
  {
    forall i | 0 <= i < |arrivals| :: |arrivals[i].outcome.nonce| == NONCE_SIZE
  }

  lemma RequiredStays(h: Hash, d: Device, p: Packet, o: Outcome)
    requires RingShape(d.auth) && d.auth.required && 0 < |d.auth.key| <= KEY_MAX_SIZE
    ensures var a := Handle(h, d, p, o).device.auth; a.required && a.key == d.auth.key
  {
    hide CheckReplay, Unwrap, Execute, ResponseTag, RequestDigest, ProofAccepted, SessionKey, DeviceProof, Hmac;
  }

  /**
   * Over every run of packets whatsoever, transfer state, slots, boot pointer and
   * restarts are those of the device without authentication that receives just the
   * admitted requests.
   */
  lemma {:induction false} RunRefines(h: Hash, d: Device, responses: seq<Entry>, arrivals: seq<Arrival>)
    requires Inv(h, d.auth) && Retains(d.auth, responses) && NoncesOk(arrivals)
    requires d.auth.required && 0 < |d.auth.key| <= KEY_MAX_SIZE
    ensures Shaped(d) && Shaped(PlainDevice(d))
    ensures PlainDevice(Run(h, d, arrivals)) == Run(h, PlainDevice(d), AdmittedOf(h, d, responses, arrivals))
    ensures Inv(h, Run(h, d, arrivals).auth)
    decreases |arrivals|
  {
    hide Inv, Retains, Handle, Admitted, NextHistory, Configure, RingShape;
    ShapeOfInv(h, d.auth);
    PlainShape();
    if arrivals != [] {
      var p, o := arrivals[0].packet, arrivals[0].outcome;
      var next := Handle(h, d, p, o).device;
      StepRefines(h, d, responses, p, o);
      RequiredStays(h, d, p, o);
      HandleKeepsInv(h, d, p, o);
      RingRefinesLastEight(h, d, p, o, responses);
      RunRefines(h, next, NextHistory(h, d, p, o, responses), arrivals[1..]);
      AdmittedHead(h, d, responses, arrivals);
    }
  }

  lemma AdmittedHead(h: Hash, d: Device, responses: seq<Entry>, arrivals: seq<Arrival>)
    requires Shaped(d) && Shaped(PlainDevice(d)) && arrivals != []
    ensures var p, o := arrivals[0].packet, arrivals[0].outcome;
      var next := Handle(h, d, p, o).device;
      Shaped(next) &&
      var rest := AdmittedOf(h, next, NextHistory(h, d, p, o, responses), arrivals[1..]);
      Run(h, PlainDevice(d), AdmittedOf(h, d, responses, arrivals)) ==
        if Admitted(h, d.auth, responses, p)
        then (HandleKeepsShape(h, PlainDevice(d), Strip(p), o);
              Run(h, Handle(h, PlainDevice(d), Strip(p), o).device, rest))
        else Run(h, PlainDevice(d), rest)
  {
    hide Handle, NextHistory, Configure, RingShape, FreshPair;
    var p, o := arrivals[0].packet, arrivals[0].outcome;
    HandleKeepsShape(h, d, p, o);
    var next := Handle(h, d, p, o).device;
    var rest := AdmittedOf(h, next, NextHistory(h, d, p, o, responses), arrivals[1..]);
    if Admitted(h, d.auth, responses, p) {
      assert ([Arrival(Strip(p), o)] + rest)[1..] == rest;
    } else {
      assert [] + rest == rest;
    }
  }

  // ---- Replies and effects ----

  /** Every reply echoes the request's sequence number and fits a frame. */
  lemma ReplyEchoes(h: Hash, d: Device, p: Packet, o: Outcome)
    requires Inv(h, d.auth) && |o.nonce| == NONCE_SIZE && |o.info| <= MAX_PAYLOAD
    ensures RingShape(d.auth)
    ensures var r := Handle(h, d, p, o).reply; r.sequence == p.sequence && r.version == VERSION && Sendable(r)
  {
    hide CheckReplay, Unwrap, Execute, ResponseTag, RequestDigest, HandleAuth, RespondStatus, Inv;
    ShapeOfInv(h, d.auth);
    ReplayFits(h, d.auth, p);
    AuthReplyFits(h, d.auth, p, o.nonce);
    forall error: byte
      ensures var r := RespondStatus(h, d.auth, p, error).reply;
        r.sequence == p.sequence && r.version == VERSION && Sendable(r)
    {
      StatusFits(h, d.auth, p, error);
    }
  }

  lemma ReplayFits(h: Hash, a: Auth, p: Packet)
    requires Inv(h, a)
    ensures CheckReplay(h, a, p).Replayed? ==>
      var r := CheckReplay(h, a, p).reply; r.sequence == p.sequence && r.version == VERSION && Sendable(r)
  {
    hide FindEntry, ResponseTag, TagOf, Untagged, KeyDerived, Aged, EmptyFirst, AllEmpty, RequestDigest;
  }

  lemma AuthReplyFits(h: Hash, a: Auth, p: Packet, nonce: seq<byte>)
    requires |nonce| == NONCE_SIZE
    ensures HandleAuth(h, a, p, nonce).Sent? ==>
      var r := HandleAuth(h, a, p, nonce).reply; r.sequence == p.sequence && r.version == VERSION && Sendable(r)
  {
    hide ProofAccepted, SessionKey;
  }

  lemma StatusFits(h: Hash, a: Auth, p: Packet, error: byte)
    requires RingShape(a)
    ensures var r := RespondStatus(h, a, p, error).reply;
      r.sequence == p.sequence && r.version == VERSION && Sendable(r)
  {
    hide RequestDigest;
  }

  /** A restart is caused only by an admitted REBOOT or ROLLBACK with no transfer under way. */
  lemma RestartsOnlyWhenIdle(h: Hash, d: Device, p: Packet, o: Outcome)
    requires RingShape(d.auth) && Handle(h, d, p, o).device.restarts != d.restarts
    ensures !d.ota.active && (p.command == CMD_REBOOT || p.command == CMD_ROLLBACK)
    ensures CheckReplay(h, d.auth, p).New? && Unwrap(h, d.auth, p).Payload?
  {
    hide CheckReplay, Unwrap, Execute, Handle;
    if p.version == VERSION && IsProtected(p.command) {
      ProtectedEffect(h, d, p, o);
      if Unwrap(h, d.auth, p).Payload? { ExecuteRestarts(d.ota, p.command, Unwrap(h, d.auth, p).payload, o); }
    } else {
      UnprotectedEffect(h, d, p, o);
    }
  }

  lemma ExecuteRestarts(ota: M.State, command: byte, payload: seq<byte>, o: Outcome)
    requires IsProtected(command)
    ensures Execute(ota, command, payload, o).restart ==>
      !ota.active && payload == [] && (command == CMD_REBOOT || command == CMD_ROLLBACK)
  {
    hide M.Begin, M.Write, M.End, M.Abort;
  }

  // ---- Retries ----

  /**
   * The packet that was just answered, sent again, gets the identical reply and
   * changes nothing, whether it was executed or refused.
   */
  lemma ExactRetry(h: Hash, d: Device, p: Packet, o: Outcome, again: Outcome)
    requires Inv(h, d.auth) && SessionOn(d.auth, p) && p.version == VERSION && CheckReplay(h, d.auth, p).New?
    ensures RingShape(d.auth) && Shaped(Handle(h, d, p, o).device)
    ensures var r := Handle(h, d, p, o);
      r.device.restarts == d.restarts ==> Handle(h, r.device, p, again) == r
  {
    hide Inv, Handle, RespondStatus, CheckReplay, RingShape;
    ShapeOfInv(h, d.auth);
    HandleKeepsShape(h, d, p, o);
    if Handle(h, d, p, o).device.restarts == d.restarts {
      var error := AnswerOf(h, d, p, o);
      AnsweredOnce(h, d.auth, p, error);
      ReplayedUnchanged(h, Handle(h, d, p, o).device, p, again);
    }
  }

  /** A request that is no replay is answered through `RespondStatus`. */
  lemma AnswerOf(h: Hash, d: Device, p: Packet, o: Outcome) returns (error: byte)
    requires RingShape(d.auth) && p.version == VERSION && IsProtected(p.command) && !CheckReplay(h, d.auth, p).Replayed?
    requires Handle(h, d, p, o).device.restarts == d.restarts
    ensures var r := RespondStatus(h, d.auth, p, error);
      Handle(h, d, p, o).reply == r.reply && Handle(h, d, p, o).device.auth == r.auth
  {
    hide RespondStatus, CheckReplay, Unwrap, Execute;
    match CheckReplay(h, d.auth, p) {
      case Refused(e) => error := e;
      case New =>
        match Unwrap(h, d.auth, p) {
          case Denied(e) => error := e;
          case Payload(payload) => error := Execute(d.ota, p.command, payload, o).error;
        }
    }
  }

  lemma ReplayedUnchanged(h: Hash, d: Device, p: Packet, o: Outcome)
    requires RingShape(d.auth) && p.version == VERSION && CheckReplay(h, d.auth, p).Replayed?
    ensures Handle(h, d, p, o) == Handled(d, CheckReplay(h, d.auth, p).reply)
  {
    hide FindEntry, RequestDigest, Execute, Unwrap;
  }

  lemma AnsweredOnce(h: Hash, a: Auth, p: Packet, error: byte)
    requires RingShape(a) && SessionOn(a, p) && CheckReplay(h, a, p).New?
    ensures var r := RespondStatus(h, a, p, error); CheckReplay(h, r.auth, p) == Replayed(r.reply)
  {
    hide RequestDigest, ResponseTag;
    var r := RespondStatus(h, a, p, error);
    var i := a.nextEntry;
    assert SamePair(r.auth.ring[i], p);
    assert forall j | 0 <= j < CACHE_SIZE && j != i :: r.auth.ring[j] == a.ring[j];
    assert FindEntry(r.auth.ring, p) == i;
  }

  predicate PairsDistinct(ring: Ring)
  {
    forall i, j | 0 <= i < |ring| && 0 <= j < |ring| && ring[i].Some? && ring[j].Some? && i != j ::
      !(ring[i].value.command == ring[j].value.command && ring[i].value.sequence == ring[j].value.sequence)
  }

  /** While its response is retained and pairs are distinct, an exact retry gets that very response. */
  lemma RetryWhileRetained(h: Hash, d: Device, p: Packet, o: Outcome, i: nat)
    requires RingShape(d.auth) && SessionOn(d.auth, p) && p.version == VERSION && PairsDistinct(d.auth.ring)
    requires i < CACHE_SIZE && SamePair(d.auth.ring[i], p) && d.auth.ring[i].value.digest == RequestDigest(h, p)
    ensures var e := d.auth.ring[i].value;
      Handle(h, d, p, o) == Handled(d, Reply(p, e.responseCommand, e.response))
  {
    hide RequestDigest, Execute, Unwrap;
    assert FindEntry(d.auth.ring, p) == i;
    ReplayedUnchanged(h, d, p, o);
  }

  /**
   * In any ring a retained exact retry gets its own response if and only if the first
   * place of its pair holds that response to that very request.
   */
  lemma RetryExactly(h: Hash, d: Device, p: Packet, o: Outcome, i: nat)
    requires RingShape(d.auth) && SessionOn(d.auth, p) && p.version == VERSION
    requires i < CACHE_SIZE && SamePair(d.auth.ring[i], p) && d.auth.ring[i].value.digest == RequestDigest(h, p)
    ensures var ring, e := d.auth.ring, d.auth.ring[i].value; var first := FindEntry(ring, p);
      && 0 <= first <= i
      && (Handle(h, d, p, o) == Handled(d, Reply(p, e.responseCommand, e.response)) <==>
            var f := ring[first].value;
            f.digest == e.digest && f.responseCommand == e.responseCommand && f.response == e.response)
  {
    hide RequestDigest, FindEntry;
    var first := FindEntry(d.auth.ring, p);
    if d.auth.ring[first].value.digest == RequestDigest(h, p) {
      ReplayedUnchanged(h, d, p, o);
    } else {
      RefusedMoves(h, d, p, o);
    }
  }

  /** The refusal of a reuse goes into the cache. */
  lemma RefusedMoves(h: Hash, d: Device, p: Packet, o: Outcome)
    requires RingShape(d.auth) && SessionOn(d.auth, p) && p.version == VERSION && CheckReplay(h, d.auth, p).Refused?
    ensures Handle(h, d, p, o).device.auth.nextEntry != d.auth.nextEntry
  {
    hide CheckReplay, Execute, Unwrap, RespondStatus;
    var error := CheckReplay(h, d.auth, p).error;
    StatusCases(h, d.auth, p, error);
  }

  /**
   * The window is finite: a pair answered before the last eight responses is executed
   * again, whatever its bytes, if it is sealed for this session.
   */
  lemma ForgottenPairIsExecuted(h: Hash, d: Device, e: Entry, later: seq<Entry>, p: Packet, o: Outcome)
    requires d.auth.required && Retains(d.auth, [e] + later) && |later| >= CACHE_SIZE
    requires Answers(e, p) && FreshPair(LastEight(later), p)
    requires p.version == VERSION && SessionOn(d.auth, p) && Tagged(h, d.auth.sessionKey, p)
    ensures RingShape(d.auth)
    ensures var v := Handle(h, d, p, o).device; var x := Execute(d.ota, p.command, Untagged(p.payload), o);
      v.ota == x.ota && v.restarts == d.restarts + if x.restart then 1 else 0
  {
    hide Retains, Execute, FreshPair, RequestTag, Handle, TagOf;
    ShapeOfRetains(d.auth, [e] + later);
    assert LastEight([e] + later) == LastEight(later);
    ExecutedExactlyWhenAdmitted(h, d.auth, [e] + later, p);
    ProtectedEffect(h, d, p, o);
  }

  /** What identifies a request: its command, its number and its whole payload. */
  function Written(p: Packet): seq<byte> { [p.command, p.sequence % 256, p.sequence / 256] + p.payload }

  /** Two different requests have the same digest. */
  predicate DigestsCollide(h: Hash, p: Packet, q: Packet)
  {
    Written(p) != Written(q) && h(Written(p)) == h(Written(q))
  }

  /**
   * While the response to `q` is the first with its command and number, a request that
   * reuses them with other bytes is refused and not executed; or the digests of these
   * two requests collide.
   */
  lemma ReuseIsRefused(h: Hash, d: Device, q: Packet, p: Packet, o: Outcome)
    requires RingShape(d.auth) && SessionOn(d.auth, p) && p.version == VERSION
    requires q.command == p.command && q.sequence == p.sequence && q.payload != p.payload
    requires FindEntry(d.auth.ring, q) >= 0
    requires d.auth.ring[FindEntry(d.auth.ring, q)].value.digest == RequestDigest(h, q)
    ensures
      (CheckReplay(h, d.auth, p) == Refused(ERR_AUTH_REQUIRED)
       && Handle(h, d, p, o).device.ota == d.ota && Handle(h, d, p, o).device.restarts == d.restarts)
      || DigestsCollide(h, p, q)
  {
    hide Handle, Respond;
    SamePairFound(d.auth.ring, q, p);
    assert Written(p)[3..] == p.payload && Written(q)[3..] == q.payload;
    assert Written(p) == RequestInput(p.command, p.sequence, p.payload);
    assert Written(q) == RequestInput(q.command, q.sequence, q.payload);
    hide RequestInput, Le16, FindEntry;
    ProtectedEffect(h, d, p, o);
  }

  lemma {:induction false} SamePairFound(ring: Ring, q: Packet, p: Packet)
    requires q.command == p.command && q.sequence == p.sequence
    ensures FindEntry(ring, p) == FindEntry(ring, q)
  {
    if ring != [] { SamePairFound(ring[1..], q, p); }
  }

  /**
   * Distinctness is what a reuse of the pair with other bytes destroys: its
   * refusal is cached beside the response it did not match.
   */
  lemma ReuseBreaksDistinctness(h: Hash, d: Device, p: Packet, o: Outcome, i: nat)
    requires RingShape(d.auth) && SessionOn(d.auth, p) && p.version == VERSION && PairsDistinct(d.auth.ring)
    requires i < CACHE_SIZE && SamePair(d.auth.ring[i], p) && d.auth.ring[i].value.digest != RequestDigest(h, p)
    ensures var b := Handle(h, d, p, o).device.auth;
      PairsDistinct(b.ring) <==> i == d.auth.nextEntry
  {
    hide RespondStatus, EntryFor, PairsDistinct, Push, Handle;
    var error := ReusedPairRefused(h, d, p, o, i);
    var r := RespondStatus(h, d.auth, p, error);
    StatusCases(h, d.auth, p, error);
    EntryPair(h, d.auth, p, r.reply);
    PushedPairs(d.auth, p, EntryFor(h, p, r.reply), i);
  }

  lemma ReusedPairRefused(h: Hash, d: Device, p: Packet, o: Outcome, i: nat) returns (error: byte)
    requires RingShape(d.auth) && SessionOn(d.auth, p) && p.version == VERSION && PairsDistinct(d.auth.ring)
    requires i < CACHE_SIZE && SamePair(d.auth.ring[i], p) && d.auth.ring[i].value.digest != RequestDigest(h, p)
    ensures Handle(h, d, p, o).device.auth == RespondStatus(h, d.auth, p, error).auth
  {
    hide RequestDigest, Execute, Unwrap, RespondStatus;
    assert FindEntry(d.auth.ring, p) == i;
    error := ERR_AUTH_REQUIRED;
  }

  lemma EntryPair(h: Hash, a: Auth, p: Packet, reply: Packet)
    ensures SamePair(Some(EntryFor(h, p, reply)), p)
  {
  }

  lemma PushedPairs(a: Auth, p: Packet, e: Entry, i: nat)
    requires RingShape(a) && PairsDistinct(a.ring) && i < CACHE_SIZE && SamePair(a.ring[i], p) && SamePair(Some(e), p)
    ensures PairsDistinct(Push(a, e).ring) <==> i == a.nextEntry
  {
    var ring := Push(a, e).ring;
    if i != a.nextEntry { assert ring[i] == a.ring[i] && ring[a.nextEntry] == Some(e); }
  }
}
