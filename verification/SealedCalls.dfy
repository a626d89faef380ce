/**
 * A completed call of a protected command on a device with a session: either the
 * device refused it for lack of a matching session, or it executed it exactly once.
 */
module SealedCalls {
  import opened Bytes
  import opened Codes
  import opened Esp
  import opened Frame
  import opened HmacSha
  import opened Sealing
  import opened DeviceMachine
  import opened LossyLink
  import opened RemoteCall
  import CopyCount
  import opened CallTheory
  import opened HandshakeTheory
  import S = SessionTheory
  import T = DispatchTheory

  // ---- The replay window does not reach the host's next sequence numbers ----

  /** The entry does not carry the sequence number of the host's `n`th request. */
  predicate Avoids(e: Option<Entry>, n: nat) { e.Some? ==> e.value.sequence != SequenceOf(n) }

  /**
   * No response still in the cache when the host's next requests arrive carries
   * their sequence numbers: the entry of age rank `i` is replaced by the `i + 1`st.
   */
  predicate RingClear(a: Auth, counter: nat)
    requires RingShape(a)
  {
    var aged := S.Aged(a.ring, a.nextEntry);
    forall i, n | 0 <= i < CACHE_SIZE && counter < n <= counter + i + 1 :: Avoids(aged[i], n)
  }

  lemma ClearRingMisses(a: Auth, counter: nat, p: Packet)
    requires RingShape(a) && RingClear(a, counter) && p.sequence == SequenceOf(counter + 1)
    ensures FindEntry(a.ring, p) < 0
  {
    var aged := S.Aged(a.ring, a.nextEntry);
    forall i | 0 <= i < CACHE_SIZE
      ensures !SamePair(aged[i], p)
    {
      assert Avoids(aged[i], counter + 1);
    }
    T.RotationKeepsPairs(a.ring, a.nextEntry, p);
  }

  lemma ClearRingPush(a: Auth, counter: nat, e: Entry)
    requires RingShape(a) && RingClear(a, counter) && e.sequence == SequenceOf(counter + 1)
    ensures RingShape(S.Push(a, e)) && RingClear(S.Push(a, e), counter + 1)
  {
    S.AgedPush(a, e);
    hide S.Aged, S.Push;
    var aged := S.Aged(a.ring, a.nextEntry);
    var b := S.Push(a, e);
    var next := S.Aged(b.ring, b.nextEntry);
    forall i, n | 0 <= i < CACHE_SIZE && counter + 1 < n <= counter + 1 + i + 1
      ensures Avoids(next[i], n)
    {
      if i == CACHE_SIZE - 1 {
        SameResidue(counter + 1, n);
      } else {
        assert next[i] == aged[i + 1] && Avoids(aged[i + 1], n);
      }
    }
  }

  lemma EmptyRingClear(d: Device, counter: nat)
    requires CacheClear(d)
    ensures T.Shaped(d) && RingClear(d.auth, counter)
  {
    assert forall i | 0 <= i < CACHE_SIZE :: S.Aged(d.auth.ring, 0)[i].None?;
  }

  /** The device holds the key, and its replay window is clear of the host's next requests. */
  predicate Ready(h: Hash, key: seq<byte>, d: Device, counter: nat)
  {
    Keyed(h, key, d) && T.Shaped(d) && (d.auth.authenticated ==> RingClear(d.auth, counter))
  }

  // ---- One sealed packet ----

  /** A signed status reply. */
  predicate StatusIs(reply: Packet, error: byte)
  {
    && reply.command == (if error == ERR_OK then CMD_ACK else CMD_NACK)
    && |reply.payload| == 1 + TAG_SIZE && reply.payload[0] == error
  }

  lemma SignedStatus(h: Hash, a: Auth, p: Packet, error: byte)
    requires RingShape(a) && S.SessionOn(a, p)
    ensures var r := RespondStatus(h, a, p, error);
      && StatusIs(r.reply, error)
      && r.auth == S.Push(a, S.EntryFor(h, p, r.reply))
  {
    S.StatusCases(h, a, p, error);
    hide ResponseTag, RequestDigest, S.EntryFor, S.Push;
  }

  /** What the device makes of a sealed packet it has not answered before. */
  lemma SealedEffect(
    h: Hash, d: Device, command: byte, sequence: uint16, payload: seq<byte>, tag: seq<byte>, o: Outcome)
    requires T.Shaped(d) && IsProtected(command) && d.auth.required && d.auth.authenticated && |tag| == TAG_SIZE
    requires FindEntry(d.auth.ring, Sealed(command, sequence, payload, tag)) < 0
    ensures var p := Sealed(command, sequence, payload, tag); var x := Execute(d.ota, command, payload, o);
      var v := After(h, d, p, o);
      if tag == RequestTag(h, d.auth.sessionKey, command, sequence, payload)
      then v.ota == x.ota && v.restarts == d.restarts + (if x.restart then 1 else 0) &&
           (x.restart || v.auth == RespondStatus(h, d.auth, p, x.error).auth) &&
           Answer(h, d, p, o) == RespondStatus(h, d.auth, p, x.error).reply
      else v == d.(auth := RespondStatus(h, d.auth, p, ERR_AUTH_REQUIRED).auth) &&
           Answer(h, d, p, o) == RespondStatus(h, d.auth, p, ERR_AUTH_REQUIRED).reply
  {
    hide FindEntry, RequestTag, Execute, RespondStatus, Configure;
    var p := Sealed(command, sequence, payload, tag);
    TaggedParts(payload, tag);
    assert CheckReplay(h, d.auth, p).New?;
  }

  // ---- One sealed call ----

  /** The command took effect exactly once, and the reply is its status. */
  predicate ExecutedOnce(d: Device, v: Device, command: byte, payload: seq<byte>, o: Outcome, reply: Packet)
    requires IsProtected(command)
  {
    var x := Execute(d.ota, command, payload, o);
    && Possible(o, d) && v.ota == x.ota && v.restarts == d.restarts + (if x.restart then 1 else 0)
    && (x.restart || StatusIs(reply, x.error))
  }

  /** So it is, and even a restart was acknowledged by the very execution that caused it. */
  predicate ExecutedExactly(d: Device, v: Device, command: byte, payload: seq<byte>, o: Outcome, reply: Packet)
    requires IsProtected(command)
  {
    ExecutedOnce(d, v, command, payload, o, reply) && StatusIs(reply, Execute(d.ota, command, payload, o).error)
  }

  /** The device refused the request for want of a matching session, signed or not; nothing happened. */
  predicate RefusedCall(d: Device, v: Device, reply: Packet)
  {
    && reply.command == CMD_NACK
    && (reply.payload == [ERR_AUTH_REQUIRED] || StatusIs(reply, ERR_AUTH_REQUIRED))
    && v.ota == d.ota && v.restarts == d.restarts
  }

  /** Without a session the call changes nothing and says so. */
  lemma UnauthenticatedCall(h: Hash, l: Link, m: Link, number: nat, p: Packet, k: nat)
    requires T.Shaped(l.device) && Settled(h, l) && Answered(h, l, m, number, p, k)
    requires p.version == VERSION && IsProtected(p.command) && l.device.auth.required && !l.device.auth.authenticated
    ensures m.device == l.device && m.log[k].reply == Nack(p, ERR_AUTH_REQUIRED) && Settled(h, m)
  {
    hide Inv, T.Shaped, Settled, Grew, After, Answer, Handle, Possible;
    RefusedIsInert(h, l.device, p);
    InertIsSteady(h, l.device, p);
    InertCall(h, l, m, number, p, k);
    var o := CallIsAtomic(h, l, m, number, p, k);
    RestartedRefuses(h, l.device, p, o);
    CallSettles(h, l, m, number, p, k);
  }

  /** With a session, the call is one execution or one refusal, and the device moves to the state after it. */
  lemma AuthenticatedCall(h: Hash, l: Link, m: Link, number: nat, p: Packet, k: nat) returns (o: Outcome)
    requires S.Inv(h, l.device.auth) && S.SessionOn(l.device.auth, p) && p.version == VERSION
    requires 0 < |l.device.auth.key| <= KEY_MAX_SIZE && CheckReplay(h, l.device.auth, p).New?
    requires T.Shaped(l.device) && Settled(h, l) && Answered(h, l, m, number, p, k)
    ensures m.device == After(h, l.device, p, o) && T.Shaped(m.device) && Settled(h, m) && Possible(o, l.device)
    ensures m.device.restarts == l.device.restarts ==> m.log[k].reply == Answer(h, l.device, p, o)
  {
    hide Inv, T.Shaped, Settled, Grew, After, Answer, Handle, Possible, S.Inv, CheckReplay, Steady, Honest;
    FreshIsSteady(h, l.device, p, m.log[k].reply);
    o := CallIsAtomic(h, l, m, number, p, k);
    FreshMoves(h, l.device, p, o);
    CallSettles(h, l, m, number, p, k);
  }

  /** From this ready device and settled link the sealed request was sent and answered by record `k`. */
  ghost predicate SealedAnswered(
    h: Hash, key: seq<byte>, l: Link, m: Link, counter: nat, command: byte, payload: seq<byte>, tag: seq<byte>, k: nat)
  {
    && Ready(h, key, l.device, counter) && Settled(h, l) && IsProtected(command) && |tag| == TAG_SIZE
    && Answered(h, l, m, counter + 1, Sealed(command, SequenceOf(counter + 1), payload, tag), k)
  }

  lemma KeyedAtEnd(h: Hash, key: seq<byte>, l: Link, m: Link)
    requires Inv(h, m) && Grew(l, m) && Keyed(h, key, l.device)
    ensures Keyed(h, key, m.device) && T.Shaped(m.device)
  {
    hide Inv, Keyed;
    GrewStart(l, m);
    KeyedStays(h, key, l, m, |m.log|);
    KeyedShape(h, key, m.device);
  }

  lemma SealedCallRefused(
    h: Hash, key: seq<byte>, l: Link, m: Link, counter: nat, command: byte, payload: seq<byte>, tag: seq<byte>, k: nat)
    requires SealedAnswered(h, key, l, m, counter, command, payload, tag, k) && !l.device.auth.authenticated
    ensures Ready(h, key, m.device, counter + 1) && Settled(h, m) && RefusedCall(l.device, m.device, m.log[k].reply)
  {
    hide Inv, Settled, Grew, RingClear, S.Inv;
    UnauthenticatedCall(h, l, m, counter + 1, Sealed(command, SequenceOf(counter + 1), payload, tag), k);
  }

  /** One handling of the request by a device with a session, and any reply that is genuine unless it restarted. */
  lemma SealedStep(
    h: Hash, d: Device, counter: nat, command: byte, payload: seq<byte>, tag: seq<byte>, o: Outcome, reply: Packet)
    requires T.Shaped(d) && d.auth.required && d.auth.authenticated && RingClear(d.auth, counter) && Possible(o, d)
    requires IsProtected(command) && |tag| == TAG_SIZE
    requires var p := Sealed(command, SequenceOf(counter + 1), payload, tag);
      After(h, d, p, o).restarts == d.restarts ==> reply == Answer(h, d, p, o)
    ensures var v := After(h, d, Sealed(command, SequenceOf(counter + 1), payload, tag), o);
      && (v.auth.authenticated ==> T.Shaped(v) && RingClear(v.auth, counter + 1))
      && (RefusedCall(d, v, reply) || ExecutedOnce(d, v, command, payload, o, reply))
      && (tag == RequestTag(h, d.auth.sessionKey, command, SequenceOf(counter + 1), payload) ==>
            ExecutedOnce(d, v, command, payload, o, reply))
      && (reply == Answer(h, d, Sealed(command, SequenceOf(counter + 1), payload, tag), o) ==>
            RefusedCall(d, v, reply) || ExecutedExactly(d, v, command, payload, o, reply))
  {
    hide RingClear, Handle, After, Answer, Execute, RespondStatus, RequestTag, Possible, S.Push, S.EntryFor, FindEntry;
    var p := Sealed(command, SequenceOf(counter + 1), payload, tag);
    ClearRingMisses(d.auth, counter, p);
    SealedEffect(h, d, command, p.sequence, payload, tag, o);
    var x := Execute(d.ota, command, payload, o);
    var executed := tag == RequestTag(h, d.auth.sessionKey, command, p.sequence, payload);
    var error := if executed then x.error else ERR_AUTH_REQUIRED;
    SignedStatus(h, d.auth, p, error);
    if executed && x.restart {
      RestartForgets(h, d, p, o);
    } else {
      PushedStaysReady(d.auth, counter, p, h, RespondStatus(h, d.auth, p, error).reply);
    }
  }

  lemma ClearIsNew(h: Hash, a: Auth, counter: nat, p: Packet)
    requires RingShape(a) && a.required && a.authenticated && RingClear(a, counter)
    requires p.sequence == SequenceOf(counter + 1)
    ensures CheckReplay(h, a, p).New?
  {
    hide RingClear, FindEntry;
    ClearRingMisses(a, counter, p);
  }

  lemma SealedCallHandled(
    h: Hash, key: seq<byte>, l: Link, m: Link, counter: nat, command: byte, payload: seq<byte>, tag: seq<byte>, k: nat)
    returns (o: Outcome)
    requires SealedAnswered(h, key, l, m, counter, command, payload, tag, k) && l.device.auth.authenticated
    ensures Ready(h, key, m.device, counter + 1) && Settled(h, m)
    ensures RefusedCall(l.device, m.device, m.log[k].reply) ||
            ExecutedOnce(l.device, m.device, command, payload, o, m.log[k].reply)
    ensures tag == RequestTag(h, l.device.auth.sessionKey, command, SequenceOf(counter + 1), payload) ==>
            ExecutedOnce(l.device, m.device, command, payload, o, m.log[k].reply)
  {
    hide Inv, Settled, Grew, RingClear, S.Inv, After, Answer, RequestTag, Possible, RefusedCall, ExecutedOnce;
    var p := Sealed(command, SequenceOf(counter + 1), payload, tag);
    ClearIsNew(h, l.device.auth, counter, p);
    o := AuthenticatedCall(h, l, m, counter + 1, p, k);
    SealedStep(h, l.device, counter, command, payload, tag, o, m.log[k].reply);
    KeyedAtEnd(h, key, l, m);
  }

  lemma RestartForgets(h: Hash, d: Device, p: Packet, o: Outcome)
    requires T.Shaped(d) && After(h, d, p, o).restarts != d.restarts
    ensures !After(h, d, p, o).auth.authenticated
  {
    RestartForgetsSession(h, d, p, o);
    hide Handle;
  }

  lemma PushedStaysReady(a: Auth, counter: nat, p: Packet, h: Hash, reply: Packet)
    requires RingShape(a) && RingClear(a, counter) && p.sequence == SequenceOf(counter + 1)
    ensures var b := S.Push(a, S.EntryFor(h, p, reply)); RingShape(b) && RingClear(b, counter + 1)
  {
    hide RequestDigest, RingClear;
    ClearRingPush(a, counter, S.EntryFor(h, p, reply));
  }

  /**
   * However many copies of a protected request were sent, lost or delayed: once the
   * host has its answer, the device has either refused it, unchanged, or executed
   * it exactly once on the host's own payload; it did execute it if the host's tag
   * was made with the device's session key. Nothing in flight can change the device
   * any more, and it is ready for the host's next request.
   */
  lemma SealedCall(
    h: Hash, key: seq<byte>, l: Link, m: Link, counter: nat, command: byte, payload: seq<byte>, tag: seq<byte>, k: nat)
    returns (o: Outcome)
    requires SealedAnswered(h, key, l, m, counter, command, payload, tag, k)
    ensures Ready(h, key, m.device, counter + 1) && Settled(h, m)
    ensures RefusedCall(l.device, m.device, m.log[k].reply) ||
            ExecutedOnce(l.device, m.device, command, payload, o, m.log[k].reply)
    ensures l.device.auth.authenticated &&
            tag == RequestTag(h, l.device.auth.sessionKey, command, SequenceOf(counter + 1), payload) ==>
            ExecutedOnce(l.device, m.device, command, payload, o, m.log[k].reply)
  {
    hide Ready, Settled, Sealed, RequestTag, Inv;
    if l.device.auth.authenticated {
      o := SealedCallHandled(h, key, l, m, counter, command, payload, tag, k);
    } else {
      SealedCallRefused(h, key, l, m, counter, command, payload, tag, k);
      o := AnyOutcome();
    }
  }

  /**
   * If the device handled only one copy, the reply is that of this handling, so that
   * also a command that restarts the device was executed exactly once or not at all.
   */
  lemma SealedSingleCall(
    h: Hash, key: seq<byte>, l: Link, m: Link, counter: nat, command: byte, payload: seq<byte>, tag: seq<byte>, k: nat)
    requires SealedAnswered(h, key, l, m, counter, command, payload, tag, k)
    requires CopyCount.HandledCopies(m.log, |l.requests|) <= 1
    ensures RefusedCall(l.device, m.device, m.log[k].reply) ||
            ExecutedExactly(l.device, m.device, command, payload, m.log[k].outcome, m.log[k].reply)
    ensures l.device.auth.authenticated &&
            tag == RequestTag(h, l.device.auth.sessionKey, command, SequenceOf(counter + 1), payload) ==>
            ExecutedExactly(l.device, m.device, command, payload, m.log[k].outcome, m.log[k].reply)
  {
    hide Inv, Settled, Grew, RingClear, S.Inv, After, Answer, RequestTag, Possible, RefusedCall, ExecutedOnce, StatusIs;
    hide CopyCount.HandledCopies, ExecutedExactly, SequenceOf;
    if l.device.auth.authenticated {
      var p := Sealed(command, SequenceOf(counter + 1), payload, tag);
      var x := m.log[k];
      CopyCount.SingleCall(h, l, m, counter + 1, p, k);
      SealedStep(h, l.device, counter, command, payload, tag, x.outcome, x.reply);
      if tag == RequestTag(h, l.device.auth.sessionKey, command, SequenceOf(counter + 1), payload) {
        ExecutedIsExact(l.device, m.device, command, payload, x.outcome, x.reply);
      }
    } else {
      SealedCallRefused(h, key, l, m, counter, command, payload, tag, k);
    }
  }

  lemma ExecutedIsExact(d: Device, v: Device, command: byte, payload: seq<byte>, o: Outcome, reply: Packet)
    requires IsProtected(command) && ExecutedOnce(d, v, command, payload, o, reply)
    requires RefusedCall(d, v, reply) || ExecutedExactly(d, v, command, payload, o, reply)
    ensures ExecutedExactly(d, v, command, payload, o, reply)
  {
    hide Execute, Possible, StatusIs;
  }

  function AnyOutcome(): Outcome
  {
    Outcome(None, false, 0, false, false, false, None, false, false, None, [], [])
  }

  // ---- While a call is outstanding ----

  /** The device after one execution. */
  predicate Took(d: Device, v: Device, command: byte, payload: seq<byte>, o: Outcome)
    requires IsProtected(command)
  {
    var x := Execute(d.ota, command, payload, o);
    Possible(o, d) && v.ota == x.ota && v.restarts == d.restarts + if x.restart then 1 else 0
  }

  /** The command has had no effect, or has taken effect once, restarts included. */
  ghost predicate AtMostOnce(d: Device, v: Device, command: byte, payload: seq<byte>)
    requires IsProtected(command)
  {
    (v.ota == d.ota && v.restarts == d.restarts) || exists o :: Took(d, v, command, payload, o)
  }

  lemma StepAtMostOnce(h: Hash, d: Device, counter: nat, command: byte, payload: seq<byte>, tag: seq<byte>, v: Device)
    requires T.Shaped(d) && d.auth.required && d.auth.authenticated && RingClear(d.auth, counter)
    requires IsProtected(command) && |tag| == TAG_SIZE
    requires Moved(h, d, Sealed(command, SequenceOf(counter + 1), payload, tag), v)
    ensures AtMostOnce(d, v, command, payload)
  {
    hide RingClear, Handle, After, Answer, Execute, Possible, RefusedCall, RequestTag;
    var p := Sealed(command, SequenceOf(counter + 1), payload, tag);
    if v != d {
      var o := MovedBy(h, d, p, v);
      SealedStepTakes(h, d, counter, command, payload, tag, o);
    }
  }

  lemma SealedStepTakes(h: Hash, d: Device, counter: nat, command: byte, payload: seq<byte>, tag: seq<byte>, o: Outcome)
    requires T.Shaped(d) && d.auth.required && d.auth.authenticated && RingClear(d.auth, counter)
    requires IsProtected(command) && |tag| == TAG_SIZE && Possible(o, d)
    ensures var v := After(h, d, Sealed(command, SequenceOf(counter + 1), payload, tag), o);
      (v.ota == d.ota && v.restarts == d.restarts) || Took(d, v, command, payload, o)
  {
    hide RingClear, Handle, After, Answer, Execute, RespondStatus, RequestTag, Possible;
    ClearRingMisses(d.auth, counter, Sealed(command, SequenceOf(counter + 1), payload, tag));
    SealedEffect(h, d, command, SequenceOf(counter + 1), payload, tag, o);
  }

  /**
   * At every moment of an outstanding call, answered or not, timed out or not, the
   * command has taken effect at most once.
   */
  lemma SealedAtMostOnce(
    h: Hash, key: seq<byte>, l: Link, m: Link, counter: nat, command: byte, payload: seq<byte>, tag: seq<byte>)
    requires Ready(h, key, l.device, counter) && Settled(h, l) && IsProtected(command) && |tag| == TAG_SIZE
    requires m.requests ==
      l.requests + [Request.Request(counter + 1, Sealed(command, SequenceOf(counter + 1), payload, tag))]
    requires Inv(h, m) && Grew(l, m)
    ensures AtMostOnce(l.device, m.device, command, payload)
  {
    hide Inv, Settled, Grew, RingClear, S.Inv, After, Steady, Honest, Inert, AtMostOnce, Moved, Handle;
    var p := Sealed(command, SequenceOf(counter + 1), payload, tag);
    if l.device.auth.authenticated {
      ClearIsNew(h, l.device.auth, counter, p);
      FreshIsSteady(h, l.device, p, p);
      MovedAtEnd(h, l, m, counter + 1, p);
      StepAtMostOnce(h, l.device, counter, command, payload, tag, m.device);
    } else {
      RefusedIsInert(h, l.device, p);
      InertIsSteady(h, l.device, p);
      MovedAtEnd(h, l, m, counter + 1, p);
      InertMoved(h, l.device, p, m.device);
      StayedAtMostOnce(l.device, command, payload);
    }
  }

  lemma StayedAtMostOnce(d: Device, command: byte, payload: seq<byte>)
    requires IsProtected(command)
    ensures AtMostOnce(d, d, command, payload)
  {
  }

  lemma InertMoved(h: Hash, d: Device, p: Packet, v: Device)
    requires T.Shaped(d) && Inert(h, d, p) && Moved(h, d, p, v)
    ensures v == d
  {
    hide After;
    if v != d {
      var o := MovedBy(h, d, p, v);
      assert false;
    }
  }
}
