/**
 * Calls on a link with anything still in flight.
 *
 * The link delivers in order, so that every older copy has met the device before
 * the first copy of the current request does. Seen from that moment the call starts
 * on a settled link: nothing but its own copies can follow.
 */
module Draining {
  import opened Bytes
  import opened Codes
  import opened Esp
  import opened Frame
  import opened HmacSha
  import opened Sealing
  import opened DeviceMachine
  import opened LossyLink
  import opened RemoteCall
  import opened CallTheory
  import opened HandshakeTheory
  import opened SealedCalls
  import opened RequestTrace
  import PlainCalls
  import RequestOutcome
  import CopyCount
  import Payloads
  import S = SessionTheory
  import T = DispatchTheory

  // ---- The moment before the first copy ----

  /** Record `j` is the first handling of a request issued on `l`. */
  predicate FirstCopy(l: Link, m: Link, j: nat)
  {
    && |l.log| <= j < |m.log| && m.log[j].id == |l.requests|
    && forall i | |l.log| <= i < j :: m.log[i].id < |l.requests|
  }

  /** The link as it was then, with nothing of the older requests left. */
  function Drained(l: Link, m: Link, j: nat): Link
    requires j <= |m.log|
  {
    Link(l.requests, [], m.log[..j], [], |l.requests|, StateAt(m, j))
  }

  lemma FirstCopyOf(h: Hash, l: Link, m: Link, number: nat, p: Packet, k: nat) returns (j: nat)
    requires Answered(h, l, m, number, p, k)
    ensures FirstCopy(l, m, j) && j <= k
  {
    hide Recorded, Numbered, Grew;
    j := k;
    while j > |l.log| && m.log[j - 1].id == |l.requests|
      invariant |l.log| <= j <= k && m.log[j].id == |l.requests|
    {
      j := j - 1;
    }
  }

  lemma DrainedAnswered(h: Hash, l: Link, m: Link, number: nat, p: Packet, k: nat, j: nat)
    requires Answered(h, l, m, number, p, k) && FirstCopy(l, m, j) && j <= k
    ensures Answered(h, Drained(l, m, j), m, number, p, k)
    ensures T.Shaped(StateAt(m, j)) && Settled(h, Drained(l, m, j))
  {
    hide Inv, T.Shaped, Inert;
    DrainedShape(h, m, j);
    SortedFrom(h, m, j);
    DrainedGrows(l, m, j);
    hide Grew;
  }

  lemma SortedFrom(h: Hash, m: Link, j: nat)
    requires Inv(h, m) && j < |m.log|
    ensures forall i | j <= i < |m.log| :: m.log[j].id <= m.log[i].id
  {
    hide Recorded, Numbered;
  }

  lemma DrainedGrows(l: Link, m: Link, j: nat)
    requires j < |m.log| && m.log[j].id == |l.requests| && l.requests <= m.requests && m.floor == |l.requests|
    requires forall i | j <= i < |m.log| :: m.log[j].id <= m.log[i].id
    ensures Grew(Drained(l, m, j), m)
  {
    assert m.log[..j] <= m.log;
  }

  lemma DrainedShape(h: Hash, m: Link, j: nat)
    requires Inv(h, m) && j < |m.log|
    ensures T.Shaped(StateAt(m, j))
  {
    hide Inv, T.Shaped;
    RecordStep(h, m, j);
  }

  // ---- What the older copies leave of the session ----

  /** The packet carries none of the host's next eight numbers. */
  predicate Older(p: Packet, counter: nat)
  {
    forall n | counter < n <= counter + CACHE_SIZE :: p.sequence != SequenceOf(n)
  }

  lemma OlderPush(a: Auth, counter: nat, p: Packet, e: Entry)
    requires RingShape(a) && RingClear(a, counter) && Older(p, counter) && e.sequence == p.sequence
    ensures RingShape(S.Push(a, e)) && RingClear(S.Push(a, e), counter)
  {
    S.AgedPush(a, e);
    hide S.Aged, S.Push, SequenceOf;
    var aged := S.Aged(a.ring, a.nextEntry);
    var b := S.Push(a, e);
    var next := S.Aged(b.ring, b.nextEntry);
    forall i, n | 0 <= i < CACHE_SIZE && counter < n <= counter + i + 1
      ensures Avoids(next[i], n)
    {
      if i < CACHE_SIZE - 1 { assert next[i] == aged[i + 1] && Avoids(aged[i + 1], n); }
    }
  }

  lemma OlderStatus(h: Hash, a: Auth, counter: nat, p: Packet, error: byte)
    requires RingShape(a) && RingClear(a, counter) && Older(p, counter)
    ensures RingShape(RespondStatus(h, a, p, error).auth) && RingClear(RespondStatus(h, a, p, error).auth, counter)
  {
    hide RespondStatus, RingClear, S.Push, S.Signed;
    S.StatusCases(h, a, p, error);
    if S.SessionOn(a, p) { OlderPush(a, counter, p, S.EntryFor(h, p, RespondStatus(h, a, p, error).reply)); }
  }

  lemma EmptyIsClear(a: Auth, counter: nat)
    requires RingShape(a) && S.AllEmpty(a.ring)
    ensures RingClear(a, counter)
  {
  }

  lemma OlderProtected(h: Hash, d: Device, counter: nat, p: Packet, o: Outcome)
    requires RingShape(d.auth) && RingClear(d.auth, counter) && Older(p, counter) && IsProtected(p.command)
    ensures var a := HandleProtected(h, d, p, o).device.auth; RingShape(a) && RingClear(a, counter)
  {
    hide RespondStatus, RingClear, CheckReplay, Unwrap, Execute, Older;
    EmptyIsClear(Configure(d.auth.key, d.auth.required), counter);
    forall error: byte
      ensures var a := RespondStatus(h, d.auth, p, error).auth; RingShape(a) && RingClear(a, counter)
    {
      OlderStatus(h, d.auth, counter, p, error);
    }
  }

  lemma OlderAuth(h: Hash, a: Auth, counter: nat, p: Packet, nonce: seq<byte>)
    requires RingShape(a) && RingClear(a, counter)
    ensures var b := HandleAuth(h, a, p, nonce).auth; RingShape(b) && RingClear(b, counter)
  {
    hide ProofAccepted, SessionKey, DeviceProof, S.Aged, Avoids, RingClear;
    var b := HandleAuth(h, a, p, nonce).auth;
    if b.ring != a.ring || b.nextEntry != a.nextEntry { EmptyIsClear(b, counter); } else { SameRing(a, b, counter); }
  }

  lemma SameRing(a: Auth, b: Auth, counter: nat)
    requires RingShape(a) && RingClear(a, counter) && b.ring == a.ring && b.nextEntry == a.nextEntry
    ensures RingShape(b) && RingClear(b, counter)
  {
  }

  /** An older packet leaves the replay window clear. */
  lemma OlderKeepsClear(h: Hash, d: Device, counter: nat, p: Packet, o: Outcome)
    requires T.Shaped(d) && RingClear(d.auth, counter) && Older(p, counter)
    ensures RingClear(After(h, d, p, o).auth, counter)
  {
    hide RingClear, HandleProtected, HandleAuth, Older;
    OlderAuth(h, d.auth, counter, p, o.nonce);
    if IsProtected(p.command) { OlderProtected(h, d, counter, p, o); }
  }

  // ---- What a call may start from, whatever is in flight ----

  /** The host's numbers are running, and the window holds for as many more as the reply cache has places. */
  predicate NumbersOpen(l: Link, counter: nat) { NumbersUpTo(l, counter) && WindowOpen(l, counter, CACHE_SIZE) }

  /** The device is the host's, and its replay window is clear; copies of older requests may still be in flight. */
  ghost predicate Fit(h: Hash, authKey: Option<seq<byte>>, l: Link, counter: nat)
  {
    match authKey
    case None => T.Shaped(l.device) && !l.device.auth.required && PlainCalls.Transferable(l.device.ota)
    case Some(key) => Ready(h, key, l.device, counter) && NumbersOpen(l, counter)
  }

  /** A copy that may still be in flight carries none of the next numbers. */
  lemma InFlightIsOlder(h: Hash, l: Link, m: Link, counter: nat, id: nat)
    requires Inv(h, m) && Grew(l, m) && NumbersOpen(l, counter) && l.floor <= id < |l.requests|
    ensures id < |m.requests| && Older(m.requests[id].packet, counter)
  {
    hide Ordered, Recorded, Grew;
    InFlightNumber(h, l, m, counter, id);
    var number := m.requests[id].number;
    forall n | counter < n <= counter + CACHE_SIZE
      ensures m.requests[id].packet.sequence != SequenceOf(n)
    {
      SameResidue(number, n);
    }
  }

  lemma InFlightNumber(h: Hash, l: Link, m: Link, counter: nat, id: nat)
    requires Inv(h, m) && Grew(l, m) && NumbersOpen(l, counter) && l.floor <= id < |l.requests|
    ensures id < |m.requests| && counter + CACHE_SIZE - SEQUENCES < m.requests[id].number <= counter
    ensures m.requests[id].packet.sequence == SequenceOf(m.requests[id].number)
  {
    hide Inv, SequenceOf;
    NumbersGrow(h, m, id, |l.requests| - 1);
    NumbersGrow(h, m, l.floor, id);
    assert m.requests[|l.requests| - 1] == l.requests[|l.requests| - 1] && m.requests[l.floor] == l.requests[l.floor];
  }

  lemma NumbersGrow(h: Hash, m: Link, i: nat, j: nat)
    requires Inv(h, m) && i <= j < |m.requests|
    ensures m.requests[i].number <= m.requests[j].number
    ensures m.requests[i].packet.sequence == SequenceOf(m.requests[i].number)
  {
    hide Ordered, Recorded, SequenceOf;
  }

  /** Up to the first copy of the current request the device stays the host's, with a clear window. */
  lemma {:induction false} ReadyThrough(h: Hash, key: seq<byte>, l: Link, m: Link, counter: nat, first: nat, j: nat)
    requires Inv(h, m) && Grew(l, m) && Ready(h, key, l.device, counter) && NumbersOpen(l, counter)
    requires FirstCopy(l, m, first) && |l.log| <= j <= first
    ensures Ready(h, key, StateAt(m, j), counter)
    decreases j
  {
    hide Inv, Grew, Ready, NumbersOpen, StateAt, FirstCopy;
    if j == |l.log| {
      GrewStart(l, m);
    } else {
      ReadyThrough(h, key, l, m, counter, first, j - 1);
      ReadyRecord(h, key, l, m, counter, first, j - 1);
    }
  }

  lemma ReadyRecord(h: Hash, key: seq<byte>, l: Link, m: Link, counter: nat, first: nat, j: nat)
    requires Inv(h, m) && Grew(l, m) && NumbersOpen(l, counter) && FirstCopy(l, m, first) && |l.log| <= j < first
    requires Ready(h, key, StateAt(m, j), counter)
    ensures Ready(h, key, StateAt(m, j + 1), counter)
  {
    hide Inv, NumbersOpen, After, Answer, Keyed, RingClear, T.Shaped, Older;
    RecordStep(h, m, j);
    KeyedRecord(h, key, m, j);
    var x := m.log[j];
    InFlightIsOlder(h, l, m, counter, x.id);
    ReadyIsClear(h, key, x.before, counter);
    OlderKeepsClear(h, x.before, counter, m.requests[x.id].packet, x.outcome);
    KeyedShape(h, key, StateAt(m, j + 1));
  }

  /** Without a session the cache is empty. */
  lemma ReadyIsClear(h: Hash, key: seq<byte>, d: Device, counter: nat)
    requires Ready(h, key, d, counter)
    ensures RingClear(d.auth, counter)
  {
    hide RingClear, S.EmptyFirst, S.AllSigned, S.KeyDerived;
    if !d.auth.authenticated { EmptyIsClear(d.auth, counter); }
  }

  lemma PlainAfter(h: Hash, d: Device, p: Packet, o: Outcome)
    requires T.Shaped(d) && !d.auth.required
    ensures !After(h, d, p, o).auth.required
  {
    hide Execute, ResponseTag, RequestDigest, FindEntry;
  }

  /** Before record `j` the device runs without authentication. */
  predicate PlainAt(l: Link, j: nat) { !StateAt(l, j).auth.required }

  lemma {:induction false} PlainThrough(h: Hash, l: Link, m: Link, j: nat)
    requires Inv(h, m) && Grew(l, m) && !l.device.auth.required && |l.log| <= j <= |m.log|
    ensures PlainAt(m, j)
    decreases j
  {
    hide Inv, Grew, PlainAt;
    if j == |l.log| {
      PlainStart(l, m);
    } else {
      PlainThrough(h, l, m, j - 1);
      PlainRecord(h, m, j);
    }
  }

  lemma PlainStart(l: Link, m: Link)
    requires Grew(l, m) && !l.device.auth.required
    ensures PlainAt(m, |l.log|)
  {
    hide Grew;
    GrewStart(l, m);
  }

  lemma PlainRecord(h: Hash, m: Link, j: nat)
    requires Inv(h, m) && 0 < j <= |m.log| && PlainAt(m, j - 1)
    ensures PlainAt(m, j)
  {
    hide Inv, After, Answer, T.Shaped;
    RecordStep(h, m, j - 1);
    PlainAfter(h, m.log[j - 1].before, m.requests[m.log[j - 1].id].packet, m.log[j - 1].outcome);
  }

  /** Whatever is in flight, an answered call started on a prepared link: the one its first copy met. */
  lemma Drains(
    h: Hash, authKey: Option<seq<byte>>, l: Link, m: Link, counter: nat, p: Packet, k: nat) returns (j: nat)
    requires Answered(h, l, m, counter + 1, p, k) && Fit(h, authKey, l, counter)
    ensures FirstCopy(l, m, j) && Answered(h, Drained(l, m, j), m, counter + 1, p, k)
    ensures Prepared(h, authKey, Drained(l, m, j), counter)
  {
    hide Inv, Grew, Ready, NumbersOpen, T.Shaped, Settled, PlainCalls.Transferable, FirstCopy;
    j := FirstCopyOf(h, l, m, counter + 1, p, k);
    DrainedAnswered(h, l, m, counter + 1, p, k, j);
    FirstInside(l, m, j);
    match authKey {
      case None =>
        PlainThrough(h, l, m, j);
        PlainCalls.TransferableStays(h, l, m, j);
      case Some(key) => ReadyThrough(h, key, l, m, counter, j, j);
    }
  }

  lemma FirstInside(l: Link, m: Link, j: nat)
    requires FirstCopy(l, m, j)
    ensures |l.log| <= j < |m.log|
  {
  }

  lemma StaysPlain(h: Hash, l: Link, m: Link)
    requires Inv(h, m) && Grew(l, m) && !l.device.auth.required
    ensures !m.device.auth.required && T.Shaped(m.device)
  {
    hide Inv, T.Shaped;
    GrewStart(l, m);
    PlainThrough(h, l, m, |m.log|);
    DeviceShaped(h, m);
    hide Grew;
  }

  // ---- Requests ----

  /** Where a request may start: a client without a session will run the handshake first. */
  ghost predicate MayCall(h: Hash, authKey: Option<seq<byte>>, s: Standing)
  {
    if authKey.Some? && s.sessionKey.None? then Keyed(h, authKey.value, s.link.device)
    else Fit(h, authKey, s.link, s.counter)
  }

  /** A handshake that returned prepares the link, whatever was in flight before. */
  lemma ShakePrepares(h: Hash, key: seq<byte>, retries: nat, k: Shake, counter: nat)
    requires Shaken(h, key, retries, k) && Keyed(h, key, k.challenge.before.device)
    ensures Prepared(h, Some(key), k.proof.after, counter)
    ensures PlainCalls.Transferable(k.challenge.before.device.ota) ==>
      PlainCalls.Transferable(k.proof.after.device.ota)
  {
    hide Agreement, Prepared, Keyed, PlainCalls.Transferable, SessionKey, Shaken, Inv, Grew;
    ShakeAgrees(h, key, retries, k);
    AgreementPrepares(
      h, key, k.challenge.before, k.proof.after, counter, ShakeKey(h, key, k), k.client, k.server);
    ShakeGrows(h, key, retries, k);
    if PlainCalls.Transferable(k.challenge.before.device.ota) {
      PlainCalls.TransferableAtEnd(h, k.challenge.before, k.proof.after);
    }
  }

  lemma ShakeGrows(h: Hash, key: seq<byte>, retries: nat, k: Shake)
    requires Shaken(h, key, retries, k)
    ensures Inv(h, k.proof.after) && Grew(k.challenge.before, k.proof.after)
  {
    hide Inv, Grew, CopyCount.Outstanding, SessionKey, Proof, DeviceProof, ChallengePasses, Payloads.EnsureAck;
    GrewTransitive(k.challenge.before, k.challenge.after, k.proof.after);
  }

  /** What a pass saw of the link: the device that its first copy met. */
  ghost predicate Meets(s: Standing, x: Pass, base: Link)
  {
    exists j :: FirstCopy(s.link, x.after, j) && base == Drained(s.link, x.after, j)
  }

  function From(x: Pass, base: Link): Pass { x.(before := base) }

  /** A pass is the same pass from the link its first copy met. */
  lemma PassDrained(h: Hash, authKey: Option<seq<byte>>, retries: nat, s: Standing, x: Pass) returns (base: Link)
    requires Passed(h, retries, x) && x.before == s.link && x.number == s.counter + 1
    requires Fit(h, authKey, s.link, s.counter)
    ensures Passed(h, retries, From(x, base)) && Prepared(h, authKey, base, s.counter) && Meets(s, x, base)
    ensures PlainCalls.Transferable(s.link.device.ota) ==> PlainCalls.Transferable(base.device.ota)
  {
    hide Answered, Prepared, Fit, CopyCount.Outstanding, PlainCalls.Transferable, FirstCopy;
    var j := Drains(h, authKey, s.link, x.after, s.counter, x.packet, x.record);
    FirstInside(s.link, x.after, j);
    base := Drained(s.link, x.after, j);
    if PlainCalls.Transferable(s.link.device.ota) { TransferableFirst(h, s.link, x.after, j, x); }
  }

  lemma TransferableFirst(h: Hash, l: Link, m: Link, j: nat, x: Pass)
    requires Answered(h, l, m, x.number, x.packet, x.record) && FirstCopy(l, m, j)
    requires PlainCalls.Transferable(l.device.ota)
    ensures PlainCalls.Transferable(StateAt(m, j).ota)
  {
    hide Inv, Grew, PlainCalls.Transferable;
    PlainCalls.TransferableStays(h, l, m, j);
  }

  lemma PlainDrained(h: Hash, retries: nat, s: Standing, command: byte, payload: seq<byte>, x: Pass)
    returns (r: Standing, y: Pass)
    requires PlainPass(h, retries, s, command, payload, x) && MayCall(h, None, s)
    ensures PlainPass(h, retries, r, command, payload, y) && Prepared(h, None, r.link, r.counter)
    ensures y.after == x.after && y.number == x.number && y.reply == x.reply
    ensures PlainCalls.Transferable(s.link.device.ota) ==> PlainCalls.Transferable(r.link.device.ota)
  {
    hide Passed, Prepared, Fit, PlainCalls.Transferable, Meets;
    var base := PassDrained(h, None, retries, s, x);
    r, y := Standing(base, s.counter, s.sessionKey), From(x, base);
  }

  /** The standing and trace of a request from where its first copy met the device, or its handshake ended. */
  ghost predicate Settles(h: Hash, key: seq<byte>, s: Standing, t: Trace, r: Standing, u: Trace)
  {
    && u.opening.None? && u.again == t.again && Last(u).number == Last(t).number
    && match t.opening
       case Some(_) => r == Opened(h, key, s, t.opening)
       case None => Meets(s, t.first, r.link) && r.counter == s.counter && r.sessionKey == s.sessionKey
  }

  /** A sealed pass is the same sealed pass from the link its first copy met. */
  lemma SealedDrained(h: Hash, key: seq<byte>, retries: nat, s: Standing, command: byte, payload: seq<byte>, x: Pass)
    returns (r: Standing)
    requires SealedPass(h, retries, s, command, payload, x) && Fit(h, Some(key), s.link, s.counter)
    ensures SealedPass(h, retries, r, command, payload, From(x, r.link)) && Prepared(h, Some(key), r.link, r.counter)
    ensures Meets(s, x, r.link) && r.counter == s.counter && r.sessionKey == s.sessionKey
    ensures PlainCalls.Transferable(s.link.device.ota) ==> PlainCalls.Transferable(r.link.device.ota)
  {
    hide Prepared, Fit, PlainCalls.Transferable, Passed, RequestTag, Meets, Sealed, SequenceOf;
    var base := PassDrained(h, Some(key), retries, s, x);
    r := Standing(base, s.counter, s.sessionKey);
  }

  /** A trace that opens with no handshake depends on its start only through its first pass. */
  lemma TraceFrom(
    h: Hash, key: seq<byte>, retries: nat, s: Standing, r: Standing, command: byte, payload: seq<byte>, t: Trace,
    result: Packet, m: Link)
    requires Completes(h, key, retries, s, command, payload, t, result, m) && t.opening.None?
    requires r.counter == s.counter && r.sessionKey == s.sessionKey
    requires SealedPass(h, retries, r, command, payload, From(t.first, r.link))
    ensures Completes(h, key, retries, r, command, payload, t.(first := From(t.first, r.link)), result, m)
  {
    hide SealedPass, Shaken, SessionKey, Payloads.Verified;
  }

  /** A completed request is the same request from a prepared link, whatever was in flight when it began. */
  lemma CompletesDrained(
    h: Hash, key: seq<byte>, retries: nat, s: Standing, command: byte, payload: seq<byte>, t: Trace, result: Packet,
    m: Link) returns (r: Standing, u: Trace)
    requires Completes(h, key, retries, s, command, payload, t, result, m) && MayCall(h, Some(key), s)
    ensures Completes(h, key, retries, r, command, payload, u, result, m) && Prepared(h, Some(key), r.link, r.counter)
    ensures Settles(h, key, s, t, r, u)
    ensures PlainCalls.Transferable(s.link.device.ota) ==> PlainCalls.Transferable(r.link.device.ota)
  {
    hide Prepared, Shaken, SessionKey, Keyed, Fit, PlainCalls.Transferable, SealedPass, Meets, DecideOn;
    match t.opening {
      case Some(k) =>
        ShakePrepares(h, key, retries, k, s.counter + 2);
        CompletesOnceOpened(h, key, retries, s, command, payload, t, result, m);
        r, u := Opened(h, key, s, t.opening), t.(opening := None);
      case None =>
        r := SealedDrained(h, key, retries, s, command, payload, t.first);
        TraceFrom(h, key, retries, s, r, command, payload, t, result, m);
        u := t.(first := From(t.first, r.link));
    }
  }

  /**
   * From anywhere a request may start it was executed exactly once on the device that
   * its first copy met, or that its opening handshake left, and its status returned;
   * but for a collision in its renewal.
   */
  lemma RequestOnceAnywhere(
    h: Hash, key: seq<byte>, retries: nat, s: Standing, command: byte, payload: seq<byte>, t: Trace, result: Packet,
    m: Link) returns (o: Outcome, r: Standing, u: Trace)
    requires Completes(h, key, retries, s, command, payload, t, result, m) && MayCall(h, Some(key), s)
    requires RequestOutcome.SafelySent(command, retries)
    ensures Settles(h, key, s, t, r, u) && Prepared(h, Some(key), m, Last(t).number)
    ensures var d, v := r.link.device, m.device;
      RequestOutcome.DoneExactly(d, v, command, payload, o, result) ||
      (RequestOutcome.RenewalCollided(h, key, t) && RequestOutcome.NotDoneAtAll(d, v, result))
  {
    hide Prepared, Completes, MayCall, RequestOutcome.DoneExactly, RequestOutcome.NotDoneAtAll;
    r, u := CompletesDrained(h, key, retries, s, command, payload, t, result, m);
    o := RequestOutcome.RequestOnce(h, key, retries, r, command, payload, u, result, m);
  }
}
