/**
 * One call over the lossy link is one atomic step of the device.
 *
 * However many copies of a request were sent, lost, delayed or handled, the reply
 * the host accepts and the device it leaves behind are those of handling the
 * request once, provided the request is steady (handled again after it took
 * effect, it changes nothing) and the reply honest (a later copy is answered so
 * only if the one that took effect was). Only if that handling changed nothing may
 * another copy have moved the device, and then once.
 */
module RemoteCall {
  import opened Esp
  import opened Frame
  import opened HmacSha
  import opened DeviceMachine
  import opened LossyLink
  import T = DispatchTheory

  // ---- How a link grows ----

  /** The device before record `j`, or now. */
  function StateAt(l: Link, j: nat): Device
  {
    if j < |l.log| then l.log[j].before else l.device
  }

  /** `m` is `l` some steps later: nothing recorded is forgotten, the device went on from where it was. */
  predicate Grew(l: Link, m: Link)
  {
    && l.requests <= m.requests && l.log <= m.log && l.floor <= m.floor
    && StateAt(m, |l.log|) == l.device
    && forall j | |l.log| <= j < |m.log| :: l.floor <= m.log[j].id
  }

  lemma GrewTransitive(a: Link, b: Link, c: Link)
    requires Grew(a, b) && Grew(b, c)
    ensures Grew(a, c)
  {
    assert |a.log| < |b.log| ==> c.log[|a.log|] == b.log[|a.log|];
    forall j | |a.log| <= j < |c.log|
      ensures a.floor <= c.log[j].id
    {
      assert j < |b.log| ==> c.log[j] == b.log[j];
    }
  }

  lemma GrewStart(l: Link, m: Link)
    requires Grew(l, m)
    ensures |l.log| <= |m.log| && StateAt(m, |l.log|) == l.device
  {
  }

  lemma DeliverGrows(h: Hash, l: Link, o: Outcome)
    requires Ordered(l) && l.toDevice != [] && l.toDevice[0] < |l.requests| && T.Shaped(l.device)
    ensures Grew(l, Deliver(h, l, o))
  {
    hide Handle, T.Shaped;
  }

  // ---- Steady requests ----

  /** What the platform may answer whatever the flash holds. */
  predicate Usable(o: Outcome)
  {
    |o.nonce| == 16 && (o.partition.Some? ==> o.partition.value.size <= MAX_SLOT_SIZE)
  }

  function After(h: Hash, d: Device, p: Packet, o: Outcome): (v: Device)
    requires T.Shaped(d)
    ensures T.Shaped(v)
  {
    T.HandleKeepsShape(h, d, p, o);
    Handle(h, d, p, o).device
  }

  function Answer(h: Hash, d: Device, p: Packet, o: Outcome): Packet
    requires T.Shaped(d)
  {
    Handle(h, d, p, o).reply
  }

  /** Handled again after it took effect, the request changes nothing. */
  predicate SteadyFor(h: Hash, d: Device, p: Packet, o: Outcome, again: Outcome)
    requires T.Shaped(d)
  {
    var v := After(h, d, p, o);
    v != d ==> After(h, v, p, again) == v
  }

  ghost predicate Steady(h: Hash, d: Device, p: Packet)
    requires T.Shaped(d)
  {
    forall o, again | Usable(o) && Usable(again) :: SteadyFor(h, d, p, o, again)
  }

  /** If a later copy is answered with `reply` and no restart came between, so was the copy that took effect. */
  predicate HonestFor(h: Hash, d: Device, p: Packet, reply: Packet, o: Outcome, again: Outcome)
    requires T.Shaped(d)
  {
    var v := After(h, d, p, o);
    v != d && v.restarts == d.restarts && Answer(h, v, p, again) == reply ==> Answer(h, d, p, o) == reply
  }

  ghost predicate Honest(h: Hash, d: Device, p: Packet, reply: Packet)
    requires T.Shaped(d)
  {
    forall o, again | Usable(o) && Usable(again) :: HonestFor(h, d, p, reply, o, again)
  }

  /** The request never changes this device. */
  ghost predicate Inert(h: Hash, d: Device, p: Packet)
    requires T.Shaped(d)
  {
    forall o | Usable(o) :: After(h, d, p, o) == d
  }

  /** Nothing that may still be in flight changes the device. */
  ghost predicate Settled(h: Hash, l: Link)
    requires T.Shaped(l.device)
  {
    forall id | l.floor <= id < |l.requests| :: Inert(h, l.device, l.requests[id].packet)
  }

  // ---- One call ----

  /** From `l` the host issued `p` and accepted the reply of record `k`. */
  predicate Answered(h: Hash, l: Link, m: Link, number: nat, p: Packet, k: nat)
  {
    && m.requests == l.requests + [Request.Request(number, p)]
    && Inv(h, m) && Grew(l, m) && m.floor == |l.requests|
    && |l.log| <= k < |m.log|
    && forall j | k <= j < |m.log| :: m.log[j].id == |l.requests|
  }

  /** `o` is an outcome under which the request takes the device from `d` to `v`, elsewhere. */
  predicate Effective(h: Hash, d: Device, p: Packet, o: Outcome, v: Device)
    requires T.Shaped(d)
  {
    Usable(o) && Possible(o, d) && After(h, d, p, o) == v && v != d
  }

  lemma RecordStep(h: Hash, m: Link, j: nat)
    requires Inv(h, m) && j < |m.log|
    ensures m.log[j].id < |m.requests| && T.Shaped(m.log[j].before)
    ensures Possible(m.log[j].outcome, m.log[j].before) && Usable(m.log[j].outcome)
    ensures var x := m.log[j]; var p := m.requests[x.id].packet;
      StateAt(m, j + 1) == After(h, x.before, p, x.outcome) && x.reply == Answer(h, x.before, p, x.outcome)
  {
    hide Handle, T.Shaped, Ordered, Numbered;
    assert Genuine(h, m.requests, m.log[j]);
    assert j + 1 < |m.log| ==> m.log[j + 1].before == m.log[j].after;
  }

  /** The device during the call: untouched, or moved once by some copy of the request. */
  ghost predicate Moved(h: Hash, d: Device, p: Packet, v: Device)
    requires T.Shaped(d)
  {
    v == d || exists o :: Effective(h, d, p, o, v)
  }

  ghost predicate Calling(h: Hash, l: Link, m: Link, number: nat, p: Packet)
  {
    && T.Shaped(l.device) && Settled(h, l) && Steady(h, l.device, p)
    && m.requests == l.requests + [Request.Request(number, p)] && Inv(h, m) && Grew(l, m)
  }

  lemma StaleCopy(h: Hash, l: Link, m: Link, number: nat, p: Packet, j: nat)
    requires Calling(h, l, m, number, p) && |l.log| <= j < |m.log| && m.log[j].id < |l.requests|
    requires m.log[j].before == l.device
    ensures StateAt(m, j + 1) == l.device && Moved(h, l.device, p, l.device)
  {
    hide Inv, T.Shaped, Steady, After, Answer;
    RecordStep(h, m, j);
    assert m.requests[m.log[j].id] == l.requests[m.log[j].id];
  }

  lemma CurrentCopy(h: Hash, l: Link, m: Link, number: nat, p: Packet, j: nat)
    requires Calling(h, l, m, number, p) && |l.log| <= j < |m.log| && m.log[j].id == |l.requests|
    requires Moved(h, l.device, p, m.log[j].before)
    ensures Moved(h, l.device, p, StateAt(m, j + 1))
    ensures m.log[j].before != l.device ==> StateAt(m, j + 1) == m.log[j].before
  {
    hide Inv, T.Shaped, Settled, After, Answer, Grew, Possible, Usable;
    RecordStep(h, m, j);
    var x := m.log[j];
    if x.before == l.device {
      assert StateAt(m, j + 1) == l.device || Effective(h, l.device, p, x.outcome, StateAt(m, j + 1));
    } else {
      var o :| Effective(h, l.device, p, o, x.before);
      assert SteadyFor(h, l.device, p, o, x.outcome);
    }
  }

  lemma SortedLog(h: Hash, m: Link, j: nat)
    requires Inv(h, m) && 0 < j < |m.log|
    ensures m.log[j - 1].id <= m.log[j].id < |m.requests|
  {
    hide Recorded, Numbered;
  }

  lemma {:induction false} CallStates(h: Hash, l: Link, m: Link, number: nat, p: Packet, j: nat)
    requires Calling(h, l, m, number, p) && |l.log| <= j <= |m.log|
    ensures Moved(h, l.device, p, StateAt(m, j))
    ensures j == |l.log| || m.log[j - 1].id < |l.requests| ==> StateAt(m, j) == l.device
    decreases j
  {
    hide Calling, Moved, StateAt;
    if j == |l.log| {
      CallStart(h, l, m, number, p);
    } else {
      CallStates(h, l, m, number, p, j - 1);
      CallStep(h, l, m, number, p, j - 1);
    }
  }

  lemma CallStart(h: Hash, l: Link, m: Link, number: nat, p: Packet)
    requires Calling(h, l, m, number, p)
    ensures |l.log| <= |m.log| && StateAt(m, |l.log|) == l.device && Moved(h, l.device, p, l.device)
  {
    hide Inv, T.Shaped, Settled, Steady, After, Answer;
  }

  lemma CallStep(h: Hash, l: Link, m: Link, number: nat, p: Packet, j: nat)
    requires Calling(h, l, m, number, p) && |l.log| <= j < |m.log|
    requires Moved(h, l.device, p, StateAt(m, j))
    requires j == |l.log| || m.log[j - 1].id < |l.requests| ==> StateAt(m, j) == l.device
    ensures Moved(h, l.device, p, StateAt(m, j + 1))
    ensures m.log[j].id < |l.requests| ==> StateAt(m, j + 1) == l.device
  {
    hide Calling, Moved;
    RecordInCall(h, l, m, number, p, j);
    if m.log[j].id < |l.requests| {
      StaleCopy(h, l, m, number, p, j);
    } else {
      CurrentCopy(h, l, m, number, p, j);
    }
  }

  lemma RecordInCall(h: Hash, l: Link, m: Link, number: nat, p: Packet, j: nat)
    requires Calling(h, l, m, number, p) && |l.log| <= j < |m.log|
    ensures m.log[j].id <= |l.requests|
    ensures j > |l.log| ==> m.log[j - 1].id <= m.log[j].id
    ensures StateAt(m, j) == m.log[j].before
  {
    hide Settled, Steady, Grew, T.Shaped, Recorded, Numbered;
  }

  /** Once a copy took effect, the device stays there. */
  lemma {:induction false} EffectStays(h: Hash, l: Link, m: Link, number: nat, p: Packet, j: nat, k: nat)
    requires Calling(h, l, m, number, p) && |l.log| <= j <= k <= |m.log|
    requires StateAt(m, j) != l.device
    ensures StateAt(m, k) == StateAt(m, j)
    decreases k
  {
    hide Calling, Moved, StateAt;
    if j < k {
      EffectStays(h, l, m, number, p, j, k - 1);
      CallStates(h, l, m, number, p, k - 1);
      EffectRemains(h, l, m, number, p, k - 1);
    }
  }

  lemma EffectRemains(h: Hash, l: Link, m: Link, number: nat, p: Packet, k: nat)
    requires Calling(h, l, m, number, p) && |l.log| <= k < |m.log|
    requires StateAt(m, k) != l.device && Moved(h, l.device, p, StateAt(m, k))
    ensures StateAt(m, k + 1) == StateAt(m, k)
  {
    hide Calling, Moved;
    RecordInCall(h, l, m, number, p, k);
    MovedIsCurrent(h, l, m, number, p, k);
    CurrentCopy(h, l, m, number, p, k);
  }

  lemma MovedIsCurrent(h: Hash, l: Link, m: Link, number: nat, p: Packet, j: nat)
    requires Calling(h, l, m, number, p) && |l.log| <= j < |m.log| && StateAt(m, j) != l.device
    ensures m.log[j].id == |l.requests|
  {
    CallStates(h, l, m, number, p, j);
    hide Calling, Moved;
    RecordInCall(h, l, m, number, p, j);
  }

  /** What a completed call amounts to: one handling of the request, with outcome `o`. */
  ghost predicate AtomicCall(h: Hash, d: Device, p: Packet, o: Outcome, reply: Packet, v: Device)
    requires T.Shaped(d)
  {
    && Usable(o) && Possible(o, d)
    && (Answer(h, d, p, o) == reply || After(h, d, p, o).restarts != d.restarts)
    && (After(h, d, p, o) == v || (After(h, d, p, o) == d && Moved(h, d, p, v)))
  }

  lemma AnsweredIsCalling(h: Hash, l: Link, m: Link, number: nat, p: Packet, k: nat)
    requires T.Shaped(l.device) && Settled(h, l) && Steady(h, l.device, p) && Answered(h, l, m, number, p, k)
    ensures Calling(h, l, m, number, p) && Inv(h, m) && |l.log| <= k < |m.log|
    ensures m.log[k].id < |m.requests| && m.requests[m.log[k].id].packet == p
  {
    hide Inv, T.Shaped, Settled, Steady, Grew;
  }

  lemma MovedAtEnd(h: Hash, l: Link, m: Link, number: nat, p: Packet)
    requires Calling(h, l, m, number, p)
    ensures Moved(h, l.device, p, m.device)
  {
    hide Calling, Moved;
    CallStart(h, l, m, number, p);
    CallStates(h, l, m, number, p, |m.log|);
  }

  lemma CallIsAtomic(h: Hash, l: Link, m: Link, number: nat, p: Packet, k: nat) returns (o: Outcome)
    requires T.Shaped(l.device) && Settled(h, l) && Steady(h, l.device, p) && Answered(h, l, m, number, p, k)
    requires Honest(h, l.device, p, m.log[k].reply)
    ensures AtomicCall(h, l.device, p, o, m.log[k].reply, m.device)
  {
    hide Inv, T.Shaped, Settled, Grew, Moved, Calling, Steady, Honest, AtomicCall;
    AnsweredIsCalling(h, l, m, number, p, k);
    if m.log[k].before == l.device {
      o := m.log[k].outcome;
      FirstHandling(h, l, m, number, p, k);
    } else {
      o := LaterHandling(h, l, m, number, p, k);
    }
  }

  /** The reply belongs to a copy that met the device as it was before the call. */
  lemma FirstHandling(h: Hash, l: Link, m: Link, number: nat, p: Packet, k: nat)
    requires Calling(h, l, m, number, p) && Inv(h, m) && |l.log| <= k < |m.log|
    requires m.log[k].id < |m.requests| && m.requests[m.log[k].id].packet == p && T.Shaped(l.device)
    requires m.log[k].before == l.device
    ensures AtomicCall(h, l.device, p, m.log[k].outcome, m.log[k].reply, m.device)
  {
    hide Inv, T.Shaped, Settled, Grew, Calling, Answer, After, Moved, Steady, Possible, Usable;
    MovedAtEnd(h, l, m, number, p);
    RecordStep(h, m, k);
    if StateAt(m, k + 1) != l.device { EffectStays(h, l, m, number, p, k + 1, |m.log|); }
  }

  /** The reply belongs to a copy after another one had taken effect. */
  lemma LaterHandling(h: Hash, l: Link, m: Link, number: nat, p: Packet, k: nat) returns (o: Outcome)
    requires Calling(h, l, m, number, p) && Inv(h, m) && |l.log| <= k < |m.log|
    requires m.log[k].id < |m.requests| && m.requests[m.log[k].id].packet == p && T.Shaped(l.device)
    requires m.log[k].before != l.device && Honest(h, l.device, p, m.log[k].reply)
    ensures AtomicCall(h, l.device, p, o, m.log[k].reply, m.device)
  {
    hide Inv, T.Shaped, Settled, Grew, Calling, Answer, After, Moved, Steady, Possible, Usable;
    CallStates(h, l, m, number, p, k);
    RecordStep(h, m, k);
    EffectStays(h, l, m, number, p, k, |m.log|);
    var x := m.log[k];
    o := MovedBy(h, l.device, p, x.before);
    assert HonestFor(h, l.device, p, x.reply, o, x.outcome);
  }

  lemma MovedBy(h: Hash, d: Device, p: Packet, v: Device) returns (o: Outcome)
    requires T.Shaped(d) && Moved(h, d, p, v) && v != d
    ensures Effective(h, d, p, o, v)
  {
    hide After;
    o :| Effective(h, d, p, o, v);
  }

  lemma DeviceShaped(h: Hash, m: Link)
    requires Inv(h, m)
    ensures T.Shaped(m.device)
  {
    hide Ordered, Numbered, Handle;
  }

  /** After a completed call that took effect, nothing in flight changes the device any more. */
  lemma CallSettles(h: Hash, l: Link, m: Link, number: nat, p: Packet, k: nat)
    requires T.Shaped(l.device) && Settled(h, l) && Steady(h, l.device, p) && Answered(h, l, m, number, p, k)
    requires m.device != l.device || Inert(h, l.device, p)
    ensures T.Shaped(m.device) && Settled(h, m)
  {
    hide Inv, T.Shaped, Grew, Answer, After, Moved;
    assert Calling(h, l, m, number, p);
    GrewStart(l, m);
    CallStates(h, l, m, number, p, |m.log|);
    DeviceShaped(h, m);
    if m.device != l.device {
      var o := MovedBy(h, l.device, p, m.device);
      forall again | Usable(again)
        ensures After(h, m.device, p, again) == m.device
      {
        assert SteadyFor(h, l.device, p, o, again);
      }
      assert Inert(h, m.device, p);
    }
    assert m.requests[|l.requests|].packet == p;
  }

  /** A call with a request that never changes the device leaves it alone. */
  lemma InertCall(h: Hash, l: Link, m: Link, number: nat, p: Packet, k: nat)
    requires T.Shaped(l.device) && Settled(h, l) && Inert(h, l.device, p) && Answered(h, l, m, number, p, k)
    ensures m.device == l.device && Steady(h, l.device, p)
  {
    hide Inv, T.Shaped, Grew, Answer, After, Moved, Settled;
    InertIsSteady(h, l.device, p);
    assert Calling(h, l, m, number, p);
    GrewStart(l, m);
    CallStates(h, l, m, number, p, |m.log|);
    if m.device != l.device {
      var o := MovedBy(h, l.device, p, m.device);
      assert false;
    }
  }

  lemma InertIsSteady(h: Hash, d: Device, p: Packet)
    requires T.Shaped(d) && Inert(h, d, p)
    ensures Steady(h, d, p) && forall reply :: Honest(h, d, p, reply)
  {
    hide After, Answer;
  }
}
