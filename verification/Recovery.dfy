/** Start-up and restarts of the device: the states a host may find, and that its next request can start from them. */
module Recovery {
  import opened Bytes
  import Codes
  import opened Esp
  import opened Frame
  import opened HmacSha
  import opened Sealing
  import opened DeviceMachine
  import opened LossyLink
  import opened RemoteCall
  import HandshakeTheory
  import OtaTheory
  import PlainCalls
  import RequestOutcome
  import opened RequestTrace
  import Update
  import S = SessionTheory
  import T = DispatchTheory
  import M = OtaMachine

  /** The device at start-up. */
  function Booted(key: seq<byte>, required: bool, flash: Flash, restarts: nat): Device
  {
    Device(Configure(key, required), M.Cleared(flash), restarts)
  }

  /** No transfer survives in the flash bookkeeping of a device that has just started. */
  predicate Quiescent(flash: Flash) { flash.writers == map[] && !flash.misused }

  lemma BootedIsKeyed(h: Hash, key: seq<byte>, flash: Flash, restarts: nat)
    requires 0 < |key| <= KEY_MAX_SIZE
    ensures HandshakeTheory.Keyed(h, key, Booted(key, true, flash, restarts))
    ensures T.Shaped(Booted(key, true, flash, restarts))
    ensures !Booted(key, true, flash, restarts).auth.authenticated && !Booted(key, true, flash, restarts).auth.pending
  {
    S.ConfigureInv(h, key, true);
    hide S.Inv;
  }

  /** A client without a session on a link on which nothing was ever sent. */
  function Unused(d: Device, counter: nat): Standing
  {
    Standing(LossyLink.Unused(d), counter, None)
  }

  /** A link on which nothing was ever sent, to a device that has just started, is a state an update may start from. */
  lemma FreshLinkMayStart(h: Hash, key: seq<byte>, flash: Flash, counter: nat)
    requires 0 < |key| <= KEY_MAX_SIZE && Quiescent(flash)
    ensures Update.MayStart(h, Some(key), Unused(Booted(key, true, flash, 0), counter))
    ensures Update.MayStart(h, None, Unused(Booted([], false, flash, 0), counter))
  {
    hide HandshakeTheory.Keyed, PlainCalls.Transferable;
    BootedIsKeyed(h, key, flash, 0);
    PlainCalls.ClosedIsTransferable(flash);
  }

  /** The one packet that changes a device without a session: a new challenge. */
  predicate IsChallenge(p: Packet)
  {
    p.version == VERSION && p.command == Codes.CMD_AUTH && |p.payload| == NONCE_SIZE
  }

  lemma NoSessionEffect(h: Hash, d: Device, p: Packet, o: Outcome)
    requires T.Shaped(d) && d.auth.required && !d.auth.authenticated && !d.auth.pending
    ensures !IsChallenge(p) ==> After(h, d, p, o) == d
    ensures IsChallenge(p) ==> After(h, d, p, o) != d
  {
    hide FindEntry, RequestDigest, Execute, Unwrap, SessionKey, DeviceProof, Proof;
  }

  /** Nothing but a challenge moves a device that has just started. */
  lemma OnlyChallengesMove(h: Hash, d: Device, p: Packet)
    requires T.Shaped(d) && d.auth.required && !d.auth.authenticated && !d.auth.pending
    ensures Inert(h, d, p) <==> !IsChallenge(p)
  {
    if IsChallenge(p) {
      var o := Outcome.Outcome(
        None, false, 0, false, false, false, None, false, false, None, ZeroBytes(NONCE_SIZE), []);
      NoSessionEffect(h, d, p, o);
      assert Usable(o);
    } else {
      forall o | Usable(o)
        ensures After(h, d, p, o) == d
      {
        NoSessionEffect(h, d, p, o);
      }
    }
    hide After;
  }

  /** The device restarts on its own, and the replies on their way are lost with it. */
  function PowerCycle(l: Link): Link
  {
    l.(log := [], toHost := [],
       device := Booted(l.device.auth.key, l.device.auth.required, Restarted(l.device.ota.flash),
         l.device.restarts + 1))
  }

  lemma PowerCycleKeepsInv(h: Hash, l: Link)
    requires Inv(h, l)
    ensures Inv(h, PowerCycle(l))
  {
    hide Recorded, Numbered, Restarted;
    assert Recorded(h, PowerCycle(l)) by { EmptyRecord(h, PowerCycle(l)); }
  }

  lemma EmptyRecord(h: Hash, l: Link)
    requires l.log == [] && T.Shaped(l.device)
    ensures Recorded(h, l)
  {
  }

  /** A challenge may still be on its way. */
  predicate ChallengeInFlight(l: Link)
  {
    exists id :: l.floor <= id < |l.requests| && IsChallenge(l.requests[id].packet)
  }

  /**
   * After the device restarted on its own, the host's next request starts from a
   * prepared link if and only if no challenge may still be on its way.
   */
  lemma PowerCyclePrepares(h: Hash, key: seq<byte>, l: Link, counter: nat)
    requires Inv(h, l) && HandshakeTheory.Keyed(h, key, l.device)
    ensures Prepared(h, Some(key), PowerCycle(l), counter) <==> !ChallengeInFlight(l)
  {
    hide Inv, S.Inv;
    var m := PowerCycle(l);
    BootedIsKeyed(h, key, m.device.ota.flash, m.device.restarts);
    forall id | m.floor <= id < |m.requests|
      ensures Inert(h, m.device, m.requests[id].packet) <==> !IsChallenge(l.requests[id].packet)
    {
      OnlyChallengesMove(h, m.device, m.requests[id].packet);
    }
    hide Inert, IsChallenge;
  }

  /**
   * Then the request recovers: one handshake is run, by a client that still takes
   * itself for authenticated after its first packet was refused, and the command is
   * executed exactly once on the restarted device and its status returned. The
   * exceptions are concrete collisions of the handshake's proof.
   */
  lemma RequestRecovers(
    h: Hash, key: seq<byte>, retries: nat, l: Link, counter: nat, sessionKey: Option<seq<byte>>, command: byte,
    payload: seq<byte>, t: Trace, result: Packet, m: Link) returns (o: Outcome)
    requires Inv(h, l) && HandshakeTheory.Keyed(h, key, l.device) && !ChallengeInFlight(l)
    requires Completes(h, key, retries, Standing(PowerCycle(l), counter, sessionKey), command, payload, t, result, m)
    requires RequestOutcome.SafelySent(command, retries)
    ensures RequestOutcome.Handshakes(t) == 1 ||
            (t.opening.Some? && RequestOutcome.Collided(h, key, t.opening.value))
    ensures sessionKey.Some? ==> t.opening.None? && t.again.Some? && t.first.after.device == PowerCycle(l).device
    ensures var d, v := PowerCycle(l).device, m.device;
      RequestOutcome.DoneExactly(d, v, command, payload, o, result) ||
      (RequestOutcome.RenewalCollided(h, key, t) && RequestOutcome.NotDoneAtAll(d, v, result))
  {
    hide Inv, Prepared, Completes, ChallengeInFlight, RequestOutcome.DoneExactly, RequestOutcome.NotDoneAtAll;
    var s := Standing(PowerCycle(l), counter, sessionKey);
    PowerCyclePrepares(h, key, l, counter);
    o := RequestOutcome.RequestOnce(h, key, retries, s, command, payload, t, result, m);
    RequestOutcome.AuthenticatesOnce(h, key, retries, s, command, payload, t, result, m);
    if sessionKey.Some? {
      RequestOutcome.StaleSessionRenews(h, key, retries, s, command, payload, t, result, m);
    }
  }

  // ---- The same without authentication ----

  /**
   * The packets that move an idle device without authentication: REBOOT, ROLLBACK, and
   * a BEGIN of a size some slot may have.
   */
  predicate Starts(p: Packet)
  {
    && p.version == VERSION
    && if p.command == Codes.CMD_OTA_BEGIN then
         |p.payload| == M.BEGIN_PAYLOAD_SIZE && 0 < ReadLe32(p.payload, 0) <= MAX_SLOT_SIZE
       else (p.command == Codes.CMD_REBOOT || p.command == Codes.CMD_ROLLBACK) && p.payload == []
  }

  /** A platform that grants everything, with this handle for a new transfer. */
  function Granting(handle: nat): Outcome
  {
    Outcome.Outcome(Some(Partition(0, MAX_SLOT_SIZE)), true, handle, true, true, true, None, true, true, Some(0),
      ZeroBytes(NONCE_SIZE), [])
  }

  /** There is always an unused handle. */
  lemma {:induction false} Above(used: set<nat>) returns (handle: nat)
    ensures forall n | n in used :: n < handle
  {
    if used == {} {
      handle := 0;
    } else {
      var n :| n in used;
      var rest := Above(used - {n});
      handle := if rest <= n then n + 1 else rest;
      assert forall k | k in used :: k == n || k in used - {n};
    }
  }

  lemma MayGrant(d: Device) returns (handle: nat)
    ensures Possible(Granting(handle), d)
  {
    var flash := d.ota.flash;
    handle := Above(flash.writers.Keys + flash.retired);
    assert handle !in flash.writers.Keys + flash.retired;
  }

  lemma OthersStay(h: Hash, d: Device, p: Packet, o: Outcome)
    requires T.Shaped(d) && !d.auth.required && !d.ota.active && Usable(o) && !Starts(p)
    ensures After(h, d, p, o) == d
  {
    hide FindEntry, RequestDigest, SessionKey, DeviceProof, Proof, ReadLe32;
  }

  lemma StartsMove(h: Hash, d: Device, p: Packet, handle: nat)
    requires T.Shaped(d) && !d.auth.required && !d.ota.active && Starts(p)
    ensures After(h, d, p, Granting(handle)) != d
  {
    hide FindEntry, RequestDigest, SessionKey, DeviceProof, Proof, ReadLe32;
  }

  /** Just these packets can move such a device, with an answer the platform may really give. */
  lemma OnlyStartsMove(h: Hash, d: Device, p: Packet)
    requires T.Shaped(d) && !d.auth.required && !d.ota.active
    ensures Inert(h, d, p) <==> !Starts(p)
    ensures Starts(p) ==> exists o :: Possible(o, d) && After(h, d, p, o) != d
  {
    hide After, Starts, Possible;
    var handle := MayGrant(d);
    assert Usable(Granting(handle));
    if Starts(p) {
      StartsMove(h, d, p, handle);
      assert After(h, d, p, Granting(handle)) != d;
    } else {
      forall o | Usable(o)
        ensures After(h, d, p, o) == d
      {
        OthersStay(h, d, p, o);
      }
    }
  }

  /**
   * Without authentication, after a completed request to a device that is idle now,
   * the copies that may be left behind are harmless exactly if the request was none
   * of these: after a REBOOT or ROLLBACK the next request finds no settled link.
   */
  lemma IdleSettlesExactly(h: Hash, l: Link, m: Link, number: nat, p: Packet, k: nat)
    requires Answered(h, l, m, number, p, k)
    requires T.Shaped(m.device) && !m.device.auth.required && !m.device.ota.active
    ensures Settled(h, m) <==> !Starts(p)
  {
    hide Inv, Grew, Starts, T.Shaped, Inert;
    OnlyStartsMove(h, m.device, p);
    assert m.requests[|l.requests|].packet == p;
  }

  predicate StartInFlight(l: Link)
  {
    exists id :: l.floor <= id < |l.requests| && Starts(l.requests[id].packet)
  }

  /**
   * Without authentication the host's next request starts from a prepared link if and
   * only if no BEGIN, REBOOT or ROLLBACK may still be on its way.
   */
  lemma PlainPowerCyclePrepares(h: Hash, l: Link, counter: nat)
    requires Inv(h, l) && !l.device.auth.required && PlainCalls.Transferable(l.device.ota)
    ensures Prepared(h, None, PowerCycle(l), counter) <==> !StartInFlight(l)
  {
    hide Inv, PlainCalls.Transferable;
    var m := PowerCycle(l);
    RestartedIsTransferable(l.device.ota);
    forall id | m.floor <= id < |m.requests|
      ensures Inert(h, m.device, m.requests[id].packet) <==> !Starts(l.requests[id].packet)
    {
      OnlyStartsMove(h, m.device, m.requests[id].packet);
    }
    hide Inert, Starts;
  }

  lemma RestartedIsTransferable(ota: M.State)
    requires PlainCalls.Transferable(ota)
    ensures PlainCalls.Transferable(M.Cleared(Restarted(ota.flash)))
  {
    var session :| OtaTheory.Inv(ota, session);
    PlainCalls.ClosedIsTransferable(Restarted(ota.flash));
  }
}
