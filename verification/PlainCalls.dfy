/** Completed calls without authentication, and what a successful call does to the transfer. */
module PlainCalls {
  import opened Bytes
  import opened Codes
  import opened Esp
  import opened Frame
  import opened HmacSha
  import opened DeviceMachine
  import opened LossyLink
  import opened RemoteCall
  import opened CallTheory
  import T = DispatchTheory
  import M = OtaMachine
  import OT = OtaTheory

  /** The transfer is in a state the OTA machine can reach. */
  ghost predicate Transferable(ota: M.State) { exists session :: OT.Inv(ota, session) }

  /** The operation of the OTA machine behind a command. */
  function OpOf(command: byte, payload: seq<byte>): M.Op
  {
    if command == CMD_OTA_BEGIN then M.OpBegin(payload)
    else if command == CMD_OTA_DATA then M.OpData(payload)
    else if command == CMD_OTA_END then M.OpEnd
    else M.OpAbort
  }

  lemma ExecuteIsApply(ota: M.State, command: byte, payload: seq<byte>, o: Outcome)
    requires IsOta(command)
    ensures !Execute(ota, command, payload, o).restart
    ensures var x := Execute(ota, command, payload, o);
      if (command == CMD_OTA_END || command == CMD_OTA_ABORT) && payload != []
      then x.ota == ota && x.error == ERR_INVALID_LENGTH
      else M.Result(x.ota, x.error) == M.Apply(ota, OpOf(command, payload), o)
  {
    hide M.Begin, M.Write, M.End, M.Abort;
  }

  lemma ExecuteStaysTransferable(ota: M.State, command: byte, payload: seq<byte>, o: Outcome)
    requires IsOta(command) && Transferable(ota) && Plausible(o, ota.flash)
    ensures Transferable(Execute(ota, command, payload, o).ota)
  {
    hide Execute, M.Apply, OT.Inv, OT.Observe, OpOf, Plausible;
    ExecuteIsApply(ota, command, payload, o);
    var session :| OT.Inv(ota, session);
    OT.ApplyKeepsInv(ota, session, OpOf(command, payload), o);
  }

  /** What the reply ACK of a completed call says. */
  predicate Succeeded(d: Device, command: byte, payload: seq<byte>, o: Outcome)
    requires IsOta(command)
  {
    Possible(o, d) && Execute(d.ota, command, payload, o).error == ERR_OK
  }

  /**
   * An OTA command that reported success over the lossy link without authentication
   * did succeed; if it changed the transfer at all, it did so exactly once, and
   * nothing in flight can change the device any more.
   */
  lemma PlainCall(h: Hash, l: Link, m: Link, number: nat, p: Packet, k: nat) returns (o: Outcome)
    requires T.Shaped(l.device) && !l.device.auth.required && Settled(h, l) && Transferable(l.device.ota)
    requires p.version == VERSION && IsOta(p.command)
    requires Answered(h, l, m, number, p, k) && m.log[k].reply.command == CMD_ACK
    ensures Succeeded(l.device, p.command, p.payload, o)
    ensures var x := Execute(l.device.ota, p.command, p.payload, o); x.ota != l.device.ota ==>
      m.device == l.device.(ota := x.ota) && T.Shaped(m.device) && Settled(h, m)
  {
    hide Inv, T.Shaped, Settled, Grew, After, Answer, Handle, Possible, Steady, Honest, OT.Inv, Execute, Inert;
    var session :| OT.Inv(l.device.ota, session);
    PlainIsSteady(h, l.device, p, session, m.log[k].reply);
    o := CallIsAtomic(h, l, m, number, p, k);
    PlainSteps(h, l.device, p, o);
    AckIsOk(h, l.device, p, o, m.log[k].reply);
    if Execute(l.device.ota, p.command, p.payload, o).ota != l.device.ota {
      CallSettles(h, l, m, number, p, k);
    }
  }

  lemma AckIsOk(h: Hash, d: Device, p: Packet, o: Outcome, reply: Packet)
    requires T.Shaped(d) && !d.auth.required && p.version == VERSION && IsOta(p.command)
    requires Answer(h, d, p, o) == reply || After(h, d, p, o).restarts != d.restarts
    requires reply.command == CMD_ACK
    ensures Execute(d.ota, p.command, p.payload, o).error == ERR_OK
  {
    hide Execute, After, Answer;
    PlainSteps(h, d, p, o);
  }

  /** A command that succeeds changes the transfer, a repeated chunk excepted. */
  lemma SuccessMoves(ota: M.State, session: OT.Session, command: byte, payload: seq<byte>, o: Outcome)
    requires OT.Inv(ota, session) && IsOta(command) && Execute(ota, command, payload, o).error == ERR_OK
    requires command == CMD_OTA_DATA && |payload| > M.DATA_HEADER_SIZE ==> ReadLe32(payload, 4) == ota.bytesReceived
    ensures Execute(ota, command, payload, o).ota != ota
  {
    hide ReadLe32, OT.Concat;
  }

  // ---- The transfer stays reachable whatever the link delivers ----

  lemma ClosedIsTransferable(flash: Flash)
    requires flash.writers == map[] && !flash.misused
    ensures Transferable(M.Cleared(flash))
  {
    assert OT.Inv(M.Cleared(flash), OT.Closed);
  }

  lemma ExecuteAnyStaysTransferable(ota: M.State, command: byte, payload: seq<byte>, o: Outcome)
    requires IsProtected(command) && Transferable(ota) && Plausible(o, ota.flash)
    ensures Transferable(Execute(ota, command, payload, o).ota)
  {
    hide OT.InvActive, Plausible;
    if IsOta(command) {
      ExecuteStaysTransferable(ota, command, payload, o);
    } else {
      hide M.Begin, M.Write, M.End, M.Abort;
      var session :| OT.Inv(ota, session);
      ClosedIsTransferable(Restarted(ota.flash));
      if o.rollbackSlot.Some? { ClosedIsTransferable(SetBoot(Restarted(ota.flash), o.rollbackSlot.value)); }
    }
  }

  lemma HandleStaysTransferable(h: Hash, d: Device, p: Packet, o: Outcome)
    requires T.Shaped(d) && Transferable(d.ota) && Possible(o, d)
    ensures Transferable(After(h, d, p, o).ota)
  {
    hide Transferable, CheckReplay, Unwrap, Execute, Handle, Plausible;
    if p.version == VERSION && IsProtected(p.command) {
      T.ProtectedEffect(h, d, p, o);
      if Unwrap(h, d.auth, p).Payload? {
        ExecuteAnyStaysTransferable(d.ota, p.command, Unwrap(h, d.auth, p).payload, o);
      }
    } else {
      T.UnprotectedEffect(h, d, p, o);
    }
  }

  lemma TransferableRecord(h: Hash, m: Link, j: nat)
    requires Inv(h, m) && 0 < j <= |m.log| && Transferable(StateAt(m, j - 1).ota)
    ensures Transferable(StateAt(m, j).ota)
  {
    hide Inv, After, Answer, T.Shaped, Transferable;
    RecordStep(h, m, j - 1);
    HandleStaysTransferable(h, m.log[j - 1].before, m.requests[m.log[j - 1].id].packet, m.log[j - 1].outcome);
  }

  lemma {:induction false} TransferableStays(h: Hash, l: Link, m: Link, j: nat)
    requires Inv(h, m) && Grew(l, m) && Transferable(l.device.ota) && |l.log| <= j <= |m.log|
    ensures Transferable(StateAt(m, j).ota)
    decreases j
  {
    hide Inv, Grew, Transferable, StateAt;
    if j == |l.log| {
      GrewStart(l, m);
    } else {
      TransferableStays(h, l, m, j - 1);
      TransferableRecord(h, m, j);
    }
  }

  /** Whatever a link delivers, the device's transfer stays in a state the OTA machine can reach. */
  lemma TransferableAtEnd(h: Hash, l: Link, m: Link)
    requires Inv(h, m) && Grew(l, m) && Transferable(l.device.ota)
    ensures Transferable(m.device.ota)
  {
    hide Inv, Transferable;
    GrewStart(l, m);
    TransferableStays(h, l, m, |m.log|);
  }
}
