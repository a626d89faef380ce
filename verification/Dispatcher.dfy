/** `commands.c`: the dispatcher as the firmware runs it, driving session, transfer and restarts. */
module Dispatcher {
  import opened Codes
  import opened Esp
  import opened Frame
  import opened AuthSession
  import opened OtaManager
  import D = DeviceMachine
  import M = OtaMachine

  class Commands {
    const auth: Session
    const ota: Manager
    const uart: Uart
    var restarts: nat

    ghost predicate Valid()
      reads this, auth, ota
    {
      auth.Valid() && ota.Valid() && auth.uart == uart
    }

    ghost function Device(): D.Device
      reads this, auth, auth.replayCache, ota, ota.lastChunkData
      requires Valid()
    {
      D.Device(auth.State(), ota.State(), restarts)
    }

    constructor (a: Session, m: Manager, u: Uart)
      requires a.Valid() && m.Valid() && a.uart == u
      ensures Valid() && auth == a && ota == m && uart == u && restarts == 0
    {
      auth, ota, uart, restarts := a, m, u, 0;
    }

    /** The device is now in this state, and has sent this one reply since. */
    ghost predicate Answered(r: D.Handled, before: seq<Packet>)
      reads this, auth, auth.replayCache, ota, ota.lastChunkData, uart
      requires Valid()
    {
      Device() == r.device && uart.sent == before + [r.reply]
    }

    lemma Shape()
      requires Valid()
      ensures D.RingShape(Device().auth)
    {
    }

    /** Answers replays and reuses before any side effect. */
    method HandleAuthenticatedReplay(p: Packet, ghost o: Outcome) returns (handled: bool)
      requires Valid() && |p.payload| <= MAX_PAYLOAD && IsProtected(p.command)
      modifies auth, auth.replayCache, uart
      ensures Valid() && D.RingShape(old(Device()).auth)
      ensures handled ==> Answered(D.HandleProtected(auth.hash, old(Device()), p, o), old(uart.sent))
      ensures !handled ==>
        D.CheckReplay(auth.hash, old(Device()).auth, p).New? && Device() == old(Device()) && uart.sent == old(uart.sent)
    {
      hide D.CheckReplay, D.RespondStatus, D.Execute, D.Unwrap;
      Shape();
      var error, replayed := auth.CheckReplay(p);
      if error != ERR_OK {
        auth.SendStatus(p, error);
        return true;
      }
      return replayed;
    }

    method OtaBegin(p: Packet, o: Outcome)
      requires Valid() && |p.payload| <= MAX_PAYLOAD && p.command == CMD_OTA_BEGIN
      modifies this, auth, auth.replayCache, ota, ota.lastChunkData, uart
      ensures Valid() && D.RingShape(old(Device()).auth)
      ensures Answered(D.HandleProtected(auth.hash, old(Device()), p, o), old(uart.sent))
    {
      hide D.CheckReplay, D.RespondStatus, D.Unwrap, M.Begin, M.Write, M.End, M.Abort;
      var handled := HandleAuthenticatedReplay(p, o);
      if handled {
        return;
      }
      var error, length := auth.UnwrapPacket(p);
      if error == ERR_OK {
        error := ota.Begin(p.payload[..length], o);
      }
      auth.SendStatus(p, error);
    }

    method OtaData(p: Packet, o: Outcome)
      requires Valid() && |p.payload| <= MAX_PAYLOAD && p.command == CMD_OTA_DATA
      modifies this, auth, auth.replayCache, ota, ota.lastChunkData, uart
      ensures Valid() && D.RingShape(old(Device()).auth)
      ensures Answered(D.HandleProtected(auth.hash, old(Device()), p, o), old(uart.sent))
    {
      hide D.CheckReplay, D.RespondStatus, D.Unwrap, M.Begin, M.Write, M.End, M.Abort;
      var handled := HandleAuthenticatedReplay(p, o);
      if handled {
        return;
      }
      var error, length := auth.UnwrapPacket(p);
      if error == ERR_OK {
        error := ota.WriteData(p.payload[..length], o);
      }
      auth.SendStatus(p, error);
    }

    method OtaEnd(p: Packet, o: Outcome)
      requires Valid() && |p.payload| <= MAX_PAYLOAD && p.command == CMD_OTA_END
      modifies this, auth, auth.replayCache, ota, ota.lastChunkData, uart
      ensures Valid() && D.RingShape(old(Device()).auth)
      ensures Answered(D.HandleProtected(auth.hash, old(Device()), p, o), old(uart.sent))
    {
      hide D.CheckReplay, D.RespondStatus, D.Unwrap, M.Begin, M.Write, M.End, M.Abort;
      var handled := HandleAuthenticatedReplay(p, o);
      if handled {
        return;
      }
      var error, length := auth.UnwrapPacket(p);
      if error == ERR_OK && length != 0 {
        error := ERR_INVALID_LENGTH;
      }
      if error == ERR_OK {
        error := ota.End(o);
      }
      auth.SendStatus(p, error);
    }

    method OtaAbort(p: Packet, o: Outcome)
      requires Valid() && |p.payload| <= MAX_PAYLOAD && p.command == CMD_OTA_ABORT
      modifies this, auth, auth.replayCache, ota, ota.lastChunkData, uart
      ensures Valid() && D.RingShape(old(Device()).auth)
      ensures Answered(D.HandleProtected(auth.hash, old(Device()), p, o), old(uart.sent))
    {
      hide D.CheckReplay, D.RespondStatus, D.Unwrap, M.Begin, M.Write, M.End, M.Abort;
      var handled := HandleAuthenticatedReplay(p, o);
      if handled {
        return;
      }
      var error, length := auth.UnwrapPacket(p);
      if error == ERR_OK && length != 0 {
        error := ERR_INVALID_LENGTH;
      }
      if error == ERR_OK {
        error := ota.Abort(o);
      }
      auth.SendStatus(p, error);
    }

    /** The chip starts again: session, transfer and open handles are gone. */
    method Restart()
      requires Valid()
      modifies this, auth, auth.replayCache, ota
      ensures Valid() && uart.sent == old(uart.sent)
      ensures var d := old(Device());
        Device() == D.Device(D.Configure(d.auth.key, d.auth.required), M.Cleared(Restarted(d.ota.flash)),
          d.restarts + 1)
    {
      hide D.Configure, Restarted;
      auth.Configure(auth.key, auth.required);
      ota.flash := Restarted(ota.flash);
      ota.Clear();
      restarts := restarts + 1;
    }

    method Reboot(p: Packet, o: Outcome)
      requires Valid() && |p.payload| <= MAX_PAYLOAD && p.command == CMD_REBOOT
      modifies this, auth, auth.replayCache, ota, ota.lastChunkData, uart
      ensures Valid() && D.RingShape(old(Device()).auth)
      ensures Answered(D.HandleProtected(auth.hash, old(Device()), p, o), old(uart.sent))
    {
      hide D.CheckReplay, D.RespondStatus, D.Unwrap, M.Begin, M.Write, M.End, M.Abort, D.Configure, Restarted;
      var handled := HandleAuthenticatedReplay(p, o);
      if handled {
        return;
      }
      var error, length := auth.UnwrapPacket(p);
      if error != ERR_OK || length != 0 {
        auth.SendStatus(p, if error != ERR_OK then error else ERR_INVALID_LENGTH);
        return;
      }
      RebootIfIdle(p);
    }

    /** Acknowledges before it restarts; refuses while a transfer is under way. */
    method RebootIfIdle(p: Packet)
      requires Valid() && |p.payload| <= MAX_PAYLOAD
      modifies this, auth, auth.replayCache, ota, uart
      ensures Valid() && D.RingShape(old(Device()).auth)
      ensures var d := old(Device());
        if d.ota.active then
          var r := D.RespondStatus(auth.hash, d.auth, p, ERR_BUSY);
          Answered(D.Handled(d.(auth := r.auth), r.reply), old(uart.sent))
        else
          var r := D.RespondStatus(auth.hash, d.auth, p, ERR_OK);
          Answered(D.Handled(D.Device(D.Configure(d.auth.key, d.auth.required), M.Cleared(Restarted(d.ota.flash)),
                                      d.restarts + 1), r.reply), old(uart.sent))
    {
      hide D.RespondStatus, D.Configure, Restarted;
      Shape();
      if ota.active {
        auth.SendStatus(p, ERR_BUSY);
        return;
      }
      auth.SendStatus(p, ERR_OK);
      Restart();
    }

    method Rollback(p: Packet, o: Outcome)
      requires Valid() && |p.payload| <= MAX_PAYLOAD && p.command == CMD_ROLLBACK
      modifies this, auth, auth.replayCache, ota, ota.lastChunkData, uart
      ensures Valid() && D.RingShape(old(Device()).auth)
      ensures Answered(D.HandleProtected(auth.hash, old(Device()), p, o), old(uart.sent))
    {
      hide D.CheckReplay, D.RespondStatus, D.Unwrap, M.Begin, M.Write, M.End, M.Abort, D.Configure, Restarted;
      var handled := HandleAuthenticatedReplay(p, o);
      if handled {
        return;
      }
      var error, length := auth.UnwrapPacket(p);
      if error != ERR_OK || length != 0 {
        auth.SendStatus(p, if error != ERR_OK then error else ERR_INVALID_LENGTH);
        return;
      }
      RollbackIfIdle(p, o);
    }

    method RollbackIfIdle(p: Packet, o: Outcome)
      requires Valid() && |p.payload| <= MAX_PAYLOAD
      modifies this, auth, auth.replayCache, ota, uart
      ensures Valid() && D.RingShape(old(Device()).auth)
      ensures var d := old(Device());
        var error :=
          if d.ota.active then ERR_BUSY else if !o.rollbackPossible then ERR_ROLLBACK_NOT_AVAILABLE else ERR_OK;
        var r := D.RespondStatus(auth.hash, d.auth, p, error);
        if error == ERR_OK && o.rollbackSlot.Some? then
          Answered(D.Handled(D.Device(D.Configure(d.auth.key, d.auth.required),
                                      M.Cleared(SetBoot(Restarted(d.ota.flash), o.rollbackSlot.value)),
                                      d.restarts + 1), r.reply), old(uart.sent))
        else
          Answered(D.Handled(d.(auth := r.auth), r.reply), old(uart.sent))
    {
      hide D.RespondStatus, D.Configure, Restarted;
      Shape();
      if ota.active {
        auth.SendStatus(p, ERR_BUSY);
        return;
      }
      if !o.rollbackPossible {
        auth.SendStatus(p, ERR_ROLLBACK_NOT_AVAILABLE);
        return;
      }
      auth.SendStatus(p, ERR_OK);
      if o.rollbackSlot.Some? {
        Restart();
        SwitchBoot(o.rollbackSlot.value);
      }
    }

    method SwitchBoot(slot: nat)
      requires Valid() && ota.State() == M.Cleared(ota.flash)
      modifies ota
      ensures Valid() && ota.State() == M.Cleared(SetBoot(old(ota.flash), slot))
    {
      ota.flash := SetBoot(ota.flash, slot);
    }

    /** `commands_handle_packet`: exactly one packet goes out, whatever came in. */
    method HandlePacket(p: Packet, o: Outcome)
      requires Valid() && |p.payload| <= MAX_PAYLOAD && |o.nonce| == 16
      modifies this, auth, auth.replayCache, ota, ota.lastChunkData, uart
      ensures Valid() && D.RingShape(old(Device()).auth)
      ensures Answered(D.Handle(auth.hash, old(Device()), p, o), old(uart.sent))
    {
      hide D.HandleProtected, D.HandleAuth;
      Shape();
      if p.version != VERSION {
        uart.SendPacket(CMD_NACK, p.sequence, [ERR_INVALID_PACKET]);
        return;
      }
      match p.command {
        case 0x01 =>
          uart.SendPacket(CMD_ACK, p.sequence, [ERR_OK]);
        case 0x02 =>
          if o.info == [] {
            uart.SendPacket(CMD_NACK, p.sequence, [ERR_INVALID_LENGTH]);
          } else {
            uart.SendPacket(CMD_INFO, p.sequence, o.info);
          }
        case 0x05 =>
          var error := auth.HandlePacket(p, o.nonce);
          if error != ERR_OK {
            uart.SendPacket(CMD_NACK, p.sequence, [error]);
          }
        case 0x03 => Reboot(p, o);
        case 0x04 => Rollback(p, o);
        case 0x10 => OtaBegin(p, o);
        case 0x11 => OtaData(p, o);
        case 0x12 => OtaEnd(p, o);
        case 0x13 => OtaAbort(p, o);
        case _ => uart.SendPacket(CMD_NACK, p.sequence, [ERR_UNKNOWN_COMMAND]);
      }
    }
  }
}
