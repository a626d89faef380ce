/** What the device answers to each kind of packet, and what it does: the dispatcher as a whole. */
module CommandEffects {
  import opened Bytes
  import opened Codes
  import opened Esp
  import opened Frame
  import opened HmacSha
  import opened Sealing
  import opened DeviceMachine
  import InfoPayload
  import M = OtaMachine
  import OT = OtaTheory
  import S = SessionTheory
  import T = DispatchTheory

  // ---- Packets that need no session ----

  /** A packet of another version, PING, GET_INFO and unknown commands: each has its one answer, and nothing changes. */
  lemma OpenToAll(h: Hash, d: Device, p: Packet, o: Outcome)
    requires T.Shaped(d) && (p.version != VERSION || (!IsProtected(p.command) && p.command != CMD_AUTH))
    ensures Handle(h, d, p, o) == Handled(d,
      if p.version != 1 then Packet(1, 0xF1, p.sequence, [0x02])
      else if p.command == 0x01 then Packet(1, 0xF0, p.sequence, [0x00])
      else if p.command == 0x02 && o.info != [] then Packet(1, 0xF2, p.sequence, o.info)
      else if p.command == 0x02 then Packet(1, 0xF1, p.sequence, [0x04])
      else Packet(1, 0xF1, p.sequence, [0x01]))
  {
  }

  /** What the device writes about itself is what the host reads in the answer to GET_INFO. */
  lemma InfoIsRead(h: Hash, d: Device, p: Packet, o: Outcome, info: InfoPayload.Info)
    requires T.Shaped(d) && p.version == VERSION && p.command == CMD_GET_INFO
    requires InfoPayload.Writable(info) && o.info == InfoPayload.EncodeInfo(info)
    ensures var reply := Handle(h, d, p, o).reply;
      reply.command == CMD_INFO && InfoPayload.ParseInfo(reply.payload) == InfoPayload.Current(info)
  {
    hide InfoPayload.Writable, InfoPayload.ParseInfo;
    OpenToAll(h, d, p, o);
    InfoPayload.InfoRoundTrip(info);
    InfoPayload.EncodedLength(info);
    hide InfoPayload.EncodeInfo;
  }

  // ---- AUTH ----

  /** The proof that the session now pending or open is the sender's. */
  predicate ProvesSession(h: Hash, a: Auth, payload: seq<byte>)
  {
    (a.pending || a.authenticated) && payload == a.clientNonce + Proof(h, a.key, a.clientNonce, a.serverNonce)
  }

  /**
   * A device that requires authentication answers 16 bytes with a new challenge, which
   * ends any session; the proof of its own nonces opens the session; any other 32
   * bytes and every other length are refused and change nothing. So is AUTH where it
   * is not required. Transfer, flash and boot pointer are never touched.
   */
  lemma Authenticating(h: Hash, d: Device, p: Packet, o: Outcome)
    requires T.Shaped(d) && p.version == VERSION && p.command == CMD_AUTH
    requires |d.auth.clientNonce| == NONCE_SIZE
    ensures var r := Handle(h, d, p, o); var a, v := d.auth, r.device;
      && v.ota == d.ota && v.restarts == d.restarts && v.auth.key == a.key && v.auth.required == a.required
      && (!a.required ==> r == Handled(d, Packet(1, 0xF1, p.sequence, [0x01])))
      && (a.required && |p.payload| == 16 ==>
            && r.reply == Packet(1, 0xF0, p.sequence,
                                 [0x00] + o.nonce + DeviceProof(h, a.key, p.payload, o.nonce))
            && v.auth.pending && !v.auth.authenticated && v.auth.ring == EmptyRing()
            && v.auth.clientNonce == p.payload && v.auth.serverNonce == o.nonce
            && v.auth.sessionKey == SessionKey(h, a.key, p.payload, o.nonce))
      && (a.required && |p.payload| == 32 && ProvesSession(h, a, p.payload) ==>
            r == Handled(d.(auth := a.(pending := false, authenticated := true)), Packet(1, 0xF0, p.sequence, [0x00])))
      && (a.required && |p.payload| == 32 && !ProvesSession(h, a, p.payload) ==>
            r == Handled(d, Packet(1, 0xF1, p.sequence, [0x06])))
      && (a.required && |p.payload| !in {16, 32} ==> r == Handled(d, Packet(1, 0xF1, p.sequence, [0x04])))
  {
    hide SessionKey, Proof, DeviceProof;
    if |p.payload| == 32 { ProofParts(h, d.auth, p.payload); }
  }

  lemma ProofParts(h: Hash, a: Auth, payload: seq<byte>)
    requires |payload| == NONCE_SIZE + TAG_SIZE && |a.clientNonce| == NONCE_SIZE
    ensures ProofAccepted(h, a, payload) <==> ProvesSession(h, a, payload)
  {
    hide Proof;
    assert payload == payload[..NONCE_SIZE] + payload[NONCE_SIZE..];
  }

  /**
   * After start-up there is no session and no cached response, and authentication is
   * required just when it was asked for with a key of 1 to 64 bytes.
   */
  lemma ConfiguredFor(h: Hash, key: seq<byte>, required: bool)
    ensures var a := Configure(key, required);
      && S.Inv(h, a) && !a.pending && !a.authenticated && S.Retains(a, [])
      && (a.required <==> required && 1 <= |key| <= 64) && (a.required ==> a.key == key)
  {
    S.ConfigureInv(h, key, required);
    S.EmptyRetains(Configure(key, required));
    hide S.Inv, S.Retains;
  }

  // ---- Protected commands ----

  /** The request is neither answered from the cache nor refused: the command is executed on this payload. */
  predicate Reaches(h: Hash, d: Device, p: Packet, payload: seq<byte>)
  {
    && p.version == VERSION && IsProtected(p.command)
    && CheckReplay(h, d.auth, p).New? && Unwrap(h, d.auth, p) == DeviceMachine.Payload(payload)
  }

  /** The status in a reply, signed or not. */
  predicate Says(reply: Packet, error: byte)
  {
    reply.command == (if error == ERR_OK then CMD_ACK else CMD_NACK) && reply.payload != [] && reply.payload[0] == error
  }

  lemma StatusSays(h: Hash, a: Auth, p: Packet, error: byte)
    requires RingShape(a)
    ensures Says(RespondStatus(h, a, p, error).reply, error)
  {
    hide ResponseTag, RequestDigest;
  }

  lemma ReachedAnswers(h: Hash, d: Device, p: Packet, payload: seq<byte>, o: Outcome)
    requires T.Shaped(d) && Reaches(h, d, p, payload)
    ensures Says(Handle(h, d, p, o).reply, Execute(d.ota, p.command, payload, o).error)
  {
    hide CheckReplay, Unwrap, Execute, RespondStatus, Configure;
    StatusSays(h, d.auth, p, Execute(d.ota, p.command, payload, o).error);
  }

  /** ABORT, END, REBOOT and ROLLBACK take no payload. */
  lemma PayloadRefused(h: Hash, d: Device, p: Packet, payload: seq<byte>, o: Outcome)
    requires T.Shaped(d) && Reaches(h, d, p, payload) && payload != []
    requires p.command in {CMD_OTA_END, CMD_OTA_ABORT, CMD_REBOOT, CMD_ROLLBACK}
    ensures var r := Handle(h, d, p, o);
      Says(r.reply, ERR_INVALID_LENGTH) && r.device.ota == d.ota && r.device.restarts == d.restarts
  {
    hide CheckReplay, Unwrap, RespondStatus, Configure, Handle, M.Begin, M.Write, M.End, M.Abort;
    ReachedAnswers(h, d, p, payload, o);
    T.ProtectedEffect(h, d, p, o);
  }

  /**
   * An ABORT without payload that reaches a device with an open transfer ends it,
   * whatever the platform answers: no handle is left, slots and boot pointer are as
   * they were. It is acknowledged just when the platform succeeded. Without a
   * transfer it is refused and changes nothing.
   */
  lemma AbortAnswered(h: Hash, d: Device, session: OT.Session, p: Packet, o: Outcome)
    requires T.Shaped(d) && OT.Inv(d.ota, session) && Reaches(h, d, p, []) && p.command == CMD_OTA_ABORT
    ensures var r := Handle(h, d, p, o); var v := r.device.ota;
      if session.Closed? then Says(r.reply, ERR_OTA_NOT_STARTED) && v == d.ota
      else
        && Says(r.reply, if o.abortOk then ERR_OK else ERR_OTA_FLASH_ERROR)
        && OT.Inv(v, OT.Closed) && !v.active && v.flash.writers == map[]
        && v.flash.slots == d.ota.flash.slots && v.flash.boot == d.ota.flash.boot
  {
    hide CheckReplay, Unwrap, RespondStatus, Configure, Handle, M.Begin, M.Write, M.End, M.Abort, OT.InvActive;
    ReachedAnswers(h, d, p, [], o);
    T.ProtectedEffect(h, d, p, o);
    OT.AbortExactly(d.ota, session, o);
  }

  /** A BEGIN that reaches the device is refused as already started exactly while a transfer is open. */
  lemma BeginRefusedAsStarted(h: Hash, d: Device, session: OT.Session, p: Packet, payload: seq<byte>, o: Outcome)
    requires T.Shaped(d) && OT.Inv(d.ota, session) && Plausible(o, d.ota.flash)
    requires Reaches(h, d, p, payload) && p.command == CMD_OTA_BEGIN
    ensures var r := Handle(h, d, p, o);
      && (Says(r.reply, ERR_OTA_ALREADY_STARTED) <==> session.Open?)
      && (Says(r.reply, ERR_OK) <==>
            && session.Closed? && |payload| == 36 && o.partition.Some? && o.beginOk
            && 1 <= ReadLe32(payload, 0) <= o.partition.value.size)
  {
    hide CheckReplay, Unwrap, RespondStatus, Configure, Handle, M.Begin, M.Write, M.End, M.Abort, OT.Inv, Plausible;
    hide ReadLe32;
    ReachedAnswers(h, d, p, payload, o);
    OT.BeginExactly(d.ota, session, payload, o);
  }

  /** An ABORT that was acknowledged, and was no replay, is followed by a BEGIN that is not refused as started. */
  lemma AcknowledgedAbortFrees(
    h: Hash, d: Device, session: OT.Session, p: Packet, o: Outcome, q: Packet, payload: seq<byte>, again: Outcome)
    requires T.Shaped(d) && OT.Inv(d.ota, session) && Reaches(h, d, p, []) && p.command == CMD_OTA_ABORT
    requires Says(Handle(h, d, p, o).reply, ERR_OK)
    requires var v := Handle(h, d, p, o).device;
      T.Shaped(v) && Reaches(h, v, q, payload) && q.command == CMD_OTA_BEGIN && Plausible(again, v.ota.flash)
    ensures session.Open? && o.abortOk
    ensures !Says(Handle(h, Handle(h, d, p, o).device, q, again).reply, ERR_OTA_ALREADY_STARTED)
  {
    hide Handle, Reaches, OT.Inv, Plausible;
    AbortAnswered(h, d, session, p, o);
    BeginRefusedAsStarted(h, Handle(h, d, p, o).device, OT.Closed, q, payload, again);
  }

  /** The command restarts an idle device: REBOOT, or ROLLBACK to a slot the platform can go back to. */
  predicate RestartsIdle(command: byte, o: Outcome)
  {
    command == CMD_REBOOT || (command == CMD_ROLLBACK && o.rollbackPossible && o.rollbackSlot.Some?)
  }

  /**
   * REBOOT and ROLLBACK are refused as busy while a transfer is open, and ROLLBACK
   * where there is nothing to go back to. Otherwise they are acknowledged, and the
   * device restarts: without its session, with no open handle and every slot as it
   * was; a REBOOT leaves the boot pointer, a ROLLBACK moves it to the slot the
   * platform goes back to.
   */
  lemma RestartAnswered(h: Hash, d: Device, p: Packet, o: Outcome)
    requires T.Shaped(d) && Reaches(h, d, p, []) && p.command in {CMD_REBOOT, CMD_ROLLBACK}
    ensures var r := Handle(h, d, p, o); var v := r.device;
      && Says(r.reply,
              if d.ota.active then ERR_BUSY
              else if p.command == CMD_ROLLBACK && !o.rollbackPossible then ERR_ROLLBACK_NOT_AVAILABLE
              else ERR_OK)
      && (v.restarts == d.restarts + 1 <==> !d.ota.active && RestartsIdle(p.command, o))
      && (if v.restarts == d.restarts then v.ota == d.ota
          else
            && !v.ota.active && v.ota.flash.writers == map[] && v.ota.flash.slots == d.ota.flash.slots
            && v.ota.flash.boot == (if p.command == CMD_REBOOT then d.ota.flash.boot else o.rollbackSlot.value)
            && v.auth == Configure(d.auth.key, d.auth.required))
  {
    hide CheckReplay, Unwrap, RespondStatus, Configure, M.Begin, M.Write, M.End, M.Abort;
    ReachedAnswers(h, d, p, [], o);
  }
}
