/**
 * The firmware update end to end: BEGIN, the data loop and END of the host, over
 * the lossy link, against the device, with or without authentication.
 */
module Update {
  import opened Bytes
  import opened Codes
  import opened Esp
  import opened Frame
  import opened HmacSha
  import opened Sealing
  import CopyCount
  import opened DeviceMachine
  import opened LossyLink
  import opened CallTheory
  import opened Draining
  import opened PlainCalls
  import opened Payloads
  import opened RequestMoments
  import opened ClientCalls
  import opened ClientSteps
  import opened HostClient
  import opened RemoteCall
  import opened RequestTrace
  import HandshakeTheory
  import SealedCalls
  import T = DispatchTheory
  import M = OtaMachine
  import OT = OtaTheory

  /** A transfer is open for this image and has so far written exactly these bytes. */
  ghost predicate Transferring(ota: M.State, size: nat, digest: seq<byte>, written: seq<byte>)
  {
    exists session :: OpenWith(ota, session, size, digest, written)
  }

  predicate OpenWith(ota: M.State, session: OT.Session, size: nat, digest: seq<byte>, written: seq<byte>)
  {
    && OT.Inv(ota, session) && session.Open? && session.size == size && session.digest == digest
    && OT.Concat(session.chunks) == written
  }

  /** The device boots from a slot that holds exactly this image. */
  predicate Installed(flash: Flash, image: seq<byte>)
  {
    flash.boot in flash.slots && flash.slots[flash.boot] == image
  }

  // ---- What each acknowledged command does to the transfer ----

  lemma BeginStarts(ota: M.State, size: nat, digest: seq<byte>, o: Outcome)
    requires Transferable(ota) && Plausible(o, ota.flash) && BuildBegin(size, digest).Payload?
    requires Execute(ota, CMD_OTA_BEGIN, BuildBegin(size, digest).bytes, o).error == ERR_OK
    ensures var x := Execute(ota, CMD_OTA_BEGIN, BuildBegin(size, digest).bytes, o);
      x.ota != ota && Transferring(x.ota, size, digest, [])
  {
    hide Plausible, OT.Inv, ReadLe32, BuildBegin, Transferring;
    var session :| OT.Inv(ota, session);
    var payload := BuildBegin(size, digest).bytes;
    BeginReadBack(size, digest);
    OT.BeginKeepsInv(ota, session, payload, o);
    SuccessMoves(ota, session, CMD_OTA_BEGIN, payload, o);
    var x := Execute(ota, CMD_OTA_BEGIN, payload, o);
    StartsTransfer(x.ota, OT.Observe(session, M.OpBegin(payload), x.error, o), size, digest, []);
  }

  lemma StartsTransfer(ota: M.State, session: OT.Session, size: nat, digest: seq<byte>, written: seq<byte>)
    requires OpenWith(ota, session, size, digest, written)
    ensures Transferring(ota, size, digest, written)
  {
  }

  lemma OpenSession(ota: M.State, size: nat, digest: seq<byte>, written: seq<byte>) returns (session: OT.Session)
    requires Transferring(ota, size, digest, written)
    ensures OpenWith(ota, session, size, digest, written)
  {
    session :| OpenWith(ota, session, size, digest, written);
  }

  /** An acknowledged chunk at the end of what was written is appended to it. */
  lemma DataExtends(
    ota: M.State, size: nat, digest: seq<byte>, written: seq<byte>, chunkNumber: nat, chunk: seq<byte>, o: Outcome)
    requires Transferring(ota, size, digest, written) && BuildData(chunkNumber, |written|, chunk).Payload?
    requires Execute(ota, CMD_OTA_DATA, BuildData(chunkNumber, |written|, chunk).bytes, o).error == ERR_OK
    ensures var x := Execute(ota, CMD_OTA_DATA, BuildData(chunkNumber, |written|, chunk).bytes, o);
      x.ota != ota && Transferring(x.ota, size, digest, written + chunk)
  {
    hide ReadLe32, BuildData, Transferring, M.Accept, M.Write;
    var session := OpenSession(ota, size, digest, written);
    var payload := BuildData(chunkNumber, |written|, chunk).bytes;
    DataReadBack(chunkNumber, |written|, chunk);
    OpenCounts(ota, session);
    SuccessMoves(ota, session, CMD_OTA_DATA, payload, o);
    OT.DataKeepsInv(ota, session, payload, o);
    OT.ConcatPush(session.chunks, chunk);
    hide OT.Inv, OT.Concat;
    var x := Execute(ota, CMD_OTA_DATA, payload, o);
    StartsTransfer(x.ota, OT.Observe(session, M.OpData(payload), x.error, o), size, digest, written + chunk);
  }

  lemma OpenCounts(ota: M.State, session: OT.Session)
    requires OT.Inv(ota, session) && session.Open?
    ensures ota.active && ota.bytesReceived == |OT.Concat(session.chunks)|
  {
    hide OT.Concat;
  }

  /** An acknowledged END leaves the device booting from the slot that holds what was written. */
  lemma EndInstalls(ota: M.State, size: nat, digest: seq<byte>, written: seq<byte>, o: Outcome)
    requires Transferring(ota, size, digest, written)
    requires Execute(ota, CMD_OTA_END, [], o).error == ERR_OK
    ensures var x := Execute(ota, CMD_OTA_END, [], o);
      x.ota != ota && Installed(x.ota.flash, written) && |written| == size && o.sha == Some(digest)
  {
    hide Transferring, OT.Concat, M.End, M.Apply;
    var session := OpenSession(ota, size, digest, written);
    SuccessMoves(ota, session, CMD_OTA_END, [], o);
    ExecuteIsApply(ota, CMD_OTA_END, [], o);
    OT.SwitchOnlyInEnd(ota, session, M.OpEnd, o);
    hide OT.Inv, Execute;
  }

  lemma OnceMoreOrNot(
    d: Device, v: Device, size: nat, digest: seq<byte>, written: seq<byte>, chunkNumber: nat, chunk: seq<byte>)
    requires Transferring(d.ota, size, digest, written) && BuildData(chunkNumber, |written|, chunk).Payload?
    requires SealedCalls.AtMostOnce(d, v, CMD_OTA_DATA, BuildData(chunkNumber, |written|, chunk).bytes)
    ensures Transferring(v.ota, size, digest, written) || Transferring(v.ota, size, digest, written + chunk)
    ensures v.ota.bytesReceived == |written| || v.ota.bytesReceived == |written| + |chunk|
  {
    hide Transferring, Execute, Possible, BuildData;
    var payload := BuildData(chunkNumber, |written|, chunk).bytes;
    if v.ota != d.ota {
      var o :| SealedCalls.Took(d, v, CMD_OTA_DATA, payload, o);
      MovedIsOk(d.ota, size, digest, written, payload, o);
      DataExtends(d.ota, size, digest, written, chunkNumber, chunk, o);
      TransferCounts(v.ota, size, digest, written + chunk);
    } else {
      TransferCounts(v.ota, size, digest, written);
    }
  }

  /** Without authentication too, at every moment of an outstanding call the command has taken effect at most once. */
  lemma PlainAtMostOnce(h: Hash, l: Link, m: Link, number: nat, p: Packet)
    requires T.Shaped(l.device) && !l.device.auth.required && Settled(h, l) && Transferable(l.device.ota)
    requires p.version == VERSION && IsOta(p.command)
    requires m.requests == l.requests + [Request.Request(number, p)] && Inv(h, m) && Grew(l, m)
    ensures SealedCalls.AtMostOnce(l.device, m.device, p.command, p.payload)
  {
    hide Inv, T.Shaped, Settled, Grew, After, OT.Inv, Handle, Steady, Honest, Moved, Execute, Possible;
    var session :| OT.Inv(l.device.ota, session);
    PlainIsSteady(h, l.device, p, session, p);
    MovedAtEnd(h, l, m, number, p);
    if m.device != l.device {
      var o := MovedBy(h, l.device, p, m.device);
      PlainTakes(h, l.device, p, o);
    }
  }

  lemma PlainTakes(h: Hash, d: Device, p: Packet, o: Outcome)
    requires T.Shaped(d) && !d.auth.required && p.version == VERSION && IsOta(p.command) && Possible(o, d)
    ensures SealedCalls.Took(d, After(h, d, p, o), p.command, p.payload, o)
  {
    hide Handle, Execute, Possible, After;
    PlainSteps(h, d, p, o);
    ExecuteIsApply(d.ota, p.command, p.payload, o);
  }

  /**
   * At every moment of an outstanding DATA call with a session, answered or not, the
   * device has received what was acknowledged, or that and the chunk.
   */
  lemma OutstandingChunk(
    h: Hash, key: seq<byte>, l: Link, m: Link, counter: nat, tag: seq<byte>, size: nat, digest: seq<byte>,
    written: seq<byte>, chunkNumber: nat, chunk: seq<byte>)
    requires Prepared(h, Some(key), l, counter) && Transferring(l.device.ota, size, digest, written)
    requires BuildData(chunkNumber, |written|, chunk).Payload? && |tag| == 16 && Inv(h, m) && Grew(l, m)
    requires m.requests == l.requests + [Request.Request(counter + 1, Sealed(
      CMD_OTA_DATA, SequenceOf(counter + 1), BuildData(chunkNumber, |written|, chunk).bytes, tag))]
    ensures Transferring(m.device.ota, size, digest, written) ||
      Transferring(m.device.ota, size, digest, written + chunk)
    ensures m.device.ota.bytesReceived == |written| || m.device.ota.bytesReceived == |written| + |chunk|
  {
    hide Inv, Grew, Settled, SealedCalls.Ready, Transferring, BuildData, SealedCalls.AtMostOnce, Sealed;
    hide T.Shaped;
    var payload := BuildData(chunkNumber, |written|, chunk).bytes;
    SealedCalls.SealedAtMostOnce(h, key, l, m, counter, CMD_OTA_DATA, payload, tag);
    OnceMoreOrNot(l.device, m.device, size, digest, written, chunkNumber, chunk);
  }

  /** When a phase of an OTA request begins, the link is prepared and nothing has been done yet. */
  lemma NothingDoneBefore(
    h: Hash, key: seq<byte>, retries: nat, s: Standing, command: byte, payload: seq<byte>, phase: Phase, now: Standing)
    requires Reaches(h, key, retries, s, command, payload, phase, now) && IsOta(command)
    requires Prepared(h, Some(key), s.link, s.counter)
    ensures Prepared(h, Some(key), now.link, now.counter) && now.link.device.ota == s.link.device.ota
  {
    hide Prepared, SealedPass, Shaken, SessionKey, Verified;
    match phase {
      case Starting =>
      case Passing(Fresh(opening)) => OpeningUndone(h, key, retries, s, opening);
      case Passing(Renewed(opening, first, shake)) =>
        RefusedBefore(h, key, retries, s, command, payload, opening, first);
        OpeningUndone(h, key, retries, Dropped(first), Some(shake));
      case Renewing(opening, first) => RefusedBefore(h, key, retries, s, command, payload, opening, first);
    }
  }

  lemma RefusedBefore(
    h: Hash, key: seq<byte>, retries: nat, s: Standing, command: byte, payload: seq<byte>, opening: Option<Shake>,
    first: Pass)
    requires Reaches(h, key, retries, s, command, payload, Renewing(opening, first), Dropped(first))
    requires Prepared(h, Some(key), s.link, s.counter) && IsOta(command)
    ensures Prepared(h, Some(key), first.after, first.number) && first.after.device.ota == s.link.device.ota
  {
    hide Prepared, SealedPass, Shaken, SessionKey, Verified, Concluded;
    var b := Opened(h, key, s, opening);
    OpeningUndone(h, key, retries, s, opening);
    PassNumber(h, retries, b, command, payload, first);
    var o := PassConcludes(h, key, retries, b, command, payload, first);
    AuthRequiredMeansNothingDone(h, key, b.link, first.after, first.number, command, payload, o, first.reply);
  }

  /**
   * At every moment of a DATA request, through its passes and handshakes, the device
   * has received what was acknowledged before it, or, during a pass, that and the chunk.
   */
  lemma ChunkAtEveryMoment(
    h: Hash, key: seq<byte>, retries: nat, s: Standing, size: nat, digest: seq<byte>, written: seq<byte>,
    chunkNumber: nat, chunk: seq<byte>, phase: Phase, now: Standing, m: Link)
    requires Prepared(h, Some(key), s.link, s.counter) && Transferring(s.link.device.ota, size, digest, written)
    requires BuildData(chunkNumber, |written|, chunk).Payload?
    requires var payload := BuildData(chunkNumber, |written|, chunk).bytes;
      && Reaches(h, key, retries, s, CMD_OTA_DATA, payload, phase, now)
      && During(h, CMD_OTA_DATA, payload, phase, now, m)
    ensures Transferring(m.device.ota, size, digest, written) ||
      (phase.Passing? && Transferring(m.device.ota, size, digest, written + chunk))
  {
    hide Inv, Grew, Transferring, Reaches, Prepared, BuildData, OneMore, Outgoing, HandshakeTheory.OnlyAuth;
    var payload := BuildData(chunkNumber, |written|, chunk).bytes;
    NothingDoneBefore(h, key, retries, s, CMD_OTA_DATA, payload, phase, now);
    if phase.Passing? {
      ChunkInPass(h, Some(key), now, size, digest, written, chunkNumber, chunk, m);
    } else {
      PreparedShakes(h, key, now.link, now.counter, m);
      QuietAtEnd(h, key, now.link, m);
    }
  }

  /** The same at every moment of one pass, with or without authentication. */
  lemma ChunkInPass(
    h: Hash, authKey: Option<seq<byte>>, s: Standing, size: nat, digest: seq<byte>, written: seq<byte>,
    chunkNumber: nat, chunk: seq<byte>, m: Link)
    requires Prepared(h, authKey, s.link, s.counter) && Transferring(s.link.device.ota, size, digest, written)
    requires BuildData(chunkNumber, |written|, chunk).Payload? && authKey.Some? == s.sessionKey.Some?
    requires OneMore(h, s.link, m, s.counter + 1,
                     Outgoing(h, s, CMD_OTA_DATA, BuildData(chunkNumber, |written|, chunk).bytes))
    ensures Transferring(m.device.ota, size, digest, written) ||
      Transferring(m.device.ota, size, digest, written + chunk)
  {
    hide Inv, Grew, Transferring, Prepared, BuildData, RequestTag, SequenceOf, OneMore, Outgoing, Sealed;
    var payload := BuildData(chunkNumber, |written|, chunk).bytes;
    PassSent(h, s, CMD_OTA_DATA, payload, m);
    if |m.requests| > |s.link.requests| {
      match authKey {
        case Some(key) =>
          var tag := RequestTag(h, s.sessionKey.value, CMD_OTA_DATA, SequenceOf(s.counter + 1), payload);
          OutstandingChunk(h, key, s.link, m, s.counter, tag, size, digest, written, chunkNumber, chunk);
        case None => OutstandingPlainChunk(h, s.link, m, s.counter, size, digest, written, chunkNumber, chunk);
      }
    }
  }

  /** At a moment of a pass nothing has happened yet, or its packet has been issued. */
  lemma PassSent(h: Hash, s: Standing, command: byte, payload: seq<byte>, m: Link)
    requires OneMore(h, s.link, m, s.counter + 1, Outgoing(h, s, command, payload)) && IsProtected(command)
    ensures |m.requests| > |s.link.requests| || m.device == s.link.device
    ensures Inv(h, m) && Grew(s.link, m)
    ensures |m.requests| > |s.link.requests| ==>
      var q := SequenceOf(s.counter + 1);
      m.requests == s.link.requests + [Request.Request(s.counter + 1,
        if s.sessionKey.Some? then Sealed(command, q, payload, RequestTag(h, s.sessionKey.value, command, q, payload))
        else Packet(VERSION, command, q, payload))]
  {
    hide Inv, Grew, RequestTag, SequenceOf;
  }

  lemma PreparedShakes(h: Hash, key: seq<byte>, l: Link, counter: nat, m: Link)
    requires Prepared(h, Some(key), l, counter) && HandshakeTheory.OnlyAuth(l, m) && Inv(h, m) && Grew(l, m)
    ensures HandshakeTheory.Shaking(h, key, l, m)
  {
    hide Inv, Grew, Settled, HandshakeTheory.OnlyAuth, HandshakeTheory.Keyed, SealedCalls.RingClear;
  }

  /** Without authentication there is one pass. */
  lemma OutstandingPlainChunk(
    h: Hash, l: Link, m: Link, counter: nat, size: nat, digest: seq<byte>, written: seq<byte>, chunkNumber: nat,
    chunk: seq<byte>)
    requires Prepared(h, None, l, counter) && Transferring(l.device.ota, size, digest, written)
    requires BuildData(chunkNumber, |written|, chunk).Payload? && Inv(h, m) && Grew(l, m)
    requires m.requests == l.requests + [Request.Request(counter + 1, Packet(
      VERSION, CMD_OTA_DATA, SequenceOf(counter + 1), BuildData(chunkNumber, |written|, chunk).bytes))]
    ensures Transferring(m.device.ota, size, digest, written) ||
      Transferring(m.device.ota, size, digest, written + chunk)
    ensures m.device.ota.bytesReceived == |written| || m.device.ota.bytesReceived == |written| + |chunk|
  {
    hide Inv, Grew, Settled, Transferring, Transferable, BuildData, SealedCalls.AtMostOnce, T.Shaped;
    var p := Packet(VERSION, CMD_OTA_DATA, SequenceOf(counter + 1), BuildData(chunkNumber, |written|, chunk).bytes);
    PlainAtMostOnce(h, l, m, counter + 1, p);
    OnceMoreOrNot(l.device, m.device, size, digest, written, chunkNumber, chunk);
  }

  lemma MovedIsOk(ota: M.State, size: nat, digest: seq<byte>, written: seq<byte>, payload: seq<byte>, o: Outcome)
    requires Transferring(ota, size, digest, written)
    requires Execute(ota, CMD_OTA_DATA, payload, o).ota != ota
    ensures Execute(ota, CMD_OTA_DATA, payload, o).error == ERR_OK
  {
    hide M.Write;
    var session := OpenSession(ota, size, digest, written);
    OT.DataRepeats(ota, session, payload, o, o);
  }

  lemma TransferCounts(ota: M.State, size: nat, digest: seq<byte>, written: seq<byte>)
    requires Transferring(ota, size, digest, written)
    ensures ota.bytesReceived == |written|
  {
    var session := OpenSession(ota, size, digest, written);
    OpenCounts(ota, session);
  }

  // ---- The host's three phases ----

  /** A state from which an update may start, and the stages it goes through. */
  ghost predicate Stage(
    h: Hash, authKey: Option<seq<byte>>, l: Link, counter: nat, size: nat, digest: seq<byte>, written: seq<byte>)
  {
    Prepared(h, authKey, l, counter) && Transferring(l.device.ota, size, digest, written)
  }

  /** Where an update may start: on a prepared link, or wherever a request may. */
  ghost predicate MayStart(h: Hash, authKey: Option<seq<byte>>, s: Standing)
  {
    Transferable(s.link.device.ota) && (Prepared(h, authKey, s.link, s.counter) || MayCall(h, authKey, s))
  }

  /**
   * After anything the client has done since, it may start again, with whatever is
   * still in flight: always without a session, and with one if the number window is
   * open and no cached response carries one of the next numbers.
   */
  lemma MayStartAgain(
    h: Hash, authKey: Option<seq<byte>>, s: Standing, m: Link, later: nat, sessionKey: Option<seq<byte>>)
    requires MayStart(h, authKey, s) && Advanced(h, s.link, s.counter, m, later)
    ensures T.Shaped(m.device) && Transferable(m.device.ota)
    ensures
      (authKey.Some? && sessionKey.Some? ==>
         && NumbersOpen(m, later)
         && (m.device.auth.authenticated ==> SealedCalls.RingClear(m.device.auth, later))) ==>
      MayStart(h, authKey, Standing(m, later, sessionKey))
  {
    hide Inv, Grew, Transferable, T.Shaped, HandshakeTheory.Keyed, SealedCalls.RingClear, NumbersOpen, Settled;
    AdvancedGrew(h, s.link, s.counter, m, later);
    TransferableAtEnd(h, s.link, m);
    match authKey {
      case None => StaysPlain(h, s.link, m);
      case Some(key) => SealedCalls.KeyedAtEnd(h, key, s.link, m);
    }
  }

  /** From a prepared link the request is finished as seen from the device it started with. */
  lemma ConductedFinishes(
    h: Hash, authKey: Option<seq<byte>>, retries: nat, s: Standing, command: byte, payload: seq<byte>, t: Trace,
    result: Packet, m: Link) returns (o: Outcome)
    requires Conducted(h, authKey, retries, s, command, payload, t, result, m) && IsOta(command)
    requires Prepared(h, authKey, s.link, s.counter)
    ensures Finished(h, authKey, s.link.device, m, Last(t).number, command, payload, o, result)
  {
    hide Prepared, Finished, Completes, PlainPass;
    match authKey {
      case Some(key) => o := RequestFinishes(h, key, retries, s, command, payload, t, result, m);
      case None => o := PlainPassFinishes(h, retries, s, command, payload, t.first);
    }
  }

  lemma PlainPassFinishes(
    h: Hash, retries: nat, s: Standing, command: byte, payload: seq<byte>, x: Pass) returns (o: Outcome)
    requires PlainPass(h, retries, s, command, payload, x) && IsOta(command)
    requires Prepared(h, None, s.link, s.counter)
    ensures Finished(h, None, s.link.device, x.after, x.number, command, payload, o, x.reply)
  {
    hide Prepared, Finished, Passed, Concluded, Answered;
    AnsweredPass(h, retries, x);
    o := PlainConcludes(h, s.link, x.after, s.counter, x.packet, x.record, x.reply);
    PlainFinishes(h, s.link, x.after, s.counter + 1, command, payload, o, x.reply);
  }

  lemma AnsweredPass(h: Hash, retries: nat, x: Pass)
    requires Passed(h, retries, x)
    ensures Answered(h, x.before, x.after, x.number, x.packet, x.record) && x.after.log[x.record].reply == x.reply
  {
    hide Inv, Grew, CopyCount.Outstanding;
  }

  /**
   * From where an update may start, the request is finished as seen from the device
   * that its first copy met, or that an opening handshake left behind.
   */
  lemma FirstFinishes(
    h: Hash, authKey: Option<seq<byte>>, retries: nat, s: Standing, command: byte, payload: seq<byte>, t: Trace,
    result: Packet, m: Link) returns (o: Outcome, base: Device)
    requires Conducted(h, authKey, retries, s, command, payload, t, result, m) && IsOta(command)
    requires MayStart(h, authKey, s)
    ensures Finished(h, authKey, base, m, Last(t).number, command, payload, o, result) && Transferable(base.ota)
  {
    hide Prepared, Finished, Transferable, MayCall, Completes, PlainPass;
    if Prepared(h, authKey, s.link, s.counter) {
      o := ConductedFinishes(h, authKey, retries, s, command, payload, t, result, m);
      base := s.link.device;
    } else {
      match authKey {
        case Some(key) =>
          var r, u := CompletesDrained(h, key, retries, s, command, payload, t, result, m);
          o := RequestFinishes(h, key, retries, r, command, payload, u, result, m);
          base := r.link.device;
        case None =>
          var r, x := PlainDrained(h, retries, s, command, payload, t.first);
          o := PlainPassFinishes(h, retries, r, command, payload, x);
          base := r.link.device;
      }
    }
  }

  // ---- Requests that need no session ----

  /** PING, GET_INFO and unknown commands change nothing. */
  lemma UnprotectedIsInert(h: Hash, d: Device, p: Packet)
    requires T.Shaped(d) && p.version == VERSION && !IsProtected(p.command)
    requires p.command != CMD_AUTH || !d.auth.required
    ensures Inert(h, d, p)
  {
    forall o | Usable(o)
      ensures After(h, d, p, o) == d
    {
      UnprotectedChangesNothing(h, d, p, o);
    }
    hide After;
  }

  lemma UnprotectedChangesNothing(h: Hash, d: Device, p: Packet, o: Outcome)
    requires T.Shaped(d) && p.version == VERSION && !IsProtected(p.command)
    requires p.command != CMD_AUTH || !d.auth.required
    ensures After(h, d, p, o) == d
  {
    hide HandleProtected;
  }

  /**
   * Such a request leaves the device as it was and the link settled. It uses up a
   * sequence number, so that in a session the next protected request is safe exactly
   * when the replay window is still clear one number further on.
   */
  lemma UnprotectedKeepsPrepared(
    h: Hash, authKey: Option<seq<byte>>, retries: nat, s: Standing, command: byte, payload: seq<byte>, x: Pass)
    requires PlainPass(h, retries, s, command, payload, x) && !IsProtected(command) && command != CMD_AUTH
    requires Prepared(h, authKey, s.link, s.counter)
    ensures x.after.device == s.link.device && T.Shaped(s.link.device)
    ensures Prepared(h, authKey, x.after, x.number) <==>
      (authKey.Some? && s.link.device.auth.authenticated ==> SealedCalls.RingClear(s.link.device.auth, x.number))
  {
    hide Passed, Settled, SealedCalls.RingClear, HandshakeTheory.Keyed, Transferable, T.Shaped, Inert;
    AnsweredPass(h, retries, x);
    UnprotectedIsInert(h, s.link.device, x.packet);
    SettledAfterInert(h, s.link, x.after, x.number, x.packet, x.record);
  }

  lemma SettledAfterInert(h: Hash, l: Link, m: Link, number: nat, p: Packet, k: nat)
    requires T.Shaped(l.device) && Settled(h, l) && Inert(h, l.device, p) && Answered(h, l, m, number, p, k)
    ensures m.device == l.device && Settled(h, m)
  {
    hide Inv, T.Shaped, Settled, Grew, Inert;
    InertCall(h, l, m, number, p, k);
    CallSettles(h, l, m, number, p, k);
  }

  /** On a client without a session, or without a key, an update may follow a request for information. */
  lemma UpdateAfterInfo(
    h: Hash, authKey: Option<seq<byte>>, retries: nat, s: Standing, command: byte, payload: seq<byte>, x: Pass)
    requires PlainPass(h, retries, s, command, payload, x) && !IsProtected(command) && command != CMD_AUTH
    requires MayStart(h, authKey, s) && (authKey.Some? ==> s.sessionKey.None?)
    ensures MayStart(h, authKey, Standing(x.after, x.number, s.sessionKey))
  {
    hide Passed, Transferable, T.Shaped, Inv, Grew;
    PassedGrows(h, retries, x);
    TransferableAtEnd(h, s.link, x.after);
    match authKey {
      case None => StaysPlain(h, s.link, x.after);
      case Some(key) =>
        hide SealedCalls.RingClear, HandshakeTheory.Keyed;
        SealedCalls.KeyedAtEnd(h, key, s.link, x.after);
    }
  }

  lemma PassedGrows(h: Hash, retries: nat, x: Pass)
    requires Passed(h, retries, x)
    ensures Inv(h, x.after) && Grew(x.before, x.after)
  {
    hide Inv, Grew, CopyCount.Outstanding;
  }

  /** An acknowledged request was executed exactly once, and succeeded. */
  lemma AcknowledgedOnce(
    h: Hash, authKey: Option<seq<byte>>, d: Device, m: Link, counter: nat, command: byte, payload: seq<byte>,
    o: Outcome, reply: Packet)
    requires IsOta(command) && Finished(h, authKey, d, m, counter, command, payload, o, reply) && EnsureAck(reply)
    ensures Possible(o, d) && Execute(d.ota, command, payload, o).error == ERR_OK
    ensures var x := Execute(d.ota, command, payload, o);
      x.ota != d.ota ==> m.device.ota == x.ota && Prepared(h, authKey, m, counter)
  {
    hide Prepared, Execute, Possible;
  }

  lemma BeginAcknowledged(
    h: Hash, authKey: Option<seq<byte>>, d: Device, m: Link, counter: nat, size: nat, digest: seq<byte>, o: Outcome,
    reply: Packet)
    requires BuildBegin(size, digest).Payload? && Transferable(d.ota) && EnsureAck(reply)
    requires Finished(h, authKey, d, m, counter, CMD_OTA_BEGIN, BuildBegin(size, digest).bytes, o, reply)
    ensures Stage(h, authKey, m, counter, size, digest, [])
  {
    hide Finished, Prepared, Execute, Transferring, Transferable, EnsureAck, BuildBegin, Plausible;
    AcknowledgedOnce(h, authKey, d, m, counter, CMD_OTA_BEGIN, BuildBegin(size, digest).bytes, o, reply);
    BeginStarts(d.ota, size, digest, o);
  }

  lemma DataAcknowledged(
    h: Hash, authKey: Option<seq<byte>>, d: Device, m: Link, counter: nat, size: nat, digest: seq<byte>,
    written: seq<byte>, chunkNumber: nat, chunk: seq<byte>, o: Outcome, reply: Packet)
    requires BuildData(chunkNumber, |written|, chunk).Payload? && EnsureAck(reply)
    requires Transferring(d.ota, size, digest, written)
    requires Finished(h, authKey, d, m, counter, CMD_OTA_DATA, BuildData(chunkNumber, |written|, chunk).bytes, o, reply)
    ensures Stage(h, authKey, m, counter, size, digest, written + chunk)
  {
    hide Finished, Prepared, Execute, Transferring, EnsureAck, BuildData, Plausible;
    AcknowledgedOnce(h, authKey, d, m, counter, CMD_OTA_DATA, BuildData(chunkNumber, |written|, chunk).bytes, o, reply);
    DataExtends(d.ota, size, digest, written, chunkNumber, chunk, o);
  }

  lemma EndAcknowledged(
    h: Hash, authKey: Option<seq<byte>>, d: Device, m: Link, counter: nat, size: nat, digest: seq<byte>,
    written: seq<byte>, o: Outcome, reply: Packet)
    requires Transferring(d.ota, size, digest, written) && EnsureAck(reply)
    requires Finished(h, authKey, d, m, counter, CMD_OTA_END, [], o, reply)
    ensures Installed(m.device.ota.flash, written) && |written| == size && o.sha == Some(digest)
  {
    hide Finished, Prepared, Execute, Transferring, EnsureAck, Plausible, Installed;
    AcknowledgedOnce(h, authKey, d, m, counter, CMD_OTA_END, [], o, reply);
    EndInstalls(d.ota, size, digest, written, o);
  }

  // ---- BEGIN ----

  /** The file is an image and, behind it, the image's digest. */
  predicate EndsIn(firmware: seq<byte>, image: seq<byte>, digest: seq<byte>)
  {
    |digest| == SHA256_SIZE && firmware == image + digest
  }

  /** The last 32 bytes of the file, where the image keeps its own digest. */
  function ImageDigest(firmware: seq<byte>): (digest: seq<byte>)
    requires |firmware| >= SHA256_SIZE
    ensures EndsIn(firmware, firmware[..|firmware| - SHA256_SIZE], digest)
  {
    firmware[|firmware| - SHA256_SIZE..]
  }

  /** Whatever the image, what is declared is the digest behind it. */
  lemma DigestIsLast(firmware: seq<byte>, image: seq<byte>, digest: seq<byte>)
    requires EndsIn(firmware, image, digest)
    ensures |firmware| >= SHA256_SIZE && ImageDigest(firmware) == digest
  {
    assert firmware[|image|..] == digest;
  }

  function BeginCommand(firmware: seq<byte>): Command
    requires |firmware| >= SHA256_SIZE
  {
    Command(CMD_OTA_BEGIN, BuildBegin(|firmware|, ImageDigest(firmware)))
  }

  /** An acknowledged BEGIN has opened the transfer for the file's size and the digest it ends in. */
  lemma BeginOpens(
    h: Hash, authKey: Option<seq<byte>>, calm: Option<Platform>, retries: nat, firmware: seq<byte>, c: Call)
    requires |firmware| >= SHA256_SIZE && Called(h, authKey, calm, retries, c)
    requires c.command == BeginCommand(firmware) && Acknowledged(c) && MayStart(h, authKey, c.before)
    ensures Stage(h, authKey, c.after.link, c.after.counter, |firmware|, ImageDigest(firmware), [])
  {
    hide Prepared, Finished, Transferable, Transferring, Conducted, Stopped, RequestFailed, RequestedCalmly, MayStart;
    hide Last, BuildBegin, EnsureAck, SessionLeft, Stage;
    var payload := c.command.payload.bytes;
    var o, base := FirstFinishes(h, authKey, retries, c.before, CMD_OTA_BEGIN, payload, c.trace, c.response.packet,
                                 c.after.link);
    BeginAcknowledged(h, authKey, base, c.after.link, c.after.counter, |firmware|, ImageDigest(firmware), o,
                      c.response.packet);
  }

  lemma OpensForItsDigest(
    h: Hash, authKey: Option<seq<byte>>, l: Link, counter: nat, firmware: seq<byte>, image: seq<byte>,
    digest: seq<byte>)
    requires EndsIn(firmware, image, digest)
    requires |firmware| >= SHA256_SIZE ==> Stage(h, authKey, l, counter, |firmware|, ImageDigest(firmware), [])
    ensures Stage(h, authKey, l, counter, |firmware|, digest, [])
  {
    hide Stage, ImageDigest;
    DigestIsLast(firmware, image, digest);
  }

  /**
   * True if and only if the file has at least 32 bytes and BEGIN was acknowledged; then
   * the transfer is open for the file's size and the digest behind its image.
   */
  method RunUpdateBegin(client: OtaLinkClient, firmware: seq<byte>) returns (ok: bool, ghost calls: seq<Call>)
    requires client.Valid() && WindowOpen(client.transport.link, client.counter, 1)
    modifies client, client.transport
    ensures client.Valid()
    ensures ok ==> WindowOpen(client.transport.link, client.counter, 1)
    ensures if |firmware| < SHA256_SIZE then !ok && calls == [] && client.Stands() == old(client.Stands())
      else Made(client.transport.hash, client.authKey, client.transport.calm, client.retries, old(client.Stands()),
                [BeginCommand(firmware)], calls, client.Stands(), ok)
    ensures ok && MayStart(client.transport.hash, client.authKey, old(client.Stands())) ==>
      forall image, digest | EndsIn(firmware, image, digest) ::
        Stage(client.transport.hash, client.authKey, client.transport.link, client.counter, |firmware|, digest, [])
  {
    hide Inv, MayStart, Stage, WindowOpen, Called, Made, BuildBegin, EndsIn, Conducted, Stopped, RequestFailed, Last;
    hide RequestedCalmly, ImageDigest, SessionLeft;
    ghost var s := client.Stands();
    calls := [];
    if |firmware| < SHA256_SIZE {
      return false, calls;
    }
    var payload := BuildBegin(|firmware|, ImageDigest(firmware));
    if !payload.Payload? {
      MadeNone(client.transport.hash, client.authKey, client.transport.calm, client.retries, s, BeginCommand(firmware));
      return false, calls;
    }
    var response, t, stop := client.Request(CMD_OTA_BEGIN, payload.bytes);
    ghost var c := Call(BeginCommand(firmware), s, response, t, stop, client.Stands());
    IsCalled(client.transport.hash, client.authKey, client.transport.calm, client.retries, c);
    MadeOne(client.transport.hash, client.authKey, client.transport.calm, client.retries, c);
    calls := [c];
    ok := response.Delivered? && EnsureAck(response.packet);
    if ok && MayStart(client.transport.hash, client.authKey, s) {
      BeginOpens(client.transport.hash, client.authKey, client.transport.calm, client.retries, firmware, c);
      forall image, digest | EndsIn(firmware, image, digest)
        ensures Stage(client.transport.hash, client.authKey, client.transport.link, client.counter, |firmware|, digest,
                      [])
      {
        OpensForItsDigest(client.transport.hash, client.authKey, client.transport.link, client.counter, firmware,
                          image, digest);
      }
    }
  }

  /** The device has received what was acknowledged, or that and the chunk. */
  ghost predicate Received(l: Link, size: nat, digest: seq<byte>, written: seq<byte>, chunk: seq<byte>)
  {
    Transferring(l.device.ota, size, digest, written) || Transferring(l.device.ota, size, digest, written + chunk)
  }

  lemma StageReceived(
    h: Hash, authKey: Option<seq<byte>>, s: Standing, size: nat, digest: seq<byte>, written: seq<byte>,
    chunk: seq<byte>)
    ensures Stage(h, authKey, s.link, s.counter, size, digest, written) ==>
      Received(s.link, size, digest, written, chunk)
  {
    hide Transferring, Prepared;
  }

  /** An acknowledged chunk. */
  lemma ChunkStaged(
    h: Hash, authKey: Option<seq<byte>>, retries: nat, s: Standing, size: nat, digest: seq<byte>, written: seq<byte>,
    chunkNumber: nat, chunk: seq<byte>, t: Trace, result: Packet, m: Link)
    requires Stage(h, authKey, s.link, s.counter, size, digest, written)
    requires BuildData(chunkNumber, |written|, chunk).Payload? && EnsureAck(result)
    requires Conducted(
      h, authKey, retries, s, CMD_OTA_DATA, BuildData(chunkNumber, |written|, chunk).bytes, t, result, m)
    ensures Stage(h, authKey, m, Last(t).number, size, digest, written + chunk)
  {
    hide Prepared, Finished, Transferring, BuildData, Conducted;
    var payload := BuildData(chunkNumber, |written|, chunk).bytes;
    var o := ConductedFinishes(h, authKey, retries, s, CMD_OTA_DATA, payload, t, result, m);
    DataAcknowledged(
      h, authKey, s.link.device, m, Last(t).number, size, digest, written, chunkNumber, chunk, o, result);
  }

  /** However a request for DATA ended. */
  lemma ChunkReceived(
    h: Hash, authKey: Option<seq<byte>>, retries: nat, s: Standing, size: nat, digest: seq<byte>, written: seq<byte>,
    chunkNumber: nat, chunk: seq<byte>, stop: Stop, m: Link, later: nat)
    requires Stage(h, authKey, s.link, s.counter, size, digest, written)
    requires BuildData(chunkNumber, |written|, chunk).Payload?
    requires Stopped(
      h, authKey, retries, s, CMD_OTA_DATA, BuildData(chunkNumber, |written|, chunk).bytes, stop, m, later)
    ensures Received(m, size, digest, written, chunk)
  {
    hide Prepared, Transferring, BuildData, Reaches, During, Advanced, OneMore, Outgoing;
    match authKey {
      case Some(key) =>
        ChunkAtEveryMoment(h, key, retries, s, size, digest, written, chunkNumber, chunk, stop.phase, stop.now, m);
      case None => ChunkInPass(h, None, s, size, digest, written, chunkNumber, chunk, m);
    }
  }

  /** What a request for DATA came to, acknowledged or not. */
  lemma ChunkOutcome(
    h: Hash, authKey: Option<seq<byte>>, calm: Option<Platform>, retries: nat, size: nat, digest: seq<byte>,
    written: seq<byte>, chunkNumber: nat, chunk: seq<byte>, c: Call)
    requires Called(h, authKey, calm, retries, c)
    requires c.command == Command(CMD_OTA_DATA, BuildData(chunkNumber, |written|, chunk))
    ensures Stage(h, authKey, c.before.link, c.before.counter, size, digest, written) ==>
      && Received(c.after.link, size, digest, written, chunk)
      && (Acknowledged(c) ==> Stage(h, authKey, c.after.link, c.after.counter, size, digest, written + chunk))
  {
    hide Stage, Received, Conducted, Stopped, BuildData, Last, EnsureAck, RequestFailed, SessionLeft, RequestedCalmly;
    if Stage(h, authKey, c.before.link, c.before.counter, size, digest, written) {
      ChunkReceived(h, authKey, retries, c.before, size, digest, written, chunkNumber, chunk, c.stop, c.after.link,
                    c.after.counter);
      if Acknowledged(c) {
        ChunkStaged(h, authKey, retries, c.before, size, digest, written, chunkNumber, chunk, c.trace,
                    c.response.packet, c.after.link);
      }
    }
  }

  /**
   * One pass of the data loop, true if and only if the chunk could be built and was
   * acknowledged; `written` is what has been acknowledged before.
   */
  method SendChunk(client: OtaLinkClient, chunkNumber: nat, ghost written: seq<byte>, sent: nat, chunk: seq<byte>,
                   ghost size: nat, ghost digest: seq<byte>) returns (ok: bool, ghost calls: seq<Call>)
    requires client.Valid() && WindowOpen(client.transport.link, client.counter, 1) && |written| == sent
    modifies client, client.transport
    ensures client.Valid()
    ensures ok ==> WindowOpen(client.transport.link, client.counter, 1)
    ensures Made(client.transport.hash, client.authKey, client.transport.calm, client.retries, old(client.Stands()),
                 [Command(CMD_OTA_DATA, BuildData(chunkNumber, sent, chunk))], calls, client.Stands(), ok)
    ensures ok && Stage(client.transport.hash, client.authKey, old(client.transport.link), old(client.counter),
                        size, digest, written) ==>
      Stage(client.transport.hash, client.authKey, client.transport.link, client.counter, size, digest, written + chunk)
    ensures Stage(client.transport.hash, client.authKey, old(client.transport.link), old(client.counter),
                  size, digest, written) ==>
      Received(client.transport.link, size, digest, written, chunk)
  {
    hide Inv, WindowOpen, Conducted, Stopped, BuildData, Received, Stage, Last, EnsureAck, Called, Made, RequestFailed;
    hide RequestedCalmly, SessionLeft;
    StageReceived(client.transport.hash, client.authKey, client.Stands(), size, digest, written, chunk);
    ghost var s := client.Stands();
    calls := [];
    var payload := BuildData(chunkNumber, sent, chunk);
    if !payload.Payload? {
      MadeNone(client.transport.hash, client.authKey, client.transport.calm, client.retries, s,
               Command(CMD_OTA_DATA, payload));
      return false, calls;
    }
    var response, t, stop := client.Request(CMD_OTA_DATA, payload.bytes);
    ghost var c := Call(Command(CMD_OTA_DATA, payload), s, response, t, stop, client.Stands());
    IsCalled(client.transport.hash, client.authKey, client.transport.calm, client.retries, c);
    MadeOne(client.transport.hash, client.authKey, client.transport.calm, client.retries, c);
    ChunkOutcome(client.transport.hash, client.authKey, client.transport.calm, client.retries, size, digest, written,
                 chunkNumber, chunk, c);
    return response.Delivered? && EnsureAck(response.packet), [c];
  }

  /** Where the chunk that begins at `sent` ends: chunks are full, but for what is left at the end of the file. */
  function NextEnd(firmware: seq<byte>, sent: nat, size: nat): (end: nat)
    requires sent < |firmware| && 0 < size
    ensures sent < end <= |firmware| && end - sent <= size && (end - sent == size || end == |firmware|)
  {
    if sent + size < |firmware| then sent + size else |firmware|
  }

  /** What is left to send from byte `sent` on: chunks of this size, and END. */
  function Chunks(firmware: seq<byte>, sent: nat, number: nat, size: nat): seq<Command>
    requires sent <= |firmware| && 0 < size
    decreases |firmware| - sent
  {
    if sent == |firmware| then []
    else
      var end := NextEnd(firmware, sent, size);
      [Command(CMD_OTA_DATA, BuildData(number, sent, firmware[sent..end]))] + Chunks(firmware, end, number + 1, size)
  }

  const END_COMMAND: Command := Command(CMD_OTA_END, Payloads.Payload([]))

  /** The requests of `run_ota_update`. */
  function UpdateCommands(firmware: seq<byte>, size: nat): seq<Command>
    requires SHA256_SIZE <= |firmware| && 0 < size
  {
    [BeginCommand(firmware)] + (Chunks(firmware, 0, 0, size) + [END_COMMAND])
  }

  /** Every chunk fits a frame, with its tag if there is a key. */
  lemma {:induction false} ChunksFitFrame(authKey: Option<seq<byte>>, firmware: seq<byte>, sent: nat, number: nat)
    requires sent <= |firmware|
    ensures forall c | c in Chunks(firmware, sent, number, ChunkSize(authKey)) && c.payload.Payload? ::
      FitsFrame(authKey, c.payload.bytes)
    decreases |firmware| - sent
  {
    hide Le32;
    if sent < |firmware| {
      ChunksFitFrame(authKey, firmware, NextEnd(firmware, sent, ChunkSize(authKey)), number + 1);
    }
  }

  lemma UpdateFitsFrame(authKey: Option<seq<byte>>, firmware: seq<byte>)
    requires SHA256_SIZE <= |firmware|
    ensures forall c | c in UpdateCommands(firmware, ChunkSize(authKey)) && c.payload.Payload? ::
      FitsFrame(authKey, c.payload.bytes)
  {
    hide Chunks, Le32, ChunkSize;
    ChunksFitFrame(authKey, firmware, 0, 0);
  }

  /** The chunks before `sent`, made one after the other. */
  ghost predicate MadeUpTo(
    h: Hash, authKey: Option<seq<byte>>, calm: Option<Platform>, retries: nat, s: Standing, firmware: seq<byte>,
    sent: nat, number: nat, calls: seq<Call>, r: Standing)
  {
    sent <= |firmware|
    && exists done :: MadeBefore(h, authKey, calm, retries, s, firmware, sent, number, done, calls, r)
  }

  ghost predicate MadeBefore(
    h: Hash, authKey: Option<seq<byte>>, calm: Option<Platform>, retries: nat, s: Standing, firmware: seq<byte>,
    sent: nat, number: nat, done: seq<Command>, calls: seq<Call>, r: Standing)
    requires sent <= |firmware|
  {
    && Made(h, authKey, calm, retries, s, done, calls, r, true)
    && Chunks(firmware, 0, 0, ChunkSize(authKey)) == done + Chunks(firmware, sent, number, ChunkSize(authKey))
  }

  lemma MadeNothing(
    h: Hash, authKey: Option<seq<byte>>, calm: Option<Platform>, retries: nat, s: Standing, firmware: seq<byte>)
    ensures MadeUpTo(h, authKey, calm, retries, s, firmware, 0, 0, [], s)
  {
    hide Chunks;
    var chunks := Chunks(firmware, 0, 0, ChunkSize(authKey));
    assert chunks == [] + chunks;
    assert MadeBefore(h, authKey, calm, retries, s, firmware, 0, 0, [], [], s);
  }

  /** The next chunk in the list. */
  lemma ChunksNext(firmware: seq<byte>, sent: nat, number: nat, size: nat, done: seq<Command>)
    requires sent < |firmware| && 0 < size
    ensures var end := NextEnd(firmware, sent, size);
      var next := Command(CMD_OTA_DATA, BuildData(number, sent, firmware[sent..end]));
      done + Chunks(firmware, sent, number, size) == (done + [next]) + Chunks(firmware, end, number + 1, size)
  {
    hide BuildData, NextEnd;
  }

  lemma MadeOneMore(
    h: Hash, authKey: Option<seq<byte>>, calm: Option<Platform>, retries: nat, s: Standing, firmware: seq<byte>,
    sent: nat, number: nat, calls: seq<Call>, b: Standing, more: seq<Call>, r: Standing, ok: bool)
    requires sent < |firmware| && MadeUpTo(h, authKey, calm, retries, s, firmware, sent, number, calls, b)
    requires var end := NextEnd(firmware, sent, ChunkSize(authKey));
      var next := Command(CMD_OTA_DATA, BuildData(number, sent, firmware[sent..end]));
      Made(h, authKey, calm, retries, b, [next], more, r, ok)
    ensures ok ==>
      MadeUpTo(h, authKey, calm, retries, s, firmware, NextEnd(firmware, sent, ChunkSize(authKey)), number + 1,
               calls + more, r)
    ensures !ok ==>
      Made(h, authKey, calm, retries, s, Chunks(firmware, 0, 0, ChunkSize(authKey)), calls + more, r, false)
  {
    hide Made, Chunks, BuildData, NextEnd, ChunkSize;
    var done :| MadeBefore(h, authKey, calm, retries, s, firmware, sent, number, done, calls, b);
    var end := NextEnd(firmware, sent, ChunkSize(authKey));
    var next := Command(CMD_OTA_DATA, BuildData(number, sent, firmware[sent..end]));
    MadeMore(h, authKey, calm, retries, s, done, calls, b, true, [next], more, r, ok);
    ChunksNext(firmware, sent, number, ChunkSize(authKey), done);
    if ok {
      assert MadeBefore(h, authKey, calm, retries, s, firmware, end, number + 1, done + [next], calls + more, r);
    } else {
      var rest := Chunks(firmware, end, number + 1, ChunkSize(authKey));
      MadeMore(h, authKey, calm, retries, s, done + [next], calls + more, r, false, rest, [], r, false);
      assert calls + more + [] == calls + more;
    }
  }

  lemma MadeAll(
    h: Hash, authKey: Option<seq<byte>>, calm: Option<Platform>, retries: nat, s: Standing, firmware: seq<byte>,
    number: nat, calls: seq<Call>, r: Standing)
    requires MadeUpTo(h, authKey, calm, retries, s, firmware, |firmware|, number, calls, r)
    ensures Made(h, authKey, calm, retries, s, Chunks(firmware, 0, 0, ChunkSize(authKey)), calls, r, true)
  {
    hide Made;
    var done :| MadeBefore(h, authKey, calm, retries, s, firmware, |firmware|, number, done, calls, r);
    assert done + [] == done;
  }

  lemma NextChunk(firmware: seq<byte>, sent: nat, next: nat)
    requires sent <= next <= |firmware|
    ensures firmware[..sent] + firmware[sent..next] == firmware[..next]
    ensures firmware[..0] == [] && firmware[..|firmware|] == firmware
  {
  }

  /** The device has received some of the file from its start, and nothing else. */
  ghost predicate PrefixReceived(l: Link, size: nat, digest: seq<byte>, firmware: seq<byte>)
  {
    exists n :: 0 <= n <= |firmware| && Transferring(l.device.ota, size, digest, firmware[..n])
  }

  lemma ReceivedPrefix(l: Link, size: nat, digest: seq<byte>, firmware: seq<byte>, sent: nat, end: nat)
    requires sent <= end <= |firmware| && Received(l, size, digest, firmware[..sent], firmware[sent..end])
    ensures PrefixReceived(l, size, digest, firmware)
  {
    hide Transferring;
    NextChunk(firmware, sent, end);
  }

  /** The file up to `sent` has been acknowledged. */
  ghost predicate Staged(
    h: Hash, authKey: Option<seq<byte>>, s: Standing, size: nat, digest: seq<byte>, firmware: seq<byte>, sent: nat)
  {
    sent <= |firmware| && Stage(h, authKey, s.link, s.counter, size, digest, firmware[..sent])
  }

  lemma StagedFirst(
    h: Hash, authKey: Option<seq<byte>>, s: Standing, size: nat, digest: seq<byte>, firmware: seq<byte>)
    requires Stage(h, authKey, s.link, s.counter, size, digest, [])
    ensures Staged(h, authKey, s, size, digest, firmware, 0)
  {
    hide Stage;
    NextChunk(firmware, 0, 0);
  }

  lemma StagedNext(
    h: Hash, authKey: Option<seq<byte>>, s: Standing, r: Standing, size: nat, digest: seq<byte>, firmware: seq<byte>,
    sent: nat, end: nat, ok: bool)
    requires sent <= end <= |firmware|
    requires Stage(h, authKey, s.link, s.counter, size, digest, firmware[..sent]) ==>
      && Received(r.link, size, digest, firmware[..sent], firmware[sent..end])
      && (ok ==> Stage(h, authKey, r.link, r.counter, size, digest, firmware[..sent] + firmware[sent..end]))
    ensures Staged(h, authKey, s, size, digest, firmware, sent) ==>
      && PrefixReceived(r.link, size, digest, firmware)
      && (ok ==> Staged(h, authKey, r, size, digest, firmware, end))
  {
    hide Stage, Received, PrefixReceived;
    NextChunk(firmware, sent, end);
    if Staged(h, authKey, s, size, digest, firmware, sent) {
      ReceivedPrefix(r.link, size, digest, firmware, sent, end);
    }
  }

  lemma StagedLast(
    h: Hash, authKey: Option<seq<byte>>, s: Standing, size: nat, digest: seq<byte>, firmware: seq<byte>)
    ensures Staged(h, authKey, s, size, digest, firmware, |firmware|) ==>
      && Stage(h, authKey, s.link, s.counter, size, digest, firmware)
      && PrefixReceived(s.link, size, digest, firmware)
  {
    hide Transferring, Prepared;
    NextChunk(firmware, 0, |firmware|);
    if Staged(h, authKey, s, size, digest, firmware, |firmware|) {
      assert Transferring(s.link.device.ota, size, digest, firmware[..|firmware|]);
    }
  }

  /**
   * When the data loop returns after an accepted BEGIN, the bytes written in that
   * session are exactly the file, each byte once and in order; when it fails, they
   * are the file's first bytes. It returns if and only if every chunk was acknowledged.
   */
  method RunUpdateData(client: OtaLinkClient, firmware: seq<byte>, ghost size: nat, ghost digest: seq<byte>)
    returns (ok: bool, ghost calls: seq<Call>)
    requires client.Valid() && WindowOpen(client.transport.link, client.counter, 1)
    modifies client, client.transport
    ensures client.Valid()
    ensures ok ==> WindowOpen(client.transport.link, client.counter, 1)
    ensures Made(client.transport.hash, client.authKey, client.transport.calm, client.retries, old(client.Stands()),
                 Chunks(firmware, 0, 0, ChunkSize(client.authKey)), calls, client.Stands(), ok)
    ensures ok && Stage(client.transport.hash, client.authKey, old(client.transport.link), old(client.counter),
                        size, digest, []) ==>
      Stage(client.transport.hash, client.authKey, client.transport.link, client.counter, size, digest, firmware)
    ensures Stage(client.transport.hash, client.authKey, old(client.transport.link), old(client.counter),
                  size, digest, []) ==>
      PrefixReceived(client.transport.link, size, digest, firmware)
  {
    hide Inv, Stage, WindowOpen, Received, PrefixReceived, Staged, NextEnd, Made, MadeUpTo, Chunks, BuildData;
    ghost var before := client.Stands();
    ghost var started := Stage(client.transport.hash, client.authKey, client.transport.link, client.counter, size,
      digest, []);
    var sent, chunkNumber := 0, 0;
    calls := [];
    if started { StagedFirst(client.transport.hash, client.authKey, client.Stands(), size, digest, firmware); }
    MadeNothing(client.transport.hash, client.authKey, client.transport.calm, client.retries, before, firmware);
    while sent < |firmware|
      invariant sent <= |firmware|
      invariant client.Valid() && WindowOpen(client.transport.link, client.counter, 1)
      invariant started ==> Staged(client.transport.hash, client.authKey, client.Stands(), size, digest, firmware, sent)
      invariant MadeUpTo(client.transport.hash, client.authKey, client.transport.calm, client.retries, before, firmware,
                         sent, chunkNumber, calls, client.Stands())
    {
      ghost var s := client.Stands();
      var end := NextEnd(firmware, sent, client.MaxOtaChunkDataSize());
      ghost var more;
      ok, more := SendChunk(client, chunkNumber, firmware[..sent], sent, firmware[sent..end], size, digest);
      StagedNext(client.transport.hash, client.authKey, s, client.Stands(), size, digest, firmware, sent, end, ok);
      MadeOneMore(client.transport.hash, client.authKey, client.transport.calm, client.retries, before, firmware, sent,
                  chunkNumber, calls, s, more, client.Stands(), ok);
      calls := calls + more;
      if !ok {
        return false, calls;
      }
      sent := end;
      chunkNumber := chunkNumber + 1;
    }
    StagedLast(client.transport.hash, client.authKey, client.Stands(), size, digest, firmware);
    MadeAll(client.transport.hash, client.authKey, client.transport.calm, client.retries, before, firmware,
            chunkNumber, calls, client.Stands());
    return true, calls;
  }

  /** An acknowledged END has installed what was written. */
  lemma EndCompletes(
    h: Hash, authKey: Option<seq<byte>>, calm: Option<Platform>, retries: nat, size: nat, digest: seq<byte>,
    written: seq<byte>, c: Call)
    requires Called(h, authKey, calm, retries, c) && c.command == END_COMMAND && Acknowledged(c)
    requires Stage(h, authKey, c.before.link, c.before.counter, size, digest, written)
    ensures Installed(c.after.link.device.ota.flash, written) && |written| == size
  {
    hide Prepared, Finished, Transferring, Conducted, Stopped, RequestFailed, RequestedCalmly, Last, EnsureAck;
    hide Installed, SessionLeft;
    var o := ConductedFinishes(h, authKey, retries, c.before, CMD_OTA_END, [], c.trace, c.response.packet,
                               c.after.link);
    EndAcknowledged(h, authKey, c.before.link.device, c.after.link, c.after.counter, size, digest, written, o,
                    c.response.packet);
  }

  /** True if and only if END was acknowledged; then what was written is installed. */
  method RunUpdateEnd(client: OtaLinkClient, ghost size: nat, ghost digest: seq<byte>, ghost written: seq<byte>)
    returns (ok: bool, ghost calls: seq<Call>)
    requires client.Valid() && WindowOpen(client.transport.link, client.counter, 1)
    modifies client, client.transport
    ensures client.Valid()
    ensures Made(client.transport.hash, client.authKey, client.transport.calm, client.retries, old(client.Stands()),
                 [END_COMMAND], calls, client.Stands(), ok)
    ensures ok && Stage(client.transport.hash, client.authKey, old(client.transport.link), old(client.counter),
                        size, digest, written) ==>
      Installed(client.transport.link.device.ota.flash, written) && |written| == size
  {
    hide Inv, Stage, WindowOpen, Conducted, Stopped, Installed, Called, Made, RequestFailed, Last, RequestedCalmly;
    hide SessionLeft, EnsureAck;
    ghost var s := client.Stands();
    var response, t, stop := client.Request(CMD_OTA_END, []);
    ghost var c := Call(END_COMMAND, s, response, t, stop, client.Stands());
    IsCalled(client.transport.hash, client.authKey, client.transport.calm, client.retries, c);
    MadeOne(client.transport.hash, client.authKey, client.transport.calm, client.retries, c);
    calls := [c];
    ok := response.Delivered? && EnsureAck(response.packet);
    if ok && Stage(client.transport.hash, client.authKey, s.link, s.counter, size, digest, written) {
      EndCompletes(client.transport.hash, client.authKey, client.transport.calm, client.retries, size, digest, written,
                   c);
    }
  }

  /**
   * An update that returns leaves the device booting from a slot that holds exactly
   * the firmware file, whatever the link lost, delayed or repeated. It returns if and
   * only if the file has at least 32 bytes and each of its requests could be built,
   * was delivered and acknowledged (`MadeExactly`).
   */
  method RunUpdate(client: OtaLinkClient, firmware: seq<byte>) returns (ok: bool, ghost calls: seq<Call>)
    requires client.Valid() && WindowOpen(client.transport.link, client.counter, 1)
    modifies client, client.transport
    ensures client.Valid()
    ensures if |firmware| < SHA256_SIZE then !ok && calls == [] && client.Stands() == old(client.Stands())
      else Made(client.transport.hash, client.authKey, client.transport.calm, client.retries, old(client.Stands()),
                UpdateCommands(firmware, ChunkSize(client.authKey)), calls, client.Stands(), ok)
    ensures forall i | 0 <= i < |calls| :: calls[i].response != Raised(TooLargeError)
    ensures ok && MayStart(client.transport.hash, client.authKey, old(client.Stands())) ==>
      Installed(client.transport.link.device.ota.flash, firmware)
  {
    hide Inv, Stage, MayStart, WindowOpen, Installed, Made, Chunks, BuildBegin, EndsIn, ChunkSize;
    ghost var s := client.Stands();
    ok, calls := RunUpdateBegin(client, firmware);
    if |firmware| < SHA256_SIZE {
      return;
    }
    ghost var digest, begun, b := ImageDigest(firmware), ok, client.Stands();
    ghost var chunks := Chunks(firmware, 0, 0, ChunkSize(client.authKey));
    ghost var more: seq<Call> := [];
    if ok {
      ghost var last: seq<Call> := [];
      ok, more := RunUpdateData(client, firmware, |firmware|, digest);
      ghost var sent, m := ok, client.Stands();
      if ok {
        ok, last := RunUpdateEnd(client, |firmware|, digest, firmware);
      }
      MadeMore(client.transport.hash, client.authKey, client.transport.calm, client.retries, b, chunks, more, m, sent,
               [END_COMMAND], last, client.Stands(), ok);
      more := more + last;
    }
    MadeMore(client.transport.hash, client.authKey, client.transport.calm, client.retries, s, [BeginCommand(firmware)],
             calls, b, begun, chunks + [END_COMMAND], more, client.Stands(), ok);
    calls := calls + more;
    UpdateFitsFrame(client.authKey, firmware);
    NoneTooLarge(client.transport.hash, client.authKey, client.transport.calm, client.retries, s,
                 UpdateCommands(firmware, ChunkSize(client.authKey)), calls, client.Stands(), ok);
  }

  // ---- ABORT ----

  const ABORT_COMMAND: Command := Command(CMD_OTA_ABORT, Payloads.Payload([]))

  /** The transfer is over, and the flash is as it was but for the retired handle. */
  predicate Aborted(before: M.State, after: M.State)
  {
    !after.active && after.flash.slots == before.flash.slots && after.flash.boot == before.flash.boot
  }

  lemma AbortStops(ota: M.State, o: Outcome)
    requires Transferable(ota) && Execute(ota, CMD_OTA_ABORT, [], o).error == ERR_OK
    ensures var v := Execute(ota, CMD_OTA_ABORT, [], o).ota; v != ota && Aborted(ota, v)
  {
    hide OT.InvActive;
    var session :| OT.Inv(ota, session);
    OT.AbortExactly(ota, session, o);
  }

  /** An acknowledged ABORT has ended the transfer, and an update may be started. */
  lemma AbortEnds(h: Hash, authKey: Option<seq<byte>>, calm: Option<Platform>, retries: nat, c: Call)
    requires Called(h, authKey, calm, retries, c) && c.command == ABORT_COMMAND && Acknowledged(c)
    requires MayStart(h, authKey, c.before)
    ensures !c.after.link.device.ota.active && MayStart(h, authKey, c.after)
    ensures Prepared(h, authKey, c.before.link, c.before.counter) ==>
      Aborted(c.before.link.device.ota, c.after.link.device.ota)
  {
    hide Prepared, Finished, Conducted, Stopped, RequestFailed, RequestedCalmly, Last, EnsureAck, SessionLeft;
    hide Transferable, Execute, Plausible;
    var o, base := FirstFinishes(h, authKey, retries, c.before, CMD_OTA_ABORT, [], c.trace, c.response.packet,
                                 c.after.link);
    AbortAcknowledged(h, authKey, base, c.after.link, c.after.counter, o, c.response.packet);
    if Prepared(h, authKey, c.before.link, c.before.counter) {
      o := ConductedFinishes(h, authKey, retries, c.before, CMD_OTA_ABORT, [], c.trace, c.response.packet,
                             c.after.link);
      AbortAcknowledged(h, authKey, c.before.link.device, c.after.link, c.after.counter, o, c.response.packet);
    }
  }

  lemma AbortAcknowledged(
    h: Hash, authKey: Option<seq<byte>>, d: Device, m: Link, counter: nat, o: Outcome, reply: Packet)
    requires Transferable(d.ota) && EnsureAck(reply)
    requires Finished(h, authKey, d, m, counter, CMD_OTA_ABORT, [], o, reply)
    ensures Aborted(d.ota, m.device.ota) && Prepared(h, authKey, m, counter) && Transferable(m.device.ota)
  {
    hide Finished, Prepared, Execute, Transferable, EnsureAck, Plausible;
    AcknowledgedOnce(h, authKey, d, m, counter, CMD_OTA_ABORT, [], o, reply);
    AbortStops(d.ota, o);
    ExecuteStaysTransferable(d.ota, CMD_OTA_ABORT, [], o);
  }

  /** True if and only if ABORT was acknowledged; then no transfer is open and an update may be started. */
  method RunAbort(client: OtaLinkClient) returns (ok: bool, ghost calls: seq<Call>)
    requires client.Valid() && WindowOpen(client.transport.link, client.counter, 1)
    modifies client, client.transport
    ensures client.Valid()
    ensures Made(client.transport.hash, client.authKey, client.transport.calm, client.retries, old(client.Stands()),
                 [ABORT_COMMAND], calls, client.Stands(), ok)
    ensures ok && MayStart(client.transport.hash, client.authKey, old(client.Stands())) ==>
      !client.transport.link.device.ota.active &&
      MayStart(client.transport.hash, client.authKey, client.Stands())
    ensures ok && Transferable(old(client.transport.link).device.ota) &&
            Prepared(client.transport.hash, client.authKey, old(client.transport.link), old(client.counter)) ==>
      Aborted(old(client.transport.link).device.ota, client.transport.link.device.ota)
  {
    hide Inv, WindowOpen, Conducted, Stopped, Called, Made, RequestFailed, Last, RequestedCalmly, Prepared;
    hide SessionLeft, EnsureAck, Transferable, Aborted, MayCall;
    ghost var s := client.Stands();
    var response, t, stop := client.Request(CMD_OTA_ABORT, []);
    ghost var c := Call(ABORT_COMMAND, s, response, t, stop, client.Stands());
    IsCalled(client.transport.hash, client.authKey, client.transport.calm, client.retries, c);
    MadeOne(client.transport.hash, client.authKey, client.transport.calm, client.retries, c);
    calls := [c];
    ok := response.Delivered? && EnsureAck(response.packet);
    if ok && MayStart(client.transport.hash, client.authKey, s) {
      AbortEnds(client.transport.hash, client.authKey, client.transport.calm, client.retries, c);
    }
  }
}
