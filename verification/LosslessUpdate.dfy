/**
 * The update in calm surroundings. There is a run of its requests, each acknowledged,
 * that ends with the file installed; and the host's update returns in just those
 * cases in which the file fits the slot and ends in the digest of its image.
 */
module LosslessUpdate {
  import opened Bytes
  import opened Codes
  import opened Esp
  import opened Frame
  import opened HmacSha
  import opened Sealing
  import opened DeviceMachine
  import opened LossyLink
  import opened CallTheory
  import opened HandshakeTheory
  import opened SealedCalls
  import opened PlainCalls
  import opened Payloads
  import opened RequestTrace
  import opened RequestMoments
  import opened LinkRuns
  import opened CalmCalls
  import opened ClientSteps
  import opened ClientCalls
  import opened Update
  import Recovery
  import RepeatedRestart
  import M = OtaMachine
  import OT = OtaTheory
  import T = DispatchTheory

  // ---- A run of requests ----

  /** One completed request, and where it leaves the client. */
  datatype Step = Step(command: Command, trace: Trace, result: Packet, after: Standing)

  /** It was completed with one copy sent, within a frame, on a platform that granted it, and acknowledged. */
  predicate Took(h: Hash, authKey: Option<seq<byte>>, g: Platform, s: Standing, x: Step)
  {
    && x.command.payload.Payload?
    && Conducted(h, authKey, 1, s, x.command.code, x.command.payload.bytes, x.trace, x.result, x.after.link)
    && SmoothPass(h, g, Last(x.trace)) && |Last(x.trace).packet.payload| <= MAX_PAYLOAD
    && EnsureAck(x.result) && x.after.counter == Last(x.trace).number
  }

  /** The client's requests, one after the other. */
  predicate Ran(h: Hash, authKey: Option<seq<byte>>, g: Platform, s: Standing, steps: seq<Step>)
    decreases |steps|
  {
    steps == [] || (Took(h, authKey, g, s, steps[0]) && Ran(h, authKey, g, steps[0].after, steps[1..]))
  }

  function Commands(steps: seq<Step>): seq<Command>
  {
    if steps == [] then [] else [steps[0].command] + Commands(steps[1..])
  }

  function Final(s: Standing, steps: seq<Step>): Standing
  {
    if steps == [] then s else steps[|steps| - 1].after
  }

  lemma OneFirst(h: Hash, authKey: Option<seq<byte>>, g: Platform, s: Standing, x: Step, rest: seq<Step>)
    requires Ran(h, authKey, g, x.after, rest) && Took(h, authKey, g, s, x)
    ensures Ran(h, authKey, g, s, [x] + rest) && Commands([x] + rest) == [x.command] + Commands(rest)
    ensures Final(s, [x] + rest) == Final(x.after, rest)
  {
    hide Took;
    assert ([x] + rest)[1..] == rest;
  }

  // ---- One request ----

  /** The client and the device share a session, or need none, and nothing is in flight. */
  predicate Joined(h: Hash, authKey: Option<seq<byte>>, s: Standing)
  {
    Undisturbed(h, authKey, s) && (authKey.Some? ==> s.sessionKey.Some? && s.link.device.auth.authenticated)
  }

  /** The packet is sent and handled once. */
  lemma OnePass(
    h: Hash, authKey: Option<seq<byte>>, g: Platform, s: Standing, p: Packet, o: Outcome) returns (y: Pass)
    requires Joined(h, authKey, s) && p.sequence == SequenceOf(s.counter + 1)
    requires Possible(o, s.link.device) && Grants(g, o)
    ensures Passed(h, 1, y) && y.before == s.link && y.number == s.counter + 1 && y.packet == p
    ensures SmoothPass(h, g, y) && |s.link.log| < |y.after.log| && AnswerGiven(y) == o
  {
    hide Inv, MayIssue, T.Shaped, Handle, Possible, Passed, Matched, NumbersUpTo, WindowOpen, SequenceOf, Grants;
    NextMayIssue(s.link, s.counter, p);
    y := OneCall(h, s.link, s.counter + 1, p, o);
    PassedReplied(h, 1, y);
  }

  /** Such a request is completed in one pass. */
  lemma OneStep(
    h: Hash, authKey: Option<seq<byte>>, g: Platform, s: Standing, command: byte, payload: seq<byte>, o: Outcome)
    returns (x: Step)
    requires Joined(h, authKey, s) && IsOta(command) && Possible(o, s.link.device) && Grants(g, o)
    requires Execute(s.link.device.ota, command, payload, o).error == ERR_OK && FitsFrame(authKey, payload)
    ensures x.command == Command(command, Payloads.Payload(payload)) && x.trace.opening.None?
    ensures Took(h, authKey, g, s, x) && Joined(h, authKey, x.after)
    ensures x.after.link.device.ota == Execute(s.link.device.ota, command, payload, o).ota
  {
    hide Joined, Execute, Possible, Took, Grants;
    match authKey {
      case Some(key) => x := SealedOne(h, key, g, s, command, payload, o);
      case None => x := PlainOne(h, g, s, command, payload, o);
    }
  }

  lemma SealedOne(
    h: Hash, key: seq<byte>, g: Platform, s: Standing, command: byte, payload: seq<byte>, o: Outcome)
    returns (x: Step)
    requires Joined(h, Some(key), s) && IsOta(command) && Possible(o, s.link.device) && Grants(g, o)
    requires Execute(s.link.device.ota, command, payload, o).error == ERR_OK && FitsFrame(Some(key), payload)
    ensures x.command == Command(command, Payloads.Payload(payload)) && x.trace.opening.None?
    ensures Took(h, Some(key), g, s, x) && Joined(h, Some(key), x.after)
    ensures x.after.link.device.ota == Execute(s.link.device.ota, command, payload, o).ota
  {
    hide Undisturbed, Possible, Execute, Grants, Passed, SmoothPass, RequestTag, SequenceOf, Accepted, AnswerGiven,
      Completes, SealedPass, EnsureAck, Sealed;
    var q := SequenceOf(s.counter + 1);
    var p := Sealed(command, q, payload, RequestTag(h, s.sessionKey.value, command, q, payload));
    SealedSequence(command, q, payload, RequestTag(h, s.sessionKey.value, command, q, payload));
    var y := OnePass(h, Some(key), g, s, p, o);
    SealedIsPass(h, s, command, payload, y);
    var result := SmoothInSession(h, key, g, 1, s, command, payload, y);
    AcceptedIsReturned(h, key, g, s, command, payload, y, result);
    AcceptedLeaves(h, key, g, s, command, payload, y, result);
    x := Step(Command(command, Payloads.Payload(payload)), Trace(None, y, None), result,
              Standing(y.after, s.counter + 1, s.sessionKey));
  }

  lemma SealedSequence(command: byte, sequence: uint16, payload: seq<byte>, tag: seq<byte>)
    ensures Sealed(command, sequence, payload, tag).sequence == sequence
  {
  }

  lemma SealedIsPass(h: Hash, s: Standing, command: byte, payload: seq<byte>, y: Pass)
    requires s.sessionKey.Some? && Passed(h, 1, y) && y.before == s.link && y.number == s.counter + 1
    requires var q := SequenceOf(s.counter + 1);
      y.packet == Sealed(command, q, payload, RequestTag(h, s.sessionKey.value, command, q, payload))
    ensures SealedPass(h, 1, s, command, payload, y) && |y.packet.payload| == |payload| + TAG_SIZE
  {
    hide Passed, SequenceOf;
  }

  lemma AcceptedLeaves(
    h: Hash, key: seq<byte>, g: Platform, s: Standing, command: byte, payload: seq<byte>, y: Pass, result: Packet)
    requires Accepted(h, key, g, s, command, payload, y, result) && y.number == s.counter + 1
    requires IsOta(command) && |y.before.log| < |y.after.log|
    requires Execute(s.link.device.ota, command, payload, AnswerGiven(y)).error == ERR_OK
    ensures Joined(h, Some(key), Standing(y.after, s.counter + 1, s.sessionKey)) && EnsureAck(result)
    ensures y.after.device.ota == Execute(s.link.device.ota, command, payload, AnswerGiven(y)).ota
  {
    hide Undisturbed, Possible, Execute, Grants, AnswerGiven, Verified;
  }

  lemma AcceptedIsReturned(
    h: Hash, key: seq<byte>, g: Platform, s: Standing, command: byte, payload: seq<byte>, y: Pass, result: Packet)
    requires SealedPass(h, 1, s, command, payload, y) && Accepted(h, key, g, s, command, payload, y, result)
    ensures Completes(h, key, 1, s, command, payload, Trace(None, y, None), result, y.after)
  {
    hide Undisturbed, Done, SealedPass, Verified, SequenceOf, DecideOn;
    ReturnIsDecided(h, 1, s, command, payload, y, false, result);
  }

  lemma PlainOne(h: Hash, g: Platform, s: Standing, command: byte, payload: seq<byte>, o: Outcome)
    returns (x: Step)
    requires Joined(h, None, s) && IsOta(command) && Possible(o, s.link.device) && Grants(g, o)
    requires Execute(s.link.device.ota, command, payload, o).error == ERR_OK && FitsFrame(None, payload)
    ensures x.command == Command(command, Payloads.Payload(payload)) && x.trace.opening.None?
    ensures Took(h, None, g, s, x) && Joined(h, None, x.after)
    ensures x.after.link.device.ota == Execute(s.link.device.ota, command, payload, o).ota
  {
    hide Undisturbed, Possible, Execute, Grants, Passed, SmoothPass, SequenceOf, AnswerGiven;
    var p := Packet(VERSION, command, SequenceOf(s.counter + 1), payload);
    var y := OnePass(h, None, g, s, p, o);
    SmoothPlain(h, g, 1, s, command, payload, y);
    x := Step(Command(command, Payloads.Payload(payload)), Trace(None, y, None), y.reply,
              Standing(y.after, s.counter + 1, None));
  }

  // ---- What a granting platform lets succeed ----

  lemma Grant(d: Device, g: Platform) returns (o: Outcome)
    ensures Possible(o, d) && Grants(g, o)
  {
    var handle := Recovery.MayGrant(d);
    o := Recovery.Granting(handle).(partition := Some(Partition(0, g.room)), sha := Some(g.digest));
  }

  /** BEGIN succeeds if and only if the image fits the slot. */
  lemma BeginSucceeds(ota: M.State, size: nat, digest: seq<byte>, g: Platform, o: Outcome)
    requires !ota.active && Transferable(ota) && BuildBegin(size, digest).Payload?
    requires Grants(g, o) && Plausible(o, ota.flash)
    ensures Execute(ota, CMD_OTA_BEGIN, BuildBegin(size, digest).bytes, o).error == ERR_OK <==> size <= g.room
  {
    hide ReadLe32, Le32, OT.InvActive;
    var session :| OT.Inv(ota, session);
    BeginReadBack(size, digest);
    OT.BeginExactly(ota, session, BuildBegin(size, digest).bytes, o);
  }

  lemma DataSucceeds(
    ota: M.State, size: nat, digest: seq<byte>, written: seq<byte>, chunkNumber: nat, chunk: seq<byte>, o: Outcome)
    requires Transferring(ota, size, digest, written) && BuildData(chunkNumber, |written|, chunk).Payload?
    requires |written| + |chunk| <= size && o.writeOk
    ensures Execute(ota, CMD_OTA_DATA, BuildData(chunkNumber, |written|, chunk).bytes, o).error == ERR_OK
  {
    hide ReadLe32, Le32, OT.Concat;
    DataReadBack(chunkNumber, |written|, chunk);
    var session := OpenSession(ota, size, digest, written);
  }

  /** END succeeds if and only if the platform reports the digest that was declared. */
  lemma EndSucceeds(ota: M.State, size: nat, digest: seq<byte>, written: seq<byte>, g: Platform, o: Outcome)
    requires Transferring(ota, size, digest, written) && |written| == size && Grants(g, o)
    ensures Execute(ota, CMD_OTA_END, [], o).error == ERR_OK <==> digest == g.digest
  {
    hide OT.Concat;
    var session := OpenSession(ota, size, digest, written);
  }

  // ---- The run of an update ----

  /** These steps send the rest of the file and install it. */
  ghost predicate Finishes(
    h: Hash, authKey: Option<seq<byte>>, g: Platform, s: Standing, firmware: seq<byte>, sent: nat, number: nat,
    steps: seq<Step>)
    requires sent <= |firmware|
  {
    && Ran(h, authKey, g, s, steps)
    && Commands(steps) == Chunks(firmware, sent, number, ChunkSize(authKey)) + [END_COMMAND]
    && Installed(Final(s, steps).link.device.ota.flash, firmware)
  }

  /** The transfer is open and has received the file up to `sent`. */
  ghost predicate Midway(
    h: Hash, authKey: Option<seq<byte>>, s: Standing, firmware: seq<byte>, digest: seq<byte>, sent: nat)
  {
    && Joined(h, authKey, s) && sent <= |firmware| <= MAX_SLOT_SIZE
    && Transferring(s.link.device.ota, |firmware|, digest, firmware[..sent])
  }

  /** The chunk that begins at `sent`. */
  function ChunkAt(authKey: Option<seq<byte>>, firmware: seq<byte>, sent: nat, number: nat): Command
    requires sent < |firmware|
  {
    Command(CMD_OTA_DATA, BuildData(number, sent, firmware[sent..NextEnd(firmware, sent, ChunkSize(authKey))]))
  }

  /** It can be built, and fits a frame. */
  lemma ChunkAtFits(authKey: Option<seq<byte>>, firmware: seq<byte>, sent: nat, number: nat)
    requires number <= sent < |firmware| <= MAX_SLOT_SIZE
    ensures var c := ChunkAt(authKey, firmware, sent, number);
      c.payload.Payload? && FitsFrame(authKey, c.payload.bytes)
  {
    hide Le32;
  }

  /** From there the rest can be sent. */
  lemma {:induction false} RestOfRun(
    h: Hash, authKey: Option<seq<byte>>, g: Platform, s: Standing, firmware: seq<byte>, sent: nat, number: nat)
    returns (steps: seq<Step>)
    requires Midway(h, authKey, s, firmware, g.digest, sent) && number <= sent <= |firmware| <= MAX_SLOT_SIZE
    ensures Finishes(h, authKey, g, s, firmware, sent, number, steps)
    decreases |firmware| - sent
  {
    hide Midway, Finishes, NextEnd, ChunkSize, ChunkAt, Took;
    if sent == |firmware| {
      steps := EndOfRun(h, authKey, g, s, firmware, number);
    } else {
      var x := ChunkOfRun(h, authKey, g, s, firmware, sent, number);
      var end := NextEnd(firmware, sent, ChunkSize(authKey));
      var rest := RestOfRun(h, authKey, g, x.after, firmware, end, number + 1);
      ChunkFirst(h, authKey, g, s, firmware, sent, number, x, rest);
      steps := [x] + rest;
    }
  }

  lemma ChunkFirst(
    h: Hash, authKey: Option<seq<byte>>, g: Platform, s: Standing, firmware: seq<byte>, sent: nat, number: nat, x: Step,
    rest: seq<Step>)
    requires sent < |firmware| && Took(h, authKey, g, s, x) && x.command == ChunkAt(authKey, firmware, sent, number)
    requires Finishes(h, authKey, g, x.after, firmware, NextEnd(firmware, sent, ChunkSize(authKey)), number + 1, rest)
    ensures Finishes(h, authKey, g, s, firmware, sent, number, [x] + rest)
  {
    hide Took, Installed, Ran, Commands, Final, Chunks, BuildData, ChunkSize;
    OneFirst(h, authKey, g, s, x, rest);
    ChunksNext(firmware, sent, number, ChunkSize(authKey), []);
    var chunks := Chunks(firmware, sent, number, ChunkSize(authKey));
    assert [] + chunks == chunks && [] + [x.command] == [x.command];
  }

  lemma ChunkOfRun(
    h: Hash, authKey: Option<seq<byte>>, g: Platform, s: Standing, firmware: seq<byte>, sent: nat, number: nat)
    returns (x: Step)
    requires Midway(h, authKey, s, firmware, g.digest, sent) && number <= sent < |firmware| <= MAX_SLOT_SIZE
    ensures Took(h, authKey, g, s, x) && x.command == ChunkAt(authKey, firmware, sent, number)
    ensures Midway(h, authKey, x.after, firmware, g.digest, NextEnd(firmware, sent, ChunkSize(authKey)))
  {
    hide Joined, Transferring, Execute, Possible, Took, Le32, BuildData, FitsFrame;
    var end := NextEnd(firmware, sent, ChunkSize(authKey));
    var ota, chunk := s.link.device.ota, firmware[sent..end];
    var o := Grant(s.link.device, g);
    NextChunk(firmware, sent, end);
    ChunkAtFits(authKey, firmware, sent, number);
    DataSucceeds(ota, |firmware|, g.digest, firmware[..sent], number, chunk, o);
    DataExtends(ota, |firmware|, g.digest, firmware[..sent], number, chunk, o);
    x := OneStep(h, authKey, g, s, CMD_OTA_DATA, BuildData(number, sent, chunk).bytes, o);
  }

  lemma EndOfRun(h: Hash, authKey: Option<seq<byte>>, g: Platform, s: Standing, firmware: seq<byte>, number: nat)
    returns (steps: seq<Step>)
    requires Midway(h, authKey, s, firmware, g.digest, |firmware|)
    ensures Finishes(h, authKey, g, s, firmware, |firmware|, number, steps)
  {
    hide Joined, Transferring, Execute, Possible, Installed, Took;
    assert firmware[..|firmware|] == firmware;
    var o := Grant(s.link.device, g);
    EndSucceeds(s.link.device.ota, |firmware|, g.digest, firmware, g, o);
    EndInstalls(s.link.device.ota, |firmware|, g.digest, firmware, o);
    var x := OneStep(h, authKey, g, s, CMD_OTA_END, [], o);
    OneFirst(h, authKey, g, s, x, []);
    steps := [x];
    assert [x] + [] == [x] && [] + [END_COMMAND] == [END_COMMAND];
  }

  /** The handshake before the first request, if there is one. */
  lemma JoinFirst(h: Hash, authKey: Option<seq<byte>>, g: Platform, s: Standing)
    returns (opening: Option<Shake>, b: Standing)
    requires Undisturbed(h, authKey, s) && (authKey.Some? && s.sessionKey.Some? ==> s.link.device.auth.authenticated)
    ensures Joined(h, authKey, b) && b.link.device.ota == s.link.device.ota
    ensures match authKey
      case None => opening.None? && b == s
      case Some(key) => Opens(h, key, 1, s, opening) && b == Opened(h, key, s, opening)
  {
    hide Inv, Shaken, SessionKey, NumbersUpTo, WindowOpen, CacheClear, Possible, Keyed, RingClear, T.Shaped, Grants;
    if authKey.None? || s.sessionKey.Some? {
      opening, b := None, s;
    } else {
      var key := authKey.value;
      var o := Grant(s.link.device, g);
      var k := RepeatedRestart.HandshakeRun(h, key, s.link, s.counter, ZeroBytes(NONCE_SIZE), o);
      RepeatedRestart.ShakeNumbers(h, key, 1, k);
      EmptyRingClear(k.proof.after.device, s.counter + 2);
      opening, b := Some(k), Opened(h, key, s, Some(k));
    }
  }

  lemma WithOpening(
    h: Hash, key: seq<byte>, s: Standing, opening: Option<Shake>, command: byte, payload: seq<byte>, t: Trace,
    result: Packet, m: Link)
    requires Opens(h, key, 1, s, opening) && t.opening.None?
    requires Completes(h, key, 1, Opened(h, key, s, opening), command, payload, t, result, m)
    ensures Completes(h, key, 1, s, command, payload, t.(opening := opening), result, m)
  {
    hide SealedPass, Shaken, SessionKey, DecideOn;
  }

  /**
   * For every image and digest, with or without authentication: if image and digest
   * fit the slot and the platform reports that digest, there is a run of the update's
   * requests, each sent once, completed and acknowledged, the first declaring that
   * size and digest, after which the device boots from a slot that holds the file.
   */
  lemma UpdateCanReturn(
    h: Hash, authKey: Option<seq<byte>>, g: Platform, s: Standing, image: seq<byte>, digest: seq<byte>)
    returns (steps: seq<Step>)
    requires |digest| == SHA256_SIZE && |image + digest| <= g.room && g.digest == digest
    requires Undisturbed(h, authKey, s) && (authKey.Some? && s.sessionKey.Some? ==> s.link.device.auth.authenticated)
    requires !s.link.device.ota.active && Transferable(s.link.device.ota)
    ensures Ran(h, authKey, g, s, steps) && Commands(steps) == UpdateCommands(image + digest, ChunkSize(authKey))
    ensures steps != [] && steps[0].command == Command(CMD_OTA_BEGIN, BuildBegin(|image| + SHA256_SIZE, digest))
    ensures Installed(Final(s, steps).link.device.ota.flash, image + digest)
  {
    hide Joined, Undisturbed, Transferring, Transferable, Execute, Possible, Installed, Opens, Opened, Took, Chunks;
    hide BuildBegin, Commands, ImageDigest, Ran, Final;
    var firmware := image + digest;
    DigestIsLast(firmware, image, digest);
    var opening, b := JoinFirst(h, authKey, g, s);
    var x := BeginOfRun(h, authKey, g, b, firmware);
    NextChunk(firmware, 0, 0);
    var rest := RestOfRun(h, authKey, g, x.after, firmware, 0, 0);
    var y := x.(trace := x.trace.(opening := opening));
    OpenedFirst(h, authKey, g, s, b, opening, x);
    OneFirst(h, authKey, g, s, y, rest);
    steps := [y] + rest;
  }

  lemma OpenedFirst(
    h: Hash, authKey: Option<seq<byte>>, g: Platform, s: Standing, b: Standing, opening: Option<Shake>, x: Step)
    requires match authKey
      case None => opening.None? && b == s
      case Some(key) => Opens(h, key, 1, s, opening) && b == Opened(h, key, s, opening)
    requires Took(h, authKey, g, b, x) && x.trace.opening.None? && IsOta(x.command.code)
    ensures Took(h, authKey, g, s, x.(trace := x.trace.(opening := opening)))
  {
    hide Opens, Opened, Completes, PlainPass, SmoothPass, EnsureAck;
    if authKey.Some? {
      WithOpening(h, authKey.value, s, opening, x.command.code, x.command.payload.bytes, x.trace, x.result,
                  x.after.link);
    }
  }

  lemma BeginOfRun(h: Hash, authKey: Option<seq<byte>>, g: Platform, s: Standing, firmware: seq<byte>)
    returns (x: Step)
    requires Joined(h, authKey, s) && SHA256_SIZE <= |firmware| <= g.room && ImageDigest(firmware) == g.digest
    requires !s.link.device.ota.active && Transferable(s.link.device.ota)
    ensures Took(h, authKey, g, s, x) && x.command == BeginCommand(firmware) && x.trace.opening.None?
    ensures Midway(h, authKey, x.after, firmware, g.digest, 0)
  {
    hide Joined, Transferring, Transferable, Execute, Possible, Took, Le32, Grants, ImageDigest;
    var o := Grant(s.link.device, g);
    PossibleIsPlausible(o, s.link.device);
    BeginSucceeds(s.link.device.ota, |firmware|, g.digest, g, o);
    BeginStarts(s.link.device.ota, |firmware|, g.digest, o);
    NextChunk(firmware, 0, 0);
    x := OneStep(h, authKey, g, s, CMD_OTA_BEGIN, BuildBegin(|firmware|, g.digest).bytes, o);
  }

  lemma PossibleIsPlausible(o: Outcome, d: Device)
    requires Possible(o, d)
    ensures Plausible(o, d.ota.flash)
  {
  }

  // ---- When the host's update returns ----

  /** A client in such surroundings. */
  predicate Settling(h: Hash, authKey: Option<seq<byte>>, retries: nat, s: Standing)
  {
    retries > 0 && Undisturbed(h, authKey, s)
  }

  /** What a request whose payload fits came to: it was executed exactly once, and acknowledged if it succeeded. */
  lemma CallInCalm(h: Hash, authKey: Option<seq<byte>>, g: Platform, retries: nat, c: Call) returns (o: Outcome)
    requires Called(h, authKey, Some(g), retries, c) && Settling(h, authKey, retries, c.before)
    requires IsOta(c.command.code) && FitsFrame(authKey, c.command.payload.bytes)
    ensures Settling(h, authKey, retries, c.after) && Possible(o, c.before.link.device) && Grants(g, o)
    ensures var x := Execute(c.before.link.device.ota, c.command.code, c.command.payload.bytes, o);
      c.after.link.device.ota == x.ota && (Acknowledged(c) <==> x.error == ERR_OK)
  {
    hide Stopped, Conducted, RequestFailed, SessionLeft, Undisturbed, Execute, Possible, Grants;
    o :| Done(g, c.before.link.device, c.after.link.device, c.command.code, c.command.payload.bytes, o,
              c.response.packet);
  }

  /** The chunks and END return just when the declared digest is the one the platform reports. */
  lemma {:induction false} RestReturns(
    h: Hash, authKey: Option<seq<byte>>, g: Platform, retries: nat, s: Standing, firmware: seq<byte>,
    digest: seq<byte>, sent: nat, number: nat, calls: seq<Call>, r: Standing, ok: bool)
    requires Settling(h, authKey, retries, s) && number <= sent <= |firmware| <= MAX_SLOT_SIZE
    requires Transferring(s.link.device.ota, |firmware|, digest, firmware[..sent])
    requires Made(h, authKey, Some(g), retries, s,
                  Chunks(firmware, sent, number, ChunkSize(authKey)) + [END_COMMAND], calls, r, ok)
    ensures ok <==> digest == g.digest
    decreases |firmware| - sent
  {
    hide Settling, Transferring, Chunks, NextEnd, ChunkSize, ChunkAt, Called, Acknowledged, FitsFrame;
    var commands := Chunks(firmware, sent, number, ChunkSize(authKey)) + [END_COMMAND];
    if sent == |firmware| {
      NoChunks(firmware, number, ChunkSize(authKey));
      EndReturns(h, authKey, g, retries, s, firmware, digest, calls[0]);
    } else {
      var end := NextEnd(firmware, sent, ChunkSize(authKey));
      FirstChunk(authKey, firmware, sent, number);
      ChunkAtFits(authKey, firmware, sent, number);
      ChunkReturns(h, authKey, g, retries, s, firmware, digest, sent, number, calls[0]);
      RestReturns(h, authKey, g, retries, calls[0].after, firmware, digest, end, number + 1, calls[1..], r, ok);
    }
  }

  lemma NoChunks(firmware: seq<byte>, number: nat, size: nat)
    requires 0 < size
    ensures Chunks(firmware, |firmware|, number, size) + [END_COMMAND] == [END_COMMAND]
    ensures [END_COMMAND][1..] == []
  {
  }

  lemma FirstChunk(authKey: Option<seq<byte>>, firmware: seq<byte>, sent: nat, number: nat)
    requires sent < |firmware|
    ensures var end := NextEnd(firmware, sent, ChunkSize(authKey));
      var commands := Chunks(firmware, sent, number, ChunkSize(authKey)) + [END_COMMAND];
      && commands[0] == ChunkAt(authKey, firmware, sent, number)
      && commands[1..] == Chunks(firmware, end, number + 1, ChunkSize(authKey)) + [END_COMMAND]
  {
    hide BuildData, NextEnd, ChunkSize;
    ChunksNext(firmware, sent, number, ChunkSize(authKey), []);
    var chunks := Chunks(firmware, sent, number, ChunkSize(authKey));
    assert [] + chunks == chunks && [] + [chunks[0]] == [chunks[0]];
  }

  lemma ChunkReturns(
    h: Hash, authKey: Option<seq<byte>>, g: Platform, retries: nat, s: Standing, firmware: seq<byte>,
    digest: seq<byte>, sent: nat, number: nat, c: Call)
    requires Settling(h, authKey, retries, s) && number <= sent < |firmware| <= MAX_SLOT_SIZE
    requires Transferring(s.link.device.ota, |firmware|, digest, firmware[..sent])
    requires Called(h, authKey, Some(g), retries, c) && c.before == s
    requires c.command == ChunkAt(authKey, firmware, sent, number) && FitsFrame(authKey, c.command.payload.bytes)
    ensures Acknowledged(c) && Settling(h, authKey, retries, c.after)
    ensures Transferring(c.after.link.device.ota, |firmware|, digest,
                         firmware[..NextEnd(firmware, sent, ChunkSize(authKey))])
  {
    hide Settling, Transferring, Called, Acknowledged, FitsFrame, Execute, Possible, BuildData, ChunkSize;
    var end := NextEnd(firmware, sent, ChunkSize(authKey));
    var chunk := firmware[sent..end];
    ChunkAtFits(authKey, firmware, sent, number);
    var o := CallInCalm(h, authKey, g, retries, c);
    NextChunk(firmware, sent, end);
    DataSucceeds(s.link.device.ota, |firmware|, digest, firmware[..sent], number, chunk, o);
    DataExtends(s.link.device.ota, |firmware|, digest, firmware[..sent], number, chunk, o);
  }

  lemma EndReturns(
    h: Hash, authKey: Option<seq<byte>>, g: Platform, retries: nat, s: Standing, firmware: seq<byte>,
    digest: seq<byte>, c: Call)
    requires Settling(h, authKey, retries, s) && Called(h, authKey, Some(g), retries, c) && c.before == s
    requires Transferring(s.link.device.ota, |firmware|, digest, firmware[..|firmware|]) && c.command == END_COMMAND
    ensures Acknowledged(c) <==> digest == g.digest
  {
    hide Settling, Transferring, Called, Acknowledged, Execute, Possible, Grants;
    assert firmware[..|firmware|] == firmware;
    var o := CallInCalm(h, authKey, g, retries, c);
    EndSucceeds(s.link.device.ota, |firmware|, digest, firmware, g, o);
  }

  lemma BeginFits(authKey: Option<seq<byte>>, size: nat, digest: seq<byte>)
    requires BuildBegin(size, digest).Payload?
    ensures FitsFrame(authKey, BuildBegin(size, digest).bytes)
  {
    hide Le32;
  }

  /** What BEGIN came to. */
  lemma BeginReturns(
    h: Hash, authKey: Option<seq<byte>>, g: Platform, retries: nat, size: nat, digest: seq<byte>, c: Call)
    requires Settling(h, authKey, retries, c.before) && Called(h, authKey, Some(g), retries, c)
    requires BuildBegin(size, digest).Payload? && c.command == Command(CMD_OTA_BEGIN, BuildBegin(size, digest))
    requires !c.before.link.device.ota.active && Transferable(c.before.link.device.ota)
    ensures Acknowledged(c) <==> size <= g.room
    ensures Settling(h, authKey, retries, c.after)
    ensures size <= g.room ==> Transferring(c.after.link.device.ota, size, digest, [])
  {
    hide Settling, Transferring, Transferable, Called, Acknowledged, Execute, Possible, Grants, Plausible;
    hide BuildBegin, FitsFrame;
    BeginFits(authKey, size, digest);
    var o := CallInCalm(h, authKey, g, retries, c);
    PossibleIsPlausible(o, c.before.link.device);
    BeginSucceeds(c.before.link.device.ota, size, digest, g, o);
    if size <= g.room { BeginStarts(c.before.link.device.ota, size, digest, o); }
  }

  /**
   * In calm surroundings, where a device without an open transfer and a client may
   * begin, and a packet is sent at all: the requests the host makes for a file, which
   * are what `RunUpdate` promises, are all acknowledged if and only if the file fits
   * the slot and ends in the digest that the platform reports for its image.
   */
  lemma UpdateReturnsExactly(
    h: Hash, authKey: Option<seq<byte>>, g: Platform, retries: nat, s: Standing, firmware: seq<byte>,
    calls: seq<Call>, r: Standing, ok: bool)
    requires |firmware| >= SHA256_SIZE && Settling(h, authKey, retries, s)
    requires !s.link.device.ota.active && Transferable(s.link.device.ota)
    requires Made(h, authKey, Some(g), retries, s, UpdateCommands(firmware, ChunkSize(authKey)), calls, r, ok)
    ensures ok <==> |firmware| <= g.room && exists image :: EndsIn(firmware, image, g.digest)
  {
    hide Settling, Transferring, Transferable, Chunks, ChunkSize, Called, Acknowledged, BuildBegin, ImageDigest;
    BuildsUpTo(firmware);
    var commands := UpdateCommands(firmware, ChunkSize(authKey));
    assert commands[1..] == Chunks(firmware, 0, 0, ChunkSize(authKey)) + [END_COMMAND];
    if |firmware| <= 0xFFFF_FFFF {
      BeginReturns(h, authKey, g, retries, |firmware|, ImageDigest(firmware), calls[0]);
      if |firmware| <= g.room {
        NextChunk(firmware, 0, 0);
        RestReturns(h, authKey, g, retries, calls[0].after, firmware, ImageDigest(firmware), 0, 0, calls[1..], r, ok);
      }
    }
    DigestTells(firmware, g.digest);
  }

  lemma BuildsUpTo(firmware: seq<byte>)
    requires |firmware| >= SHA256_SIZE
    ensures BuildBegin(|firmware|, ImageDigest(firmware)).Payload? <==> |firmware| <= 0xFFFF_FFFF
  {
  }

  lemma DigestTells(firmware: seq<byte>, digest: seq<byte>)
    requires |firmware| >= SHA256_SIZE
    ensures ImageDigest(firmware) == digest <==> exists image :: EndsIn(firmware, image, digest)
  {
    hide EndsIn, ImageDigest;
    if ImageDigest(firmware) == digest {
      assert EndsIn(firmware, firmware[..|firmware| - SHA256_SIZE], digest);
    }
    forall image | EndsIn(firmware, image, digest)
      ensures ImageDigest(firmware) == digest
    {
      DigestIsLast(firmware, image, digest);
    }
  }
}
