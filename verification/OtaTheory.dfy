/** What the OTA machine keeps over every run, and what justifies a boot switch. */
module OtaTheory {
  import opened Bytes
  import opened Codes
  import opened Esp
  import opened OtaMachine

  /**
   * The transfer as an observer sees it who only watches requests and reply codes:
   * what the accepted BEGIN declared, the slot it was granted and how much that
   * holds, and which chunks were accepted since.
   */
  datatype Session =
    | Closed
    | Open(size: uint32, digest: seq<byte>, slot: nat, room: uint32, chunks: seq<seq<byte>>)

  function Concat(chunks: seq<seq<byte>>): seq<byte>
  {
    if chunks == [] then [] else Concat(chunks[..|chunks| - 1]) + chunks[|chunks| - 1]
  }

  function LastOf(chunks: seq<seq<byte>>): seq<byte>
  {
    if chunks == [] then [] else chunks[|chunks| - 1]
  }

  function Observe(session: Session, op: Op, error: byte, o: Outcome): Session
  {
    match op
    case OpBegin(payload) =>
      if error == ERR_OK && |payload| == BEGIN_PAYLOAD_SIZE && o.partition.Some? then
        Open(ReadLe32(payload, 0), payload[4..], o.partition.value.slot, o.partition.value.size, [])
      else session
    case OpData(payload) =>
      if error == ERR_OK && session.Open? && |payload| > DATA_HEADER_SIZE &&
         ReadLe32(payload, 4) == |Concat(session.chunks)|
      then session.(chunks := session.chunks + [payload[DATA_HEADER_SIZE..]])
      else session
    case OpEnd =>
      if error == ERR_OK || error == ERR_OTA_INVALID_IMAGE || error == ERR_OTA_HASH_MISMATCH then Closed else session
    case OpAbort =>
      if error == ERR_OK || error == ERR_OTA_FLASH_ERROR then Closed else session
  }

  /** The machine's state is what the observer says it is. */
  predicate Inv(s: State, session: Session)
  {
    && !s.flash.misused
    && s.flash.writers.Keys !! s.flash.retired
    && s.active == session.Open?
    && if s.active then InvActive(s, session) else s.flash.writers == map[]
  }

  predicate InvActive(s: State, session: Session)
    requires session.Open?
  {
    var written := Concat(session.chunks);
    && s.firmwareSize == session.size && s.expected == session.digest && s.slot == session.slot
    && s.flash.writers == map[s.handle := s.slot]
    && s.slot in s.flash.slots && s.flash.slots[s.slot] == written
    && s.bytesReceived == |written| <= s.firmwareSize <= session.room <= MAX_SLOT_SIZE
    && s.lastChunk == LastOf(session.chunks) && |s.lastChunk| <= MAX_CHUNK_DATA_SIZE
    && s.lastOffset as int + |s.lastChunk| == s.bytesReceived
    && written[s.lastOffset..] == s.lastChunk
  }

  lemma ConcatPush(chunks: seq<seq<byte>>, data: seq<byte>)
    ensures Concat(chunks + [data]) == Concat(chunks) + data
  {
    var all := chunks + [data];
    assert all[..|all| - 1] == chunks;
  }

  lemma BeginKeepsInv(s: State, session: Session, payload: seq<byte>, o: Outcome)
    requires Inv(s, session) && Plausible(o, s.flash)
    ensures var r := Begin(s, payload, o); Inv(r.state, Observe(session, OpBegin(payload), r.error, o))
  {
    hide ReadLe32;
  }

  lemma AcceptKeepsInv(s: State, session: Session, offset: uint32, data: seq<byte>, o: Outcome)
    requires Inv(s, session) && s.active && 0 < |data| <= MAX_CHUNK_DATA_SIZE
    ensures var r := Accept(s, offset, data, o);
      Inv(r.state, if r.error == ERR_OK && offset == |Concat(session.chunks)|
                   then session.(chunks := session.chunks + [data]) else session)
  {
    hide Concat, Inv;
    if offset == s.bytesReceived && Add32(offset, |data|) <= s.firmwareSize && o.writeOk {
      WriteKeepsInv(s, session, data);
    }
    ReceivedIsWritten(s, session);
  }

  lemma ReceivedIsWritten(s: State, session: Session)
    requires Inv(s, session) && s.active
    ensures session.Open? && s.bytesReceived == |Concat(session.chunks)|
  {
    hide Concat;
  }

  /** The chunk behind what was written before. */
  lemma WriteKeepsInv(s: State, session: Session, data: seq<byte>)
    requires Inv(s, session) && s.active && 0 < |data| <= MAX_CHUNK_DATA_SIZE
    requires Add32(s.bytesReceived, |data|) <= s.firmwareSize
    ensures session.Open? && Inv(
      s.(flash := OtaWrite(s.flash, s.handle, data), lastOffset := s.bytesReceived, lastChunk := data,
         bytesReceived := Add32(s.bytesReceived, |data|)),
      session.(chunks := session.chunks + [data]))
  {
    hide Concat, Justified;
    ConcatPush(session.chunks, data);
    var before := Concat(session.chunks);
    TailOf(before, data);
    assert OtaWrite(s.flash, s.handle, data) == s.flash.(slots := s.flash.slots[s.slot := before + data]);
    assert LastOf(session.chunks + [data]) == data;
  }

  lemma TailOf(before: seq<byte>, data: seq<byte>)
    ensures (before + data)[|before|..] == data
  {
  }

  lemma DataKeepsInv(s: State, session: Session, payload: seq<byte>, o: Outcome)
    requires Inv(s, session)
    ensures var r := Write(s, payload, o); Inv(r.state, Observe(session, OpData(payload), r.error, o))
  {
    hide Accept, Concat, ReadLe32, InvActive;
    if s.active && DATA_HEADER_SIZE < |payload| <= DATA_HEADER_SIZE + MAX_CHUNK_DATA_SIZE {
      AcceptKeepsInv(s, session, ReadLe32(payload, 4), payload[DATA_HEADER_SIZE..], o);
    }
  }

  lemma CloseKeepsInv(s: State, session: Session, o: Outcome)
    requires Inv(s, session)
    ensures var r := End(s, o); Inv(r.state, Observe(session, OpEnd, r.error, o))
    ensures var r := Abort(s, o); Inv(r.state, Observe(session, OpAbort, r.error, o))
  {
    hide Concat;
  }

  /** Every command keeps the invariant, whatever the platform answers. */
  lemma ApplyKeepsInv(s: State, session: Session, op: Op, o: Outcome)
    requires Inv(s, session) && Plausible(o, s.flash)
    ensures var r := Apply(s, op, o); Inv(r.state, Observe(session, op, r.error, o))
  {
    hide Inv, Observe, Begin, Write, End, Abort;
    match op {
      case OpBegin(payload) => BeginKeepsInv(s, session, payload, o);
      case OpData(payload) => DataKeepsInv(s, session, payload, o);
      case OpEnd => CloseKeepsInv(s, session, o);
      case OpAbort => CloseKeepsInv(s, session, o);
    }
  }

  // ---- What each command answers, and what it does ----

  /**
   * A device acknowledges BEGIN if and only if it is idle, the payload has 36 bytes,
   * a slot is offered that holds the declared size, which is not 0, and the platform
   * begins. Then that slot alone is erased; otherwise nothing changes, and each
   * reason has its own code.
   */
  lemma BeginExactly(s: State, session: Session, payload: seq<byte>, o: Outcome)
    requires Inv(s, session) && Plausible(o, s.flash)
    ensures var r := Begin(s, payload, o);
      if session.Open? then r == Result(s, ERR_OTA_ALREADY_STARTED)
      else if |payload| != 36 then r == Result(s, ERR_INVALID_LENGTH)
      else
        var size, offer := ReadLe32(payload, 0), o.partition;
        && (r.error == ERR_OK <==> offer.Some? && 1 <= size <= offer.value.size && o.beginOk)
        && (r.error == ERR_OTA_INVALID_IMAGE <==> size > 0 && offer.None?)
        && (r.error == ERR_OTA_SIZE_ERROR <==> size == 0 || (offer.Some? && offer.value.size < size))
        && (r.error == ERR_OTA_FLASH_ERROR <==> offer.Some? && 1 <= size <= offer.value.size && !o.beginOk)
        && (r.error != ERR_OK ==> r.state == s)
        && (r.error == ERR_OK ==>
              && Inv(r.state, Open(size, payload[4..], offer.value.slot, offer.value.size, []))
              && r.state.handle == o.handle && r.state.flash.boot == s.flash.boot
              && r.state.flash.slots == s.flash.slots[offer.value.slot := []])
  {
    hide ReadLe32;
  }

  /** The chunk accepted last, with its offset. */
  predicate Repeated(session: Session, offset: nat, data: seq<byte>)
    requires session.Open?
  {
    session.chunks != [] && data == LastOf(session.chunks) && offset + |data| == |Concat(session.chunks)|
  }

  /**
   * An open transfer acknowledges DATA if and only if it is the last chunk again, or
   * the next one, which fits the declared size and is written. Only the latter
   * changes anything; each refusal has its own code.
   */
  lemma DataExactly(s: State, session: Session, payload: seq<byte>, o: Outcome)
    requires Inv(s, session)
    ensures var r := Write(s, payload, o);
      if session.Closed? then r == Result(s, ERR_OTA_NOT_STARTED)
      else if !(8 < |payload| <= 1024) then r == Result(s, ERR_INVALID_LENGTH)
      else
        var offset, data, received := ReadLe32(payload, 4), payload[8..], |Concat(session.chunks)|;
        && (r.error == ERR_OK <==>
              Repeated(session, offset, data) ||
              (offset == received && received + |data| <= session.size && o.writeOk))
        && (r.error == ERR_OTA_INVALID_OFFSET <==> offset != received && !Repeated(session, offset, data))
        && (r.error == ERR_OTA_SIZE_ERROR <==> offset == received && received + |data| > session.size)
        && (r.error == ERR_OTA_FLASH_ERROR <==>
              offset == received && received + |data| <= session.size && !o.writeOk)
        && (r.error == ERR_OK && offset == received ==>
              && Inv(r.state, session.(chunks := session.chunks + [data]))
              && r.state.flash == s.flash.(slots := s.flash.slots[session.slot := Concat(session.chunks) + data]))
        && (!(r.error == ERR_OK && offset == received) ==> r.state == s)
  {
    hide ReadLe32, Concat, InvActive;
    if session.Open? && 8 < |payload| <= 1024 {
      AcceptKeepsInv(s, session, ReadLe32(payload, 4), payload[8..], o);
      AcceptExactly(s, session, ReadLe32(payload, 4), payload[8..], o);
    }
  }

  lemma AcceptExactly(s: State, session: Session, offset: uint32, data: seq<byte>, o: Outcome)
    requires Inv(s, session) && s.active && 0 < |data| <= MAX_CHUNK_DATA_SIZE
    ensures var r, received := Accept(s, offset, data, o), |Concat(session.chunks)|;
      if offset == received then
        && r.error == (if received + |data| > session.size then ERR_OTA_SIZE_ERROR
                       else if !o.writeOk then ERR_OTA_FLASH_ERROR else ERR_OK)
        && (r.error != ERR_OK ==> r.state == s)
        && (r.error == ERR_OK ==>
              r.state.flash == s.flash.(slots := s.flash.slots[session.slot := Concat(session.chunks) + data]))
      else r == Result(s, if Repeated(session, offset, data) then ERR_OK else ERR_OTA_INVALID_OFFSET)
  {
    hide Concat;
  }

  /** Every byte the observed BEGIN announced has been accepted. */
  predicate Received(session: Session) { session.Open? && |Concat(session.chunks)| == session.size }

  /**
   * END succeeds if and only if the image is complete and every platform check
   * passes; each failure has its own code. Before that it changes nothing; from then
   * on it ends the transfer and retires the handle, and a success, and nothing else,
   * moves the boot pointer.
   */
  lemma EndExactly(s: State, session: Session, o: Outcome)
    requires Inv(s, session)
    ensures var r := End(s, o);
      if session.Closed? then r == Result(s, ERR_OTA_NOT_STARTED)
      else if !Received(session) then r == Result(s, ERR_OTA_SIZE_ERROR)
      else
        && (r.error == ERR_OK <==> o.endOk && o.sha == Some(session.digest) && o.bootOk)
        && (r.error == ERR_OTA_HASH_MISMATCH <==> o.endOk && o.sha != Some(session.digest))
        && (r.error == ERR_OTA_INVALID_IMAGE <==> !o.endOk || (o.sha == Some(session.digest) && !o.bootOk))
        && Inv(r.state, Closed) && r.state.flash.retired == s.flash.retired + {s.handle}
        && r.state.flash.slots == s.flash.slots
        && r.state.flash.boot == if r.error == ERR_OK then session.slot else s.flash.boot
  {
    hide Concat;
  }

  /**
   * ABORT ends an open transfer whatever the platform answers: its handle is retired,
   * slots and boot pointer stay as they are, and the platform's answer is reported.
   * An idle device refuses it.
   */
  lemma AbortExactly(s: State, session: Session, o: Outcome)
    requires Inv(s, session)
    ensures var r := Abort(s, o);
      if session.Closed? then r == Result(s, ERR_OTA_NOT_STARTED)
      else
        && r.error == (if o.abortOk then ERR_OK else ERR_OTA_FLASH_ERROR)
        && Inv(r.state, Closed) && r.state.flash.retired == s.flash.retired + {s.handle}
        && r.state.flash.slots == s.flash.slots && r.state.flash.boot == s.flash.boot
  {
    hide Concat;
  }

  // ---- Runs ----

  datatype Step = Step(op: Op, outcome: Outcome)

  datatype World = World(state: State, session: Session)

  function Next(w: World, step: Step): World
  {
    var r := Apply(w.state, step.op, step.outcome);
    World(r.state, Observe(w.session, step.op, r.error, step.outcome))
  }

  function Run(w: World, steps: seq<Step>): World
    decreases |steps|
  {
    if steps == [] then w else Run(Next(w, steps[0]), steps[1..])
  }

  predicate PlausibleRun(w: World, steps: seq<Step>)
    decreases |steps|
  {
    steps == [] || (Plausible(steps[0].outcome, w.state.flash) && PlausibleRun(Next(w, steps[0]), steps[1..]))
  }

  /** Nothing open, no session: the state at start-up. */
  predicate Fresh(w: World)
  {
    w.session.Closed? && !w.state.active && w.state.flash.writers == map[] && !w.state.flash.misused
  }

  lemma {:induction false} RunKeepsInv(w: World, steps: seq<Step>)
    requires Inv(w.state, w.session) && PlausibleRun(w, steps)
    ensures var v := Run(w, steps); Inv(v.state, v.session)
    decreases |steps|
  {
    hide Inv, Apply, Observe, Plausible;
    if steps != [] {
      ApplyKeepsInv(w.state, w.session, steps[0].op, steps[0].outcome);
      RunKeepsInv(Next(w, steps[0]), steps[1..]);
    }
  }

  /** What makes a boot switch right at the moment it happens. */
  predicate Justified(session: Session, before: Flash, after: Flash, o: Outcome)
  {
    && session.Open?
    && after.boot == session.slot && session.slot in after.slots && after.slots == before.slots
    && after.slots[session.slot] == Concat(session.chunks)
    && |Concat(session.chunks)| == session.size
    && o.sha == Some(session.digest)
  }

  /** END succeeds exactly when the image is complete and every platform check passes. */
  predicate EndMaySwitch(s: State, o: Outcome)
  {
    s.active && s.bytesReceived == s.firmwareSize && o.endOk && o.sha == Some(s.expected) && o.bootOk
  }

  lemma SwitchOnlyInEnd(s: State, session: Session, op: Op, o: Outcome)
    requires Inv(s, session)
    ensures var r := Apply(s, op, o);
      && (r.state.flash.boot != s.flash.boot ==> op.OpEnd? && r.error == ERR_OK)
      && (op.OpEnd? ==> (r.error == ERR_OK <==> EndMaySwitch(s, o)))
      && (op.OpEnd? && r.error == ERR_OK ==> Justified(session, s.flash, r.state.flash, o))
  {
    hide Concat, ReadLe32;
  }

  /**
   * In every run from start-up, the boot pointer moves only inside a successful
   * END, to the slot of that session's BEGIN, whose content is then the
   * concatenation of the accepted chunks, of the declared length, with the
   * declared digest; no handle was ever misused.
   */
  lemma BootSwitchesAreJustified(start: World, steps: seq<Step>, last: Step)
    requires Fresh(start) && PlausibleRun(start, steps)
    ensures var w := Run(start, steps); var v := Next(w, last);
      && !w.state.flash.misused
      && (v.state.flash.boot != w.state.flash.boot ==>
            last.op.OpEnd? && Justified(w.session, w.state.flash, v.state.flash, last.outcome))
  {
    hide InvActive, Apply, Observe, Plausible, Justified, EndMaySwitch;
    RunKeepsInv(start, steps);
    var w := Run(start, steps);
    SwitchOnlyInEnd(w.state, w.session, last.op, last.outcome);
  }

  // ---- Data ----

  /** A refused DATA changes nothing; an accepted one is recognised whenever it is sent again. */
  lemma DataRepeats(s: State, session: Session, payload: seq<byte>, o: Outcome, again: Outcome)
    requires Inv(s, session)
    ensures var r := Write(s, payload, o);
      if r.error == ERR_OK then Write(r.state, payload, again) == r else r.state == s
  {
    hide Concat, ReadLe32;
  }

  /** The size sums of an active transfer do not wrap. */
  lemma NoSumWraps(s: State, session: Session, n: nat)
    requires Inv(s, session) && s.active && n <= MAX_CHUNK_DATA_SIZE
    ensures Add32(s.bytesReceived, n) == s.bytesReceived as int + n
    ensures Add32(s.lastOffset, |s.lastChunk|) == s.bytesReceived
  {
  }

  /**
   * The size check in 32-bit arithmetic is the size check in exact arithmetic just
   * for firmware sizes up to 2^32 - 1017.
   */
  lemma SizeCheckIsExact(size: uint32)
    ensures (forall received: uint32, n: uint32 | received <= size && 0 < n <= MAX_CHUNK_DATA_SIZE ::
               Add32(received, n) <= size <==> received as int + n as int <= size)
            <==> size <= MAX_SLOT_SIZE
  {
    if size > MAX_SLOT_SIZE {
      assert Add32(size, 1016) == size as int + 1016 - 0x1_0000_0000;
    }
  }
}
