/** The INFO payload: written by the device behind a cursor, read back by the host. */
module InfoPayload {
  import opened Bytes
  import opened Esp
  import opened VersionText

  const FIXED_SIZE: nat := 17
  const MAX_TEXT: nat := 255
  const MAX_SLOTS: nat := 255
  const OTA_SUBTYPE_MIN: nat := 0x10
  const OTA_SUBTYPE_MAX: nat := 0x1F

  datatype Slot = Slot(name: seq<byte>, state: seq<byte>)

  /** An application partition as the platform lists it, OTA slot or not. */
  datatype AppPartition = AppPartition(subtype: nat, name: seq<byte>, state: seq<byte>)

  datatype Fields = Fields(
    protocolVersion: byte,
    version: Version,
    uptime: uint32,
    freeHeap: uint32,
    bootCount: uint32,
    rollbackPossible: bool,
    chip: seq<byte>,
    running: seq<byte>,
    boot: seq<byte>,
    state: seq<byte>,
    idf: seq<byte>,
    project: seq<byte>,
    date: seq<byte>)

  datatype Info = Info(fields: Fields, slots: seq<Slot>)

  function Texts(f: Fields): seq<seq<byte>> { [f.chip, f.running, f.boot, f.state, f.idf, f.project, f.date] }

  predicate IsOtaSlot(p: AppPartition) { OTA_SUBTYPE_MIN <= p.subtype <= OTA_SUBTYPE_MAX }

  function OtaSlots(partitions: seq<AppPartition>): seq<Slot>
  {
    if partitions == [] then []
    else
      var last := partitions[|partitions| - 1];
      OtaSlots(partitions[..|partitions| - 1]) + if IsOtaSlot(last) then [Slot(last.name, last.state)] else []
  }

  // ---- The format ----

  function Str8(s: seq<byte>): seq<byte> { [|s| % 0x100] + s }

  function Strs(texts: seq<seq<byte>>): seq<byte>
  {
    if texts == [] then [] else Strs(texts[..|texts| - 1]) + Str8(texts[|texts| - 1])
  }

  function SlotTexts(slots: seq<Slot>): seq<seq<byte>>
  {
    if slots == [] then []
    else
      var last := slots[|slots| - 1];
      SlotTexts(slots[..|slots| - 1]) + [last.name, last.state]
  }

  function Fixed(f: Fields): (s: seq<byte>)
    ensures |s| == FIXED_SIZE
  {
    [f.protocolVersion, f.version.major, f.version.minor, f.version.patch] +
    Le32(f.uptime) + Le32(f.freeHeap) + Le32(f.bootCount) + [if f.rollbackPossible then 1 else 0]
  }

  function EncodeInfo(info: Info): seq<byte>
  {
    Fixed(info.fields) + Strs(Texts(info.fields)) + [|info.slots| % 0x100] + Strs(SlotTexts(info.slots))
  }

  predicate AllShort(texts: seq<seq<byte>>) { forall i | 0 <= i < |texts| :: |texts[i]| <= MAX_TEXT }

  predicate Writable(info: Info)
  {
    AllShort(Texts(info.fields)) && AllShort(SlotTexts(info.slots)) && |info.slots| <= MAX_SLOTS
  }

  predicate Fits(info: Info, capacity: nat) { Writable(info) && |EncodeInfo(info)| <= capacity }

  // ---- Reading ----

  datatype Text = Text(value: seq<byte>, next: nat)

  /** `read_u8_string`. */
  function ReadString(data: seq<byte>, offset: nat): Option<Text>
  {
    if offset >= |data| then None
    else
      var end := offset + 1 + data[offset];
      if end > |data| then None else Some(Text(data[offset + 1..end], end))
  }

  datatype TextList = TextList(values: seq<seq<byte>>, next: nat)

  /** `count` strings in a row. */
  function ReadStrings(data: seq<byte>, offset: nat, count: nat): (r: Option<TextList>)
    ensures r.Some? ==> |r.value.values| == count
  {
    if count == 0 then Some(TextList([], offset))
    else
      var most := ReadStrings(data, offset, count - 1);
      if most.None? then None
      else
        var last := ReadString(data, most.value.next);
        if last.None? then None else Some(TextList(most.value.values + [last.value.value], last.value.next))
  }

  function SlotsOf(texts: seq<seq<byte>>): seq<Slot>
    requires |texts| % 2 == 0
  {
    if texts == [] then [] else SlotsOf(texts[..|texts| - 2]) + [Slot(texts[|texts| - 2], texts[|texts| - 1])]
  }

  datatype Parsed = Current(info: Info) | Legacy(info: Info) | ProtocolError | IndexError

  function FixedFields(payload: seq<byte>): Fields
    requires |payload| >= 16
  {
    Fields(payload[0], Version(payload[1], payload[2], payload[3]), ReadLe32(payload, 4), ReadLe32(payload, 8),
           ReadLe32(payload, 12), false, [], [], [], [], [], [], [])
  }

  /** The current layout, or nothing where the reader meets a missing or truncated string. */
  function ParseCurrent(payload: seq<byte>): Option<Info>
    requires |payload| >= FIXED_SIZE
  {
    var texts := ReadStrings(payload, FIXED_SIZE, 7);
    if texts.None? then None
    else
      var t, next := texts.value.values, texts.value.next;
      var f := FixedFields(payload).(
        rollbackPossible := payload[16] != 0, chip := t[0], running := t[1], boot := t[2], state := t[3], idf := t[4],
        project := t[5], date := t[6]);
      if next >= |payload| then Some(Info(f, []))
      else
        var slots := ReadStrings(payload, next + 1, 2 * payload[next] as int);
        if slots.None? then None else Some(Info(f, SlotsOf(slots.value.values)))
  }

  /** "UNKNOWN" in ASCII. */
  const UNKNOWN: seq<byte> := [0x55, 0x4E, 0x4B, 0x4E, 0x4F, 0x57, 0x4E]

  function ParseLegacy(payload: seq<byte>): Parsed
    requires |payload| >= 16
  {
    var texts := ReadStrings(payload, 16, 5);
    if texts.None? then ProtocolError
    else
      var t := texts.value.values;
      Legacy(Info(FixedFields(payload).(
        chip := t[0], running := t[1], boot := t[1], state := UNKNOWN, idf := t[2], project := t[3], date := t[4]), []))
  }

  function ParseInfo(payload: seq<byte>): Parsed
  {
    if |payload| < 16 then ProtocolError
    else if |payload| == 16 then IndexError
    else
      var current := ParseCurrent(payload);
      if current.Some? then Current(current.value) else ParseLegacy(payload)
  }

  lemma {:induction false} MissingStaysMissing(data: seq<byte>, offset: nat, k: nat, n: nat)
    requires k <= n && ReadStrings(data, offset, k).None?
    ensures ReadStrings(data, offset, n).None?
    decreases n
  {
    if k < n { MissingStaysMissing(data, offset, k, n - 1); }
  }

  /** The slot loop: a name and a state for each. */
  method ReadSlots(payload: seq<byte>, start: nat, count: nat) returns (slots: Option<seq<Slot>>)
    ensures var texts := ReadStrings(payload, start, 2 * count);
      slots == if texts.None? then None else Some(SlotsOf(texts.value.values))
  {
    hide ReadString, SlotsOf;
    var result: seq<Slot> := [];
    var offset := start;
    ghost var texts: seq<seq<byte>> := [];
    assert SlotsOf([]) == [] by { NoSlotsOf(); }
    for i := 0 to count
      invariant ReadStrings(payload, start, 2 * i) == Some(TextList(texts, offset)) && SlotsOf(texts) == result
    {
      var name := ReadString(payload, offset);
      if name.None? {
        MissingStaysMissing(payload, start, 2 * i + 1, 2 * count);
        return None;
      }
      assert ReadStrings(payload, start, 2 * i + 1) == Some(TextList(texts + [name.value.value], name.value.next));
      var state := ReadString(payload, name.value.next);
      if state.None? {
        MissingStaysMissing(payload, start, 2 * i + 2, 2 * count);
        return None;
      }
      SlotsOfPush(texts, name.value.value, state.value.value);
      texts := texts + [name.value.value] + [state.value.value];
      result := result + [Slot(name.value.value, state.value.value)];
      offset := state.value.next;
    }
    return Some(result);
  }

  lemma NoSlotsOf()
    ensures SlotsOf([]) == []
  {
  }

  lemma SlotsOfPush(texts: seq<seq<byte>>, name: seq<byte>, state: seq<byte>)
    requires |texts| % 2 == 0
    ensures SlotsOf(texts + [name] + [state]) == SlotsOf(texts) + [Slot(name, state)]
  {
    var t := texts + [name] + [state];
    assert t[..|t| - 2] == texts;
  }

  /** `parse_info_payload`. */
  method ParseInfoPayload(payload: seq<byte>) returns (parsed: Parsed)
    ensures parsed == ParseInfo(payload)
  {
    hide ReadStrings, SlotsOf, FixedFields, ParseLegacy;
    if |payload| < 16 {
      return ProtocolError;
    }
    if |payload| == 16 {
      return IndexError;
    }
    var texts := ReadStrings(payload, FIXED_SIZE, 7);
    if texts.None? {
      return ParseLegacy(payload);
    }
    var t, next := texts.value.values, texts.value.next;
    var f := FixedFields(payload).(
      rollbackPossible := payload[16] != 0, chip := t[0], running := t[1], boot := t[2], state := t[3], idf := t[4],
      project := t[5], date := t[6]);
    if next >= |payload| {
      return Current(Info(f, []));
    }
    var slots := ReadSlots(payload, next + 1, payload[next] as int);
    if slots.None? {
      return ParseLegacy(payload);
    }
    return Current(Info(f, slots.value));
  }

  // ---- What is written is what is read ----

  lemma StrsPush(texts: seq<seq<byte>>, t: seq<byte>)
    ensures Strs(texts + [t]) == Strs(texts) + Str8(t)
  {
    assert (texts + [t])[..|texts|] == texts;
  }

  lemma StringRoundTrip(before: seq<byte>, t: seq<byte>, after: seq<byte>)
    requires |t| <= MAX_TEXT
    ensures ReadString(before + Str8(t) + after, |before|) == Some(Text(t, |before| + |Str8(t)|))
  {
    var data := before + Str8(t) + after;
    assert data[|before|] == |t|;
    assert data[|before| + 1..|before| + 1 + |t|] == t;
  }

  lemma Regroup(a: seq<byte>, b: seq<byte>, c: seq<byte>, d: seq<byte>)
    ensures a + (b + c) + d == a + b + (c + d)
    ensures a + (b + c) + d == (a + b) + c + d
  {
  }

  lemma {:induction false} StringsRoundTrip(before: seq<byte>, texts: seq<seq<byte>>, after: seq<byte>)
    requires AllShort(texts)
    ensures ReadStrings(before + Strs(texts) + after, |before|, |texts|) ==
      Some(TextList(texts, |before| + |Strs(texts)|))
    decreases |texts|
  {
    hide Str8, ReadString, ReadStrings, Strs;
    if texts == [] {
      NoStrings();
      NothingToRead(before + [] + after, |before|);
    } else {
      var most, last := texts[..|texts| - 1], texts[|texts| - 1];
      assert most + [last] == texts;
      StrsPush(most, last);
      Regroup(before, Strs(most), Str8(last), after);
      StringsRoundTrip(before, most, Str8(last) + after);
      StringRoundTrip(before + Strs(most), last, after);
      OneMoreString(before + Strs(texts) + after, |before|, texts, |before| + |Strs(most)|, |before| + |Strs(texts)|);
    }
  }

  lemma NothingToRead(data: seq<byte>, offset: nat)
    ensures ReadStrings(data, offset, 0) == Some(TextList([], offset))
  {
  }

  lemma ReadOneMore(data: seq<byte>, offset: nat, count: nat)
    ensures ReadStrings(data, offset, count + 1) ==
      match ReadStrings(data, offset, count)
      case None => None
      case Some(most) =>
        match ReadString(data, most.next)
        case None => None
        case Some(last) => Some(TextList(most.values + [last.value], last.next))
  {
    hide ReadString;
  }

  lemma OneMoreString(data: seq<byte>, offset: nat, texts: seq<seq<byte>>, at: nat, next: nat)
    requires texts != [] && ReadStrings(data, offset, |texts| - 1) == Some(TextList(texts[..|texts| - 1], at))
    requires ReadString(data, at) == Some(Text(texts[|texts| - 1], next))
    ensures ReadStrings(data, offset, |texts|) == Some(TextList(texts, next))
  {
    hide ReadString, ReadStrings;
    ReadOneMore(data, offset, |texts| - 1);
    assert texts[..|texts| - 1] + [texts[|texts| - 1]] == texts;
  }

  lemma {:induction false} SlotTextsRoundTrip(slots: seq<Slot>)
    ensures |SlotTexts(slots)| == 2 * |slots| && SlotsOf(SlotTexts(slots)) == slots
  {
    if slots != [] {
      var most, last := slots[..|slots| - 1], slots[|slots| - 1];
      SlotTextsRoundTrip(most);
      var t := SlotTexts(slots);
      assert t[..|t| - 2] == SlotTexts(most);
      assert most + [last] == slots;
    }
  }

  lemma FixedRoundTrip(info: Info)
    ensures |EncodeInfo(info)| > FIXED_SIZE
    ensures var s, f := EncodeInfo(info), info.fields;
      && s[0] == f.protocolVersion && s[1] == f.version.major && s[2] == f.version.minor && s[3] == f.version.patch
      && ReadLe32(s, 4) == f.uptime && ReadLe32(s, 8) == f.freeHeap && ReadLe32(s, 12) == f.bootCount
      && s[16] == if f.rollbackPossible then 1 else 0
  {
    hide Le32, ReadLe32, Strs, SlotTexts;
    var s, f := EncodeInfo(info), info.fields;
    assert s[4..8] == Le32(f.uptime) && s[8..12] == Le32(f.freeHeap) && s[12..16] == Le32(f.bootCount);
    Le32RoundTrip(f.uptime, s, 4);
    Le32RoundTrip(f.freeHeap, s, 8);
    Le32RoundTrip(f.bootCount, s, 12);
  }

  /**
   * For every set of fields, strings and slots that can be written at all, the host
   * reads back exactly those fields and slots in order, and never falls back to the
   * old layout.
   */
  lemma InfoRoundTrip(info: Info)
    requires Writable(info)
    ensures ParseInfo(EncodeInfo(info)) == Current(info)
  {
    hide ReadStrings, Fixed, Str8, Strs, SlotTexts, SlotsOf, ReadLe32;
    var s, f := EncodeInfo(info), info.fields;
    FixedRoundTrip(info);
    SlotTextsRoundTrip(info.slots);
    var texts, slotTexts := Texts(f), SlotTexts(info.slots);
    var front := Fixed(f) + Strs(texts);
    assert s == Fixed(f) + Strs(texts) + ([|info.slots| % 0x100] + Strs(slotTexts));
    StringsRoundTrip(Fixed(f), texts, [|info.slots| % 0x100] + Strs(slotTexts));
    assert s == (front + [|info.slots| % 0x100]) + Strs(slotTexts) + [];
    StringsRoundTrip(front + [|info.slots| % 0x100], slotTexts, []);
    assert s[|front|] == |info.slots|;
  }

  /** A canonical version text reappears as the host's firmware string. */
  lemma FirmwareReappears(info: Info, v: Version, prefix: seq<byte>)
    requires Writable(info) && info.fields.version == ParseAppVersion(prefix + Firmware(v))
    requires prefix == [] || prefix == [0x76] || prefix == [0x56]
    ensures var parsed := ParseInfo(EncodeInfo(info));
      parsed.Current? && Firmware(parsed.info.fields.version) == Firmware(v)
  {
    hide ParseAppVersion, Firmware, ParseInfo, EncodeInfo, Writable;
    InfoRoundTrip(info);
    assert prefix + Firmware(v) + [] == prefix + Firmware(v);
    VersionRoundTrip(v, prefix, []);
  }

  // ---- The writer ----

  class Writer {
    const buffer: array<byte>
    const capacity: nat
    var offset: nat

    ghost predicate Valid()
      reads this
    {
      offset <= capacity <= buffer.Length
    }

    /** The bytes written so far. */
    ghost function Written(): seq<byte>
      reads this, buffer
      requires Valid()
    {
      buffer[..offset]
    }

    constructor (b: array<byte>, size: nat)
      requires size <= b.Length
      ensures Valid() && buffer == b && capacity == size && offset == 0
    {
      buffer, capacity, offset := b, size, 0;
    }

    method PutByte(b: byte)
      requires Valid() && offset < capacity
      modifies this`offset, buffer
      ensures Valid() && Written() == old(Written()) + [b]
      ensures buffer[capacity..] == old(buffer[capacity..])
    {
      buffer[offset] := b;
      offset := offset + 1;
    }

    /** `put_u32_le`. */
    method PutU32(value: uint32)
      requires Valid() && offset + 4 <= capacity
      modifies this`offset, buffer
      ensures Valid() && Written() == old(Written()) + Le32(value)
      ensures buffer[capacity..] == old(buffer[capacity..])
    {
      PutByte(value % 0x100);
      PutByte((value / 0x100) % 0x100);
      PutByte((value / 0x1_0000) % 0x100);
      PutByte((value / 0x100_0000) % 0x100);
    }

    /** `put_str8`: writes the whole string behind its length, or nothing. */
    method PutStr8(value: seq<byte>) returns (ok: bool)
      requires Valid()
      modifies this`offset, buffer
      ensures Valid()
      ensures ok == (|value| <= MAX_TEXT && old(offset) + 1 + |value| <= capacity)
      ensures Written() == if ok then old(Written()) + Str8(value) else old(Written())
      ensures buffer[capacity..] == old(buffer[capacity..])
    {
      if |value| > MAX_TEXT || offset + 1 + |value| > capacity {
        return false;
      }
      PutByte(|value|);
      for i := 0 to |value|
        invariant Valid() && offset == old(offset) + 1 + i
        invariant Written() == old(Written()) + [|value|] + value[..i]
        invariant buffer[capacity..] == old(buffer[capacity..])
      {
        PutByte(value[i]);
      }
      return true;
    }

    method PutFixed(f: Fields)
      requires Valid() && offset == 0 && FIXED_SIZE <= capacity
      modifies this`offset, buffer
      ensures Valid() && Written() == Fixed(f)
      ensures buffer[capacity..] == old(buffer[capacity..])
    {
      hide Le32;
      PutByte(f.protocolVersion);
      PutByte(f.version.major);
      PutByte(f.version.minor);
      PutByte(f.version.patch);
      ghost var head := [f.protocolVersion, f.version.major, f.version.minor, f.version.patch];
      assert Written() == head;
      PutU32(f.uptime);
      assert Written() == head + Le32(f.uptime);
      PutU32(f.freeHeap);
      assert Written() == head + Le32(f.uptime) + Le32(f.freeHeap);
      PutU32(f.bootCount);
      PutByte(if f.rollbackPossible then 1 else 0);
    }

    /** Writes strings one behind the other, as long as they fit. */
    method PutAll(texts: seq<seq<byte>>) returns (ok: bool)
      requires Valid()
      modifies this`offset, buffer
      ensures Valid()
      ensures ok == (AllShort(texts) && old(offset) + |Strs(texts)| <= capacity)
      ensures ok ==> Written() == old(Written()) + Strs(texts)
      ensures buffer[capacity..] == old(buffer[capacity..])
    {
      hide Str8, Strs, AllShort;
      NoStrings();
      for i := 0 to |texts|
        invariant Valid() && AllShort(texts[..i])
        invariant offset == old(offset) + |Strs(texts[..i])|
        invariant Written() == old(Written()) + Strs(texts[..i])
        invariant buffer[capacity..] == old(buffer[capacity..])
      {
        NextString(texts, i);
        var put := PutStr8(texts[i]);
        if !put {
          return false;
        }
      }
      assert texts[..|texts|] == texts;
      return true;
    }

    /** One slot: its name, then its state. */
    method PutSlot(slot: Slot) returns (ok: bool)
      requires Valid()
      modifies this`offset, buffer
      ensures Valid()
      ensures ok == (AllShort([slot.name, slot.state]) && old(offset) + |SlotBytes(slot)| <= capacity)
      ensures ok ==> Written() == old(Written()) + SlotBytes(slot)
      ensures buffer[capacity..] == old(buffer[capacity..])
    {
      hide Str8;
      Str8Length(slot.name);
      Str8Length(slot.state);
      PairShort(slot);
      ok := PutStr8(slot.name);
      if ok {
        ok := PutStr8(slot.state);
      }
    }

    /** Writes the OTA slots among the partitions; fails on the first that does not fit, or on a 256th. */
    method PutSlots(partitions: seq<AppPartition>) returns (ok: bool, count: byte)
      requires Valid()
      modifies this`offset, buffer
      ensures Valid()
      ensures ok == SlotsFit(OtaSlots(partitions), capacity - old(offset))
      ensures ok ==> count == |OtaSlots(partitions)|
      ensures ok ==> Written() == old(Written()) + Strs(SlotTexts(OtaSlots(partitions)))
      ensures buffer[capacity..] == old(buffer[capacity..])
    {
      hide OtaSlots, SlotTexts, Strs, SlotsFit, SlotBytes;
      ghost var room := capacity - offset;
      count := 0;
      NoSlots(room);
      for i := 0 to |partitions|
        invariant Valid() && offset == old(offset) + |Strs(SlotTexts(OtaSlots(partitions[..i])))|
        invariant count == |OtaSlots(partitions[..i])| && SlotsFit(OtaSlots(partitions[..i]), room)
        invariant Written() == old(Written()) + Strs(SlotTexts(OtaSlots(partitions[..i])))
        invariant buffer[capacity..] == old(buffer[capacity..])
      {
        ghost var slots := OtaSlots(partitions[..i]);
        NextPartition(partitions, i);
        if !IsOtaSlot(partitions[i]) {
          continue;
        }
        var slot := Slot(partitions[i].name, partitions[i].state);
        NextSlot(slots, slot, room);
        if SlotsFit(OtaSlots(partitions), room) { AllSlots(partitions, i + 1, room); }
        if count == 255 {
          return false, count;
        }
        var put := PutSlot(slot);
        if !put {
          return false, count;
        }
        count := count + 1;
      }
      assert partitions[..|partitions|] == partitions;
      return true, count;
    }

    /** The number of slots, patched in once they are written, and the slots. */
    method PutSlotTable(partitions: seq<AppPartition>) returns (ok: bool)
      requires Valid() && offset < capacity
      modifies this`offset, buffer
      ensures Valid()
      ensures ok == SlotsFit(OtaSlots(partitions), capacity - (old(offset) + 1))
      ensures ok ==> |OtaSlots(partitions)| <= MAX_SLOTS
      ensures ok ==> var slots := OtaSlots(partitions); Written() == old(Written()) + [|slots|] + Strs(SlotTexts(slots))
      ensures buffer[capacity..] == old(buffer[capacity..])
    {
      hide Strs, SlotTexts, OtaSlots, SlotsFit;
      var slotCountOffset := offset;
      ghost var front := Written();
      PutByte(0);
      var count;
      ok, count := PutSlots(partitions);
      if !ok {
        return;
      }
      ghost var slotBytes := Strs(SlotTexts(OtaSlots(partitions)));
      ghost var before := Written();
      assert before == front + [0] + slotBytes;
      buffer[slotCountOffset] := count;
      assert Written() == before[slotCountOffset := count];
    }
  }

  /**
   * `device_info_build_payload`: the length of the payload, or 0 when it does not
   * fit; nothing is written past the capacity.
   */
  method BuildPayload(buffer: array<byte>, capacity: nat, f: Fields, partitions: seq<AppPartition>)
    returns (length: nat)
    requires capacity <= buffer.Length
    modifies buffer
    ensures var info := Info(f, OtaSlots(partitions));
      && length == (if Fits(info, capacity) then |EncodeInfo(info)| else 0)
      && (Fits(info, capacity) ==> length <= capacity && buffer[..length] == EncodeInfo(info))
    ensures buffer[capacity..] == old(buffer[capacity..])
  {
    hide Strs, SlotTexts, OtaSlots, SlotsFit, AllShort, Fixed;
    ghost var info := Info(f, OtaSlots(partitions));
    EncodedLength(info);
    FitsInParts(info, capacity);
    if capacity < FIXED_SIZE {
      return 0;
    }
    var writer := new Writer(buffer, capacity);
    writer.PutFixed(f);
    var ok := writer.PutAll(Texts(f));
    if !ok || writer.offset + 1 > capacity {
      return 0;
    }
    ok := writer.PutSlotTable(partitions);
    if !ok {
      return 0;
    }
    return writer.offset;
  }

  lemma EncodedLength(info: Info)
    ensures |EncodeInfo(info)| == FIXED_SIZE + |Strs(Texts(info.fields))| + 1 + |Strs(SlotTexts(info.slots))|
  {
  }

  /** The capacity checks along the way add up to the one check of the whole. */
  lemma FitsInParts(info: Info, capacity: nat)
    ensures var texts := |Strs(Texts(info.fields))|;
      Fits(info, capacity) <==>
        && AllShort(Texts(info.fields)) && FIXED_SIZE + texts + 1 <= capacity
        && SlotsFit(info.slots, capacity - (FIXED_SIZE + texts + 1))
  {
    hide Strs, SlotTexts, AllShort;
    EncodedLength(info);
  }

  function SlotBytes(slot: Slot): seq<byte> { Str8(slot.name) + Str8(slot.state) }

  predicate SlotsFit(slots: seq<Slot>, room: nat)
  {
    |slots| <= MAX_SLOTS && AllShort(SlotTexts(slots)) && |Strs(SlotTexts(slots))| <= room
  }

  lemma PairShort(slot: Slot)
    ensures AllShort([slot.name, slot.state]) <==> |slot.name| <= MAX_TEXT && |slot.state| <= MAX_TEXT
  {
    assert [slot.name, slot.state][0] == slot.name && [slot.name, slot.state][1] == slot.state;
  }

  lemma NoSlots(room: nat)
    ensures OtaSlots([]) == [] && Strs(SlotTexts([])) == [] && SlotsFit([], room)
  {
  }

  lemma NextPartition(partitions: seq<AppPartition>, i: nat)
    requires i < |partitions|
    ensures var p, slots := partitions[i], OtaSlots(partitions[..i]);
      OtaSlots(partitions[..i + 1]) == if IsOtaSlot(p) then slots + [Slot(p.name, p.state)] else slots
  {
    assert partitions[..i + 1][..i] == partitions[..i];
  }

  lemma SlotTextsPush(slots: seq<Slot>, slot: Slot)
    ensures SlotTexts(slots + [slot]) == SlotTexts(slots) + [slot.name, slot.state]
    ensures Strs(SlotTexts(slots + [slot])) == Strs(SlotTexts(slots)) + SlotBytes(slot)
  {
    hide Strs, Str8;
    assert (slots + [slot])[..|slots|] == slots;
    var t := SlotTexts(slots);
    assert t + [slot.name, slot.state] == t + [slot.name] + [slot.state];
    StrsPush(t, slot.name);
    StrsPush(t + [slot.name], slot.state);
  }

  lemma NextSlot(slots: seq<Slot>, slot: Slot, room: nat)
    requires SlotsFit(slots, room)
    ensures SlotsFit(slots + [slot], room) <==>
      |slots| < MAX_SLOTS && AllShort([slot.name, slot.state]) && |Strs(SlotTexts(slots))| + |SlotBytes(slot)| <= room
    ensures Strs(SlotTexts(slots + [slot])) == Strs(SlotTexts(slots)) + SlotBytes(slot)
  {
    hide Strs, SlotTexts, SlotBytes;
    SlotTextsPush(slots, slot);
    ShortConcat(SlotTexts(slots), [slot.name, slot.state]);
  }

  lemma ShortConcat(a: seq<seq<byte>>, b: seq<seq<byte>>)
    ensures AllShort(a + b) <==> AllShort(a) && AllShort(b)
  {
    if AllShort(a + b) {
      assert forall i | 0 <= i < |a| :: a[i] == (a + b)[i];
      assert forall i | 0 <= i < |b| :: b[i] == (a + b)[|a| + i];
    }
  }

  /** If all slots fit, the first of them do. */
  lemma {:induction false} AllSlots(partitions: seq<AppPartition>, k: nat, room: nat)
    requires k <= |partitions| && SlotsFit(OtaSlots(partitions), room)
    ensures SlotsFit(OtaSlots(partitions[..k]), room)
    decreases |partitions|
  {
    hide SlotsFit;
    if k == |partitions| {
      assert partitions[..k] == partitions;
    } else {
      var most, last := partitions[..|partitions| - 1], partitions[|partitions| - 1];
      assert most[..k] == partitions[..k];
      FewerSlots(OtaSlots(most), if IsOtaSlot(last) then [Slot(last.name, last.state)] else [], room);
      AllSlots(most, k, room);
    }
  }

  lemma FewerSlots(slots: seq<Slot>, more: seq<Slot>, room: nat)
    requires |more| <= 1 && SlotsFit(slots + more, room)
    ensures SlotsFit(slots, room)
  {
    hide Strs, SlotTexts, SlotBytes;
    if more == [] {
      assert slots + more == slots;
    } else {
      assert more == [more[0]];
      SlotTextsPush(slots, more[0]);
      ShortConcat(SlotTexts(slots), [more[0].name, more[0].state]);
    }
  }

  lemma NoStrings()
    ensures Strs([]) == [] && AllShort([])
  {
  }

  /** What the next string adds, and that the whole cannot fit if it does not. */
  lemma NextString(texts: seq<seq<byte>>, i: nat)
    requires i < |texts| && AllShort(texts[..i])
    ensures Strs(texts[..i + 1]) == Strs(texts[..i]) + Str8(texts[i]) && |Str8(texts[i])| == 1 + |texts[i]|
    ensures AllShort(texts[..i + 1]) <==> |texts[i]| <= MAX_TEXT
    ensures |texts[i]| > MAX_TEXT ==> !AllShort(texts)
    ensures |Strs(texts[..i + 1])| <= |Strs(texts)|
  {
    hide Strs;
    assert texts[..i + 1] == texts[..i] + [texts[i]];
    StrsPush(texts[..i], texts[i]);
    StrsPrefix(texts, i + 1);
  }

  lemma Str8Length(s: seq<byte>)
    ensures |Str8(s)| == 1 + |s|
  {
  }

  lemma {:induction false} StrsPrefix(texts: seq<seq<byte>>, k: nat)
    requires k <= |texts|
    ensures |Strs(texts[..k])| <= |Strs(texts)|
    decreases |texts|
  {
    if k < |texts| {
      var most := texts[..|texts| - 1];
      assert most[..k] == texts[..k];
      StrsPrefix(most, k);
    } else {
      assert texts[..k] == texts;
    }
  }
}
