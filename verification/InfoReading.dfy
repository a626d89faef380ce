/** What the host accepts as INFO: exactly the payloads of the current layout. */
module InfoReading {
  import opened Bytes
  import opened Esp
  import opened InfoPayload

  /** The fixed fields with this byte for the last one, a truth value. */
  function Front(f: Fields, flag: byte): seq<byte> { Fixed(f)[..16] + [flag] }

  /**
   * The payload is laid out as the device writes it: fixed fields, seven texts, then
   * nothing, or the slots behind their number and whatever may follow them.
   */
  predicate Laid(payload: seq<byte>, info: Info, flag: byte, tail: seq<byte>)
  {
    var front := Front(info.fields, flag) + Strs(Texts(info.fields));
    && Writable(info) && (info.fields.rollbackPossible <==> flag != 0)
    && ((info.slots == [] && payload == front) ||
        payload == front + [|info.slots| % 0x100] + Strs(SlotTexts(info.slots)) + tail)
  }

  lemma ReadStringInverse(data: seq<byte>, offset: nat)
    requires ReadString(data, offset).Some?
    ensures var t := ReadString(data, offset).value;
      && |t.value| <= MAX_TEXT && t.next == offset + 1 + |t.value| <= |data|
      && data[offset..t.next] == Str8(t.value)
  {
  }

  /** What was read as strings in a row stands there as such. */
  lemma {:induction false} ReadStringsInverse(data: seq<byte>, offset: nat, count: nat)
    requires offset <= |data| && ReadStrings(data, offset, count).Some?
    ensures var t := ReadStrings(data, offset, count).value;
      AllShort(t.values) && offset <= t.next <= |data| && data[offset..t.next] == Strs(t.values)
    decreases count
  {
    hide ReadString, Str8, Strs;
    NoStrings();
    if count > 0 {
      ReadOneMore(data, offset, count - 1);
      ReadStringsInverse(data, offset, count - 1);
      var most := ReadStrings(data, offset, count - 1).value;
      ReadStringInverse(data, most.next);
      var last := ReadString(data, most.next).value;
      StrsPush(most.values, last.value);
      assert data[offset..last.next] == data[offset..most.next] + data[most.next..last.next];
    }
  }

  lemma {:induction false} SlotsOfInverse(texts: seq<seq<byte>>)
    requires |texts| % 2 == 0
    ensures SlotTexts(SlotsOf(texts)) == texts && 2 * |SlotsOf(texts)| == |texts|
    decreases |texts|
  {
    if texts != [] {
      var most := texts[..|texts| - 2];
      SlotsOfInverse(most);
      SlotTextsPush(SlotsOf(most), Slot(texts[|texts| - 2], texts[|texts| - 1]));
      assert texts == most + [texts[|texts| - 2], texts[|texts| - 1]];
    }
  }

  lemma FixedInverse(payload: seq<byte>, f: Fields)
    requires |payload| >= FIXED_SIZE
    requires f.protocolVersion == payload[0] && f.version == FixedFields(payload).version
    requires f.uptime == ReadLe32(payload, 4) && f.freeHeap == ReadLe32(payload, 8)
    requires f.bootCount == ReadLe32(payload, 12)
    ensures Front(f, payload[16]) == payload[..FIXED_SIZE]
  {
    ReadLe32Inverse(payload, 4);
    ReadLe32Inverse(payload, 8);
    ReadLe32Inverse(payload, 12);
    hide Le32, ReadLe32;
    var head := [f.protocolVersion, f.version.major, f.version.minor, f.version.patch];
    assert Fixed(f)[..16] == head + Le32(f.uptime) + Le32(f.freeHeap) + Le32(f.bootCount);
    assert payload[..FIXED_SIZE] ==
      payload[..4] + payload[4..8] + payload[8..12] + payload[12..16] + [payload[16]];
    assert payload[..4] == head;
  }

  /** What the host reads in the current layout is laid out so. */
  lemma CurrentIsLaid(payload: seq<byte>) returns (flag: byte, tail: seq<byte>)
    requires ParseInfo(payload).Current?
    ensures Laid(payload, ParseInfo(payload).info, flag, tail)
  {
    hide ReadStrings, SlotsOf, ReadLe32, Strs, SlotTexts, ParseLegacy, AllShort, Fixed;
    LegacyIsOld(payload);
    var info := ParseInfo(payload).info;
    flag, tail := payload[16], [];
    FixedInverse(payload, info.fields);
    ReadStringsInverse(payload, FIXED_SIZE, 7);
    var texts := ReadStrings(payload, FIXED_SIZE, 7).value;
    assert Texts(info.fields) == texts.values;
    assert payload[..texts.next] == payload[..FIXED_SIZE] + payload[FIXED_SIZE..texts.next];
    if texts.next < |payload| {
      tail := SlotsAreLaid(payload, texts.next);
    } else {
      assert payload[..texts.next] == payload;
      NoSlotTexts();
    }
  }

  lemma LegacyIsOld(payload: seq<byte>)
    requires |payload| >= 16
    ensures !ParseLegacy(payload).Current?
  {
    hide ReadStrings;
  }

  lemma NoSlotTexts()
    ensures SlotTexts([]) == [] && AllShort([])
  {
  }

  lemma SlotsAreLaid(payload: seq<byte>, at: nat) returns (tail: seq<byte>)
    requires at < |payload| && ReadStrings(payload, at + 1, 2 * payload[at] as int).Some?
    ensures var slots := SlotsOf(ReadStrings(payload, at + 1, 2 * payload[at] as int).value.values);
      && |slots| <= MAX_SLOTS && AllShort(SlotTexts(slots))
      && payload == payload[..at] + [|slots| % 0x100] + Strs(SlotTexts(slots)) + tail
  {
    hide ReadStrings, SlotsOf, Strs, SlotTexts, AllShort;
    var list := ReadStrings(payload, at + 1, 2 * payload[at] as int).value;
    ReadStringsInverse(payload, at + 1, 2 * payload[at] as int);
    SlotsOfInverse(list.values);
    tail := payload[list.next..];
    assert payload == payload[..at] + [payload[at]] + payload[at + 1..list.next] + tail;
  }

  /** And every payload laid out so is read as just that, whatever byte other than 0 stands for true. */
  lemma LaidIsCurrent(payload: seq<byte>, info: Info, flag: byte, tail: seq<byte>)
    requires Laid(payload, info, flag, tail)
    ensures ParseInfo(payload) == Current(info)
  {
    hide ReadStrings, Str8, Strs, SlotTexts, SlotsOf, ReadLe32, AllShort, ParseLegacy, Fixed;
    var f, slotTexts := info.fields, SlotTexts(info.slots);
    var front := Front(f, flag);
    var start := front + Strs(Texts(f));
    var rest := payload[|start|..];
    SlotTextsRoundTrip(info.slots);
    assert payload == start + rest by { LaidFront(payload, info, flag, tail); }
    FrontIsRead(payload, f, flag, Strs(Texts(f)) + rest);
    StringsRoundTrip(front, Texts(f), rest);
    if payload == start && info.slots == [] {
      assert rest == [];
    } else {
      var table := start + [|info.slots| % 0x100];
      StringsRoundTrip(table, slotTexts, tail);
      assert payload[|start|] == |info.slots|;
    }
  }

  lemma LaidFront(payload: seq<byte>, info: Info, flag: byte, tail: seq<byte>)
    requires Laid(payload, info, flag, tail)
    ensures var start := Front(info.fields, flag) + Strs(Texts(info.fields));
      |start| <= |payload| && payload == start + payload[|start|..]
  {
    hide Strs, SlotTexts, Fixed, Writable;
  }

  lemma FrontIsRead(payload: seq<byte>, f: Fields, flag: byte, rest: seq<byte>)
    requires payload == Front(f, flag) + rest
    ensures |payload| >= FIXED_SIZE && payload[16] == flag
    ensures var g := FixedFields(payload);
      && g.protocolVersion == f.protocolVersion && g.version == f.version && g.uptime == f.uptime
      && g.freeHeap == f.freeHeap && g.bootCount == f.bootCount
  {
    hide Le32, ReadLe32;
    assert payload[..16] == Fixed(f)[..16];
    assert payload[4..8] == payload[..16][4..8] == Le32(f.uptime);
    assert payload[8..12] == payload[..16][8..12] == Le32(f.freeHeap);
    assert payload[12..16] == payload[..16][12..16] == Le32(f.bootCount);
    Le32RoundTrip(f.uptime, payload, 4);
    Le32RoundTrip(f.freeHeap, payload, 8);
    Le32RoundTrip(f.bootCount, payload, 12);
    assert forall i | 0 <= i < 4 :: payload[i] == payload[..16][i];
  }
}
