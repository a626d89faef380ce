/**
 * The wire format as the protocol document lays it out, byte by byte: what the
 * encoders of both ends produce. Multi-byte fields are little-endian.
 */
module WireFormat {
  import opened Bytes
  import opened Words
  import opened Crc
  import opened Frame
  import opened HmacSha
  import opened Sealing
  import opened Payloads
  import opened Codes
  import opened HandshakeTheory
  import opened InfoPayload

  /** The bytes of an ASCII text. */
  function Ascii(text: string): (s: seq<byte>)
    requires forall i | 0 <= i < |text| :: text[i] < 128 as char
    ensures |s| == |text|
  {
    seq(|text|, i requires 0 <= i < |text| => text[i] as int)
  }

  /** A number is written lowest byte first. */
  lemma LowestFirst(v: uint16, w: uint32)
    ensures var s := Le16(v); s[0] as int + 256 * s[1] as int == v
    ensures var s := Le32(w); s[0] as int + 256 * s[1] as int + 65536 * s[2] as int + 16777216 * s[3] as int == w
  {
    Le16RoundTrip(v, Le16(v), 0);
    Le32RoundTrip(w, Le32(w), 0);
    hide Le16, Le32;
  }

  /** A frame: magic, version, command, sequence, length, up to 1024 bytes, and the checksum of all but the magic. */
  lemma FrameFormat(p: Packet)
    ensures Sendable(p) <==> |p.payload| <= 1024
    ensures Sendable(p) ==>
      var body := [p.version, p.command] + Le16(p.sequence) + Le16(|p.payload|) + p.payload;
      Encode(p) == [0xAA, 0x55] + body + Le32(Crc32(body))
  {
    hide Crc32, Le16, Le32;
  }

  /** The host builds such a frame of version 1, for every payload that fits and every 16-bit number. */
  lemma BuiltFormat(command: byte, sequence: int, payload: seq<byte>)
    ensures var built := BuildPacket(command, sequence, payload);
      && (built.PacketTooLarge? <==> |payload| > 1024)
      && (built.SequenceError? <==> |payload| <= 1024 && !(0 <= sequence <= 65535))
      && (built.Raw? ==> built.bytes == Encode(Packet(1, command, sequence, payload)))
  {
    hide Encode;
  }

  /** BEGIN: the size and the 32 bytes of the image's digest. */
  lemma BeginFormat(size: nat, digest: seq<byte>)
    ensures BuildBegin(size, digest).Payload? <==> 1 <= size < 0x1_0000_0000 && |digest| == 32
    ensures BuildBegin(size, digest).Payload? ==>
      var bytes := BuildBegin(size, digest).bytes;
      |bytes| == 36 && ReadLe32(bytes, 0) == size && bytes[4..] == digest
  {
    hide Le32, ReadLe32;
    if BuildBegin(size, digest).Payload? { BeginReadBack(size, digest); }
  }

  /** DATA: the chunk's number, its offset, and 1 to 1016 bytes. */
  lemma DataFormat(chunkNumber: nat, offset: nat, data: seq<byte>)
    ensures var built := BuildData(chunkNumber, offset, data);
      && (built.Payload? <==>
            chunkNumber < 0x1_0000_0000 && offset < 0x1_0000_0000 && 1 <= |data| <= 1016)
      && (built.TooLarge? ==> |data| > 1016)
      && (built.Payload? ==>
            && |built.bytes| == 8 + |data| && ReadLe32(built.bytes, 0) == chunkNumber
            && ReadLe32(built.bytes, 4) == offset && built.bytes[8..] == data)
  {
    hide Le32, ReadLe32;
    if BuildData(chunkNumber, offset, data).Payload? {
      DataReadBack(chunkNumber, offset, data);
      var p := BuildData(chunkNumber, offset, data).bytes;
      assert p[0..4] == Le32(chunkNumber);
      Le32RoundTrip(chunkNumber, p, 0);
    }
  }

  /** The session key and the two proofs: HMACs over both nonces, the proofs cut to 16 bytes. */
  lemma NonceFunctions(h: Hash, key: seq<byte>, client: seq<byte>, server: seq<byte>)
    ensures SessionKey(h, key, client, server) == Hmac(h, key, SESSION_PREFIX + client + server)
    ensures Proof(h, key, client, server) == Hmac(h, key, PROOF_PREFIX + client + server)[..16]
    ensures DeviceProof(h, key, client, server) == Hmac(h, key, DEVICE_PROOF_PREFIX + client + server)[..16]
  {
    hide Hmac;
  }

  /** The two tags: HMACs over command, number and payload, cut to 16 bytes; a response names both commands. */
  lemma TagFunctions(
    h: Hash, key: seq<byte>, command: byte, response: byte, sequence: uint16, payload: seq<byte>)
    ensures RequestTag(h, key, command, sequence, payload) ==
      Hmac(h, key, [command] + [sequence % 256, sequence / 256] + payload)[..16]
    ensures ResponseTag(h, key, command, response, sequence, payload) ==
      Hmac(h, key, RESPONSE_PREFIX + [command, response] + [sequence % 256, sequence / 256] + payload)[..16]
  {
    hide Hmac;
  }

  /** The prefixes are these texts. */
  lemma Prefixes()
    ensures RESPONSE_PREFIX == Ascii("response") && SESSION_PREFIX == Ascii("session")
    ensures PROOF_PREFIX == Ascii("auth-proof") && DEVICE_PROOF_PREFIX == Ascii("device-proof")
  {
  }

  /**
   * The answer to a challenge: status, the server's nonce and the device's proof. The
   * host goes on exactly if the status is 0 and the proof is that of these nonces.
   */
  lemma ChallengeFormat(
    h: Hash, key: seq<byte>, client: seq<byte>, p: Packet, status: byte, server: seq<byte>, proof: seq<byte>)
    requires p.payload == [status] + server + proof && |server| == 16 && |proof| == 16
    ensures ChallengePasses(h, key, client, p) <==>
      p.command == 0xF0 && status == 0 && proof == DeviceProof(h, key, client, server)
  {
    hide DeviceProof;
    assert p.payload[1..17] == server && p.payload[17..] == proof;
  }

  /** A reply is a success exactly if it is an ACK without a status or with status 0; NACK 6 demands a session. */
  lemma StatusFormat(p: Packet, status: byte, rest: seq<byte>)
    ensures p.command != 0xF0 ==> !EnsureAck(p)
    ensures p.command == 0xF0 && p.payload == [] ==> EnsureAck(p)
    ensures p.command == 0xF0 && p.payload == [status] + rest ==> (EnsureAck(p) <==> status == 0)
    ensures p.command == 0xF1 && p.payload == [status] + rest ==> (IsAuthRequired(p) <==> status == 6)
    ensures p.command != 0xF1 || p.payload == [] ==> !IsAuthRequired(p)
  {
  }

  /** The numbers of version 1. */
  lemma NumbersOfVersion1()
    ensures CMD_PING == 0x01 && CMD_GET_INFO == 0x02 && CMD_REBOOT == 0x03 && CMD_ROLLBACK == 0x04 && CMD_AUTH == 0x05
    ensures CMD_OTA_BEGIN == 0x10 && CMD_OTA_DATA == 0x11 && CMD_OTA_END == 0x12 && CMD_OTA_ABORT == 0x13
    ensures CMD_ACK == 0xF0 && CMD_NACK == 0xF1 && CMD_INFO == 0xF2
    ensures ERR_OK == 0 && ERR_UNKNOWN_COMMAND == 1 && ERR_INVALID_PACKET == 2 && ERR_INVALID_LENGTH == 4
    ensures ERR_BUSY == 5 && ERR_AUTH_REQUIRED == 6 && ERR_OTA_ALREADY_STARTED == 0x10 && ERR_OTA_NOT_STARTED == 0x11
    ensures ERR_OTA_INVALID_OFFSET == 0x12 && ERR_OTA_FLASH_ERROR == 0x13 && ERR_OTA_HASH_MISMATCH == 0x14
    ensures ERR_OTA_INVALID_IMAGE == 0x15 && ERR_OTA_SIZE_ERROR == 0x16 && ERR_ROLLBACK_NOT_AVAILABLE == 0x17
  {
  }

  // ---- HMAC ----

  function KeyAt(key: seq<byte>, i: nat): byte { if i < |key| then key[i] else 0 }

  /** A block of 64 bytes: the key, then zeros, each under the mask. */
  function Padded(key: seq<byte>, mask: byte): (block: seq<byte>)
    ensures |block| == 64
  {
    seq(64, i requires 0 <= i < 64 => XorByte(KeyAt(key, i), mask))
  }

  /** The construction of section 2 of RFC 2104 for blocks of 64 bytes; a longer key is hashed first. */
  lemma HmacFormat(h: Hash, key: seq<byte>, text: seq<byte>)
    ensures |key| > 64 ==> Hmac(h, key, text) == Hmac(h, h(key), text)
    ensures |key| <= 64 ==> Hmac(h, key, text) == h(Padded(key, 0x5C) + h(Padded(key, 0x36) + text))
  {
    hide XorByte;
    if |key| <= 64 {
      assert XorAll(KeyBlock(h, key), 0x5C) == Padded(key, 0x5C);
      assert XorAll(KeyBlock(h, key), 0x36) == Padded(key, 0x36);
    } else {
      assert KeyBlock(h, key) == KeyBlock(h, h(key));
    }
  }

  lemma XorOfZeros(a: seq<bool>, b: seq<bool>, n: nat)
    requires |a| == |b|
    ensures Xor(a + Zeros(n), b + Zeros(n)) == Xor(a, b) + Zeros(n)
  {
  }

  /** The masks of the construction are applied with exclusive or. */
  lemma XorByteIsXor(a: byte, b: byte)
    ensures Word(XorByte(a, b)) == Word(a) ^ Word(b)
  {
    hide Word, Bits, XorByte;
    ByteXor(a, b);
    ByteWordBits(a);
    ByteWordBits(b);
    ByteWordBits(XorByte(a, b));
    XorRegisters(Bits(a), Bits(b), Word(a), Word(b), Word(XorByte(a, b)));
  }

  lemma ByteXor(a: byte, b: byte)
    ensures Bits(XorByte(a, b)) == Xor(Bits(a), Bits(b))
  {
    NumberBitsInverse(Xor(Bits(a), Bits(b)));
    hide NumberBits, NumberOf, Xor;
  }

  lemma XorRegisters(a: seq<bool>, b: seq<bool>, v: bv32, w: bv32, x: bv32)
    requires |a| == |b| == 8 && RegisterBits(v) == a + Zeros(24) && RegisterBits(w) == b + Zeros(24)
    requires RegisterBits(x) == Xor(a, b) + Zeros(24)
    ensures x == v ^ w
  {
    hide RegisterBits, Zeros, Xor;
    XorOfZeros(a, b, 24);
    RegisterXor(v, w, v ^ w);
    RegisterBitsInjective(x, v ^ w);
  }

  lemma RegisterXor(v: bv32, w: bv32, u: bv32)
    requires u == v ^ w
    ensures RegisterBits(u) == Xor(RegisterBits(v), RegisterBits(w))
  {
    WordBitsXor(v, w, u, 32);
  }

  // ---- INFO ----

  /** The fixed fields stand at fixed places, the texts in this order behind them, then the number of slots. */
  lemma InfoFormat(info: Info)
    requires Writable(info)
    ensures var s, f := EncodeInfo(info), info.fields;
      && |s| > 17
      && s[0] == f.protocolVersion && s[1] == f.version.major && s[2] == f.version.minor && s[3] == f.version.patch
      && ReadLe32(s, 4) == f.uptime && ReadLe32(s, 8) == f.freeHeap && ReadLe32(s, 12) == f.bootCount
      && s[16] == (if f.rollbackPossible then 1 else 0)
      && var texts := ReadStrings(s, 17, 7);
      && texts.Some? && texts.value.values == [f.chip, f.running, f.boot, f.state, f.idf, f.project, f.date]
      && texts.value.next < |s| && s[texts.value.next] == |info.slots|
  {
    hide ReadStrings, Fixed, Str8, Strs, SlotTexts, ReadLe32;
    FixedRoundTrip(info);
    var f := info.fields;
    var rest := [|info.slots| % 0x100] + Strs(SlotTexts(info.slots));
    assert EncodeInfo(info) == Fixed(f) + Strs(Texts(f)) + rest;
    StringsRoundTrip(Fixed(f), Texts(f), rest);
  }

  /** What is too short to be read: below 16 bytes an error of the protocol, at 16 an index out of range. */
  lemma TooShortToRead(payload: seq<byte>)
    ensures |payload| < 16 <==> ParseInfo(payload).ProtocolError? && |payload| < 17
    ensures |payload| == 16 <==> ParseInfo(payload).IndexError?
  {
    hide ReadStrings, SlotsOf, FixedFields;
  }

  /** The slots that INFO lists are, in order, the partitions of the platform's OTA subtypes. */
  lemma {:induction false} SlotsListed(a: seq<AppPartition>, b: seq<AppPartition>, p: AppPartition)
    ensures OtaSlots(a + b) == OtaSlots(a) + OtaSlots(b)
    ensures OtaSlots([p]) == if 0x10 <= p.subtype <= 0x1F then [Slot(p.name, p.state)] else []
    decreases |b|
  {
    assert [p][..0] == [];
    if b == [] {
      assert a + b == a;
    } else {
      var most := b[..|b| - 1];
      assert (a + b)[..|a + b| - 1] == a + most;
      SlotsListed(a, most, p);
    }
  }

  // ---- CRC ----

  lemma {:induction false} WordBitsSplit(w: bv32, m: nat, n: nat)
    ensures WordBits(w, m + n) == WordBits(w, m) + WordBits(ShiftRight(m, w), n)
    decreases m
  {
    hide Low, Half;
    if m > 0 {
      WordBitsSplit(Half(w), m - 1, n);
      WordBitsParts(w, m - 1 + n);
      WordBitsParts(w, m - 1);
    }
  }

  lemma {:induction false} ZeroWord(count: nat)
    ensures WordBits(0, count) == Zeros(count)
    decreases count
  {
    if count > 0 {
      ZeroWord(count - 1);
      assert Half(0) == 0 && !Low(0);
    }
  }

  /** Bit by bit, the byte and the word are the same. */
  predicate SameBits(n: nat, w: bv32, count: nat)
    decreases count
  {
    count == 0 || ((n % 2 == 1 <==> Low(w)) && SameBits(n / 2, Half(w), count - 1))
  }

  lemma {:induction false} SameBitsSame(n: nat, w: bv32, count: nat)
    requires SameBits(n, w, count)
    ensures NumberBits(n, count) == WordBits(w, count)
    decreases count
  {
    hide Low, Half;
    if count > 0 { SameBitsSame(n / 2, Half(w), count - 1); }
  }

  lemma ByteWord(b: byte, w: bv32)
    requires SameBits(b, w, 8) && ShiftRight(8, w) == 0
    ensures Word(b) == w
  {
    hide Word, NumberBits, WordBits, SameBits, ShiftRight, Zeros;
    SameBitsSame(b, w, 8);
    ByteWordBits(b);
    WordBitsSplit(w, 8, 24);
    ZeroWord(24);
    RegisterBitsInjective(Word(b), w);
  }

  lemma OneStep(n: nat, crc: bv32)
    ensures BitSteps(n + 1, crc) == BitSteps(n, BitStep(crc))
  {
    hide BitStep;
  }

  lemma StepsTo(crc: bv32, b: byte, w: bv32, a1: bv32, a2: bv32, a3: bv32, a4: bv32, a5: bv32, a6: bv32, a7: bv32,
                next: bv32)
    requires Word(b) == w && BitStep(crc ^ w) == a1 && BitStep(a1) == a2 && BitStep(a2) == a3 && BitStep(a3) == a4
    requires BitStep(a4) == a5 && BitStep(a5) == a6 && BitStep(a6) == a7 && BitStep(a7) == next
    ensures ByteStep(crc, b) == next
  {
    hide BitStep, BitSteps, Word;
    OneStep(7, crc ^ w);
    OneStep(6, a1);
    OneStep(5, a2);
    OneStep(4, a3);
    OneStep(3, a4);
    OneStep(2, a5);
    OneStep(1, a6);
    OneStep(0, a7);
    NoStep(next);
  }

  lemma NoStep(crc: bv32)
    ensures BitSteps(0, crc) == crc
  {
  }

  /** The register after this byte, by the shifts of one byte written out. */
  lemma Checked(crc: bv32, b: byte, w: bv32, next: bv32)
    requires SameBits(b, w, 8) && ShiftRight(8, w) == 0
    requires
      var a1 := BitStep(crc ^ w); var a2 := BitStep(a1); var a3 := BitStep(a2); var a4 := BitStep(a3);
      var a5 := BitStep(a4); var a6 := BitStep(a5); var a7 := BitStep(a6);
      BitStep(a7) == next
    ensures ByteStep(crc, b) == next
  {
    hide BitStep, SameBits, ShiftRight, Word;
    var a1 := BitStep(crc ^ w);
    var a2 := BitStep(a1);
    var a3 := BitStep(a2);
    var a4 := BitStep(a3);
    var a5 := BitStep(a4);
    var a6 := BitStep(a5);
    ByteWord(b, w);
    StepsTo(crc, b, w, a1, a2, a3, a4, a5, a6, BitStep(a6), next);
  }

  lemma FirstThree()
    ensures ByteStep(0xFFFF_FFFF, 0x31) == 0x7C23_1048
    ensures ByteStep(0x7C23_1048, 0x32) == 0xB0AC_BB32
    ensures ByteStep(0xB0AC_BB32, 0x33) == 0x77B7_9C2D
  {
    hide ByteStep;
    Checked(0xFFFF_FFFF, 0x31, 0x31, 0x7C23_1048);
    Checked(0x7C23_1048, 0x32, 0x32, 0xB0AC_BB32);
    Checked(0xB0AC_BB32, 0x33, 0x33, 0x77B7_9C2D);
  }

  lemma NextThree()
    ensures ByteStep(0x77B7_9C2D, 0x34) == 0x641C_1F5C
    ensures ByteStep(0x641C_1F5C, 0x35) == 0x340A_C5E3
    ensures ByteStep(0x340A_C5E3, 0x36) == 0xF68D_2C9E
  {
    hide ByteStep;
    Checked(0x77B7_9C2D, 0x34, 0x34, 0x641C_1F5C);
    Checked(0x641C_1F5C, 0x35, 0x35, 0x340A_C5E3);
    Checked(0x340A_C5E3, 0x36, 0x36, 0xF68D_2C9E);
  }

  lemma LastThree()
    ensures ByteStep(0xF68D_2C9E, 0x37) == 0xAFFC_9660
    ensures ByteStep(0xAFFC_9660, 0x38) == 0x651F_2550
    ensures ByteStep(0x651F_2550, 0x39) == 0x340B_C6D9
  {
    hide ByteStep;
    Checked(0xF68D_2C9E, 0x37, 0x37, 0xAFFC_9660);
    Checked(0xAFFC_9660, 0x38, 0x38, 0x651F_2550);
    Checked(0x651F_2550, 0x39, 0x39, 0x340B_C6D9);
  }

  /** The check value by which CRC-32 is known: that of the text "123456789". */
  lemma CheckValue()
    ensures !Run(INITIAL, Ascii("123456789")) == 0xCBF4_3926
  {
    hide ByteStep;
    FirstThree();
    NextThree();
    LastThree();
    var digits: seq<byte> := [0x31, 0x32, 0x33, 0x34, 0x35, 0x36, 0x37, 0x38, 0x39];
    assert Ascii("123456789") == digits;
    RunThree(INITIAL, digits);
    RunThree(0x77B7_9C2D, digits[3..]);
    RunThree(0xF68D_2C9E, digits[3..][3..]);
    assert digits[3..][3..][3..] == [];
  }

  lemma RunOne(crc: bv32, data: seq<byte>)
    requires data != []
    ensures Run(crc, data) == Run(ByteStep(crc, data[0]), data[1..])
  {
    hide ByteStep;
  }

  lemma RunThree(crc: bv32, data: seq<byte>)
    requires |data| >= 3
    ensures Run(crc, data) == Run(ByteStep(ByteStep(ByteStep(crc, data[0]), data[1]), data[2]), data[3..])
  {
    hide ByteStep, Run;
    RunOne(crc, data);
    RunOne(ByteStep(crc, data[0]), data[1..]);
    RunOne(ByteStep(ByteStep(crc, data[0]), data[1]), data[2..]);
    assert data[1..][1..] == data[2..] && data[2..][1..] == data[3..];
    assert data[1..][0] == data[1] && data[2..][0] == data[2];
  }
}
