/** The wire format shared by device and host: one packet in one frame. */
module Frame {
  import opened Bytes
  import opened Crc
  import CrcTheory

  const MAGIC_0: byte := 0xAA
  const MAGIC_1: byte := 0x55
  const VERSION: byte := 1
  const MAX_PAYLOAD: nat := 1024
  const HEADER_SIZE: nat := 8
  const CRC_SIZE: nat := 4
  const BUFFER_SIZE: nat := 1036

  datatype Packet = Packet(version: byte, command: byte, sequence: uint16, payload: seq<byte>)

  predicate Sendable(p: Packet) { |p.payload| <= MAX_PAYLOAD }

  /** The bytes covered by the checksum. */
  function Body(p: Packet): (s: seq<byte>)
    requires Sendable(p)
    ensures |s| == 6 + |p.payload|
  {
    [p.version, p.command] + Le16(p.sequence) + Le16(|p.payload|) + p.payload
  }

  function Encode(p: Packet): (s: seq<byte>)
    requires Sendable(p)
    ensures |s| == HEADER_SIZE + |p.payload| + CRC_SIZE
  {
    [MAGIC_0, MAGIC_1] + Body(p) + Le32(Crc32(Body(p)))
  }

  predicate MagicAt(s: seq<byte>, i: int)
  {
    0 <= i && i + 1 < |s| && s[i] == MAGIC_0 && s[i + 1] == MAGIC_1
  }

  /** The payload length announced by a complete header. */
  function Announced(s: seq<byte>): uint16
    requires |s| >= HEADER_SIZE
  {
    ReadLe16(s, 6)
  }

  function FrameSize(s: seq<byte>): nat
    requires |s| >= HEADER_SIZE
  {
    HEADER_SIZE + Announced(s) + CRC_SIZE
  }

  /** A complete frame: magic, a legal length, and exactly as many bytes as it announces. */
  predicate Complete(s: seq<byte>)
  {
    MagicAt(s, 0) && |s| >= HEADER_SIZE && Announced(s) <= MAX_PAYLOAD && |s| == FrameSize(s)
  }

  /** The checksum test both parsers apply to a complete frame. */
  predicate CrcOk(s: seq<byte>)
    requires Complete(s)
  {
    Crc32(s[2..|s| - CRC_SIZE]) == ReadLe32(s, |s| - CRC_SIZE)
  }

  function Decode(s: seq<byte>): (p: Packet)
    requires Complete(s)
    ensures Sendable(p)
  {
    Packet(s[2], s[3], ReadLe16(s, 4), s[HEADER_SIZE..|s| - CRC_SIZE])
  }

  /** What `build_packet` returns or raises. */
  datatype Built = Raw(bytes: seq<byte>) | PacketTooLarge | SequenceError

  function BuildPacket(command: byte, sequence: int, payload: seq<byte>): Built
  {
    if |payload| > MAX_PAYLOAD then PacketTooLarge
    else if !(0 <= sequence <= 0xFFFF) then SequenceError
    else Raw(Encode(Packet(VERSION, command, sequence, payload)))
  }

  lemma EncodeShape(p: Packet)
    requires Sendable(p)
    ensures var s := Encode(p);
      && s[..2] == [MAGIC_0, MAGIC_1] && s[2] == p.version && s[3] == p.command
      && s[4..6] == Le16(p.sequence) && s[6..8] == Le16(|p.payload|)
      && s[8..|s| - 4] == p.payload && s[2..|s| - 4] == Body(p) && s[|s| - 4..] == Le32(Crc32(Body(p)))
  {
    hide Crc32, Le16, Le32;
    var s, n := Encode(p), |p.payload|;
    var a, b, c := [p.version, p.command], Le16(p.sequence), Le16(n);
    var body := a + b + c + p.payload;
    assert body[0] == p.version && body[1] == p.command && body[2..4] == b && body[4..6] == c && body[6..] == p.payload;
    assert s[2..8 + n] == body;
    assert s[4..6] == body[2..4] && s[6..8] == body[4..6] && s[8..8 + n] == body[6..];
  }

  /** A frame decodes to the packet it was built from. */
  lemma EncodeDecode(p: Packet)
    requires Sendable(p)
    ensures var s := Encode(p); Complete(s) && CrcOk(s) && Decode(s) == p
  {
    hide Crc32, Le16, Le32, ReadLe16, ReadLe32, Body;
    var s := Encode(p);
    EncodeShape(p);
    Le16RoundTrip(p.sequence, s, 4);
    Le16RoundTrip(|p.payload|, s, 6);
    assert s[|s| - 4..] == s[|s| - 4..|s| - 4 + 4];
    Le32RoundTrip(Crc32(Body(p)), s, |s| - 4);
    assert s[0] == s[..2][0] && s[1] == s[..2][1];
  }

  /** The encoding is canonical: an accepted frame is the frame of its packet. */
  lemma DecodeEncode(s: seq<byte>)
    requires Complete(s) && CrcOk(s)
    ensures Encode(Decode(s)) == s
  {
    hide Crc32, Body;
    var p := Decode(s);
    ReadLe16Inverse(s, 4);
    ReadLe16Inverse(s, 6);
    ReadLe32Inverse(s, |s| - 4);
    assert s[2..|s| - 4] == [s[2], s[3]] + s[4..6] + s[6..8] + s[8..|s| - 4];
    BodyShape(p);
    assert s == s[..2] + s[2..|s| - 4] + s[|s| - 4..];
    assert s[..2] == [MAGIC_0, MAGIC_1];
  }

  lemma BodyShape(p: Packet)
    requires Sendable(p)
    ensures Body(p) == [p.version, p.command] + Le16(p.sequence) + Le16(|p.payload|) + p.payload
  {
  }

  /** The trailer test is the test that the frame after the magic ends in its checksum. */
  lemma CrcOkIsChecked(s: seq<byte>)
    requires Complete(s)
    ensures CrcOk(s) <==> CrcTheory.Checked(s[2..])
  {
    hide Crc32, ReadLe16;
    var m := s[2..];
    var at := |s| - 4;
    assert m[..|m| - 4] == s[2..at] && m[|m| - 4..] == s[at..];
    assert s[at..] == s[at..at + 4];
    ReadLe32Inverse(s, at);
    if CrcTheory.Checked(m) { Le32RoundTrip(Crc32(s[2..at]), s, at); }
  }
}
