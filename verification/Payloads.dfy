/** The host's payload builders, and its reading of a signed reply. */
module Payloads {
  import opened Bytes
  import opened Codes
  import opened Esp
  import opened Frame
  import opened HmacSha
  import opened Sealing
  import M = OtaMachine

  const OTA_CHUNK_DATA_SIZE: nat := 1016
  const AUTH_OTA_CHUNK_DATA_SIZE: nat := 1000

  /** The data bytes of a full chunk: what a frame holds beside the header, and the tag if there is a key. */
  function ChunkSize(authKey: Option<seq<byte>>): (size: nat)
    ensures 0 < size <= OTA_CHUNK_DATA_SIZE
  {
    MAX_PAYLOAD - M.DATA_HEADER_SIZE - if authKey.Some? then TAG_SIZE else 0
  }

  /** What a builder returns or raises. */
  datatype Built = Payload(bytes: seq<byte>) | BadValue | TooLarge

  function BuildBegin(size: nat, digest: seq<byte>): Built
  {
    if !(0 < size <= 0xFFFF_FFFF) then BadValue
    else if |digest| != SHA256_SIZE then BadValue
    else Payload(Le32(size) + digest)
  }

  function BuildData(chunkNumber: nat, offset: nat, data: seq<byte>): Built
  {
    if chunkNumber > 0xFFFF_FFFF then BadValue
    else if offset > 0xFFFF_FFFF then BadValue
    else if |data| > OTA_CHUNK_DATA_SIZE then TooLarge
    else if |data| == 0 then BadValue
    else Payload(Le32(chunkNumber) + Le32(offset) + data)
  }

  /** The device reads back exactly what the host put into BEGIN. */
  lemma BeginReadBack(size: nat, digest: seq<byte>)
    requires BuildBegin(size, digest).Payload?
    ensures var p := BuildBegin(size, digest).bytes;
      |p| == M.BEGIN_PAYLOAD_SIZE && ReadLe32(p, 0) == size && p[4..] == digest
  {
    hide Le32, ReadLe32;
    var p := BuildBegin(size, digest).bytes;
    assert p[0..4] == Le32(size);
    Le32RoundTrip(size, p, 0);
  }

  /** The device reads back exactly what the host put into DATA. */
  lemma DataReadBack(chunkNumber: nat, offset: nat, data: seq<byte>)
    requires BuildData(chunkNumber, offset, data).Payload?
    ensures var p := BuildData(chunkNumber, offset, data).bytes;
      && M.DATA_HEADER_SIZE < |p| <= M.DATA_HEADER_SIZE + M.MAX_CHUNK_DATA_SIZE
      && ReadLe32(p, 4) == offset && p[M.DATA_HEADER_SIZE..] == data
  {
    hide Le32, ReadLe32;
    var p := BuildData(chunkNumber, offset, data).bytes;
    assert p[4..8] == Le32(offset);
    Le32RoundTrip(offset, p, 4);
  }

  /** Every chunk the host cuts fits a frame, with a tag when there is a session. */
  lemma ChunksFit(chunkNumber: nat, offset: nat, data: seq<byte>)
    requires BuildData(chunkNumber, offset, data).Payload?
    ensures |BuildData(chunkNumber, offset, data).bytes| <= MAX_PAYLOAD
    ensures |data| <= AUTH_OTA_CHUNK_DATA_SIZE <==>
      |BuildData(chunkNumber, offset, data).bytes| + TAG_SIZE <= MAX_PAYLOAD
  {
    hide Le32;
  }

  /** `_verified_response`: the reply without its tag, if the tag is right. */
  function Verified(h: Hash, sessionKey: seq<byte>, command: byte, sequence: uint16, p: Packet): Option<Packet>
  {
    if |p.payload| < TAG_SIZE then None
    else if TagOf(p.payload) != ResponseTag(h, sessionKey, command, p.command, sequence, Untagged(p.payload)) then None
    else Some(p.(payload := Untagged(p.payload)))
  }

  /** `ensure_ack` returns instead of exiting. */
  predicate EnsureAck(p: Packet)
  {
    p.command == CMD_ACK && (p.payload == [] || p.payload[0] == ERR_OK)
  }

  /** `_is_auth_required`. */
  predicate IsAuthRequired(p: Packet)
  {
    p.command == CMD_NACK && |p.payload| > 0 && p.payload[0] == ERR_AUTH_REQUIRED
  }
}
