/** The firmware's byte-at-a-time frame parser and its frame writer. */
module DeviceParser {
  import opened Bytes
  import opened Crc
  import opened Frame

  /** The parser's buffered bytes after one byte, and the packet it completed, if any. */
  datatype Fed = Fed(buffer: seq<byte>, packets: seq<Packet>)

  /**
   * What every reachable buffer looks like: shorter than a full frame, magic in
   * front, and once the header is complete a legal announced length that the
   * buffer has not reached.
   */
  predicate Partial(buffer: seq<byte>)
  {
    && |buffer| < BUFFER_SIZE
    && (|buffer| >= 1 ==> buffer[0] == MAGIC_0)
    && (|buffer| >= 2 ==> buffer[1] == MAGIC_1)
    && (|buffer| >= HEADER_SIZE ==> Announced(buffer) <= MAX_PAYLOAD && |buffer| < FrameSize(buffer))
  }

  function Step(buffer: seq<byte>, b: byte): (fed: Fed)
    requires Partial(buffer)
    ensures Partial(fed.buffer)
    ensures |fed.packets| <= 1 && (fed.packets != [] ==> fed.buffer == [])
    ensures fed.buffer == [] || fed.buffer == [MAGIC_0] || fed.buffer == buffer + [b]
  {
    if |buffer| == 0 && b != MAGIC_0 then Fed([], [])
    else if |buffer| == 1 && b != MAGIC_1 then Fed(if b == MAGIC_0 then [MAGIC_0] else [], [])
    else Stored(buffer, b)
  }

  /** The part of `Step` after the byte has been stored. */
  function Stored(buffer: seq<byte>, b: byte): (fed: Fed)
    requires Partial(buffer) && (buffer == [] ==> b == MAGIC_0) && (|buffer| == 1 ==> b == MAGIC_1)
    ensures Partial(fed.buffer)
    ensures |fed.packets| <= 1 && (fed.packets != [] ==> fed.buffer == [])
    ensures fed.buffer == [] || fed.buffer == buffer + [b]
  {
    var next := buffer + [b];
    if |next| < HEADER_SIZE then Fed(next, [])
    else if Announced(next) > MAX_PAYLOAD then Fed([], [])
    else if |next| < FrameSize(next) then Fed(next, [])
    else
      PartialBound(buffer, b);
      if !CrcOk(next) then Fed([], []) else Fed([], [Decode(next)])
  }

  lemma AnnouncedStable(s: seq<byte>, t: seq<byte>)
    requires |s| >= HEADER_SIZE
    ensures Announced(s + t) == Announced(s)
  {
  }

  /** A partial frame grows byte by byte up to the announced size, never past it. */
  lemma PartialBound(buffer: seq<byte>, b: byte)
    requires Partial(buffer) && |buffer| + 1 >= HEADER_SIZE
    requires Announced(buffer + [b]) <= MAX_PAYLOAD
    ensures |buffer| + 1 <= FrameSize(buffer + [b])
  {
    if |buffer| >= HEADER_SIZE { AnnouncedStable(buffer, [b]); }
  }

  /** The parser fed a stream byte by byte. */
  function Run(buffer: seq<byte>, stream: seq<byte>): (fed: Fed)
    requires Partial(buffer)
    ensures Partial(fed.buffer)
    decreases |stream|
  {
    if stream == [] then Fed(buffer, [])
    else
      var first := Step(buffer, stream[0]);
      var rest := Run(first.buffer, stream[1..]);
      Fed(rest.buffer, first.packets + rest.packets)
  }

  lemma {:induction false} RunConcat(buffer: seq<byte>, a: seq<byte>, b: seq<byte>)
    requires Partial(buffer)
    ensures var first := Run(buffer, a); var second := Run(first.buffer, b);
      Run(buffer, a + b) == Fed(second.buffer, first.packets + second.packets)
    decreases |a|
  {
    hide Step, Partial;
    if a == [] {
      assert a + b == b;
    } else {
      assert (a + b)[1..] == a[1..] + b;
      RunConcat(Step(buffer, a[0]).buffer, a[1..], b);
    }
  }

  lemma PrefixPartial(f: seq<byte>, k: nat)
    requires Partial(f) && k <= |f|
    ensures Partial(f[..k])
  {
    if k >= HEADER_SIZE {
      assert f == f[..k] + f[k..];
      AnnouncedStable(f[..k], f[k..]);
    }
  }

  lemma StepGrows(f: seq<byte>, b: byte)
    requires Partial(f) && Partial(f + [b])
    ensures Step(f, b) == Fed(f + [b], [])
  {
    hide ReadLe16, Crc32;
  }

  /** The bytes of a partial frame are simply collected. */
  lemma {:induction false} Accumulates(f: seq<byte>, k: nat)
    requires Partial(f) && k <= |f|
    ensures Partial(f[..k]) && Run(f[..k], f[k..]) == Fed(f, [])
    decreases |f| - k
  {
    hide Step, Partial;
    PrefixPartial(f, k);
    CutAt(f, k);
    if k < |f| {
      PrefixPartial(f, k + 1);
      StepGrows(f[..k], f[k]);
      Accumulates(f, k + 1);
    }
  }

  /** Fewer bytes than the smallest frame has never make a packet. */
  lemma {:induction false} ShortRun(buffer: seq<byte>, s: seq<byte>)
    requires Partial(buffer) && |buffer| + |s| < HEADER_SIZE + CRC_SIZE
    ensures Run(buffer, s).packets == []
    decreases |s|
  {
    hide Crc32, ReadLe32, Partial;
    if s != [] {
      ShortStep(buffer, s[0]);
      ShortRun(Step(buffer, s[0]).buffer, s[1..]);
    }
  }

  lemma ShortStep(buffer: seq<byte>, b: byte)
    requires Partial(buffer) && |buffer| + 1 < HEADER_SIZE + CRC_SIZE
    ensures Step(buffer, b).packets == []
  {
    hide Crc32, ReadLe32;
  }

  lemma CutAt(f: seq<byte>, k: nat)
    requires k <= |f|
    ensures if k == |f| then f[..k] == f && f[k..] == []
            else f[..k] + [f[k]] == f[..k + 1] && f[k..][0] == f[k] && f[k..][1..] == f[k + 1..]
  {
  }

  class Parser {
    const buffer: array<byte>
    var length: nat

    ghost predicate Valid()
      reads this, buffer
    {
      buffer.Length == BUFFER_SIZE && length <= buffer.Length && Partial(buffer[..length])
    }

    constructor ()
      ensures Valid() && fresh(buffer) && Contents() == []
    {
      buffer := new byte[BUFFER_SIZE];
      length := 0;
    }

    ghost function Contents(): (s: seq<byte>)
      reads this, buffer
      requires length <= buffer.Length
    {
      buffer[..length]
    }

    /** Feed one byte; `accepted` reports a completed packet. No write leaves the buffer. */
    method Feed(b: byte) returns (accepted: bool, packet: Packet)
      requires Valid()
      modifies this, buffer
      ensures Valid()
      ensures Contents() == Step(old(Contents()), b).buffer
      ensures Step(old(Contents()), b).packets == if accepted then [packet] else []
    {
      ghost var before := Contents();
      accepted, packet := false, Packet(0, 0, 0, []);
      if length == 0 && b != MAGIC_0 {
        return;
      }
      if length == 1 && b != MAGIC_1 {
        length := if b == MAGIC_0 then 1 else 0;
        buffer[0] := MAGIC_0;
        assert buffer[..length] == Step(before, b).buffer;
        return;
      }
      buffer[length] := b;
      length := length + 1;
      assert buffer[..length] == before + [b];
      accepted, packet := Finish(before, b);
    }

    /** The part of `Feed` after the byte has been stored. */
    method Finish(ghost before: seq<byte>, b: byte) returns (accepted: bool, packet: Packet)
      requires buffer.Length == BUFFER_SIZE && length <= buffer.Length
      requires Partial(before) && buffer[..length] == before + [b]
      requires (before == [] ==> b == MAGIC_0) && (|before| == 1 ==> b == MAGIC_1)
      modifies this`length
      ensures length <= buffer.Length
      ensures buffer[..length] == Stored(before, b).buffer
      ensures Stored(before, b).packets == if accepted then [packet] else []
    {
      hide Crc32, ReadLe16, ReadLe32, Partial;
      accepted, packet := false, Packet(0, 0, 0, []);
      var raw := buffer[..length];
      if length < HEADER_SIZE {
        return;
      }
      var payloadLength := ReadLe16(raw, 6);
      if payloadLength > MAX_PAYLOAD {
        length := 0;
        return;
      }
      var packetLength := HEADER_SIZE + payloadLength + CRC_SIZE;
      if length < packetLength {
        return;
      }
      PartialBound(before, b);
      var expected := ReadLe32(raw, HEADER_SIZE + payloadLength);
      var actual := ComputeCrc32(raw[2..HEADER_SIZE + payloadLength]);
      length := 0;
      if actual != expected {
        return;
      }
      packet := Packet(raw[2], raw[3], ReadLe16(raw, 4), raw[HEADER_SIZE..HEADER_SIZE + payloadLength]);
      accepted := true;
    }
  }

  /** `protocol_send_packet`: fills the transmit buffer and hands out its first bytes. */
  class Transmitter {
    const buffer: array<byte>

    constructor ()
      ensures buffer.Length == BUFFER_SIZE && fresh(buffer)
    {
      buffer := new byte[BUFFER_SIZE];
    }

    method SendPacket(command: byte, sequence: uint16, payload: seq<byte>) returns (sent: seq<byte>)
      requires buffer.Length == BUFFER_SIZE && |payload| <= MAX_PAYLOAD
      modifies buffer
      ensures sent == Encode(Packet(VERSION, command, sequence, payload)) && buffer[..|sent|] == sent
      ensures forall i | |sent| <= i < buffer.Length :: buffer[i] == old(buffer[i])
    {
      hide Crc32, Le16, Le32, Encode, Body;
      var n := |payload|;
      var header := [MAGIC_0, MAGIC_1, VERSION, command] + Le16(sequence) + Le16(n);
      Store(0, header);
      Store(HEADER_SIZE, payload);
      assert buffer[..HEADER_SIZE + n] == header + payload;
      assert buffer[2..HEADER_SIZE + n] == (header + payload)[2..];
      FrameParts(command, sequence, payload);
      var crc := ComputeCrc32(buffer[2..HEADER_SIZE + n]);
      Store(HEADER_SIZE + n, Le32(crc));
      sent := buffer[..HEADER_SIZE + n + CRC_SIZE];
    }

    /** memcpy into the buffer, behind what is there. */
    method Store(at: nat, data: seq<byte>)
      requires at + |data| <= buffer.Length
      modifies buffer
      ensures buffer[..at + |data|] == old(buffer[..at]) + data
      ensures forall i | at + |data| <= i < buffer.Length :: buffer[i] == old(buffer[i])
    {
      for i := 0 to |data|
        invariant buffer[..at + i] == old(buffer[..at]) + data[..i]
        invariant forall j | at + i <= j < buffer.Length :: buffer[j] == old(buffer[j])
      {
        buffer[at + i] := data[i];
        assert buffer[..at + i + 1] == buffer[..at + i] + [data[i]];
      }
    }
  }

  lemma FrameParts(command: byte, sequence: uint16, payload: seq<byte>)
    requires |payload| <= MAX_PAYLOAD
    ensures var p := Packet(VERSION, command, sequence, payload);
      var front := [MAGIC_0, MAGIC_1, VERSION, command] + Le16(sequence) + Le16(|payload|) + payload;
      front[2..] == Body(p) && front + Le32(Crc32(Body(p))) == Encode(p)
  {
    hide Crc32, Le16, Le32;
  }
}
