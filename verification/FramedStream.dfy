/** Frames on a noisy byte stream: what both parsers recover, and how fast they recover. */
module FramedStream {
  import opened Bytes
  import opened Crc
  import opened Frame
  import CrcTheory
  import D = DeviceParser
  import opened HostParser
  import ParserAgreement

  /** Bytes that contain no magic. */
  predicate Noise(s: seq<byte>) { FindMagic(s) < 0 }

  datatype Item = Item(noise: seq<byte>, packet: Packet)

  predicate Legal(items: seq<Item>)
  {
    forall i | 0 <= i < |items| :: Noise(items[i].noise) && Sendable(items[i].packet)
  }

  /** Frames with noise before each of them and after the last. */
  function Stream(items: seq<Item>, tail: seq<byte>): seq<byte>
    requires Legal(items)
  {
    if items == [] then tail
    else items[0].noise + Encode(items[0].packet) + Stream(items[1..], tail)
  }

  function Packets(items: seq<Item>): seq<Packet>
  {
    if items == [] then [] else [items[0].packet] + Packets(items[1..])
  }

  // ---- The device ----

  lemma {:induction false} RunNoise(buffer: seq<byte>, noise: seq<byte>)
    requires (buffer == [] || buffer == [MAGIC_0]) && Noise(buffer + noise)
    ensures D.Run(buffer, noise) == D.Fed(KeepPossiblePartialMagic(buffer + noise), [])
    decreases |noise|
  {
    hide D.Step, FindMagic;
    if noise == [] {
      assert buffer + [] == buffer;
    } else {
      var b := noise[0];
      var next := if b == MAGIC_0 then [MAGIC_0] else [];
      assert buffer == [MAGIC_0] ==> !MagicAt(buffer + noise, 0);
      NoiseStep(buffer, b);
      NoiseTail(buffer, noise, next);
      RunNoise(next, noise[1..]);
    }
  }

  lemma NoiseTail(buffer: seq<byte>, noise: seq<byte>, next: seq<byte>)
    requires (buffer == [] || buffer == [MAGIC_0]) && Noise(buffer + noise) && noise != []
    requires next == if noise[0] == MAGIC_0 then [MAGIC_0] else []
    ensures Noise(next + noise[1..])
    ensures KeepPossiblePartialMagic(next + noise[1..]) == KeepPossiblePartialMagic(buffer + noise)
  {
    hide FindFrom;
    if next == [] {
      assert next + noise[1..] == noise[1..];
      NoiseSuffix(buffer + noise, noise[1..]);
    } else {
      assert next + noise[1..] == noise;
      NoiseSuffix(buffer + noise, noise);
    }
    SameEnding(buffer, noise, next);
  }

  /** A suffix of noise is noise. */
  lemma NoiseSuffix(s: seq<byte>, t: seq<byte>)
    requires Noise(s) && |t| <= |s| && s[|s| - |t|..] == t
    ensures Noise(t)
  {
    hide FindFrom;
    var i := FindMagic(t);
    assert i >= 0 ==> MagicAt(s, i + (|s| - |t|));
  }

  lemma SameEnding(buffer: seq<byte>, noise: seq<byte>, next: seq<byte>)
    requires (buffer == [] || buffer == [MAGIC_0]) && noise != []
    requires next == if noise[0] == MAGIC_0 then [MAGIC_0] else []
    ensures KeepPossiblePartialMagic(next + noise[1..]) == KeepPossiblePartialMagic(buffer + noise)
  {
    if |noise| > 1 {
      var s, t := buffer + noise, next + noise[1..];
      assert t[|t| - 1] == noise[|noise| - 1] == s[|s| - 1];
    } else {
      assert next + noise[1..] == next;
      var s := buffer + noise;
      assert s[|s| - 1] == noise[0];
    }
  }

  lemma NoiseStep(buffer: seq<byte>, b: byte)
    requires (buffer == [] || buffer == [MAGIC_0]) && (buffer == [MAGIC_0] ==> b != MAGIC_1)
    ensures D.Step(buffer, b) == D.Fed(if b == MAGIC_0 then [MAGIC_0] else [], [])
  {
  }

  /** A complete frame with a wrong checksum is dropped whole, a right one is decoded. */
  lemma RunFrame(buffer: seq<byte>, f: seq<byte>)
    requires (buffer == [] || buffer == [MAGIC_0]) && Complete(f)
    ensures D.Run(buffer, f) == D.Fed([], if CrcOk(f) then [Decode(f)] else [])
  {
    hide Crc32, ReadLe16, D.Run, Decode;
    var n := |f| - 1;
    var most, last := f[..n], f[n];
    assert f == most + [last] && most == f[..1] + most[1..] && most[..1] == [MAGIC_0];
    assert D.Partial(most) by {
      D.AnnouncedStable(most, [last]);
    }
    D.Accumulates(most, 1);
    NoiseStep(buffer, MAGIC_0);
    ParserAgreement.SingleByteRun(buffer, MAGIC_0);
    D.RunConcat(buffer, [MAGIC_0], most[1..]);
    assert [MAGIC_0] + most[1..] == most;
    D.RunConcat(buffer, most, [last]);
    ParserAgreement.SingleByteRun(most, last);
  }

  /** Any list of frames in noise reaches the device as exactly that list. */
  lemma {:induction false} DeviceDecodesStream(items: seq<Item>, tail: seq<byte>)
    requires Legal(items) && Noise(tail)
    ensures D.Run([], Stream(items, tail)) == D.Fed(KeepPossiblePartialMagic(tail), Packets(items))
    decreases |items|
  {
    hide Crc32, D.Run, Encode, FindMagic, KeepPossiblePartialMagic, D.Partial;
    if items == [] {
      assert [] + tail == tail;
      RunNoise([], tail);
    } else {
      var noise, p := items[0].noise, items[0].packet;
      var rest := Stream(items[1..], tail);
      DeviceDecodesItem(noise, p);
      DeviceDecodesStream(items[1..], tail);
      D.RunConcat([], noise + Encode(p), rest);
    }
  }

  lemma DeviceDecodesItem(noise: seq<byte>, p: Packet)
    requires Noise(noise) && Sendable(p)
    ensures D.Run([], noise + Encode(p)) == D.Fed([], [p])
  {
    hide Crc32, D.Run, Encode, FindMagic, D.Partial;
    assert [] + noise == noise;
    RunNoise([], noise);
    EncodeDecode(p);
    RunFrame(KeepPossiblePartialMagic(noise), Encode(p));
    D.RunConcat([], noise, Encode(p));
  }

  // ---- The host ----

  lemma ScanFrame(f: seq<byte>, rest: seq<byte>)
    requires Complete(f) && CrcOk(f)
    ensures Scan(f + rest) == Scanned([Decode(f)] + Scan(rest).packets, Scan(rest).rest)
  {
    hide Crc32, ReadLe32, FindFrom, Scan, Decode;
    var s := f + rest;
    assert MagicAt(s, 0) && FindMagic(s) == 0 && s[0..] == s;
    ScanUnfold(s);
    assert s[..|f|] == f && s[|f|..] == rest;
  }

  /** Noise in front of a frame is skipped, even when it ends in the first magic byte. */
  lemma ScanNoiseBeforeFrame(noise: seq<byte>, s: seq<byte>)
    requires Noise(noise) && MagicAt(s, 0)
    ensures Scan(noise + s) == Scan(s)
  {
    hide ScanFront, FindFrom;
    var t := noise + s;
    assert FindMagic(s) == 0 && s[0..] == s;
    assert MagicAt(t, |noise|);
    var i := FindMagic(t);
    assert 0 <= i < |noise| - 1 ==> MagicAt(noise, i);
    assert i == |noise| && t[i..] == s;
  }

  lemma {:induction false} HostDecodesStream(items: seq<Item>, tail: seq<byte>)
    requires Legal(items) && Noise(tail)
    ensures Scan(Stream(items, tail)) == Scanned(Packets(items), KeepPossiblePartialMagic(tail))
    decreases |items|
  {
    hide Crc32, Encode, FindMagic, KeepPossiblePartialMagic, Scan, ScanFront;
    ScanUnfold(Stream(items, tail));
    if items != [] {
      var noise, p := items[0].noise, items[0].packet;
      var f, rest := Encode(p), Stream(items[1..], tail);
      HostDecodesStream(items[1..], tail);
      EncodeDecode(p);
      ScanFrame(f, rest);
      ScanNoiseBeforeFrame(noise, f + rest);
      assert noise + f + rest == noise + (f + rest);
    }
  }

  /** The round trip through noise, however the stream is cut into pieces for the host. */
  lemma StreamRoundTrip(items: seq<Item>, tail: seq<byte>, pieces: seq<seq<byte>>)
    requires Legal(items) && Noise(tail) && Join(pieces) == Stream(items, tail)
    ensures D.Run([], Stream(items, tail)).packets == Packets(items)
    ensures FeedAll([], pieces).packets == Packets(items)
    ensures FeedAll([], pieces).rest == D.Run([], Stream(items, tail)).buffer
  {
    hide Scan, Stream, FindMagic, D.Run;
    DeviceDecodesStream(items, tail);
    HostDecodesStream(items, tail);
    ParserAgreement.EmptyScan();
    FragmentationIndependence([], pieces);
    assert [] + Join(pieces) == Join(pieces);
  }

  // ---- Damaged frames ----

  /** The header fields that delimit the frame are intact. */
  predicate SameOutline(f: seq<byte>, g: seq<byte>)
  {
    |f| == |g| >= HEADER_SIZE && f[..2] == g[..2] && f[6..8] == g[6..8]
  }

  /**
   * A frame hit by a burst of at most 32 bits outside magic and length is never
   * delivered: both parsers consume it and are idle again.
   */
  lemma BurstIsDropped(p: Packet, g: seq<byte>, at: nat)
    requires Sendable(p) && SameOutline(Encode(p), g) && CrcTheory.BurstAt(Encode(p)[2..], g[2..], at)
    ensures D.Run([], g) == D.Fed([], []) && Scan(g) == Scanned([], [])
  {
    hide Crc32, CrcTheory.BurstAt, CrcTheory.Checked, Encode, D.Run, Scan, D.Partial;
    var f := Encode(p);
    EncodeDecode(p);
    OutlineComplete(f, g);
    CrcOkIsChecked(f);
    CrcOkIsChecked(g);
    CrcTheory.BurstDetected(f[2..], g[2..], at);
    RunFrame([], g);
    ScanDamaged(g);
  }

  lemma OutlineComplete(f: seq<byte>, g: seq<byte>)
    requires Complete(f) && SameOutline(f, g)
    ensures Complete(g)
  {
    assert f[0] == f[..2][0] && f[1] == f[..2][1] && g[0] == g[..2][0] && g[1] == g[..2][1];
    assert f[6] == f[6..8][0] && f[7] == f[6..8][1] && g[6] == g[6..8][0] && g[7] == g[6..8][1];
  }

  lemma ScanDamaged(g: seq<byte>)
    requires Complete(g) && !CrcOk(g)
    ensures Scan(g) == Scanned([], [])
  {
    hide Crc32, ReadLe32, FindFrom, Scan;
    assert FindMagic(g) == 0 && g[0..] == g;
    ScanUnfold(g);
    ParserAgreement.EmptyScan();
    assert g[..|g|] == g && g[|g|..] == [];
  }

  // ---- Resynchronisation ----

  predicate FreeOfMagic0(s: seq<byte>) { forall i | 0 <= i < |s| :: s[i] != MAGIC_0 }

  /** How many bytes a stuck parser may still swallow. */
  function Backlog(buffer: seq<byte>): nat
    requires D.Partial(buffer)
  {
    if buffer == [] then 0 else BUFFER_SIZE - |buffer|
  }

  lemma BacklogShrinks(buffer: seq<byte>, b: byte)
    requires D.Partial(buffer) && b != MAGIC_0
    ensures var next := D.Step(buffer, b).buffer; next == [] || Backlog(next) < Backlog(buffer)
  {
    hide D.Stored, ReadLe16;
  }

  /** From every reachable state, enough bytes other than 0xAA leave the device idle. */
  lemma {:induction false} Resynchronises(buffer: seq<byte>, junk: seq<byte>)
    requires D.Partial(buffer) && FreeOfMagic0(junk) && |junk| >= Backlog(buffer)
    ensures D.Run(buffer, junk).buffer == []
    decreases |junk|
  {
    hide D.Step;
    if junk != [] {
      BacklogShrinks(buffer, junk[0]);
      Resynchronises(D.Step(buffer, junk[0]).buffer, junk[1..]);
    }
  }

  /** 1035 such bytes always suffice, and the next frame is then decoded. */
  lemma ResyncThenDecode(buffer: seq<byte>, junk: seq<byte>, p: Packet)
    requires D.Partial(buffer) && FreeOfMagic0(junk) && |junk| >= BUFFER_SIZE - 1 && Sendable(p)
    ensures D.Run(buffer, junk + Encode(p)) == D.Fed([], D.Run(buffer, junk).packets + [p])
  {
    hide Crc32, Encode, D.Run, D.Partial;
    Resynchronises(buffer, junk);
    EncodeDecode(p);
    RunFrame([], Encode(p));
    D.RunConcat(buffer, junk, Encode(p));
  }

  /** A largest frame that lacks its last byte, which is going to be a wrong one. */
  function Stuck(t: byte): (f: seq<byte>)
    ensures |f| == BUFFER_SIZE - 1
  {
    [MAGIC_0, MAGIC_1, 0, 0, 0, 0, 0, 4] + seq(MAX_PAYLOAD, _ => 0) + [t, 0, 0]
  }

  lemma StuckIsPartial(t: byte)
    ensures D.Partial(Stuck(t))
  {
    assert ReadLe16(Stuck(t), 6) == 1024;
  }

  /** At most one of two trailers is the checksum of the same body. */
  lemma OneIsWrong() returns (t: byte)
    ensures t != MAGIC_0 && Complete(Stuck(t) + [MAGIC_0]) && !CrcOk(Stuck(t) + [MAGIC_0])
  {
    hide Crc32;
    var f, g := Stuck(0) + [MAGIC_0], Stuck(1) + [MAGIC_0];
    assert ReadLe16(f, 6) == 1024 && ReadLe16(g, 6) == 1024;
    assert f[2..|f| - CRC_SIZE] == g[2..|g| - CRC_SIZE];
    assert ReadLe32(f, |f| - CRC_SIZE) + 1 == ReadLe32(g, |g| - CRC_SIZE);
    t := if CrcOk(f) then 1 else 0;
  }

  /** 1034 do not: the parser may still be waiting, and then the next frame is lost. */
  lemma ResyncBoundIsTight() returns (buffer: seq<byte>, junk: seq<byte>)
    ensures D.Partial(buffer) && FreeOfMagic0(junk) && |junk| == BUFFER_SIZE - 2
    ensures forall p: Packet :: p.payload == [] ==> D.Run(buffer, junk + Encode(p)).packets == []
  {
    hide Encode, Stuck, Crc32, Complete, CrcOk, D.Run, D.Partial;
    var t := OneIsWrong();
    var f := Stuck(t);
    StuckIsPartial(t);
    StuckIsClean(t);
    buffer, junk := f[..1], f[1..];
    D.PrefixPartial(f, 1);
    forall p: Packet | p.payload == []
      ensures D.Run(buffer, junk + Encode(p)).packets == []
    {
      LostFrame(f, p);
    }
  }

  lemma StuckIsClean(t: byte)
    requires t != MAGIC_0
    ensures FreeOfMagic0(Stuck(t)[1..])
  {
  }

  lemma LostFrame(f: seq<byte>, p: Packet)
    requires D.Partial(f) && |f| == BUFFER_SIZE - 1 && p.payload == []
    requires Complete(f + [MAGIC_0]) && !CrcOk(f + [MAGIC_0])
    ensures D.Partial(f[..1]) && D.Run(f[..1], f[1..] + Encode(p)).packets == []
  {
    hide Crc32, ReadLe16, D.Run, D.Partial, Body, Le32;
    var s := Encode(p);
    D.Accumulates(f, 1);
    D.RunConcat(f[..1], f[1..], s);
    assert s == [MAGIC_0] + s[1..];
    D.RunConcat(f, [MAGIC_0], s[1..]);
    ParserAgreement.SingleByteRun(f, MAGIC_0);
    EmptyIsPartial();
    D.ShortRun([], s[1..]);
  }

  lemma EmptyIsPartial()
    ensures D.Partial([])
  {
  }
}
