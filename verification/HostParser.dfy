/** The host's chunk-at-a-time frame parser: a rescan of a growing buffer. */
module HostParser {
  import opened Bytes
  import opened Crc
  import opened Frame

  /** The index of the first magic at or after `from`, or -1. */
  function FindFrom(s: seq<byte>, from: nat): (i: int)
    requires from <= |s|
    ensures i == -1 || from <= i
    ensures i >= 0 ==> MagicAt(s, i) && forall j | from <= j < i :: !MagicAt(s, j)
    ensures i < 0 ==> forall j | from <= j :: !MagicAt(s, j)
    decreases |s| - from
  {
    if from + 1 >= |s| then -1 else if MagicAt(s, from) then from else FindFrom(s, from + 1)
  }

  /** `bytearray.find` of the magic. */
  function FindMagic(s: seq<byte>): (i: int)
    ensures i >= -1
    ensures i >= 0 ==> MagicAt(s, i) && forall j | 0 <= j < i :: !MagicAt(s, j)
    ensures i < 0 ==> forall j :: !MagicAt(s, j)
  {
    FindFrom(s, 0)
  }

  /** A trailing first magic byte may be the start of the next frame. */
  function KeepPossiblePartialMagic(s: seq<byte>): seq<byte>
  {
    if s != [] && s[|s| - 1] == MAGIC_0 then [MAGIC_0] else []
  }

  /** One pass of the rescan loop. */
  datatype Pass =
    | Wait(rest: seq<byte>)
    | Skip(rest: seq<byte>)
    | Found(packet: Packet, rest: seq<byte>)

  function ScanOnce(s: seq<byte>): (pass: Pass)
    ensures pass.Wait? ==> |pass.rest| <= |s|
    ensures !pass.Wait? ==> |pass.rest| < |s|
  {
    var i := FindMagic(s);
    if i < 0 then Wait(KeepPossiblePartialMagic(s)) else ScanFront(s[i..])
  }

  /** The pass once the buffer starts with the magic. */
  function ScanFront(b: seq<byte>): (pass: Pass)
    requires MagicAt(b, 0)
    ensures pass.Wait? ==> pass.rest == b
    ensures !pass.Wait? ==> |pass.rest| < |b|
  {
    if |b| < HEADER_SIZE then Wait(b)
    else if Announced(b) > MAX_PAYLOAD then Skip(b[2..])
    else
      var size := FrameSize(b);
      if |b| < size then Wait(b)
      else if !CrcOk(b[..size]) then Skip(b[size..])
      else Found(Decode(b[..size]), b[size..])
  }

  datatype Scanned = Scanned(packets: seq<Packet>, rest: seq<byte>)

  /** The whole rescan of a buffer. */
  function Scan(s: seq<byte>): (r: Scanned)
    decreases |s|
  {
    match ScanOnce(s)
    case Wait(rest) => Scanned([], rest)
    case Skip(rest) => Scan(rest)
    case Found(p, rest) => var r := Scan(rest); Scanned([p] + r.packets, r.rest)
  }

  class PacketParser {
    var buffer: seq<byte>

    constructor ()
      ensures buffer == []
    {
      buffer := [];
    }

    method Feed(data: seq<byte>) returns (packets: seq<Packet>)
      modifies this
      ensures packets == Scan(old(buffer) + data).packets
      ensures buffer == Scan(old(buffer) + data).rest
    {
      hide Scan, ScanOnce;
      buffer := buffer + data;
      ghost var whole := buffer;
      packets := [];
      while true
        invariant Scan(whole) == Scanned(packets + Scan(buffer).packets, Scan(buffer).rest)
        decreases |buffer|
      {
        ScanUnfold(buffer);
        var waiting, found := Rescan();
        packets := packets + found;
        if waiting {
          return;
        }
      }
    }

    /** The body of the rescan loop: it either returns to the caller or goes round again. */
    method Rescan() returns (waiting: bool, found: seq<Packet>)
      modifies this
      ensures waiting == ScanOnce(old(buffer)).Wait?
      ensures buffer == ScanOnce(old(buffer)).rest
      ensures found == match ScanOnce(old(buffer)) case Found(p, _) => [p] case _ => []
    {
      hide Crc32, ReadLe32, FindFrom;
      ghost var before := buffer;
      var magicIndex := FindMagic(buffer);
      if magicIndex < 0 {
        buffer := KeepPossiblePartialMagic(buffer);
        return true, [];
      }
      if magicIndex != 0 {
        buffer := buffer[magicIndex..];
      }
      assert buffer == before[magicIndex..] && MagicAt(buffer, 0);
      if |buffer| < HEADER_SIZE {
        return true, [];
      }
      if !(buffer[0] == MAGIC_0 && buffer[1] == MAGIC_1) {
        assert false;
      }
      var length := ReadLe16(buffer, 6);
      if length > MAX_PAYLOAD {
        buffer := buffer[2..];
        return false, [];
      }
      var packetSize := HEADER_SIZE + length + CRC_SIZE;
      if |buffer| < packetSize {
        return true, [];
      }
      var raw := buffer[..packetSize];
      buffer := buffer[packetSize..];
      assert Announced(raw) == length;
      if Crc32(raw[2..packetSize - CRC_SIZE]) != ReadLe32(raw, packetSize - CRC_SIZE) {
        return false, [];
      }
      found := [Packet(raw[2], raw[3], ReadLe16(raw, 4), raw[HEADER_SIZE..packetSize - CRC_SIZE])];
      waiting := false;
    }
  }

  lemma ScanUnfold(s: seq<byte>)
    ensures Scan(s) ==
      match ScanOnce(s)
      case Wait(rest) => Scanned([], rest)
      case Skip(rest) => Scan(rest)
      case Found(p, rest) => Scanned([p] + Scan(rest).packets, Scan(rest).rest)
  {
  }

  // ---- Fragmentation independence ----

  lemma FindExtends(s: seq<byte>, t: seq<byte>)
    requires FindMagic(s) >= 0
    ensures FindMagic(s + t) == FindMagic(s)
  {
    hide FindFrom;
    var i, k := FindMagic(s), FindMagic(s + t);
    assert MagicAt(s + t, i);
    assert k < i ==> MagicAt(s, k);
  }

  /** What a waiting pass leaves is enough: scanning it with the next bytes is scanning everything. */
  lemma WaitExtends(s: seq<byte>, t: seq<byte>)
    requires ScanOnce(s).Wait?
    ensures Scan(s + t) == Scan(ScanOnce(s).rest + t)
  {
    hide Crc32, ReadLe16, ReadLe32, FindFrom, ScanFront;
    var rest := ScanOnce(s).rest;
    var i := FindMagic(s);
    if i >= 0 {
      FindExtends(s, t);
      assert (s + t)[i..] == s[i..] + t;
      assert FindMagic(s[i..] + t) == 0 by { assert MagicAt(s[i..] + t, 0); }
      assert (s[i..] + t)[0..] == s[i..] + t;
    } else {
      DropNoise(s, t);
    }
  }

  /** Bytes before the last one cannot take part in a magic that the buffer does not contain. */
  lemma DropNoise(s: seq<byte>, t: seq<byte>)
    requires FindMagic(s) < 0
    ensures Scan(s + t) == Scan(KeepPossiblePartialMagic(s) + t)
  {
    var keep := KeepPossiblePartialMagic(s);
    FindPastNoise(s, t);
    hide Scan, ScanFront, FindMagic;
    ScanUnfold(s + t);
    ScanUnfold(keep + t);
    if FindMagic(keep + t) < 0 { SameKept(s, t); }
  }

  lemma SameKept(s: seq<byte>, t: seq<byte>)
    ensures KeepPossiblePartialMagic(s + t) == KeepPossiblePartialMagic(KeepPossiblePartialMagic(s) + t)
  {
    if t != [] {
      assert (s + t)[|s + t| - 1] == t[|t| - 1];
    } else {
      assert s + t == s && KeepPossiblePartialMagic(s) + t == KeepPossiblePartialMagic(s);
    }
  }

  lemma FindPastNoise(s: seq<byte>, t: seq<byte>)
    requires FindMagic(s) < 0
    ensures var i, k := FindMagic(s + t), FindMagic(KeepPossiblePartialMagic(s) + t);
      (i < 0 && k < 0) || (i >= 0 && k >= 0 && (s + t)[i..] == (KeepPossiblePartialMagic(s) + t)[k..])
  {
    hide FindMagic, MagicAt;
    var keep := KeepPossiblePartialMagic(s);
    var cut := |s| - |keep|;
    assert (s + t)[cut..] == keep + t;
    var i, k := FindMagic(s + t), FindMagic(keep + t);
    if i >= 0 {
      if i < cut { NoMagicBefore(s, t, cut, i); }
      MagicMoves(s + t, keep + t, cut, i - cut);
    }
    if k >= 0 { MagicMoves(s + t, keep + t, cut, k); }
    if i >= 0 && k >= 0 {
      MagicInside(s + t, i);
      MagicInside(keep + t, k);
      assert i == k + cut;
      assert (s + t)[i..] == (s + t)[cut..][k..];
    }
  }

  lemma MagicInside(s: seq<byte>, i: nat)
    requires MagicAt(s, i)
    ensures i < |s|
  {
  }

  lemma MagicMoves(s: seq<byte>, t: seq<byte>, cut: nat, k: nat)
    requires cut <= |s| && s[cut..] == t
    ensures MagicAt(s, k + cut) == MagicAt(t, k)
  {
  }

  lemma NoMagicBefore(s: seq<byte>, t: seq<byte>, cut: nat, i: nat)
    requires FindMagic(s) < 0 && cut == |s| - |KeepPossiblePartialMagic(s)| && i < cut
    ensures !MagicAt(s + t, i)
  {
    assert !MagicAt(s, i);
  }

  lemma PassExtends(s: seq<byte>, t: seq<byte>)
    requires !ScanOnce(s).Wait?
    ensures ScanOnce(s + t) ==
      match ScanOnce(s) case Skip(r) => Skip(r + t) case Found(p, r) => Found(p, r + t) case Wait(r) => Wait(r)
  {
    hide Crc32, ReadLe32, FindFrom, ScanFront;
    var i := FindMagic(s);
    FindExtends(s, t);
    assert (s + t)[i..] == s[i..] + t;
    FrontExtends(s[i..], t);
  }

  lemma FrontExtends(b: seq<byte>, t: seq<byte>)
    requires MagicAt(b, 0) && !ScanFront(b).Wait?
    ensures ScanFront(b + t) ==
      match ScanFront(b) case Skip(r) => Skip(r + t) case Found(p, r) => Found(p, r + t) case Wait(r) => Wait(r)
  {
    hide Crc32, ReadLe32;
    assert Announced(b + t) == Announced(b);
    if Announced(b) > MAX_PAYLOAD {
      assert (b + t)[2..] == b[2..] + t;
    } else {
      var size := FrameSize(b);
      assert (b + t)[..size] == b[..size] && (b + t)[size..] == b[size..] + t;
    }
  }

  /** Feeding two pieces yields what feeding them joined yields. */
  lemma {:induction false} ScanConcat(s: seq<byte>, t: seq<byte>)
    ensures var first := Scan(s); var second := Scan(first.rest + t);
      Scan(s + t) == Scanned(first.packets + second.packets, second.rest)
    decreases |s|
  {
    hide ScanOnce, Scan;
    ScanUnfold(s);
    ScanUnfold(s + t);
    match ScanOnce(s) {
      case Wait(rest) =>
        WaitExtends(s, t);
      case Skip(rest) =>
        PassExtends(s, t);
        ScanConcat(rest, t);
      case Found(p, rest) =>
        PassExtends(s, t);
        ScanConcat(rest, t);
    }
  }

  function Join(pieces: seq<seq<byte>>): seq<byte>
  {
    if pieces == [] then [] else pieces[0] + Join(pieces[1..])
  }

  /** A parser fed piece by piece. */
  function FeedAll(buffer: seq<byte>, pieces: seq<seq<byte>>): Scanned
    decreases |pieces|
  {
    if pieces == [] then Scanned([], buffer)
    else
      var first := Scan(buffer + pieces[0]);
      var rest := FeedAll(first.rest, pieces[1..]);
      Scanned(first.packets + rest.packets, rest.rest)
  }

  /** A buffer that the scan leaves alone. */
  predicate Rescanned(s: seq<byte>) { Scan(s) == Scanned([], s) }

  lemma {:induction false} ScanSettles(s: seq<byte>)
    ensures Rescanned(Scan(s).rest)
    decreases |s|
  {
    hide ScanOnce, Scan, KeepPossiblePartialMagic;
    ScanUnfold(s);
    match ScanOnce(s) {
      case Wait(rest) =>
        WaitExtends(s, []);
        assert s + [] == s && rest + [] == rest;
        assert Scan(rest).rest == rest && Scan(rest).packets == [];
      case Skip(rest) => ScanSettles(rest);
      case Found(_, rest) => ScanSettles(rest);
    }
  }

  /** Every way of splitting a stream yields the same packets and leaves the same buffer. */
  lemma {:induction false} FragmentationIndependence(buffer: seq<byte>, pieces: seq<seq<byte>>)
    requires Rescanned(buffer)
    ensures FeedAll(buffer, pieces) == Scan(buffer + Join(pieces))
    decreases |pieces|
  {
    hide Scan;
    if pieces == [] {
      assert buffer + [] == buffer;
    } else {
      var first := Scan(buffer + pieces[0]);
      ScanSettles(buffer + pieces[0]);
      FragmentationIndependence(first.rest, pieces[1..]);
      ScanConcat(buffer + pieces[0], Join(pieces[1..]));
      assert buffer + pieces[0] + Join(pieces[1..]) == buffer + Join(pieces);
    }
  }
}
