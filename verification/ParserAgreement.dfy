/** The two parsers of the one wire format: what they leave, and exactly when they agree. */
module ParserAgreement {
  import opened Bytes
  import opened Crc
  import opened Frame
  import D = DeviceParser
  import opened HostParser

  // ---- What the host parser leaves behind ----

  lemma WaitLeavesPartial(s: seq<byte>)
    requires ScanOnce(s).Wait?
    ensures D.Partial(ScanOnce(s).rest)
  {
    hide Crc32, FindFrom;
  }

  /** The residual host buffer is a partial frame, hence at most 1035 bytes, after any input. */
  lemma {:induction false} ScanLeavesPartial(s: seq<byte>)
    ensures D.Partial(Scan(s).rest) && |Scan(s).rest| <= BUFFER_SIZE - 1
    decreases |s|
  {
    hide ScanOnce, Scan;
    ScanUnfold(s);
    match ScanOnce(s) {
      case Wait(rest) => WaitLeavesPartial(s);
      case Skip(rest) => ScanLeavesPartial(rest);
      case Found(_, rest) => ScanLeavesPartial(rest);
    }
  }

  /** A partial frame is left alone by the rescan. */
  lemma PartialSettles(s: seq<byte>)
    requires D.Partial(s)
    ensures Rescanned(s)
  {
    hide Crc32, FindFrom, ReadLe16;
    if |s| >= 2 {
      assert MagicAt(s, 0);
      assert FindMagic(s) == 0 && s[0..] == s;
    }
  }

  // ---- One byte ----

  /** The byte completes a header that announces more than the largest payload. */
  predicate Overlong(buffer: seq<byte>, b: byte)
  {
    |buffer| == HEADER_SIZE - 1 && Announced(buffer + [b]) > MAX_PAYLOAD
  }

  function AsFed(r: Scanned): D.Fed { D.Fed(r.rest, r.packets) }

  lemma StepAgreesShort(buffer: seq<byte>, b: byte)
    requires D.Partial(buffer) && |buffer| < 2
    ensures AsFed(Scan(buffer + [b])) == D.Step(buffer, b)
  {
    hide Crc32;
    var next := buffer + [b];
    if buffer == [] {
      assert FindMagic(next) == -1;
    } else if b == MAGIC_1 {
      assert MagicAt(next, 0) && next[0..] == next;
    } else {
      assert !MagicAt(next, 0) && FindMagic(next) == -1;
    }
  }

  lemma StepAgreesLong(buffer: seq<byte>, b: byte)
    requires D.Partial(buffer) && |buffer| >= 2 && !Overlong(buffer, b)
    ensures AsFed(Scan(buffer + [b])) == D.Step(buffer, b)
  {
    hide Crc32, ReadLe32, FindFrom, Scan;
    var next := buffer + [b];
    assert MagicAt(next, 0) && FindMagic(next) == 0 && next[0..] == next;
    ScanUnfold(next);
    EmptyScan();
    if |next| >= HEADER_SIZE {
      if |buffer| >= HEADER_SIZE { D.AnnouncedStable(buffer, [b]); }
      if |next| == FrameSize(next) {
        assert next[..FrameSize(next)] == next && next[FrameSize(next)..] == [];
      }
    }
  }

  lemma EmptyScan()
    ensures Scan([]) == Scanned([], [])
  {
  }

  /** An over-long header: the device drops its eight bytes, the host drops the magic and rescans six. */
  lemma OverlongStep(buffer: seq<byte>, b: byte)
    requires D.Partial(buffer) && Overlong(buffer, b)
    ensures D.Step(buffer, b) == D.Fed([], [])
    ensures Scan(buffer + [b]) == Scan(buffer[2..] + [b])
  {
    hide Crc32, ReadLe16, FindFrom, Scan;
    var next := buffer + [b];
    assert MagicAt(next, 0) && FindMagic(next) == 0 && next[0..] == next;
    ScanUnfold(next);
    assert next[2..] == buffer[2..] + [b];
  }

  /** Fewer than eight bytes hold no frame: they dissolve when no magic starts in them. */
  lemma ShortScan(s: seq<byte>)
    requires 0 < |s| < HEADER_SIZE
    ensures Scan(s).packets == []
    ensures Scan(s).rest == [] <==> FindMagic(s) < 0 && s[|s| - 1] != MAGIC_0
  {
    hide FindFrom;
  }

  /** The header's six bytes after the magic cannot begin another frame. */
  predicate Dissolves(buffer: seq<byte>, b: byte)
  {
    |buffer| >= 2 && FindMagic(buffer[2..] + [b]) < 0 && b != MAGIC_0
  }

  /** One byte: the parsers agree unless an over-long header hides the start of another frame. */
  lemma StepAgreement(buffer: seq<byte>, b: byte)
    requires D.Partial(buffer)
    ensures AsFed(Scan(buffer + [b])) == D.Step(buffer, b) <==> (Overlong(buffer, b) ==> Dissolves(buffer, b))
  {
    hide Crc32, Scan, ScanOnce, D.Step, FindFrom, ReadLe16;
    if |buffer| < 2 {
      StepAgreesShort(buffer, b);
    } else if !Overlong(buffer, b) {
      StepAgreesLong(buffer, b);
    } else {
      OverlongStep(buffer, b);
      ShortScan(buffer[2..] + [b]);
    }
  }

  // ---- Whole streams ----

  /** No header that the device examines on this stream hides the start of another frame. */
  predicate Benign(buffer: seq<byte>, stream: seq<byte>)
    requires D.Partial(buffer)
    decreases |stream|
  {
    stream == [] ||
    ((Overlong(buffer, stream[0]) ==> Dissolves(buffer, stream[0])) &&
     Benign(D.Step(buffer, stream[0]).buffer, stream[1..]))
  }

  /** Both parsers hold the same bytes and have emitted the same packets after every byte. */
  predicate AgreeThroughout(buffer: seq<byte>, stream: seq<byte>)
    requires D.Partial(buffer)
  {
    forall k | 0 <= k <= |stream| :: AsFed(Scan(buffer + stream[..k])) == D.Run(buffer, stream[..k])
  }

  lemma {:induction false} BenignAgrees(buffer: seq<byte>, stream: seq<byte>)
    requires D.Partial(buffer) && Benign(buffer, stream)
    ensures AsFed(Scan(buffer + stream)) == D.Run(buffer, stream)
    decreases |stream|
  {
    hide Scan, D.Step, D.Partial, Overlong, Dissolves;
    if stream == [] {
      PartialSettles(buffer);
      assert buffer + [] == buffer;
    } else {
      var b, rest := stream[0], stream[1..];
      var fed := D.Step(buffer, b);
      StepAgreement(buffer, b);
      BenignAgrees(fed.buffer, rest);
      ScanConcat(buffer + [b], rest);
      assert buffer + [b] + rest == buffer + stream;
    }
  }

  lemma {:induction false} BenignPrefix(buffer: seq<byte>, stream: seq<byte>, k: nat)
    requires D.Partial(buffer) && Benign(buffer, stream) && k <= |stream|
    ensures Benign(buffer, stream[..k])
    decreases k
  {
    hide D.Step, D.Partial, Overlong, Dissolves;
    if k > 0 {
      BenignPrefix(D.Step(buffer, stream[0]).buffer, stream[1..], k - 1);
      assert stream[..k][1..] == stream[1..][..k - 1];
    }
  }

  /** Agreement after every byte means no header was harmful. */
  lemma {:induction false} AgreementIsBenign(buffer: seq<byte>, stream: seq<byte>)
    requires D.Partial(buffer) && AgreeThroughout(buffer, stream)
    ensures Benign(buffer, stream)
    decreases |stream|
  {
    hide Scan, D.Step, D.Partial, Overlong, Dissolves;
    if stream != [] {
      var b, rest := stream[0], stream[1..];
      var fed := D.Step(buffer, b);
      assert stream[..1] == [b];
      SingleByteRun(buffer, b);
      assert AsFed(Scan(buffer + stream[..1])) == D.Run(buffer, stream[..1]);
      StepAgreement(buffer, b);
      forall k | 0 <= k <= |rest|
        ensures AsFed(Scan(fed.buffer + rest[..k])) == D.Run(fed.buffer, rest[..k])
      {
        AgreementTail(buffer, stream, k);
      }
      AgreementIsBenign(fed.buffer, rest);
    }
  }

  lemma SingleByteRun(buffer: seq<byte>, b: byte)
    requires D.Partial(buffer)
    ensures D.Run(buffer, [b]) == D.Step(buffer, b)
  {
    hide D.Step, D.Partial;
    assert [b][1..] == [];
    assert D.Run(D.Step(buffer, b).buffer, []) == D.Fed(D.Step(buffer, b).buffer, []);
  }

  lemma AgreementTail(buffer: seq<byte>, stream: seq<byte>, k: nat)
    requires D.Partial(buffer) && stream != [] && k < |stream|
    requires AsFed(Scan(buffer + [stream[0]])) == D.Step(buffer, stream[0])
    requires AsFed(Scan(buffer + stream[..k + 1])) == D.Run(buffer, stream[..k + 1])
    ensures var fed := D.Step(buffer, stream[0]);
      AsFed(Scan(fed.buffer + stream[1..][..k])) == D.Run(fed.buffer, stream[1..][..k])
  {
    hide Scan, D.Step, D.Partial;
    var b, tail := stream[0], stream[1..][..k];
    assert stream[..k + 1] == [b] + tail && ([b] + tail)[1..] == tail;
    assert buffer + ([b] + tail) == buffer + [b] + tail;
    ScanConcat(buffer + [b], tail);
    var fed := D.Step(buffer, b);
    var x, y := Scan(fed.buffer + tail), D.Run(fed.buffer, tail);
    assert D.Run(buffer, [b] + tail) == D.Fed(y.buffer, fed.packets + y.packets);
    assert fed.packets + x.packets == fed.packets + y.packets;
    assert x.packets == (fed.packets + x.packets)[|fed.packets|..] == y.packets;
  }

  /** The exact condition under which the two parsers agree. */
  lemma ParsersAgreeExactly(stream: seq<byte>)
    ensures AgreeThroughout([], stream) <==> Benign([], stream)
  {
    hide Scan, D.Step, Overlong, Dissolves;
    if Benign([], stream) {
      forall k | 0 <= k <= |stream|
        ensures AsFed(Scan([] + stream[..k])) == D.Run([], stream[..k])
      {
        BenignPrefix([], stream, k);
        BenignAgrees([], stream[..k]);
      }
    }
    if AgreeThroughout([], stream) { AgreementIsBenign([], stream); }
  }

  /**
   * A stray magic in front of a frame whose sequence number exceeds 1024: the
   * sequence number is read as an over-long length. The host recovers the frame,
   * the device drops its first six bytes and starts anew inside it.
   */
  lemma StrayMagicHidesFrame(p: Packet)
    requires Sendable(p) && p.sequence > MAX_PAYLOAD
    ensures Scan([MAGIC_0, MAGIC_1] + Encode(p)) == Scanned([p], [])
    ensures D.Run([], [MAGIC_0, MAGIC_1] + Encode(p)) == D.Run([], Encode(p)[6..])
    ensures |p.payload| < 6 ==> D.Run([], [MAGIC_0, MAGIC_1] + Encode(p)).packets == []
  {
    hide Crc32, ReadLe32, FindFrom, Scan, Body, D.Run, Announced, Decode, CrcOk;
    var f := Encode(p);
    EncodeShape(p);
    StrayHeader(p);
    StrayScan(p);
    var s := [MAGIC_0, MAGIC_1] + f;
    DropsHeader(s[..8]);
    D.RunConcat([], s[..8], f[6..]);
    assert s == s[..8] + f[6..];
    if |p.payload| < 6 { D.ShortRun([], f[6..]); }
  }

  lemma StrayHeader(p: Packet)
    requires Sendable(p) && p.sequence > MAX_PAYLOAD
    ensures var s := [MAGIC_0, MAGIC_1] + Encode(p); MagicAt(s, 0) && Announced(s[..8]) > MAX_PAYLOAD
  {
    hide Crc32, ReadLe32, Body, Le32;
    var f := Encode(p);
    var s := [MAGIC_0, MAGIC_1] + f;
    EncodeShape(p);
    assert s[6..8] == f[4..6];
    Le16RoundTrip(p.sequence, s, 6);
  }

  lemma StrayScan(p: Packet)
    requires Sendable(p) && p.sequence > MAX_PAYLOAD
    ensures Scan([MAGIC_0, MAGIC_1] + Encode(p)) == Scanned([p], [])
  {
    hide Crc32, ReadLe32, FindFrom, Scan, Body;
    var f := Encode(p);
    var s := [MAGIC_0, MAGIC_1] + f;
    EncodeShape(p);
    EncodeDecode(p);
    StrayHeader(p);
    assert f[0] == f[..2][0] && f[1] == f[..2][1];
    assert FindMagic(s) == 0 && s[0..] == s && s[2..] == f;
    ScanUnfold(s);
    assert MagicAt(f, 0) && FindMagic(f) == 0 && f[0..] == f && f[..|f|] == f && f[|f|..] == [];
    ScanUnfold(f);
    EmptyScan();
  }

  lemma DropsHeader(h: seq<byte>)
    requires |h| == HEADER_SIZE && MagicAt(h, 0) && Announced(h) > MAX_PAYLOAD
    ensures D.Run([], h) == D.Fed([], [])
  {
    hide Crc32, ReadLe16, D.Run;
    var seven := h[..7];
    D.Accumulates(seven, 0);
    assert seven[..0] == [] && seven[0..] == seven && seven + [h[7]] == h;
    D.RunConcat([], seven, [h[7]]);
    SingleByteRun(seven, h[7]);
  }
}
