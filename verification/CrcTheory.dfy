/**
 * What the checksum detects.
 *
 * The byte-wise table-free loop is the bit-serial register: every message bit is
 * added to the lowest register bit and the register is clocked once. A clock is
 * injective, and 32 message bits clocked in one by one are the same as adding
 * them to the register at once, so a burst of at most 32 bits always leaves a
 * trace in the register that no equal suffix can erase.
 */
module CrcTheory {
  import opened Bytes
  import opened Words
  import opened Crc

  type Register = s: seq<bool> | |s| == 32 witness Zeros(32)

  // ---- The register clock on bits ----

  function Polynomial(): Register { RegisterBits(POLYNOMIAL) }

  function Clock(r: Register): Register
  {
    var shifted := r[1..] + [false];
    if r[0] then Xor(shifted, Polynomial()) else shifted
  }

  function Clocks(n: nat, r: Register): Register
  {
    if n == 0 then r else Clocks(n - 1, Clock(r))
  }

  /** The register after a bit string, one bit at a time. */
  function Feed(r: Register, bits: seq<bool>): Register
    decreases |bits|
  {
    if bits == [] then r else Feed(Clock(r[0 := r[0] != bits[0]]), bits[1..])
  }

  lemma PolynomialTopBit()
    ensures Polynomial()[31]
  {
    ShiftRightByte(23, POLYNOMIAL);
    ShiftRightByte(15, 0xED_B883);
    ShiftRightByte(7, 0xEDB8);
    assert ShiftRight(4, 0xE) == 0;
    assert ShiftRight(4, 0xED) == 0xE;
    assert ShiftRight(3, 0xE) == 1;
    ShiftRightFour(3, 0xED);
    WordBitsSuffix(POLYNOMIAL, 31);
  }

  lemma ClockInjective(r: Register, s: Register)
    requires Clock(r) == Clock(s)
    ensures r == s
  {
    PolynomialTopBit();
    assert Clock(r)[31] == r[0] && Clock(s)[31] == s[0];
    forall i | 0 <= i < 32
      ensures r[i] == s[i]
    {
      if i > 0 {
        assert Clock(r)[i - 1] == (r[i] != (r[0] && Polynomial()[i - 1]));
        assert Clock(s)[i - 1] == (s[i] != (s[0] && Polynomial()[i - 1]));
      }
    }
  }

  lemma {:induction false} ClocksInjective(n: nat, r: Register, s: Register)
    requires Clocks(n, r) == Clocks(n, s)
    ensures r == s
  {
    if n > 0 {
      ClocksInjective(n - 1, Clock(r), Clock(s));
      ClockInjective(r, s);
    }
  }

  // ---- The code runs the bit-serial register ----

  lemma BitStepCases(crc: bv32)
    ensures BitStep(crc) == if Low(crc) then Half(crc) ^ POLYNOMIAL else Half(crc)
  {
    if Low(crc) { MaskFull(crc); } else { MaskEmpty(crc); }
  }

  lemma MaskFull(crc: bv32)
    requires Low(crc)
    ensures POLYNOMIAL & (0 - (crc & 1)) == POLYNOMIAL
  {
    assert crc & 1 == 1;
  }

  lemma MaskEmpty(crc: bv32)
    requires !Low(crc)
    ensures POLYNOMIAL & (0 - (crc & 1)) == 0
  {
    assert crc & 1 == 0;
  }

  lemma BitStepClocks(crc: bv32)
    ensures RegisterBits(BitStep(crc)) == Clock(RegisterBits(crc))
  {
    BitStepCases(crc);
    RegisterBitsShift(crc);
    WordBitsXor(Half(crc), POLYNOMIAL, Half(crc) ^ POLYNOMIAL, 32);
  }

  lemma {:induction false} BitStepsClocks(n: nat, crc: bv32)
    ensures RegisterBits(BitSteps(n, crc)) == Clocks(n, RegisterBits(crc))
  {
    if n > 0 {
      BitStepClocks(crc);
      BitStepsClocks(n - 1, BitStep(crc));
    }
  }

  /** Bits above the lowest one pass through a clock unchanged. */
  lemma ClockCommutes(r: Register, b: bool, rest: seq<bool>)
    requires |rest| == 31
    ensures Clock(Xor(r, [b] + rest)) == Xor(Clock(r[0 := r[0] != b]), rest + [false])
  {
    var x := Xor(r, [b] + rest);
    var y := r[0 := r[0] != b];
    assert x[0] == y[0];
    forall i | 0 <= i < 32
      ensures Clock(x)[i] == Xor(Clock(y), rest + [false])[i]
    {
      if i < 31 { assert x[i + 1] == (r[i + 1] != rest[i]); }
    }
  }

  /** Up to 32 message bits may be added to the register at once. */
  lemma {:induction false} FeedAtOnce(r: Register, bits: seq<bool>)
    requires |bits| <= 32
    ensures Feed(r, bits) == Clocks(|bits|, Xor(r, bits + Zeros(32 - |bits|)))
    decreases |bits|
  {
    hide Clock, Xor, Feed, Clocks;
    if bits == [] {
      NothingFed(r);
    } else {
      var b, rest := bits[0], bits[1..] + Zeros(32 - |bits|);
      var next := Clock(r[0 := r[0] != b]);
      Padded(bits);
      FirstBit(r, bits);
      FirstClock(|bits|, Xor(r, [b] + rest));
      ClockCommutes(r, b, rest);
      FeedAtOnce(next, bits[1..]);
    }
  }

  lemma NothingFed(r: Register)
    ensures Feed(r, []) == Clocks(0, Xor(r, [] + Zeros(32)))
  {
    assert [] + Zeros(32) == Zeros(32);
    assert Xor(r, Zeros(32)) == r;
  }

  lemma FirstBit(r: Register, bits: seq<bool>)
    requires bits != []
    ensures Feed(r, bits) == Feed(Clock(r[0 := r[0] != bits[0]]), bits[1..])
  {
  }

  lemma FirstClock(n: nat, r: Register)
    requires n > 0
    ensures Clocks(n, r) == Clocks(n - 1, Clock(r))
  {
  }

  lemma Padded(bits: seq<bool>)
    requires 0 < |bits| <= 32
    ensures var rest := bits[1..] + Zeros(32 - |bits|);
      bits + Zeros(32 - |bits|) == [bits[0]] + rest && bits[1..] + Zeros(33 - |bits|) == rest + [false]
  {
  }

  lemma {:induction false} FeedConcat(r: Register, a: seq<bool>, b: seq<bool>)
    ensures Feed(r, a + b) == Feed(Feed(r, a), b)
    decreases |a|
  {
    if a == [] {
      assert a + b == b;
    } else {
      assert (a + b)[1..] == a[1..] + b;
      FeedConcat(Clock(r[0 := r[0] != a[0]]), a[1..], b);
    }
  }

  lemma {:induction false} FeedInjective(r: Register, s: Register, bits: seq<bool>)
    requires Feed(r, bits) == Feed(s, bits)
    ensures r == s
    decreases |bits|
  {
    if bits != [] {
      var r', s' := r[0 := r[0] != bits[0]], s[0 := s[0] != bits[0]];
      FeedInjective(Clock(r'), Clock(s'), bits[1..]);
      ClockInjective(r', s');
      assert forall i | 0 <= i < 32 :: r'[i] == s'[i];
      assert r == r'[0 := r'[0] != bits[0]] && s == s'[0 := s'[0] != bits[0]];
    }
  }

  lemma XorInjective(r: seq<bool>, a: seq<bool>, b: seq<bool>)
    requires |r| == |a| == |b| && Xor(r, a) == Xor(r, b)
    ensures a == b
  {
    forall i | 0 <= i < |r|
      ensures a[i] == b[i]
    {
      assert Xor(r, a)[i] == Xor(r, b)[i];
    }
  }

  /** A window of at most 32 bits determines the register after it. */
  lemma WindowInjective(r: Register, a: seq<bool>, b: seq<bool>)
    requires |a| == |b| <= 32 && Feed(r, a) == Feed(r, b)
    ensures a == b
  {
    var pad := Zeros(32 - |a|);
    FeedAtOnce(r, a);
    FeedAtOnce(r, b);
    ClocksInjective(|a|, Xor(r, a + pad), Xor(r, b + pad));
    XorInjective(r, a + pad, b + pad);
    assert a == (a + pad)[..|a|] && b == (b + pad)[..|a|];
  }

  /** Two messages that differ only within 32 consecutive bits leave different registers. */
  lemma BurstSeparates(r: Register, before: seq<bool>, a: seq<bool>, b: seq<bool>, after: seq<bool>)
    requires |a| == |b| <= 32 && a != b
    ensures Feed(r, before + a + after) != Feed(r, before + b + after)
  {
    var mid := Feed(r, before);
    FeedConcat(r, before, a);
    FeedConcat(r, before, b);
    FeedConcat(r, before + a, after);
    FeedConcat(r, before + b, after);
    if Feed(r, before + a + after) == Feed(r, before + b + after) {
      FeedInjective(Feed(mid, a), Feed(mid, b), after);
      WindowInjective(mid, a, b);
      assert false;
    }
  }

  // ---- Messages and their checksums ----

  lemma ByteStepFeeds(crc: bv32, b: byte)
    ensures RegisterBits(ByteStep(crc, b)) == Feed(RegisterBits(crc), Bits(b))
  {
    hide WordOf, NumberBits, BitSteps, Feed, Clocks, WordBits;
    XorByte(crc, b);
    BitStepsClocks(8, crc ^ Word(b));
    FeedAtOnce(RegisterBits(crc), Bits(b));
  }

  lemma XorByte(crc: bv32, b: byte)
    ensures RegisterBits(crc ^ Word(b)) == Xor(RegisterBits(crc), Bits(b) + Zeros(24))
  {
    hide WordOf, NumberBits, WordBits;
    WordBitsXor(crc, Word(b), crc ^ Word(b), 32);
    ByteWordBits(b);
  }

  /** The byte-wise loop and the bit-serial register compute the same. */
  lemma {:induction false} RunFeeds(crc: bv32, data: seq<byte>)
    ensures RegisterBits(Run(crc, data)) == Feed(RegisterBits(crc), MessageBits(data))
    decreases |data|
  {
    if data != [] {
      ByteStepFeeds(crc, data[0]);
      RunFeeds(ByteStep(crc, data[0]), data[1..]);
      FeedConcat(RegisterBits(crc), Bits(data[0]), MessageBits(data[1..]));
    }
  }

  /** For a fixed message the register is a bijection's image: equal results come from equal starts. */
  lemma RunInjective(c: bv32, d: bv32, data: seq<byte>)
    requires Run(c, data) == Run(d, data)
    ensures c == d
  {
    RunFeeds(c, data);
    RunFeeds(d, data);
    FeedInjective(RegisterBits(c), RegisterBits(d), MessageBits(data));
    RegisterBitsInjective(c, d);
  }

  lemma {:induction false} RunConcat(crc: bv32, a: seq<byte>, b: seq<byte>)
    ensures Run(crc, a + b) == Run(Run(crc, a), b)
    decreases |a|
  {
    if a == [] {
      assert a + b == b;
    } else {
      assert (a + b)[1..] == a[1..] + b;
      RunConcat(ByteStep(crc, a[0]), a[1..], b);
    }
  }

  lemma Complement(w: bv32)
    ensures RegisterBits(!w) == Xor(RegisterBits(w), RegisterBits(INITIAL))
  {
    assert !w == w ^ INITIAL;
    WordBitsXor(w, INITIAL, !w, 32);
  }

  /** `message` ends in the checksum of what precedes it. */
  predicate Checked(message: seq<byte>)
  {
    |message| >= 4 && message[|message| - 4..] == Le32(Crc32(message[..|message| - 4]))
  }

  lemma {:induction false} BitStepsSum(m: nat, n: nat, crc: bv32)
    ensures BitSteps(m + n, crc) == BitSteps(n, BitSteps(m, crc))
  {
    if m > 0 { BitStepsSum(m - 1, n, BitStep(crc)); }
  }

  lemma FourBitSteps(n: nat, crc: bv32)
    ensures BitSteps(n + 4, crc) == BitSteps(n, BitStep(BitStep(BitStep(BitStep(crc)))))
  {
    hide BitStep;
    BitStepsSum(2, n + 2, crc);
    BitStepsSum(2, n, BitStep(BitStep(crc)));
  }

  lemma ResidueValue()
    ensures BitSteps(32, INITIAL) == RESIDUE
  {
    FourBitSteps(28, 0xFFFF_FFFF);
    FourBitSteps(24, 0xB242_0DE3);
    FourBitSteps(20, 0x2DFD_1072);
    FourBitSteps(16, 0x39B1_F1CF);
    FourBitSteps(12, 0xBE26_ED00);
    FourBitSteps(8, 0x0BE2_6ED0);
    FourBitSteps(4, 0x00BE_26ED);
    FourBitSteps(0, 0x86D8_30BA);
  }

  function Ones(): Register { RegisterBits(INITIAL) }

  lemma ResidueBits()
    ensures RegisterBits(RESIDUE) == Clocks(32, Ones())
  {
    ResidueValue();
    BitStepsClocks(32, INITIAL);
    hide BitSteps, Clocks, WordBits;
  }

  lemma XorTwice(a: seq<bool>, b: seq<bool>)
    requires |a| == |b|
    ensures Xor(a, Xor(a, b)) == b
  {
  }

  lemma TrailerFeeds(r: Register, bits: seq<bool>, ones: Register)
    requires |bits| == 32
    ensures Feed(r, bits) == Clocks(32, ones) <==> bits == Xor(r, ones)
  {
    FeedAtOnce(r, bits);
    XorTwice(r, ones);
    assert bits + Zeros(0) == bits;
    hide Feed, Clocks;
    if Feed(r, bits) == Clocks(32, ones) {
      ClocksInjective(32, Xor(r, bits), ones);
      XorInjective(r, bits, Xor(r, ones));
    }
  }

  lemma TrailerBits(crc: bv32, trailer: seq<byte>)
    requires |trailer| == 4
    ensures trailer == Le32(Value(!crc)) <==> MessageBits(trailer) == Xor(RegisterBits(crc), Ones())
  {
    hide WordBits, NumberBits, MessageBits, NumberOf;
    var good := Le32(Value(!crc));
    Le32Bits(Value(!crc));
    Complement(crc);
    if MessageBits(trailer) == MessageBits(good) {
      MessageBitsInjective(trailer, good);
    }
  }

  /**
   * The trailer check is the constant-residue check: a register clocked over four
   * more bytes shows the good-checksum constant exactly when those bytes are the
   * complemented register.
   */
  lemma ResidueCheck(crc: bv32, trailer: seq<byte>)
    requires |trailer| == 4
    ensures Run(crc, trailer) == RESIDUE <==> trailer == Le32(Value(!crc))
  {
    hide WordBits, NumberBits, MessageBits, NumberOf, Run, Feed, Clocks;
    RunFeeds(crc, trailer);
    ResidueBits();
    TrailerFeeds(RegisterBits(crc), MessageBits(trailer), Ones());
    TrailerBits(crc, trailer);
    if RegisterBits(Run(crc, trailer)) == RegisterBits(RESIDUE) {
      RegisterBitsInjective(Run(crc, trailer), RESIDUE);
    }
  }

  lemma SplitResidue(front: seq<byte>, trailer: seq<byte>)
    requires |trailer| == 4
    ensures trailer == Le32(Crc32(front)) <==> Run(INITIAL, front + trailer) == RESIDUE
  {
    hide Run, Value, Le32;
    RunConcat(INITIAL, front, trailer);
    ResidueCheck(Run(INITIAL, front), trailer);
  }

  /** The trailer check is the constant-residue check over message and checksum. */
  lemma CheckedResidue(message: seq<byte>)
    requires |message| >= 4
    ensures Checked(message) <==> Run(INITIAL, message) == RESIDUE
  {
    hide Run, Crc32, Le32;
    var n := |message| - 4;
    assert message == message[..n] + message[n..];
    SplitResidue(message[..n], message[n..]);
  }

  /** The two messages differ, and only within 32 consecutive bits from bit `at` on. */
  predicate BurstAt(m: seq<byte>, altered: seq<byte>, at: nat)
  {
    && |m| == |altered| && m != altered
    && forall i | 0 <= i < 8 * |m| && !(at <= i < at + 32) :: MessageBits(m)[i] == MessageBits(altered)[i]
  }

  /** Bit strings that differ only in a window split into equal outer parts. */
  lemma Window(x: seq<bool>, y: seq<bool>, at: nat) returns (lo: nat, hi: nat)
    requires |x| == |y|
    requires forall i | 0 <= i < |x| && !(at <= i < at + 32) :: x[i] == y[i]
    ensures lo <= hi <= |x| && hi - lo <= 32
    ensures x == x[..lo] + x[lo..hi] + x[hi..]
    ensures y == x[..lo] + y[lo..hi] + x[hi..]
  {
    lo := if at < |x| then at else |x|;
    hi := if at + 32 < |x| then at + 32 else |x|;
  }

  /** Every error burst of at most 32 bits, wherever it starts, is detected. */
  lemma BurstDetected(m: seq<byte>, altered: seq<byte>, at: nat)
    requires Checked(m) && BurstAt(m, altered, at)
    ensures !Checked(altered)
  {
    hide Run, MessageBits, NumberBits, WordBits, NumberOf, Feed;
    var x, y := MessageBits(m), MessageBits(altered);
    var lo, hi := Window(x, y, at);
    if x[lo..hi] == y[lo..hi] {
      MessageBitsInjective(m, altered);
      assert false;
    }
    BurstSeparates(Ones(), x[..lo], x[lo..hi], y[lo..hi], x[hi..]);
    RunFeeds(INITIAL, m);
    RunFeeds(INITIAL, altered);
    CheckedResidue(m);
    CheckedResidue(altered);
  }

  lemma {:induction false} MessageBitAt(m: seq<byte>, i: nat)
    requires i < 8 * |m|
    ensures MessageBits(m)[i] == Bits(m[i / 8])[i % 8]
  {
    if i >= 8 {
      MessageBitAt(m[1..], i - 8);
    }
  }

  /** Changes within four consecutive bytes are such a burst. */
  lemma FourBytesAreABurst(m: seq<byte>, altered: seq<byte>, at: nat)
    requires |m| == |altered| && m != altered
    requires forall i | 0 <= i < |m| && !(at <= i < at + 4) :: m[i] == altered[i]
    ensures BurstAt(m, altered, 8 * at)
  {
    forall i | 0 <= i < 8 * |m| && !(8 * at <= i < 8 * at + 32)
      ensures MessageBits(m)[i] == MessageBits(altered)[i]
    {
      MessageBitAt(m, i);
      MessageBitAt(altered, i);
    }
  }
}
