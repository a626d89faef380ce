/** 32-bit words, the numbers they stand for, and the bits of both. */
module Words {
  import opened Bytes

  function NumberOf(s: seq<bool>): nat
  {
    if s == [] then 0 else (if s[0] then 1 else 0) + 2 * NumberOf(s[1..])
  }

  function NumberBits(n: nat, count: nat): (s: seq<bool>)
    ensures |s| == count
  {
    if count == 0 then [] else [n % 2 == 1] + NumberBits(n / 2, count - 1)
  }

  function WordOf(s: seq<bool>): bv32
  {
    if s == [] then 0 else Pushed(s[0], WordOf(s[1..]))
  }

  /** A new lowest bit. */
  function Pushed(b: bool, w: bv32): bv32 { (if b then 1 else 0) | (w << 1) }

  predicate Low(w: bv32) { w & 1 != 0 }

  function Half(w: bv32): bv32 { w >> 1 }

  function WordBits(w: bv32, count: nat): (s: seq<bool>)
    ensures |s| == count
  {
    if count == 0 then [] else [Low(w)] + WordBits(Half(w), count - 1)
  }

  /** The bits of a byte, in the order they pass through a checksum register. */
  function Bits(b: byte): (s: seq<bool>)
    ensures |s| == 8
  {
    NumberBits(b, 8)
  }

  function RegisterBits(w: bv32): (s: seq<bool>)
    ensures |s| == 32
  {
    WordBits(w, 32)
  }

  /** The word whose numeric value is `n`. */
  function Word(n: uint32): bv32 { WordOf(NumberBits(n, 32)) }

  /** The numeric value of a word. */
  function Value(w: bv32): (n: uint32)
    ensures NumberBits(n, 32) == RegisterBits(w)
  {
    NumberBound(RegisterBits(w));
    PowerValues();
    NumberBitsInverse(RegisterBits(w));
    NumberOf(RegisterBits(w))
  }

  // ---- Numbers ----

  function Power(count: nat): nat { if count == 0 then 1 else 2 * Power(count - 1) }

  lemma PowerValues()
    ensures Power(8) == 0x100 && Power(16) == 0x1_0000 && Power(32) == 0x1_0000_0000
  {
    PowerSum(4, 4);
    PowerSum(8, 8);
    PowerSum(16, 16);
    assert Power(4) == 16;
  }

  lemma {:induction false} PowerSum(m: nat, n: nat)
    ensures Power(m + n) == Power(m) * Power(n)
  {
    if m > 0 { PowerSum(m - 1, n); }
  }

  lemma Halve(low: bool, rest: nat)
    ensures var n := (if low then 1 else 0) + 2 * rest; (n % 2 == 1) == low && n / 2 == rest
  {
  }

  lemma {:induction false} NumberBitsInverse(s: seq<bool>)
    ensures NumberBits(NumberOf(s), |s|) == s
  {
    if s != [] {
      var rest := NumberOf(s[1..]);
      var n := (if s[0] then 1 else 0) + 2 * rest;
      Halve(s[0], rest);
      NumberBitsInverse(s[1..]);
      assert NumberBits(n, |s|) == [s[0]] + NumberBits(rest, |s| - 1);
    }
  }

  lemma {:induction false} NumberOfInverse(n: nat, count: nat)
    requires n < Power(count)
    ensures NumberOf(NumberBits(n, count)) == n
  {
    if count > 0 {
      NumberOfInverse(n / 2, count - 1);
      assert NumberBits(n, count)[1..] == NumberBits(n / 2, count - 1);
    }
  }

  lemma {:induction false} NumberBound(s: seq<bool>)
    ensures NumberOf(s) < Power(|s|)
  {
    if s != [] { NumberBound(s[1..]); }
  }

  lemma {:induction false} NumberBitsZero(count: nat)
    ensures forall i | 0 <= i < count :: !NumberBits(0, count)[i]
  {
    if count > 0 { NumberBitsZero(count - 1); }
  }

  /** `n` doubled `m` times. */
  function Doubled(m: nat, n: nat): nat { if m == 0 then n else 2 * Doubled(m - 1, n) }

  /** A number below 2^m has its bits in the first `m` places. */
  lemma {:induction false} NumberBitsJoin(low: nat, high: nat, m: nat, n: nat)
    requires low < Power(m)
    ensures NumberBits(low + Doubled(m, high), m + n) == NumberBits(low, m) + NumberBits(high, n)
  {
    if m > 0 {
      NumberBitsJoin(low / 2, high, m - 1, n);
      JoinHalves(low, Doubled(m - 1, high));
    }
  }

  lemma JoinHalves(low: nat, rest: nat)
    ensures (low + 2 * rest) % 2 == low % 2 && (low + 2 * rest) / 2 == low / 2 + rest
  {
  }

  /** Prefixing a byte to a number's bits. */
  lemma ByteJoin(low: byte, high: nat, n: nat)
    ensures NumberBits(low as nat + 0x100 * high, 8 + n) == Bits(low) + NumberBits(high, n)
  {
    PowerValues();
    assert Doubled(1, high) == 2 * high;
    assert Doubled(3, high) == 8 * high;
    assert Doubled(5, high) == 32 * high;
    assert Doubled(7, high) == 128 * high;
    NumberBitsJoin(low, high, 8, n);
  }

  /** Different numbers of the same width have different bits. */
  lemma NumberBitsInjective(a: nat, b: nat, count: nat)
    requires a < Power(count) && b < Power(count)
    requires NumberBits(a, count) == NumberBits(b, count)
    ensures a == b
  {
    NumberOfInverse(a, count);
    NumberOfInverse(b, count);
  }

  // ---- Words ----

  /** `w` can be shifted left `n` times without losing a set bit. */
  predicate Fits(n: nat, w: bv32)
  {
    n == 0 || (w & 0x8000_0000 == 0 && Fits(n - 1, w << 1))
  }

  lemma {:induction false} FitsOr(n: nat, a: bv32, b: bv32)
    requires Fits(n, a) && Fits(n, b)
    ensures Fits(n, a | b)
  {
    if n > 0 {
      ShiftLeftOr(a, b);
      FitsOr(n - 1, a << 1, b << 1);
    }
  }

  lemma ShiftLeftOr(a: bv32, b: bv32)
    ensures (a | b) << 1 == (a << 1) | (b << 1)
    ensures a & 0x8000_0000 == 0 && b & 0x8000_0000 == 0 ==> (a | b) & 0x8000_0000 == 0
  {
  }

  lemma FitsNibble(n: nat, w: bv32)
    requires w & 0xF000_0000 == 0 && Fits(n, w << 4)
    ensures Fits(n + 4, w)
  {
    assert (w << 3) << 1 == w << 4 && (w << 2) << 1 == w << 3 && (w << 1) << 1 == w << 2;
    assert Fits(n + 1, w << 3);
    assert Fits(n + 2, w << 2);
    assert Fits(n + 3, w << 1);
  }

  lemma FitsOne()
    ensures Fits(31, 1)
  {
    assert Fits(1, 0x4000_0000);
    assert Fits(2, 0x2000_0000);
    assert Fits(3, 0x1000_0000);
    FitsNibble(3, 0x100_0000);
    FitsNibble(7, 0x10_0000);
    FitsNibble(11, 0x1_0000);
    FitsNibble(15, 0x1000);
    FitsNibble(19, 0x100);
    FitsNibble(23, 0x10);
    FitsNibble(27, 1);
  }

  lemma {:induction false} FitsLess(m: nat, n: nat, w: bv32)
    requires m <= n && Fits(n, w)
    ensures Fits(m, w)
  {
    if m > 0 { FitsLess(m - 1, n - 1, w << 1); }
  }

  lemma {:induction false} FitsZero(n: nat)
    ensures Fits(n, 0)
  {
    if n > 0 {
      assert (0 as bv32) << 1 == 0;
      FitsZero(n - 1);
    }
  }

  lemma FitsPush(n: nat, b: bool, w: bv32)
    requires n <= 31 && Fits(n + 1, w)
    ensures Fits(n, Pushed(b, w))
  {
    if b {
      FitsOne();
      FitsLess(n, 31, 1);
    } else {
      FitsZero(n);
    }
    FitsOr(n, if b then 1 else 0, w << 1);
  }

  lemma {:induction false} WordFits(s: seq<bool>)
    requires |s| <= 32
    ensures Fits(32 - |s|, WordOf(s))
  {
    hide Fits, Pushed;
    if s == [] {
      FitsZero(32);
    } else {
      WordFits(s[1..]);
      FitsPush(32 - |s|, s[0], WordOf(s[1..]));
    }
  }

  lemma WordTop(s: seq<bool>)
    requires |s| < 32
    ensures WordOf(s) & 0x8000_0000 == 0
  {
    hide WordOf;
    WordFits(s);
  }

  lemma WordHead(b: bool, w: bv32)
    requires w & 0x8000_0000 == 0
    ensures Low(Pushed(b, w)) == b && Half(Pushed(b, w)) == w
  {
  }

  lemma {:induction false} WordBitsInverse(s: seq<bool>)
    requires |s| <= 32
    ensures WordBits(WordOf(s), |s|) == s
  {
    hide WordOf, WordBits, Low, Half;
    if s == [] {
      NoBits(WordOf(s));
    } else {
      WordOfParts(s);
      WordBitsParts(WordOf(s), |s| - 1);
      WordBitsInverse(s[1..]);
    }
  }

  lemma NoBits(w: bv32)
    ensures WordBits(w, 0) == []
  {
  }

  lemma WordBitsParts(w: bv32, count: nat)
    ensures WordBits(w, count + 1) == [Low(w)] + WordBits(Half(w), count)
  {
    hide Low, Half;
  }

  lemma WordOfParts(s: seq<bool>)
    requires 0 < |s| <= 32
    ensures Low(WordOf(s)) == s[0] && Half(WordOf(s)) == WordOf(s[1..])
  {
    hide Low, Half, Pushed;
    WordTop(s[1..]);
    WordHead(s[0], WordOf(s[1..]));
  }

  /** The word of a number has the number's bits. */
  lemma WordBitsOfNumber(n: uint32)
    ensures RegisterBits(Word(n)) == NumberBits(n, 32)
  {
    WordBitsInverse(NumberBits(n, 32));
  }

  // ---- Bitwise operations, bit by bit ----

  function Zeros(n: nat): (s: seq<bool>)
    ensures |s| == n
  {
    seq(n, _ => false)
  }

  function Xor(a: seq<bool>, b: seq<bool>): (s: seq<bool>)
    requires |a| == |b|
    ensures |s| == |a|
    ensures forall i | 0 <= i < |a| :: s[i] == (a[i] != b[i])
  {
    seq(|a|, i requires 0 <= i < |a| => a[i] != b[i])
  }

  lemma XorHead(v: bv32, w: bv32, u: bv32)
    requires u == v ^ w
    ensures Low(u) == (Low(v) != Low(w))
    ensures Half(u) == Half(v) ^ Half(w)
  {
  }

  lemma XorCons(a: bool, s: seq<bool>, b: bool, t: seq<bool>, x: seq<bool>)
    requires |s| == |t| && x == Xor(s, t)
    ensures [a != b] + x == Xor([a] + s, [b] + t)
  {
  }

  lemma {:induction false} WordBitsXor(v: bv32, w: bv32, u: bv32, count: nat)
    requires u == v ^ w
    ensures WordBits(u, count) == Xor(WordBits(v, count), WordBits(w, count))
    decreases count
  {
    if count > 0 {
      XorHead(v, w, u);
      WordBitsXor(Half(v), Half(w), Half(u), count - 1);
      WordBitsXorStep(v, w, u, count);
    }
  }

  lemma WordBitsXorStep(v: bv32, w: bv32, u: bv32, count: nat)
    requires count > 0 && Low(u) == (Low(v) != Low(w))
    requires WordBits(Half(u), count - 1) == Xor(WordBits(Half(v), count - 1), WordBits(Half(w), count - 1))
    ensures WordBits(u, count) == Xor(WordBits(v, count), WordBits(w, count))
  {
    XorCons(Low(v), WordBits(Half(v), count - 1), Low(w), WordBits(Half(w), count - 1),
            WordBits(Half(u), count - 1));
  }

  function ShiftRight(n: nat, w: bv32): bv32 { if n == 0 then w else ShiftRight(n - 1, Half(w)) }

  lemma {:induction false} WordBitsSuffix(w: bv32, count: nat)
    ensures WordBits(w, count + 1) == WordBits(w, count) + [Low(ShiftRight(count, w))]
  {
    if count > 0 { WordBitsSuffix(Half(w), count - 1); }
  }

  function Byte(w: bv32): bv32 { w >> 8 }

  lemma HalfEight(w: bv32)
    ensures Half(Half(Half(Half(Half(Half(Half(Half(w)))))))) == Byte(w)
  {
  }

  lemma {:induction false} ShiftRightByte(n: nat, w: bv32)
    ensures ShiftRight(n + 8, w) == ShiftRight(n, Byte(w))
  {
    hide ShiftRight, Half, Byte;
    HalfEight(w);
    ShiftRightFour(n + 4, w);
    ShiftRightFour(n, Half(Half(Half(Half(w)))));
  }

  lemma {:induction false} ShiftRightFour(n: nat, w: bv32)
    ensures ShiftRight(n + 4, w) == ShiftRight(n, Half(Half(Half(Half(w)))))
  {
    hide ShiftRight, Half;
    ShiftRightOne(n + 3, w);
    ShiftRightOne(n + 2, Half(w));
    ShiftRightOne(n + 1, Half(Half(w)));
    ShiftRightOne(n, Half(Half(Half(w))));
  }

  lemma {:induction false} ShiftRightOne(n: nat, w: bv32)
    ensures ShiftRight(n + 1, w) == ShiftRight(n, Half(w))
  {
    hide Half;
  }

  lemma FourBytesOut(w: bv32)
    ensures Byte(Byte(Byte(Byte(w)))) == 0
  {
  }

  lemma ShiftedOut(w: bv32)
    ensures ShiftRight(32, w) == 0
  {
    ShiftRightByte(24, w);
    ShiftRightByte(16, Byte(w));
    ShiftRightByte(8, Byte(Byte(w)));
    ShiftRightByte(0, Byte(Byte(Byte(w))));
    FourBytesOut(w);
  }

  /** Shifting right drops the first bit and appends a clear one. */
  lemma RegisterBitsShift(w: bv32)
    ensures RegisterBits(Half(w)) == RegisterBits(w)[1..] + [false]
  {
    WordBitsSuffix(Half(w), 31);
    ShiftedOut(w);
    assert ShiftRight(31, Half(w)) == 0;
  }

  lemma HeadAndHalf(v: bv32, w: bv32)
    requires Low(v) == Low(w) && Half(v) == Half(w)
    ensures v == w
  {
  }

  lemma {:induction false} WordBitsInjective(v: bv32, w: bv32, count: nat)
    requires WordBits(v, count) == WordBits(w, count) && ShiftRight(count, v) == ShiftRight(count, w)
    ensures v == w
  {
    if count > 0 {
      assert WordBits(v, count)[0] == WordBits(w, count)[0];
      assert WordBits(v, count)[1..] == WordBits(w, count)[1..];
      WordBitsInjective(Half(v), Half(w), count - 1);
      HeadAndHalf(v, w);
    }
  }

  lemma RegisterBitsInjective(v: bv32, w: bv32)
    requires RegisterBits(v) == RegisterBits(w)
    ensures v == w
  {
    ShiftedOut(v);
    ShiftedOut(w);
    WordBitsInjective(v, w, 32);
  }

  // ---- Messages ----

  /** All bits of a message in transmission order. */
  function MessageBits(data: seq<byte>): (s: seq<bool>)
    ensures |s| == 8 * |data|
  {
    if data == [] then [] else Bits(data[0]) + MessageBits(data[1..])
  }

  lemma {:induction false} MessageBitsConcat(a: seq<byte>, b: seq<byte>)
    ensures MessageBits(a + b) == MessageBits(a) + MessageBits(b)
  {
    if a == [] {
      assert a + b == b;
    } else {
      assert (a + b)[1..] == a[1..] + b;
      MessageBitsConcat(a[1..], b);
    }
  }

  lemma {:induction false} MessageBitsInjective(a: seq<byte>, b: seq<byte>)
    requires MessageBits(a) == MessageBits(b)
    ensures a == b
  {
    if a != [] {
      var x, y := MessageBits(a), MessageBits(b);
      assert x[..8] == Bits(a[0]) && y[..8] == Bits(b[0]);
      assert x[8..] == MessageBits(a[1..]) && y[8..] == MessageBits(b[1..]);
      PowerValues();
      NumberBitsInjective(a[0], b[0], 8);
      MessageBitsInjective(a[1..], b[1..]);
    }
  }

  lemma PrefixByte(b: byte, rest: seq<byte>, high: nat)
    requires MessageBits(rest) == NumberBits(high, 8 * |rest|)
    ensures MessageBits([b] + rest) == NumberBits(b as nat + 0x100 * high, 8 + 8 * |rest|)
  {
    assert ([b] + rest)[1..] == rest;
    ByteJoin(b, high, 8 * |rest|);
  }

  lemma EmptyMessage()
    ensures MessageBits([]) == NumberBits(0, 0)
  {
  }

  /** A little-endian field carries the bits of its number in order. */
  lemma Le32Bits(v: uint32)
    ensures MessageBits(Le32(v)) == NumberBits(v, 32)
  {
    hide MessageBits, NumberBits;
    var b0, b1, b2, b3 := Le32(v)[0], Le32(v)[1], Le32(v)[2], Le32(v)[3];
    var n2: nat := b2 as nat + 0x100 * (b3 as nat);
    var n1: nat := b1 as nat + 0x100 * n2;
    assert [b3] + [] == [b3] && [b2] + [b3] == [b2, b3];
    assert [b1] + [b2, b3] == [b1, b2, b3] && [b0] + [b1, b2, b3] == Le32(v);
    EmptyMessage();
    PrefixByte(b3, [], 0);
    assert MessageBits([b3]) == NumberBits(b3, 8);
    PrefixByte(b2, [b3], b3);
    assert MessageBits([b2, b3]) == NumberBits(n2, 16);
    PrefixByte(b1, [b2, b3], n2);
    assert MessageBits([b1, b2, b3]) == NumberBits(n1, 24);
    PrefixByte(b0, [b1, b2, b3], n1);
    Le32RoundTrip(v, Le32(v), 0);
  }

  /** A byte as a register word: its bits first, clear bits above them. */
  lemma ByteWordBits(b: byte)
    ensures RegisterBits(Word(b)) == Bits(b) + Zeros(24)
  {
    WordBitsOfNumber(b);
    ByteJoin(b, 0, 24);
    NumberBitsZero(24);
    assert NumberBits(0, 24) == Zeros(24);
  }
}
