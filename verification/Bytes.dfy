/** Fixed-width integers and the little-endian fields of the wire format. */
module Bytes {

  type byte = x: int | 0 <= x < 0x100
  type uint16 = x: int | 0 <= x < 0x1_0000
  type uint32 = x: int | 0 <= x < 0x1_0000_0000

  function Le16(v: uint16): (s: seq<byte>)
    ensures |s| == 2
  {
    [v % 0x100, v / 0x100]
  }

  function Le32(v: uint32): (s: seq<byte>)
    ensures |s| == 4
  {
    [v % 0x100, v / 0x100 % 0x100, v / 0x1_0000 % 0x100, v / 0x100_0000]
  }

  /** The 16-bit field at index `at`. */
  function ReadLe16(s: seq<byte>, at: nat): uint16
    requires at + 2 <= |s|
  {
    s[at] as int + 0x100 * (s[at + 1] as int)
  }

  /** The 32-bit field at index `at`. */
  function ReadLe32(s: seq<byte>, at: nat): uint32
    requires at + 4 <= |s|
  {
    s[at] as int + 0x100 * (s[at + 1] as int) +
    0x1_0000 * (s[at + 2] as int) + 0x100_0000 * (s[at + 3] as int)
  }

  lemma Le16RoundTrip(v: uint16, s: seq<byte>, at: nat)
    requires at + 2 <= |s| && s[at..at + 2] == Le16(v)
    ensures ReadLe16(s, at) == v
  {
    assert s[at] == s[at..at + 2][0] && s[at + 1] == s[at..at + 2][1];
  }

  lemma Le32RoundTrip(v: uint32, s: seq<byte>, at: nat)
    requires at + 4 <= |s| && s[at..at + 4] == Le32(v)
    ensures ReadLe32(s, at) == v
  {
    var t := s[at..at + 4];
    assert s[at] == t[0] && s[at + 1] == t[1] && s[at + 2] == t[2] && s[at + 3] == t[3];
    assert v == v % 0x100 + 0x100 * (v / 0x100);
    assert v / 0x100 == v / 0x100 % 0x100 + 0x100 * (v / 0x100 / 0x100);
    assert v / 0x100 / 0x100 == v / 0x1_0000;
    assert v / 0x1_0000 == v / 0x1_0000 % 0x100 + 0x100 * (v / 0x1_0000 / 0x100);
    assert v / 0x1_0000 / 0x100 == v / 0x100_0000;
  }

  /** The bytes of a 16-bit field are determined by the value read from them. */
  lemma ReadLe16Inverse(s: seq<byte>, at: nat)
    requires at + 2 <= |s|
    ensures Le16(ReadLe16(s, at)) == s[at..at + 2]
  {
    var v := ReadLe16(s, at);
    assert v % 0x100 == s[at] && v / 0x100 == s[at + 1];
  }

  lemma ReadLe32Inverse(s: seq<byte>, at: nat)
    requires at + 4 <= |s|
    ensures Le32(ReadLe32(s, at)) == s[at..at + 4]
  {
    var v := ReadLe32(s, at);
    Digits(v, s[at], s[at + 1], s[at + 2], s[at + 3]);
    hide ReadLe32;
    assert s[at..at + 4] == [s[at], s[at + 1], s[at + 2], s[at + 3]];
  }

  /** The digits of a number to the base 256. */
  lemma Digits(v: nat, b0: byte, b1: byte, b2: byte, b3: byte)
    requires v == b0 as int + 0x100 * b1 as int + 0x1_0000 * b2 as int + 0x100_0000 * b3 as int
    ensures v % 0x100 == b0 && v / 0x100 % 0x100 == b1 && v / 0x1_0000 % 0x100 == b2 && v / 0x100_0000 == b3
  {
    var n2 := b2 as int + 0x100 * b3 as int;
    var n1 := b1 as int + 0x100 * n2;
    LastDigit(v, b0, n1);
    LastDigit(n1, b1, n2);
    LastDigit(n2, b2, b3);
    DivideTwice(v, 0x100);
    DivideTwice(v, 0x1_0000);
  }

  lemma LastDigit(v: nat, b: byte, rest: nat)
    requires v == b as int + 0x100 * rest
    ensures v % 0x100 == b && v / 0x100 == rest
  {
  }

  lemma DivideTwice(v: nat, d: nat)
    requires d == 0x100 || d == 0x1_0000
    ensures v / d / 0x100 == v / (d * 0x100)
  {
  }
}
