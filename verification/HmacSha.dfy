/**
 * HMAC over an arbitrary hash function with 32-byte digests.
 *
 * Nothing is assumed about the hash beyond its digest length; results that need
 * more say so as "or these two inputs collide".
 */
module HmacSha {
  import opened Bytes
  import opened Words
  import opened Esp

  const BLOCK_SIZE: nat := 64
  const SHA256_SIZE: nat := 32

  /** The component's bound on HMAC input: the response prefix, four header bytes and a payload. */
  const MAX_DATA_SIZE: nat := 1036

  function ZeroDigest(m: seq<byte>): seq<byte> { seq(SHA256_SIZE, _ => 0) }

  type Hash = h: seq<byte> -> seq<byte> | forall m: seq<byte> :: |h(m)| == SHA256_SIZE witness ZeroDigest

  function XorByte(a: byte, b: byte): (r: byte)
    ensures 0 <= r < 0x100
  {
    NumberBound(Xor(Bits(a), Bits(b)));
    PowerValues();
    NumberOf(Xor(Bits(a), Bits(b)))
  }

  function XorAll(s: seq<byte>, mask: byte): (r: seq<byte>)
    ensures |r| == |s|
    ensures forall i | 0 <= i < |s| :: r[i] == XorByte(s[i], mask)
  {
    seq(|s|, i requires 0 <= i < |s| => XorByte(s[i], mask))
  }

  function ZeroBytes(n: nat): (r: seq<byte>)
    ensures |r| == n
  {
    seq(n, _ => 0)
  }

  /** The key, hashed when longer than a block, padded with zeros to a block. */
  function KeyBlock(h: Hash, key: seq<byte>): (r: seq<byte>)
    ensures |r| == BLOCK_SIZE
  {
    var k := if |key| > BLOCK_SIZE then h(key) else key;
    k + ZeroBytes(BLOCK_SIZE - |k|)
  }

  /** Section 2 of RFC 2104: H(K xor opad, H(K xor ipad, text)). */
  function Hmac(h: Hash, key: seq<byte>, text: seq<byte>): (r: seq<byte>)
    ensures |r| == SHA256_SIZE
  {
    var block := KeyBlock(h, key);
    h(XorAll(block, 0x5C) + h(XorAll(block, 0x36) + text))
  }

  /** `hmac_sha256`: fails only on input longer than any caller's. */
  method HmacSha256(h: Hash, key: seq<byte>, data: seq<byte>) returns (output: Option<seq<byte>>)
    ensures output == if |data| > MAX_DATA_SIZE then None else Some(Hmac(h, key, data))
  {
    var keyBlock := new byte[BLOCK_SIZE](_ => 0);
    var k := key;
    if |key| > BLOCK_SIZE {
      k := h(key);
    }
    for i := 0 to |k|
      invariant keyBlock[..i] == k[..i]
      invariant forall j | i <= j < BLOCK_SIZE :: keyBlock[j] == 0
    {
      keyBlock[i] := k[i];
      assert keyBlock[..i + 1] == keyBlock[..i] + [k[i]];
    }
    assert keyBlock[..] == KeyBlock(h, key) by {
      assert keyBlock[..] == keyBlock[..|k|] + ZeroBytes(BLOCK_SIZE - |k|);
    }
    if |data| > MAX_DATA_SIZE {
      return None;
    }
    var inner, outer := MaskBlock(h, key, keyBlock);
    output := Some(h(outer + h(inner + data)));
  }

  method MaskBlock(h: Hash, ghost key: seq<byte>, keyBlock: array<byte>) returns (inner: seq<byte>, outer: seq<byte>)
    requires keyBlock.Length == BLOCK_SIZE && keyBlock[..] == KeyBlock(h, key)
    ensures inner == XorAll(KeyBlock(h, key), 0x36) && outer == XorAll(KeyBlock(h, key), 0x5C)
  {
    hide XorByte, KeyBlock;
    inner, outer := [], [];
    for i := 0 to BLOCK_SIZE
      invariant |inner| == |outer| == i
      invariant forall j | 0 <= j < i :: inner[j] == XorByte(keyBlock[..][j], 0x36)
      invariant forall j | 0 <= j < i :: outer[j] == XorByte(keyBlock[..][j], 0x5C)
    {
      inner := inner + [XorByte(keyBlock[i], 0x36)];
      outer := outer + [XorByte(keyBlock[i], 0x5C)];
    }
  }
}
