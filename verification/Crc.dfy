/**
 * The bitwise CRC-32 loop of the firmware and the algebra behind it.
 *
 * The register is a 32-bit word that is shifted right once per message bit, the
 * reflected form of Appendix C.3 of RFC 1662. The code works on `bv32`; the
 * algebra is done on bit sequences, least significant bit first.
 */
module Crc {
  import opened Bytes
  import opened Words

  const POLYNOMIAL: bv32 := 0xEDB8_8320
  const INITIAL: bv32 := 0xFFFF_FFFF
  const RESIDUE: bv32 := 0xDEBB_20E3

  /** One pass of the inner loop. */
  function BitStep(crc: bv32): bv32
  {
    (crc >> 1) ^ (POLYNOMIAL & (0 - (crc & 1)))
  }

  function BitSteps(n: nat, crc: bv32): bv32
  {
    if n == 0 then crc else BitSteps(n - 1, BitStep(crc))
  }

  /** One pass of the outer loop. */
  function ByteStep(crc: bv32, b: byte): bv32 { BitSteps(8, crc ^ Word(b)) }

  /** The register after a message. */
  function Run(crc: bv32, data: seq<byte>): bv32
    decreases |data|
  {
    if data == [] then crc else Run(ByteStep(crc, data[0]), data[1..])
  }

  /** The checksum of a message, as the number that is put on the wire. */
  function Crc32(data: seq<byte>): uint32 { Value(!Run(INITIAL, data)) }

  method UpdateCrc(initial: bv32, b: byte) returns (crc: bv32)
    ensures crc == ByteStep(initial, b)
  {
    crc := initial ^ Word(b);
    for bit := 0 to 8
      invariant BitSteps(8 - bit, crc) == ByteStep(initial, b)
    {
      var mask := 0 - (crc & 1);
      crc := (crc >> 1) ^ (POLYNOMIAL & mask);
    }
  }

  method ComputeCrc32(data: seq<byte>) returns (checksum: uint32)
    ensures checksum == Crc32(data)
  {
    var crc := INITIAL;
    for i := 0 to |data|
      invariant Run(crc, data[i..]) == Run(INITIAL, data)
    {
      assert data[i..][1..] == data[i + 1..];
      crc := UpdateCrc(crc, data[i]);
    }
    assert data[|data|..] == [];
    checksum := Value(!crc);
  }
}
