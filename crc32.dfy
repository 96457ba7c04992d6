/**
 * crc32.ChecksumIEEE: the CRC-32 of IEEE 802.3, computed bit by bit over the
 * reflected polynomial 0xEDB88320, starting from all ones and inverted at
 * the end. The source calls the Go library; the model writes the
 * computation out so that the frame checks of the WAL can be reasoned about.
 */
module Crc32 {
  import opened Codec

  const Poly: bv32 := 0xEDB8_8320
  const BitsPerByte: nat := 8

  /** One bit of the shift register. */
  function Step(c: bv32): bv32
  {
    if c & 1 == 1 then (c >> 1) ^ Poly else c >> 1
  }

  function Steps(c: bv32, n: nat): bv32
    decreases n
  {
    if n == 0 then c else Steps(Step(c), n - 1)
  }

  /** One byte into the register, least significant bit first. */
  function UpdateByte(c: bv32, b: byte): bv32
  {
    Steps(c ^ (b as bv32), BitsPerByte)
  }

  function Update(c: bv32, data: seq<byte>): bv32
    decreases |data|
  {
    if |data| == 0 then c else Update(UpdateByte(c, data[0]), data[1..])
  }

  function Checksum(data: seq<byte>): bv32
  {
    Update(0xFFFF_FFFF, data) ^ 0xFFFF_FFFF
  }
}
