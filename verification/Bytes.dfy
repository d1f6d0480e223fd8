/** Bytes, and little-endian numbers made of them. */
module Bytes {
  type byte = b: int | 0 <= b < 256

  function U16(data: seq<byte>, at: nat): nat
    requires at + 2 <= |data|
  {
    (data[at] as int) + 0x100 * (data[at + 1] as int)
  }

  function U32(data: seq<byte>, at: nat): nat
    requires at + 4 <= |data|
  {
    (data[at] as int) + 0x100 * (data[at + 1] as int) + 0x1_0000 * (data[at + 2] as int)
    + 0x100_0000 * (data[at + 3] as int)
  }
}
