/** The value types shared by every component: machine bytes and the outcome of
    an operation that the C code may abandon through png_error. */
module Bytes {

  type byte = x: nat | x < 0x100

  const TWO_TO_THE_31: nat := 0x8000_0000
  const TWO_TO_THE_32: nat := 0x1_0000_0000

  datatype Option<+T> = None | Some(value: T)

  /** Big-endian 32-bit load, png_get_uint_32. */
  function Be32(s: seq<byte>): nat
    requires |s| == 4
  {
    0x100_0000 * (s[0] as int) + 0x1_0000 * (s[1] as int) + 0x100 * (s[2] as int) + s[3]
  }
}
