/**
 Types and numbers that several parts of the model share.
 */
module Basics {
  datatype Option<+T> = None | Some(value: T)

  newtype Byte = x: int | 0 <= x < 256

  /** How many values an unsigned 64-bit integer has. */
  const U64: nat := 0x1_0000_0000_0000_0000

  /** The same 64 bits read as a signed integer. */
  function Signed64(x: nat): int {
    if x < U64 / 2 then x else x - U64
  }
}
