/** Results, optional values and the fixed-width arithmetic the protocol relies on. */
module Prelude {

  datatype Option<+T> = None | Some(value: T)

  datatype Result<+T, +E> = Ok(value: T) | Err(error: E)

  const U64_MAX: nat := 0xFFFF_FFFF_FFFF_FFFF

  type u64 = x: int | 0 <= x <= U64_MAX

  type byte = x: int | 0 <= x < 256

  function Max(a: int, b: int): int {
    if a < b then b else a
  }

  function Min(a: int, b: int): int {
    if a < b then a else b
  }

  /** Addition of two unsigned 64-bit numbers that stops at the largest one. */
  function SatAdd(a: u64, b: u64): u64 {
    if a + b <= U64_MAX then a + b else U64_MAX
  }

  /** Multiplication of two unsigned 64-bit numbers that stops at the largest one. */
  function SatMul(a: u64, b: u64): u64 {
    if 0 <= a * b <= U64_MAX then a * b else U64_MAX
  }
}
