/** Integer widths and the result types the other modules share. */
module Basics {

  datatype Option<+T> = None | Some(value: T)

  datatype Result<+T, +E> = Ok(value: T) | Err(error: E)

  const TWO_TO_32: int := 0x1_0000_0000
  const TWO_TO_63: int := 0x8000_0000_0000_0000
  const TWO_TO_64: int := 0x1_0000_0000_0000_0000

  type Byte = x: int | 0 <= x < 256
  type UInt32 = x: int | 0 <= x < 0x1_0000_0000
  type UInt64 = x: int | 0 <= x < 0x1_0000_0000_0000_0000
  type Int64 = x: int | -0x8000_0000_0000_0000 <= x < 0x8000_0000_0000_0000

  /** Two's complement wrap-around, as Go's int64 arithmetic does it. */
  function WrapInt64(x: int): Int64 {
    (x + TWO_TO_63) % TWO_TO_64 - TWO_TO_63
  }

  /** Go's conversion from int64 to uint64. */
  function ToUInt64(x: Int64): UInt64 {
    x % TWO_TO_64
  }

  function Max(a: int, b: int): int {
    if a >= b then a else b
  }

  function Min(a: int, b: int): int {
    if a <= b then a else b
  }

  lemma WrapFixesInt64(x: int)
    ensures WrapInt64(x) == x <==> -TWO_TO_63 <= x < TWO_TO_63
  {
  }
}
