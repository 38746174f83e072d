/** Nullable values, error-or-value results and the 32-bit integers of the source's `int`. */
module Wrappers {
  /** A value that the source may pass or return as null (`None`). */
  datatype Option<+T> = None | Some(value: T)

  /** A value or the exception that took its place. */
  datatype Result<+T, +E> = Ok(value: T) | Err(error: E)

  const Int32Min: int := -0x8000_0000
  const Int32Max: int := 0x7FFF_FFFF

  /** The longest string the .NET runtime can allocate. */
  const MaxStringLength: int := 0x3FFF_FFDF

  /** The values of a C# `int`. */
  type Int32 = x: int | Int32Min <= x <= Int32Max

  /** Unchecked 32-bit two's-complement arithmetic: `x` reduced modulo 2^32 into the `int` range. */
  function Wrap32(x: int): (r: Int32)
    ensures (r - x) % 0x1_0000_0000 == 0
    ensures Int32Min <= x <= Int32Max ==> r == x
  {
    (x - Int32Min) % 0x1_0000_0000 + Int32Min
  }
}
