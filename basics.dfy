/** Shared vocabulary: optional values and the range of a C++ `int`. */
module Basics {

  datatype Option<T> = None | Some(value: T)

  const MinInt32: int := -0x8000_0000
  const MaxInt32: int := 0x7fff_ffff

  /** The values a 32-bit C++ `int` can hold. */
  type Int32 = x: int | MinInt32 <= x <= MaxInt32
}
