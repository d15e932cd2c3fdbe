/** Failure-carrying values and fixed-width integers shared by every module of the model. */
module Wrappers {

  /** A value that may be absent: the source's `null` or a parse that needs more bytes. */
  datatype Option<+T> = None | Some(value: T)

  /** The outcome of an operation that the source ends by throwing an exception. */
  datatype Result<+T, +E> = Success(value: T) | Failure(error: E)

  /** The outcome of an operation that returns nothing but may throw. */
  datatype Outcome<+E> = Pass | Fail(error: E)

  /** C#'s `byte`. */
  type uint8 = x: int | 0 <= x < 0x100

  /** C#'s `ushort`. */
  type uint16 = x: int | 0 <= x < 0x1_0000

  /** C#'s `short`. */
  type int16 = x: int | -0x8000 <= x < 0x8000
}
