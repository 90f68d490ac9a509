/** Outcomes of operations that can raise one of the system's exceptions. */
module Wrappers {

  datatype Option<+T> = None | Some(value: T)

  /** A value, or the exception raised instead of producing it. */
  datatype Result<+T, +E> = Ok(value: T) | Err(error: E)

  /** Completion of an operation that returns nothing, or the exception it raised. */
  datatype Outcome<+E> = Pass | Fail(error: E)

  /** Unsigned 32-bit integers: register words, `uint32_t` arguments. */
  type U32 = x: nat | x < 0x1_0000_0000

  /** Unsigned 8-bit integers: bytes moved over I2C. */
  type U8 = x: nat | x < 0x100
}
