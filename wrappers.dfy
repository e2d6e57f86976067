/** Option and Result, the two wrapper types the model uses for Rust's `Option` and `Result`. */
module Wrappers {

  datatype Option<+T> = None | Some(value: T)

  datatype Result<+T, +E> = Ok(value: T) | Err(error: E)

  /** An 8-bit unsigned integer (Rust's `u8`). */
  newtype u8 = x: int | 0 <= x < 256
}
