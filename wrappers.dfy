/** The optional and fallible values the rest of the model is written with. */
module Wrappers {

  /** Rust's `Option`. */
  datatype Option<+T> = None | Some(value: T)

  /** Rust's `Result`, for the operations whose error paths are modelled. */
  datatype Result<+T, +E> = Ok(value: T) | Err(error: E)
}
