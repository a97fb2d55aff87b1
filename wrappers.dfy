/** Failure-carrying values shared by every module of the model. */
module Wrappers {

  /** A value that may be missing: Python's `None`, Rust's `Option`. */
  datatype Option<+T> = None | Some(value: T)

  /** A value or an error: a raised exception, Rust's `Result`. */
  datatype Result<+T, +E> = Ok(value: T) | Err(error: E)
}
