/** Option and Result values shared by every module of the model. */
module Wrappers {

  /** A value that may be absent: JavaScript's `undefined`, Rust's `Option`. */
  datatype Option<+T> = None | Some(value: T)

  /** The outcome of an operation that can fail: Rust's `Result`, or a
      JavaScript expression that may throw. */
  datatype Result<+T, +E> = Ok(value: T) | Err(error: E)
}
