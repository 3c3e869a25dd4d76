/** Option and Result, the two failure-aware wrappers the model uses. */
module Wrappers {

  /** A value that may be missing; `None` stands for Java's `null`. */
  datatype Option<+T> = None | Some(value: T)

  /** The outcome of an operation that can fail with an error of type `E`. */
  datatype Result<+T, +E> = Ok(value: T) | Err(error: E)
}
