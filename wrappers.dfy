/** Option and Result: JavaScript's `null`/`undefined` and thrown errors, made explicit. */
module Wrappers {

  /** A value that may be missing (`null` or `undefined` in the source). */
  datatype Option<T> = None | Some(value: T)

  /** The outcome of an operation that may throw. */
  datatype Result<T, E> = Success(value: T) | Failure(error: E)
}
