/** Option and Result: null-or-value, and value-or-thrown-error. */
module Wrappers {

  /** `None` stands for JavaScript's `null` or `undefined`. */
  datatype Option<+T> = None | Some(value: T)

  /** `Failure` stands for an exception the JavaScript code would throw. */
  datatype Result<+T, +E> = Success(value: T) | Failure(error: E)
}
