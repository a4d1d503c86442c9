/** Option and Result, used for JavaScript's `undefined` and for thrown errors. */
module Wrappers {

  /** `None` stands for a JavaScript value that is `undefined`. */
  datatype Option<+T> = None | Some(value: T)

  /** `Failure` stands for an exception that escapes the call. */
  datatype Result<+R, +E> = Success(value: R) | Failure(error: E)
}
