/** Option and Result, used for JavaScript's `undefined` and for a thrown error. */
module Wrappers {

  /** `None` stands for JavaScript's `undefined`. */
  datatype Option<+T> = None | Some(value: T)

  /** `Failure` stands for an exception the JavaScript code would throw. */
  datatype Result<+R, +E> = Success(value: R) | Failure(error: E)
}
