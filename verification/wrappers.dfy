/** Option and Result values standing in for JavaScript's `null` and for thrown errors. */
module Wrappers {

  datatype Option<+T> = None | Some(value: T)

  datatype Result<+R, +E> = Success(value: R) | Failure(error: E)

  /** A value thrown by JavaScript code: an `Error` (or subclass, named by `name`) or anything else. */
  datatype Thrown = Error(name: string, message: string) | NonErrorValue
}
