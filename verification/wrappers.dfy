/** Option, Result and Outcome: the failure-carrying values the model returns
    where the Go code returns a value together with an `error`. */
module Wrappers {

  datatype Option<+T> = None | Some(value: T)

  datatype Result<+R, +E> = Success(value: R) | Failure(error: E)

  /** The result of an operation that returns only an `error`. */
  datatype Outcome<+E> = Pass | Fail(error: E)
}
