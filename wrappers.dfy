/** Failure-carrying result types shared by the other modules. */
module Wrappers {

  /** `None` stands for JavaScript's `undefined`/`null` where the source uses them. */
  datatype Option<+T> = None | Some(value: T)

  /** The value of an operation that either succeeds or is rejected with an error. */
  datatype Result<+R, +E> = Success(value: R) | Failure(error: E)
}
