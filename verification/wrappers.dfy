/** Failure-carrying datatypes shared by the scraper model. */
module Wrappers {

  /** A value that may be absent: the result of a selector lookup that can miss. */
  datatype Option<+T> = None | Some(value: T)

  /** The outcome of a step that either produces a value or raises a fault. */
  datatype Result<+R, +E> = Success(value: R) | Failure(error: E)
}
