/** Failure-carrying values: a JavaScript function that may throw is modelled
    as a function returning a Result, an optional JSON field as an Option. */
module Wrappers {

  datatype Option<+T> = None | Some(value: T)

  datatype Result<+R, +E> = Success(value: R) | Failure(error: E)
}
