/** Failure-carrying values shared by the other modules: Go's `(value, error)`
    pairs become an Option of an error or a Result. */
module Wrappers {

  datatype Option<+T> = None | Some(value: T)

  datatype Result<+T, +E> = Success(value: T) | Failure(error: E)
}
