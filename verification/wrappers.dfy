/** Failure-compatible wrappers: an optional value (Go's nil pointer) and a
    value-or-error result (Go's `(T, error)` pair). */
module Wrappers {

  datatype Option<+T> = None | Some(value: T)

  datatype Result<+T, +E> = Success(value: T) | Failure(error: E)
}
