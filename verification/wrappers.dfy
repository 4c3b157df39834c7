/** Failure-compatible shapes used throughout the model: an optional value,
    and a value-or-error outcome standing for a Python call that either
    returns or raises. */
module Wrappers {

  datatype Option<+T> = None | Some(value: T)

  datatype Result<+T, +E> = Success(value: T) | Failure(error: E)
}
