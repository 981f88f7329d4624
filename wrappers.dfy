/** Failure-carrying results: a Python call that may raise becomes a function
    or method that returns one of these. */
module Wrappers {

  datatype Option<+T> = None | Some(value: T)

  datatype Result<+T, +E> = Ok(value: T) | Err(error: E)
}
