/** Option and Result values used for Python's "may raise" paths. */
module Outcomes {

  datatype Option<+T> = None | Some(value: T)

  /** A Python call that either returns a value or raises an error. */
  datatype Result<+R, +E> = Success(value: R) | Failure(error: E)
}
