/** Failure-carrying results shared by the modules of the keyword spotter. */
module Wrappers {

  /** A value that may be missing; `None` stands for Python's `None` return. */
  datatype Option<T> = None | Some(value: T)

  /** A value or the error that the source raises instead of returning. */
  datatype Result<T, E> = Ok(value: T) | Err(error: E)
}
