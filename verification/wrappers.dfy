/** Wrappers shared by the whole model: Option stands for a Python value that
    may be None, Result for an operation that may raise. */
module Wrappers {

  datatype Option<+T> = None | Some(value: T)

  datatype Result<+R, +E> = Success(value: R) | Failure(error: E)
}
