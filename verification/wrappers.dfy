/** Failure-carrying datatypes shared by the engine and the backend model. */
module Wrappers {

  /** A value that may be absent; Go's nil error is `None`. */
  datatype Option<+T> = None | Some(value: T)

  /** Either a constructed value or the error that prevented it. */
  datatype Result<+R, +E> = Success(value: R) | Failure(error: E)
}
