/** The `Option` and `Result` types shared by every module of the model. */
module Wrappers {

  datatype Option<+T> = None | Some(value: T)

  /** The value of a call that either completes or throws the given error. */
  datatype Result<+R, +E> = Success(value: R) | Failure(error: E)
}
