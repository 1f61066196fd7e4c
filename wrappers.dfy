/** Optional and fallible values shared by the whole model. */
module Wrappers {

  /** A JavaScript value that may be `undefined`: `None` stands for `undefined`. */
  datatype Option<+T> = None | Some(value: T)

  /** The outcome of a step that may throw. */
  datatype Result<+R, +E> = Success(value: R) | Failure(error: E)
}
