/** Optional values and results with an error, as used throughout the model. */
module Wrappers {

  /** A value that may be absent; in the interpreter `None` stands for JavaScript's
      `undefined`/`null` or for "the host threw". */
  datatype Option<+T> = None | Some(value: T)

  /** A value or the error that stopped its computation. */
  datatype Result<+R, +E> = Success(value: R) | Failure(error: E)
}
