/** Option and Result, used for the nullable last exception and for the
    constructor's argument check. */
module Wrappers {

  /** `None` stands for C#'s `null`. */
  datatype Option<+T> = None | Some(value: T)

  /** The outcome of an operation that either succeeds or throws. */
  datatype Result<+R, +E> = Ok(value: R) | Err(error: E)
}
