/** Failure-compatible wrappers shared by every module of the model. */
module Wrappers {

  /** An optional value: JavaScript's `undefined` for a missing argument or field. */
  datatype Option<+T> = None | Some(value: T)

  /** A settled promise: `Ok` when it resolves, `Err` with the error message when it rejects or throws. */
  datatype Result<+T, +E> = Ok(value: T) | Err(error: E)
}
