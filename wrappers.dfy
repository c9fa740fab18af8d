/** Failure-carrying values. `Option` stands for a JavaScript value that may be
    `undefined`; `Result` and `Outcome` stand for a call that may throw. */
module Wrappers {

  datatype Option<+T> = None | Some(value: T)

  datatype Result<+T, +E> = Ok(value: T) | Err(error: E)

  datatype Outcome<+E> = Pass | Fail(error: E)
}
