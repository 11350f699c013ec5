/** Failure-compatible wrappers shared by every module of the model. */
module Wrappers {

  /** `None` stands for a value the source leaves unset (JavaScript `NaN`, `null` or a missing field). */
  datatype Option<+T> = None | Some(value: T)

  /** A value or an error message, for the source's `{ value, error }` results. */
  datatype Result<+T> = Ok(value: T) | Err(message: string)
}
