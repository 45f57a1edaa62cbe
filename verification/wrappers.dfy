/** Failure-compatible helper datatypes shared by every module of the model. */
module Wrappers {

  /** An optional value: `None` stands for the source's NULL pointer or unset field. */
  datatype Option<+T> = None | Some(value: T)

  /** The outcome of a step that can fail: a value or an error. */
  datatype Result<+T, +E> = Ok(value: T) | Err(error: E)
}
