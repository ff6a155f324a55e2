/** Failure-carrying datatypes shared by the whole model. */
module Wrappers {

  /** Python's `None` or a value. */
  datatype Option<+T> = None | Some(value: T)

  /**
   * The outcome of a Python computation that may raise: `Err` carries the
   * name of the exception the source would raise on that input.
   */
  datatype Result<+T> = Ok(value: T) | Err(error: string)
}
