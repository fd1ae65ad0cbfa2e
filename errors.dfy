/** Optional values and the exceptions the modelled Python code raises. */
module Errors {
  datatype Option<T> = None | Some(value: T)

  /** The Python exceptions raised by the modelled code. */
  datatype Error =
    | ValueError       // `min` over an empty list; a velocity outside 0..127
    | FileExistsError  // the destination of normidi already exists

  /** A value, or the exception that was raised instead. */
  datatype Result<T> = Ok(value: T) | Err(error: Error)

  /** Completion of a procedure that returns nothing, or the exception it raised. */
  datatype Outcome = Pass | Fail(error: Error)
}
