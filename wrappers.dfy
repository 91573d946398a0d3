/** Failure-carrying results, and the Python exceptions the modelled code raises. */
module Wrappers {

  datatype Option<+T> = None | Some(value: T)

  /** The exception classes raised on the modelled paths. */
  datatype Exception =
    | AttributeError
    | IndexError
    | KeyError
    | TypeError
    | ValueError
    | RuntimeError
    | ZeroDivisionError

  /** A value, or the exception the Python code would raise instead. */
  datatype Result<+T> = Ok(value: T) | Err(error: Exception)
}
