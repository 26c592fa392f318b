/** Failure-carrying results: `Option` for functions that return `None`,
    `Result` for functions that raise one of Python's built-in exceptions. */
module Wrappers {

  datatype Option<T> = None | Some(value: T)

  /** The Python exception a modelled function raises (`ValidationError`
      is the one a data model raises for a field of the wrong type). */
  datatype Exception = ValueError | KeyError | ZeroDivisionError | AttributeError | TypeError | ValidationError

  datatype Result<T> = Ok(value: T) | Err(error: Exception)
}
