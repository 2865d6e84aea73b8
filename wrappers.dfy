/** Option and Result, used for the error paths of the modelled code
    (Python exceptions such as KeyError, IndexError, ValueError, ZeroDivisionError). */
module Wrappers {

  datatype Option<+T> = None | Some(value: T)

  /** The exception the Python code would raise. */
  datatype Error =
    | KeyError(key: string)
    | IndexError
    | ValueError
    | ZeroDivisionError

  datatype Result<+T> = Success(value: T) | Failure(error: Error)
}
