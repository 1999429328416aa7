/** Optional values and the error results that stand for the compiler's exceptions. */
module Outcomes {

  datatype Option<T> = None | Some(value: T)

  /** The two kinds of JavaScript error the compiler raises: a `TypeError`, or a plain `Error`. */
  datatype ErrorKind = TypeError | PlainError

  /** A thrown error: its constructor and its `message`. */
  datatype Error = Error(kind: ErrorKind, message: string)

  /** The value a call returns, or the error it throws. */
  datatype Result<T> = Ok(value: T) | Err(error: Error)
}
