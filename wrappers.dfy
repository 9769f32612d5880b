/** Go's `error` returns, as values. An error is represented by its text,
    because the reconciliation pass matches on that text. */
module Wrappers {

  datatype Option<T> = None | Some(value: T)

  /** A Go `(value, error)` pair: either the value, or the error's text. */
  datatype Result<T> = Ok(value: T) | Err(msg: string)

  /** A bare Go `error`: nil, or the error's text. */
  datatype Outcome = Pass | Fail(msg: string)
}
