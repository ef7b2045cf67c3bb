/** Failure-carrying values shared by the race model. */
module Wrappers {

  /** A value that may be absent: the result of a parse that can fail. */
  datatype Option<+T> = None | Some(value: T)

  /** The outcome of a handler: a new value or the error it returns. */
  datatype Result<+T, +E> = Ok(value: T) | Err(error: E)

  function Max(a: int, b: int): (m: int)
    ensures m >= a && m >= b
    ensures m == a || m == b
  {
    if a >= b then a else b
  }
}
