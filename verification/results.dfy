/** Failure-compatible wrappers shared by the request and broker models. */
module Results {

  /** An optional value: Python's `Optional[T]`, where `None` is absent. */
  datatype Option<+T> = None | Some(value: T)

  /** The outcome of an operation that may raise: a value or an error. */
  datatype Result<+T, +E> = Ok(value: T) | Err(error: E)
}
