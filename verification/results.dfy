/** Result types shared by every module of the model:
    an optional value, the value-or-error outcome of a service call, and the
    pass-or-error outcome of a single guard. */
module Results {

  /** Python's `Optional[T]`: `None` or a present value. */
  datatype Option<+T> = None | Some(value: T)

  /** A call that either returns a value or raises an error. */
  datatype Result<+T, +E> = Ok(value: T) | Err(error: E)

  /** A guard that either lets the call go on or raises an error. */
  datatype Check<+E> = Pass | Fail(error: E)
}
