/** Optional values and success/failure results, used where the Python code
    returns None or raises an exception. */
module Results {

  /** A value that may be absent (Python's `None`). */
  datatype Option<+T> = None | Some(value: T)

  /** The outcome of an operation that can raise: its value, or the error. */
  datatype Result<+T, +E> = Success(value: T) | Failure(error: E)

}
