/** Optional values and results that carry an error, shared by every module. */
module Results {

  /** A nullable pointer, or an operation that may fail without saying why. */
  datatype Option<+T> = None | Some(value: T)

  /** The value of a computation, or the exception it throws. */
  datatype Result<+T, +E> = Ok(value: T) | Err(error: E) {

    predicate IsFailure() {
      Err?
    }

    function PropagateFailure<U>(): Result<U, E>
      requires Err?
    {
      Err(error)
    }

    function Extract(): T
      requires Ok?
    {
      value
    }
  }
}
