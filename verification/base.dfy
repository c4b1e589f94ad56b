/** Small shared vocabulary: optional values, results carrying a Python exception, and opaque objects. */
module Base {

  datatype Option<+T> = None | Some(value: T)

  /** The outcome of a Python call: a returned value or a raised exception.
      Failure-compatible, so `:-` propagates the exception. */
  datatype Result<+T, +E> = Ok(value: T) | Err(error: E) {

    predicate IsFailure() {
      Err?
    }

    function PropagateFailure<U>(): Result<U, E>
      requires Err?
    {
      Err(error)
    }

    function Extract(): T
      requires Ok?
    {
      value
    }
  }

  /** A Python object the core never looks inside, identified by its `id()`. */
  datatype Obj = Obj(id: int)
}
