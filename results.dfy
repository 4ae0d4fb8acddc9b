/** Option and Result values: the model's stand-ins for `undefined` and for thrown errors. */
module Results {

  datatype Option<+T> = None | Some(value: T) {
    /** `value || fallback` for a possibly-absent value. */
    function GetOr(fallback: T): T {
      match this
      case Some(v) => v
      case None => fallback
    }
  }

  /** A computation that either produced a value or threw an error carrying a message. */
  datatype Result<+T, +E> = Ok(value: T) | Err(error: E) {
    predicate IsFailure() { Err? }

    function PropagateFailure<U>(): Result<U, E>
      requires Err?
    {
      Err(error)
    }

    function Extract(): T
      requires Ok?
    {
      value
    }
  }
}
