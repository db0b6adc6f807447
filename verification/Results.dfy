/** Failure-carrying values used throughout the model. */
module Results {
  datatype Option<+T> = None | Some(value: T)

  /** `Ok` or an error kind; usable with `:-`. Error texts of the program are not modelled. */
  datatype Result<+T, +E> = Ok(value: T) | Err(error: E) {
    predicate IsFailure() {
      Err?
    }

    function PropagateFailure<U>(): Result<U, E>
      requires Err?
    {
      Err(error)
    }

    function Extract(): T
      requires Ok?
    {
      value
    }
  }
}
