/** Failure-compatible result type shared by every stage of the pipeline.
    A thrown JavaScript `Error` becomes `Err`, a normal return becomes `Ok`. */
module Results {

  datatype Result<+T, +E> = Ok(value: T) | Err(error: E) {

    predicate IsFailure() {
      Err?
    }

    function PropagateFailure<U>(): Result<U, E>
      requires Err?
    {
      Err(error)
    }

    function Extract(): T
      requires Ok?
    {
      value
    }
  }
}
