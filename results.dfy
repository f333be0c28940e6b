/** The error kinds of the engine and the failure-compatible result types. */
module Results {

  /** What can go wrong in the engine.
      ShapeMismatch, HardwareMismatch and InvalidGraph are the engine's own error kinds;
      DivisionByZero stands for the non-finite f32 results the model does not represent. */
  datatype Error = ShapeMismatch | HardwareMismatch | InvalidGraph | DivisionByZero

  /** A value or the error that prevented computing it; usable with `:-`. */
  datatype Result<+T> = Ok(value: T) | Err(error: Error) {

    predicate IsFailure() {
      Err?
    }

    function PropagateFailure<U>(): Result<U>
      requires Err?
    {
      Err(error)
    }

    function Extract(): T
      requires Ok?
    {
      value
    }
  }

  datatype Option<+T> = None | Some(value: T)
}
