/** Small result types shared by the two executors. */
module Common {

  /** A value that may be absent. */
  datatype Option<+T> = None | Some(value: T)

  /** The outcome of an operation that returns nothing but may fail
      (where the source would panic). */
  datatype Outcome<+E> = Pass | Fail(error: E)

  /** A value, or the error that stopped it being computed. */
  datatype Result<+T, +E> = Ok(value: T) | Err(error: E)
}
