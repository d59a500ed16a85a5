/** Small value types shared by every module of the model. */
module Common {

  /** Python's `None` / value. */
  datatype Option<+T> = None | Some(value: T)

  /** A path length: Python's `float("inf")` or a finite value (exact, no rounding). */
  datatype Length = Infinite | Finite(value: real)
}
