/** The ways an operation of the atmosphere editor can fail.  In the Python
    program each of these is an exception raised by numpy or scipy before any
    array is written, so a failed call leaves the atmosphere as it was. */
module Outcomes {

  datatype Fault =
    /** numpy's `argmin` of an empty profile ("attempt to get argmin of an empty sequence"). */
    | EmptyColumn
    /** scipy's `interp1d` asked for a height below the smaller of its two abscissae. */
    | BelowInterpolationRange
    /** scipy's `interp1d` asked for a height above the larger of its two abscissae. */
    | AboveInterpolationRange
    /** `min()`/`max()` over an empty height window ("zero-size array to reduction operation"). */
    | EmptyWindow

  datatype Result<+T> = Ok(value: T) | Err(fault: Fault) {
    predicate IsFailure() {
      Err?
    }

    function PropagateFailure<U>(): Result<U>
      requires Err?
    {
      Err(fault)
    }

    function Extract(): T
      requires Ok?
    {
      value
    }
  }

  datatype Option<+T> = None | Some(value: T)
}
