/** Failure values shared by the interest, progression and series modules.
    The Python code raises exceptions; here every operation that can raise
    returns a `Result` whose failure names the exception class. */
module Results {

  /** The exception classes the modelled code can raise. */
  datatype Error =
    | IndexError         // a progression index below 1
    | TypeError          // a validation failure, or a call with arguments the callee does not accept
    | ZeroDivisionError  // a division whose divisor is zero

  datatype Result<+T> = Success(value: T) | Failure(error: Error)

  /** Python's `None` for an optional value. */
  datatype Option<+T> = None | Some(value: T)

  /** Python's `abs` on a float. */
  function Abs(x: real): (r: real)
    ensures r >= 0.0
    ensures r == x || r == -x
  {
    if x < 0.0 then -x else x
  }
}
