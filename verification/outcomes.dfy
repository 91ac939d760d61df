/** Results of the fitter's partial steps.

  The fitter divides by three quantities it never checks: the total chord
  length of a region, the (possibly perturbed) determinant of the 2x2 normal
  equations, and the Newton-Raphson denominator.  Where one of them is zero
  the original goes on with an infinite or NaN value; the model stops there
  and reports which division it was.  A polyline of fewer than two points
  makes the original throw while reading `d[1]`.
 */
module Outcomes {

  /** The division that would have produced a non-finite number. */
  datatype Division = ChordLength | Determinant | NewtonStep

  datatype Failure = TooFewPoints | NonFinite(at: Division)

  /** A failure-compatible result, usable with `:-`. */
  datatype Outcome<+T> = Ok(value: T) | Fail(failure: Failure) {

    predicate IsFailure() {
      Fail?
    }

    function PropagateFailure<U>(): Outcome<U>
      requires Fail?
    {
      Fail(failure)
    }

    function Extract(): T
      requires Ok?
    {
      value
    }
  }
}
