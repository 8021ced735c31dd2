/** Shared vocabulary of the model: optional values, validator outcomes, and
    integer minimum and maximum (`Math.min` in the source, and the clamping
    of JavaScript's `slice` index rules). */
module Common {

  /** A value that may be missing: JavaScript's `undefined` or `null`. */
  datatype Option<+T> = None | Some(value: T)

  /** What a step validator returns: valid, or the single reason it is not. */
  datatype Check<+E> = Valid | Invalid(reason: E)

  /** `Math.min` on integers. */
  function Min(a: int, b: int): int
  {
    if a <= b then a else b
  }

  /** The larger of two integers. */
  function Max(a: int, b: int): int
  {
    if a <= b then b else a
  }
}
