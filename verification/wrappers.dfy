/** Small failure-carrying datatypes shared by the detector modules. */
module Wrappers {

  /** A value that may be absent (Python's `None`). */
  datatype Option<+T> = None | Some(value: T)

  /** The result of a call that either returns a value or lets an exception escape to its caller. */
  datatype Outcome<+T> = Returned(value: T) | Raised(reason: string)

  /** A wall-clock reading (`datetime.now()`), supplied by the caller. */
  type Instant = int

  function Min(a: real, b: real): real
  {
    if a <= b then a else b
  }

  function Abs(x: real): real
  {
    if x < 0.0 then -x else x
  }
}
