/** Absolute value and Python's truncation. */
module Numbers {

  function Abs(x: real): real { if x < 0.0 then -x else x }

  function AbsInt(x: int): nat { if x < 0 then -x else x }

  /** Python's `int` of a float: toward zero. */
  function Truncate(x: real): int { if x >= 0.0 then x.Floor else -((-x).Floor) }
}
