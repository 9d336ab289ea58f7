/** Small numeric helpers of the resource burner and the Option type used
    for readings that may be missing. */
module Helpers {

  datatype Option<+T> = None | Some(value: T) {
    /** The wrapped value, or `default` when there is none. */
    function GetOr(default: T): T {
      match this
      case Some(v) => v
      case None => default
    }
  }

  /** `min` on int64 and `minInt` on int: the smaller of the two. */
  function Min(a: int, b: int): (r: int)
    ensures r <= a && r <= b
    ensures r == a || r == b
  {
    if a < b then a else b
  }

  /** `max` on int64: the larger of the two. */
  function Max(a: int, b: int): (r: int)
    ensures r >= a && r >= b
    ensures r == a || r == b
  {
    if a > b then a else b
  }

  /** `abs` on float64. */
  function Abs(x: real): (r: real)
    ensures r >= 0.0
    ensures r == x || r == -x
    ensures r >= x && r >= -x
  {
    if x < 0.0 then -x else x
  }

  /** Go's conversion of a float to an integer type, which truncates
      toward zero (for the finite values in range that the model uses). */
  function Trunc(x: real): (r: int)
    ensures x >= 0.0 ==> r >= 0 && r as real <= x < r as real + 1.0
    ensures x < 0.0 ==> r <= 0 && r as real - 1.0 < x <= r as real
  {
    if x >= 0.0 then x.Floor else -((-x).Floor)
  }

  /** `math.Ceil` on the exact value. */
  function Ceil(x: real): (r: int)
    ensures r as real - 1.0 < x <= r as real
  {
    -((-x).Floor)
  }
}
