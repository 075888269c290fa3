/**
 * The JavaScript numeric operations the modelled components rely on.
 * Numbers are idealised: `int` is unbounded and `real` is exact, so IEEE-754
 * rounding, overflow and NaN are not represented.
 */
module JsMath {

  /** `Math.abs` */
  function Abs(r: real): (a: real)
    ensures a >= 0.0
    ensures a == r || a == -r
  {
    if r < 0.0 then -r else r
  }

  /** `Math.min` on integers */
  function Min(a: int, b: int): (m: int)
    ensures m <= a && m <= b
    ensures m == a || m == b
  {
    if a <= b then a else b
  }

  /** `Math.max` on reals */
  function Max(a: real, b: real): (m: real)
    ensures m >= a && m >= b
    ensures m == a || m == b
  {
    if a >= b then a else b
  }

  /** `Math.floor`: the greatest integer not above `r`. */
  function Floor(r: real): (n: int)
    ensures n as real <= r < n as real + 1.0
  {
    r.Floor
  }

  /** `Math.round`: the nearest integer, half-way cases going towards +infinity. */
  function Round(r: real): (n: int)
    ensures r - 0.5 < n as real <= r + 0.5
  {
    Floor(r + 0.5)
  }

  /**
   * JavaScript's `%` on integers: it truncates, so the remainder carries the
   * sign of the dividend and has the magnitude of `|a| % b` (Dafny's `%` is
   * Euclidean and never negative).
   */
  function Rem(a: int, b: int): (r: int)
    requires b > 0
    ensures a >= 0 ==> 0 <= r < b && r == a % b
    ensures a < 0 ==> -b < r <= 0 && -r == (-a) % b
  {
    if a >= 0 then a % b else -((-a) % b)
  }
}
