/** Java's narrowing conversion `Double.intValue()`, which the direction calculator applies to the
    bearing before classifying it. A `double` is modelled by a `real`; NaN, the infinities and
    signed zero are not. */
module JavaNumerics {

  const INT_MIN: int := -0x8000_0000
  const INT_MAX: int := 0x7fff_ffff

  /** Rounding toward zero, the rounding of Java's conversion from `double` to `int`. */
  function TruncateTowardZero(x: real): (t: int)
    ensures 0.0 <= x ==> 0 <= t && t as real <= x < t as real + 1.0
    ensures x < 0.0 ==> t <= 0 && t as real - 1.0 < x <= t as real
  {
    if 0.0 <= x then x.Floor else -((-x).Floor)
  }

  /** `Double.intValue()`: the value rounded toward zero, saturated to the 32-bit `int` range. */
  function IntValue(x: real): (i: int)
    ensures INT_MIN <= i <= INT_MAX
    ensures 0.0 <= x < (INT_MAX + 1) as real ==> 0 <= i && i as real <= x < i as real + 1.0
    ensures (INT_MIN - 1) as real < x < 0.0 ==> i <= 0 && i as real - 1.0 < x <= i as real
    ensures (INT_MAX + 1) as real <= x ==> i == INT_MAX
    ensures x <= (INT_MIN - 1) as real ==> i == INT_MIN
  {
    var t := TruncateTowardZero(x);
    if t < INT_MIN then INT_MIN else if INT_MAX < t then INT_MAX else t
  }
}
