/**
 * Java's 32-bit `int` and the operations on it that the painting code relies on:
 * wrap-around multiplication, `Math.abs` and the truncating `%`.
 */
module JavaInt {

  const INT_MIN: int := -0x8000_0000
  const INT_MAX: int := 0x7fff_ffff
  const TWO_32: int := 0x1_0000_0000

  type int32 = x: int | INT_MIN <= x <= INT_MAX

  /** Two's-complement truncation to 32 bits, as an overflowing `int` multiplication or `Number.intValue` does. */
  function Wrap(x: int): (r: int32)
    ensures (x - r) % TWO_32 == 0
    ensures INT_MIN <= x <= INT_MAX ==> r == x
  {
    var m := x % TWO_32;
    if m <= INT_MAX then m else m - TWO_32
  }

  /** `Math.abs(int)`: the negation wraps, so the absolute value of INT_MIN is INT_MIN itself. */
  function Abs(x: int32): (r: int32)
    ensures x != INT_MIN ==> r >= 0 && (r == x || r == -x)
    ensures x == INT_MIN ==> r == INT_MIN
  {
    if x < 0 then Wrap(-(x as int)) else x
  }

  /** Java's `/` for a positive divisor: it truncates toward zero. */
  function Quot(a: int, b: int): int
    requires b > 0
  {
    if a >= 0 then a / b else -((-a) / b)
  }

  /** Java's `%` for a positive divisor: the remainder of `Quot`, so it has the dividend's sign. */
  function Rem(a: int, b: int): (r: int)
    requires b > 0
    ensures a >= 0 ==> 0 <= r < b
    ensures a < 0 ==> -b < r <= 0
    ensures a == Quot(a, b) * b + r
  {
    if a >= 0 then a % b else -((-a) % b)
  }
}
