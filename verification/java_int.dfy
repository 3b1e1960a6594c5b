/**
  Java's 32-bit `int` arithmetic, as far as the display-orientation
  computation uses it: `+` and `-` wrap around in two's complement, and `%`
  truncates toward zero, so a remainder takes the sign of its dividend.
 */
module JavaInt {

  const IntMin: int := -0x8000_0000
  const IntMax: int := 0x7fff_ffff
  const Modulus: int := 0x1_0000_0000

  /** A value of Java type `int`. */
  type Int32 = x: int | IntMin <= x <= IntMax

  /** Reduces an unbounded integer to the `int` it wraps around to. */
  function Wrap(x: int): (r: Int32)
    ensures IntMin <= x <= IntMax ==> r == x
    ensures (x - r) % Modulus == 0
  {
    (x - IntMin) % Modulus + IntMin
  }

  /** Java `a + b` on `int`. */
  function Add(a: Int32, b: Int32): (r: Int32)
    ensures IntMin <= a + b <= IntMax ==> r == a + b
    ensures (a + b - r) % Modulus == 0
  {
    Wrap(a + b)
  }

  /** Java `a - b` on `int`. */
  function Sub(a: Int32, b: Int32): (r: Int32)
    ensures IntMin <= a - b <= IntMax ==> r == a - b
    ensures (a - b - r) % Modulus == 0
  {
    Wrap(a - b)
  }

  /** Java `a / b` on `int` for a positive divisor: rounds toward zero. */
  function Div(a: Int32, b: Int32): Int32
    requires b > 0
  {
    if a >= 0 then a / b else -((-(a as int)) / b)
  }

  /** Java `a % b` on `int` for a positive divisor: what `a / b` leaves over,
      so the remainder takes the sign of `a`. */
  function Rem(a: Int32, b: Int32): (r: Int32)
    requires b > 0
    ensures a == Div(a, b) * b + r
    ensures 0 <= a ==> 0 <= r < b
    ensures a < 0 ==> -b < r <= 0
  {
    if a >= 0 then a % b else -((-(a as int)) % b)
  }
}
