/**
  Java's numeric conversions that the generation code relies on, stated over
  unbounded `int` and exact `real`: the narrowing cast from double to int
  (round toward zero, then saturate to 32 bits), `(int) Math.floor`, the low
  bits of a two's-complement int, and double division whose divisor is zero.
*/
module JavaNumeric {

  const IntMin: int := -0x8000_0000
  const IntMax: int := 0x7FFF_FFFF

  /** A double value: finite, or one of NaN / +Infinity / -Infinity (not distinguished). */
  datatype Number = Finite(value: real) | NonFinite

  /** Double division `a / b`: a zero divisor gives NaN or an infinity. */
  function Divide(a: real, b: real): (r: Number)
    ensures r.Finite? <==> b != 0.0
    ensures r.Finite? ==> r.value * b == a
  {
    if b == 0.0 then NonFinite else Finite(a / b)
  }

  /** Rounding toward zero, the first half of Java's `(int)` cast on a double. */
  function Trunc(r: real): (n: int)
    ensures 0.0 <= r ==> 0 <= n && n as real <= r < n as real + 1.0
    ensures r < 0.0 ==> n <= 0 && n as real - 1.0 < r <= n as real
  {
    if 0.0 <= r then r.Floor else -((-r).Floor)
  }

  /** Saturation to the 32-bit range, the second half of Java's `(int)` cast. */
  function Saturate(n: int): (r: int)
    ensures IntMin <= r <= IntMax
    ensures IntMin <= n <= IntMax ==> r == n
    ensures n < IntMin ==> r == IntMin
    ensures IntMax < n ==> r == IntMax
  {
    if n < IntMin then IntMin else if IntMax < n then IntMax else n
  }

  /** Java's `(int) d` for a non-NaN double `d`. */
  function DoubleToInt(d: real): (n: int)
    ensures IntMin <= n <= IntMax
    ensures IntMin as real <= d < IntMax as real + 1.0 ==> n == Trunc(d)
  {
    Saturate(Trunc(d))
  }

  /** Java's `(int) Math.floor(d)`. */
  function FloorToInt(d: real): (n: int)
    ensures IntMin <= n <= IntMax
    ensures IntMin as real <= d < IntMax as real + 1.0 ==> n as real <= d < n as real + 1.0
  {
    Saturate(d.Floor)
  }

  /**
    Java's `n & 255` on an int. In two's complement, masking with 2^8 - 1 keeps
    the low eight bits, which is the remainder of n by 256 rounded toward
    negative infinity; Dafny's `%` is exactly that remainder.
  */
  function LowByte(n: int): (r: int)
    ensures 0 <= r < 256
    ensures (n - r) % 256 == 0
  {
    n % 256
  }

  /** `x.Floor` moves with whole shifts of its argument. */
  lemma FloorShift(x: real, k: int)
    ensures (x + k as real).Floor == x.Floor + k
  {
  }

  /** Truncation and floor agree on non-negative inputs and differ by one below zero off the lattice. */
  lemma TruncVersusFloor(r: real)
    ensures 0.0 <= r ==> Trunc(r) == r.Floor
    ensures r < 0.0 && r != r.Floor as real ==> Trunc(r) == r.Floor + 1
  {
  }
}
