/**
 * Kotlin's fixed-width integers and the two integer operations the timer
 * code depends on: `/` on `Long` (rounds toward zero) and `Long.toInt()`
 * (keeps the low 32 bits).
 */
module KotlinInts {

  const MinInt: int := -0x8000_0000
  const MaxInt: int := 0x7fff_ffff
  const MinLong: int := -0x8000_0000_0000_0000
  const MaxLong: int := 0x7fff_ffff_ffff_ffff

  /** Kotlin `Int`: 32-bit two's complement. */
  type Int32 = x: int | -0x8000_0000 <= x <= 0x7fff_ffff

  /** Kotlin `Long`: 64-bit two's complement. */
  type Int64 = x: int | -0x8000_0000_0000_0000 <= x <= 0x7fff_ffff_ffff_ffff

  /**
   * Kotlin's integer division: the quotient is rounded toward zero, so for a
   * negative dividend it differs from Dafny's Euclidean `/`.
   */
  function TruncDiv(a: int, b: int): (q: int)
    requires b > 0
    ensures 0 <= a ==> 0 <= q && q * b <= a < q * b + b
    ensures a < 0 ==> q <= 0 && q * b - b < a <= q * b
  {
    if a >= 0 then a / b else -((-a) / b)
  }

  /** `Long.toInt()`: the result agrees with `x` on the low 32 bits. */
  function LongToInt(x: Int64): (r: Int32)
    ensures (x - r) % 0x1_0000_0000 == 0
    ensures MinInt <= x <= MaxInt ==> r == x
  {
    var low := x % 0x1_0000_0000;
    if low <= MaxInt then low else low - 0x1_0000_0000
  }
}
