/** Kotlin's 32-bit `Int` arithmetic, written out over Dafny's unbounded integers. */
module KotlinInt {

  const TWO_POW_31: int := 0x8000_0000
  const TWO_POW_32: int := 0x1_0000_0000

  /** The values a Kotlin `Int` can hold. */
  type Int32 = x: int | InRange(x)

  predicate InRange(x: int) {
    -TWO_POW_31 <= x < TWO_POW_31
  }

  /** Two's-complement wrap-around: the `Int` a chain of `+`, `-` and `*` yields
      when its exact value is `x`. */
  function Wrap(x: int): (r: Int32)
    ensures (x - r) % TWO_POW_32 == 0
    ensures InRange(x) ==> r == x
  {
    var low := x % TWO_POW_32;
    if low < TWO_POW_31 then low else low - TWO_POW_32
  }

  /** Kotlin's `Int` division by a positive divisor: it truncates toward zero,
      where Dafny's `/` rounds toward minus infinity for a negative dividend. */
  function Div(a: int, b: int): (q: int)
    requires b > 0
    ensures a >= 0 ==> q * b <= a < q * b + b
    ensures a < 0 ==> q * b - b < a <= q * b
    ensures a >= 0 ==> 0 <= q <= a
    ensures a < 0 ==> a <= q <= 0
  {
    if a >= 0 then
      var q := a / b;
      QuotientBound(a, b, q);
      q
    else
      var q := (-a) / b;
      QuotientBound(-a, b, q);
      -q
  }

  /** The Euclidean quotient of a non-negative number lies between 0 and it. */
  lemma QuotientBound(n: int, b: int, q: int)
    requires n >= 0 && b > 0 && q == n / b
    ensures q * b <= n < q * b + b
    ensures 0 <= q <= n
  {
  }

  /** `kotlin.math.min` and `coerceAtMost` on two `Int`s. */
  function Min(a: int, b: int): (m: int)
    ensures m <= a && m <= b
    ensures m == a || m == b
  {
    if a <= b then a else b
  }
}
