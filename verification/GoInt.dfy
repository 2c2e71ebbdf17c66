/** Go's int and int64: arithmetic keeps the low 64 bits of the result. */
module GoInt {
  const INT64_MAX := 0x7FFF_FFFF_FFFF_FFFF
  const TWO_TO_THE_64 := 0x1_0000_0000_0000_0000

  predicate IsInt64(x: int) {
    -INT64_MAX - 1 <= x <= INT64_MAX
  }

  /** What a 64-bit variable holds when the true result is x. */
  function Int64(x: int): (r: int)
    ensures IsInt64(r) && (r - x) % TWO_TO_THE_64 == 0
    ensures IsInt64(x) ==> r == x
  {
    var low := x % TWO_TO_THE_64;
    if low > INT64_MAX then low - TWO_TO_THE_64 else low
  }

  /** Past the largest value the result is too small by at least 2^64. */
  lemma TooLarge(x: int)
    requires x > INT64_MAX
    ensures Int64(x) <= x - TWO_TO_THE_64
  {
  }

  /** Integer division, which truncates towards zero; the one quotient that does not fit wraps. */
  function Quotient(a: int, b: int): (r: int)
    requires b != 0
    ensures IsInt64(r)
  {
    var magnitude := (if a < 0 then -a else a) / (if b < 0 then -b else b);
    Int64(if (a < 0) == (b < 0) then magnitude else -magnitude)
  }

  lemma DivisionOf(a: int, b: int)
    requires a >= 0 && b > 0
    ensures a == a / b * b + a % b && a / b >= 0
  {
  }

  lemma AtMostProduct(q: int, b: int)
    requires q >= 0 && b > 0
    ensures q <= q * b
  {
  }

  /** The quotient of the magnitudes, with the sign that the signs of both give. */
  lemma QuotientTruncates(a: int, b: int)
    requires 0 <= a <= INT64_MAX && b > 0
    ensures 0 <= a / b <= a
    ensures Quotient(a, b) == a / b && Quotient(-a, -b) == a / b
    ensures Quotient(-a, b) == -(a / b) && Quotient(a, -b) == -(a / b)
  {
    DivisionOf(a, b);
    AtMostProduct(a / b, b);
  }
}
