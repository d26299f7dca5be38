/**
 * Unsigned 128-bit integers as cosmwasm's `Uint128` provides them: addition and
 * multiplication fail instead of wrapping, and `multiply_ratio` floors the exact
 * quotient of a product computed at double width.
 */
module Uint128 {
  import opened Results

  const MAX: int := 0xFFFF_FFFF_FFFF_FFFF_FFFF_FFFF_FFFF_FFFF

  type Uint128 = x: int | 0 <= x <= MAX

  /** The two ways an operation on `Uint128` can fail. */
  datatype MathError = Overflow | DivideByZero

  function CheckedAdd(a: Uint128, b: Uint128): Result<Uint128, MathError> {
    if a + b <= MAX then Ok(a + b) else Err(Overflow)
  }

  function CheckedMul(a: Uint128, b: Uint128): Result<Uint128, MathError> {
    if a * b <= MAX then Ok(a * b) else Err(Overflow)
  }

  /**
   * `x.multiply_ratio(num, den)`: the floor of x * num / den. The product is
   * formed at 256 bits, so only a quotient beyond 128 bits overflows.
   */
  function MultiplyRatio(x: Uint128, num: Uint128, den: Uint128): (r: Result<Uint128, MathError>)
    ensures den == 0 <==> r == Err(DivideByZero)
    ensures den > 0 ==> (r.Ok? <==> x * num < (MAX + 1) * den)
    ensures r.Ok? ==> r.value * den <= x * num < (r.value + 1) * den
  {
    if den == 0 then Err(DivideByZero)
    else
      var q := x * num / den;
      FloorDiv(x * num, den);
      if q <= MAX then Ok(q)
      else
        assert (MAX + 1) * den <= q * den;
        Err(Overflow)
  }

  /** Euclidean division of naturals brackets the quotient. */
  lemma FloorDiv(p: nat, d: nat)
    requires d > 0
    ensures (p / d) * d <= p < (p / d + 1) * d
  {
  }
}
