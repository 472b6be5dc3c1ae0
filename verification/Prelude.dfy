/** Small helpers shared by every model in this project. */
module Prelude {

  datatype Option<+T> = None | Some(value: T)

  function MaxReal(a: real, b: real): real { if a >= b then a else b }

  function MinReal(a: real, b: real): real { if a <= b then a else b }

  function AbsReal(a: real): real { if a < 0.0 then -a else a }

  function MaxInt(a: int, b: int): int { if a >= b then a else b }

  function MinInt(a: int, b: int): int { if a <= b then a else b }
}

/** Products and quotients of reals, one law at a time. */
module RealLaws {

  lemma ProductNonNegative(a: real, b: real)
    requires a >= 0.0 && b >= 0.0
    ensures a * b >= 0.0
  {
  }

  lemma ProductOfDifference(k: real, q: real, t: real)
    ensures (k - q) * t == k * t - q * t
  {
  }

  lemma ProductOfSum(k: real, q: real, t: real)
    ensures (k + q) * t == k * t + q * t
  {
  }

  lemma MulMonotone(x: real, y: real, t: real)
    requires t >= 0.0 && x <= y
    ensures x * t <= y * t
  {
    var d := y - x;
    ProductNonNegative(d, t);
    ProductOfDifference(y, x, t);
  }

  lemma DivMonotone(x: real, y: real, t: real)
    requires t > 0.0 && x <= y
    ensures x / t <= y / t
  {
  }

  lemma DivThenMul(x: real, t: real)
    requires t > 0.0
    ensures x / t * t == x
  {
  }
}
