/** Python's `round` on reals: to the nearest integer, ties to the even one, and to n decimals. */
module Rounding {
  import opened Prelude
  import opened RealLaws

  function HalfEven(x: real): (n: int) {
    var f := x.Floor;
    if x - f as real < 0.5 then f
    else if x - f as real > 0.5 then f + 1
    else if f % 2 == 0 then f else f + 1
  }

  /** No integer is closer. */
  lemma HalfEvenWithinHalf(x: real)
    ensures -0.5 <= HalfEven(x) as real - x <= 0.5
  {
  }

  lemma HalfEvenFixesIntegers(n: int)
    ensures HalfEven(n as real) == n
  {
  }

  /** Anything strictly within half a unit of `n` rounds to `n`. */
  lemma HalfEvenNearest(x: real, n: int)
    requires -0.5 < x - n as real < 0.5
    ensures HalfEven(x) == n
  {
  }

  lemma HalfEvenMonotone(x: real, y: real)
    requires x <= y
    ensures HalfEven(x) <= HalfEven(y)
  {
  }

  /** The exact boundary: rounding stays at or below `n` up to the midpoint, and at it when `n` is even. */
  lemma HalfEvenAtMost(x: real, n: int)
    ensures HalfEven(x) <= n <==> x < n as real + 0.5 || (x == n as real + 0.5 && n % 2 == 0)
  {
    if x == n as real + 0.5 {
      assert x.Floor == n;
    }
  }

  lemma HalfEvenAtLeast(x: real, n: int)
    ensures HalfEven(x) >= n <==> x > n as real - 0.5 || (x == n as real - 0.5 && n % 2 == 0)
  {
    HalfEvenAtMost(x, n - 1);
    hide HalfEven;
    assert (n - 1) as real + 0.5 == n as real - 0.5;
  }

  /** `round(x, d)` where `scale` is 10 to the power d. */
  function RoundTo(x: real, scale: real): real
    requires scale > 0.0
  {
    HalfEven(x * scale) as real / scale
  }

  function Round2(x: real): real { RoundTo(x, 100.0) }

  function Round6(x: real): real { RoundTo(x, 1000000.0) }

  lemma RoundToMonotone(x: real, y: real, scale: real)
    requires scale > 0.0 && x <= y
    ensures RoundTo(x, scale) <= RoundTo(y, scale)
  {
    MulMonotone(x, y, scale);
    HalfEvenMonotone(x * scale, y * scale);
  }

  /** Within half a unit of the last decimal. */
  lemma RoundToWithin(x: real, scale: real)
    requires scale > 0.0
    ensures AbsReal(RoundTo(x, scale) - x) <= 0.5 / scale
  {
    var y := x * scale;
    HalfEvenWithinHalf(y);
    hide HalfEven;
    WithinScaled(HalfEven(y) as real, y, scale);
    assert y / scale == x;
  }

  lemma WithinScaled(n: real, y: real, scale: real)
    requires scale > 0.0 && AbsReal(n - y) <= 0.5
    ensures AbsReal(n / scale - y / scale) <= 0.5 / scale
  {
    DivMonotone(n, y + 0.5, scale);
    DivMonotone(y - 0.5, n, scale);
    assert (y + 0.5) / scale == y / scale + 0.5 / scale;
    assert (y - 0.5) / scale == y / scale - 0.5 / scale;
  }

  /** A decimal at distance less than half a unit is the result; so grid points stay put. */
  lemma RoundToNearest(x: real, n: int, scale: real)
    requires scale > 0.0
    requires -0.5 < x * scale - n as real < 0.5
    ensures RoundTo(x, scale) == n as real / scale
  {
    HalfEvenNearest(x * scale, n);
  }

  /** Two decimals are whole cents, half a cent away at most; six are whole millionths. */
  lemma DecimalsAre(x: real) returns (cents: int, millionths: int)
    ensures Round2(x) * 100.0 == cents as real && -0.5 <= cents as real - x * 100.0 <= 0.5
    ensures Round6(x) * 1000000.0 == millionths as real && -0.5 <= millionths as real - x * 1000000.0 <= 0.5
  {
    cents, millionths := HalfEven(x * 100.0), HalfEven(x * 1000000.0);
    HalfEvenWithinHalf(x * 100.0);
    HalfEvenWithinHalf(x * 1000000.0);
    hide HalfEven;
    DivThenMul(cents as real, 100.0);
    DivThenMul(millionths as real, 1000000.0);
  }
}
