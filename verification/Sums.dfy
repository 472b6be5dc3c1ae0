/** Sums of sequences of reals. */
module Sums {
  import opened Prelude
  import opened RealLaws

  function Sum(xs: seq<real>): real {
    if xs == [] then 0.0 else Sum(xs[..|xs| - 1]) + xs[|xs| - 1]
  }

  lemma {:induction false} SumSplit(xs: seq<real>, ys: seq<real>)
    ensures Sum(xs + ys) == Sum(xs) + Sum(ys)
  {
    if ys == [] {
      assert xs + ys == xs;
    } else {
      assert (xs + ys)[..|xs + ys| - 1] == xs + ys[..|ys| - 1];
      SumSplit(xs, ys[..|ys| - 1]);
    }
  }

  function Minus(a: seq<real>, b: seq<real>): (d: seq<real>)
    requires |a| == |b|
    ensures |d| == |a|
  {
    seq(|a|, i requires 0 <= i < |a| => a[i] - b[i])
  }

  function Magnitudes(a: seq<real>): (m: seq<real>)
    ensures |m| == |a|
  {
    seq(|a|, i requires 0 <= i < |a| => AbsReal(a[i]))
  }

  function Squares(a: seq<real>): (q: seq<real>)
    ensures |q| == |a|
  {
    seq(|a|, i requires 0 <= i < |a| => a[i] * a[i])
  }

  lemma {:induction false} SumMinus(a: seq<real>, b: seq<real>)
    requires |a| == |b|
    ensures Sum(Minus(a, b)) == Sum(a) - Sum(b)
  {
    if a != [] {
      var n := |a| - 1;
      assert Minus(a, b)[..n] == Minus(a[..n], b[..n]);
      SumMinus(a[..n], b[..n]);
    }
  }

  lemma {:induction false} SumTriangle(a: seq<real>)
    ensures AbsReal(Sum(a)) <= Sum(Magnitudes(a))
  {
    if a != [] {
      var n := |a| - 1;
      assert Magnitudes(a)[..n] == Magnitudes(a[..n]);
      SumTriangle(a[..n]);
    }
  }

  lemma {:induction false} SumBound(a: seq<real>, bound: real)
    requires forall v :: v in a ==> v <= bound
    ensures Sum(a) <= |a| as real * bound
  {
    if a != [] {
      var n := |a| - 1;
      assert forall v :: v in a[..n] ==> v in a;
      SumBound(a[..n], bound);
      ProductOfSum(n as real, 1.0, bound);
      assert |a| as real == n as real + 1.0;
      assert a[n] in a;
    }
  }

  /** Twice a product is at most the two squares, the second one weighted. */
  lemma CrossTerm(s: real, q: real, x: real, n: real)
    requires n > 0.0 && s * s <= n * q
    ensures 2.0 * s * x <= q + n * (x * x)
  {
    var r := s / n;
    assert r * n == s by { DivThenMul(s, n); }
    var d := x - r;
    assert d * d >= 0.0;
    assert d * d == x * x - 2.0 * (x * r) + r * r;
    var dd, xx, xr, rr := d * d, x * x, x * r, r * r;
    ProductNonNegative(n, dd);
    assert n * dd == n * xx - 2.0 * (n * xr) + n * rr;
    assert n * xr == s * x;
    assert n * rr == r * s;
    assert r * s <= q by {
      assert n * (r * s) == s * s;
    }
  }

  lemma SquareStep(s: real, q: real, x: real, n: real)
    requires s * s <= n * q && 2.0 * s * x <= q + n * (x * x)
    ensures (s + x) * (s + x) <= (n + 1.0) * (q + x * x)
  {
    var xx := x * x;
    assert (s + x) * (s + x) == s * s + 2.0 * s * x + xx;
    assert (n + 1.0) * (q + xx) == n * q + n * xx + q + xx;
  }

  lemma SquaresOfPrefix(a: seq<real>, k: nat)
    requires k <= |a|
    ensures Squares(a)[..k] == Squares(a[..k])
  {
    var left, right := Squares(a)[..k], Squares(a[..k]);
    forall i | 0 <= i < k ensures left[i] == right[i] {
      assert left[i] == Squares(a)[i] && a[..k][i] == a[i];
    }
  }

  /** The square of a sum is at most the count times the sum of squares. */
  lemma {:induction false} CauchySchwarz(a: seq<real>)
    ensures Sum(a) * Sum(a) <= |a| as real * Sum(Squares(a))
  {
    if a != [] {
      var k := |a| - 1;
      SquaresOfPrefix(a, k);
      CauchySchwarz(a[..k]);
      var s, q, x, n := Sum(a[..k]), Sum(Squares(a[..k])), a[k], k as real;
      if k > 0 {
        CrossTerm(s, q, x, n);
      }
      SquareStep(s, q, x, n);
      assert Sum(a) == s + x && Sum(Squares(a)) == q + x * x;
    }
  }
}
