/** Rounding a price to the tick grid. */
module TickRounding {
  import opened Prelude
  import opened RealLaws
  import opened Rounding

  function Ticks(price: real, tick: real): int
    requires tick > 0.0
  {
    HalfEven(price / tick)
  }

  function TickPrice(ticks: int, tick: real): real { Round6(ticks as real * tick) }

  function RoundToTick(price: real, tickSize: real): real {
    var tick := MaxReal(tickSize, 0.0);
    if tick <= 0.0 then Round2(price) else TickPrice(Ticks(price, tick), tick)
  }

  // ---------------------------------------------------------------- order

  lemma TicksMonotone(x: real, y: real, tick: real)
    requires tick > 0.0 && x <= y
    ensures Ticks(x, tick) <= Ticks(y, tick)
  {
    DivMonotone(x, y, tick);
    HalfEvenMonotone(x / tick, y / tick);
  }

  lemma ScaledMonotone(j: int, k: int, tick: real, scale: real)
    requires tick >= 0.0 && j <= k && scale > 0.0
    ensures RoundTo(j as real * tick, scale) <= RoundTo(k as real * tick, scale)
  {
    var a, b := j as real * tick, k as real * tick;
    MulMonotone(j as real, k as real, tick);
    RoundToMonotone(a, b, scale);
  }

  lemma TickPriceMonotone(j: int, k: int, tick: real)
    requires tick >= 0.0 && j <= k
    ensures TickPrice(j, tick) <= TickPrice(k, tick)
  {
    ScaledMonotone(j, k, tick, 1000000.0);
  }

  lemma RoundToTickMonotone(x: real, y: real, tick: real)
    requires x <= y
    ensures RoundToTick(x, tick) <= RoundToTick(y, tick)
  {
    if tick <= 0.0 {
      RoundToMonotone(x, y, 100.0);
    } else {
      TicksMonotone(x, y, tick);
      TickPriceMonotone(Ticks(x, tick), Ticks(y, tick), tick);
    }
  }

  // ---------------------------------------------------------------- distance

  /** How far rounding to the tick can move a price. */
  function TickError(tick: real): real {
    if tick <= 0.0 then 0.005 else 0.5 * tick + 0.0000005
  }

  lemma Spread(k: real, q: real, t: real, x: real)
    requires t > 0.0 && -0.5 <= k - q <= 0.5 && q * t == x
    ensures -0.5 * t <= k * t - x <= 0.5 * t
  {
    var d := k - q;
    var low, high := d + 0.5, 0.5 - d;
    ProductOfDifference(k, q, t);
    ProductOfSum(d, 0.5, t);
    ProductOfDifference(0.5, d, t);
    ProductNonNegative(low, t);
    ProductNonNegative(high, t);
    var dt, kt, lowT, highT := d * t, k * t, low * t, high * t;
    assert dt == kt - x;
    assert lowT == dt + 0.5 * t;
    assert highT == 0.5 * t - dt;
  }

  lemma TicksWithin(price: real, tick: real)
    requires tick > 0.0
    ensures -0.5 * tick <= Ticks(price, tick) as real * tick - price <= 0.5 * tick
  {
    var q := price / tick;
    HalfEvenWithinHalf(q);
    DivThenMul(price, tick);
    Spread(Ticks(price, tick) as real, q, tick, price);
  }

  lemma TickPriceWithin(ticks: int, tick: real)
    ensures -0.0000005 <= TickPrice(ticks, tick) - ticks as real * tick <= 0.0000005
  {
    var p := ticks as real * tick;
    RoundToWithin(p, 1000000.0);
    assert AbsReal(Round6(p) - p) <= 0.0000005;
  }

  lemma RoundToTickWithin(price: real, tick: real)
    ensures AbsReal(RoundToTick(price, tick) - price) <= TickError(tick)
  {
    if tick <= 0.0 {
      RoundToWithin(price, 100.0);
    } else {
      var k := Ticks(price, tick);
      TicksWithin(price, tick);
      TickPriceWithin(k, tick);
      var p, r := k as real * tick, TickPrice(k, tick);
      var u, v := r - p, p - price;
      assert r == RoundToTick(price, tick);
      assert r - price == u + v;
      assert -0.0000005 <= u <= 0.0000005;
      assert -0.5 * tick <= v;
      assert v <= 0.5 * tick;
      assert TickError(tick) == 0.5 * tick + 0.0000005;
    }
  }

  // ---------------------------------------------------------------- fixed points

  lemma CoarseTickIsFixed(k: int, tick: real)
    requires tick > 0.000001
    ensures Ticks(TickPrice(k, tick), tick) == k
  {
    var l := TickPrice(k, tick);
    RoundToWithin(k as real * tick, 1000000.0);
    var gap := l - k as real * tick;
    assert l / tick == k as real + gap / tick;
    assert -0.5 < gap / tick < 0.5 by {
      DivMonotone(gap, 0.0000005, tick);
      DivMonotone(-0.0000005, gap, tick);
      assert 0.0000005 / tick < 0.5;
    }
    HalfEvenNearest(l / tick, k);
  }

  lemma NearGridPoint(p: real, l: real, m: int, scale: real)
    requires scale > 0.0 && l * scale == m as real && -0.5 < (p - l) * scale < 0.5
    ensures RoundTo(p, scale) == l
  {
    ProductOfDifference(p, l, scale);
    RoundToNearest(p, m, scale);
    assert l * scale / scale == l;
  }

  lemma FineTickIsNear(l: real, m: int, tick: real)
    requires 0.0 < tick <= 0.000001 && l * 1000000.0 == m as real
    ensures -0.0000005 < Ticks(l, tick) as real * tick - l < 0.0000005
  {
    if tick == 0.000001 {
      assert l / tick == m as real;
      HalfEvenFixesIntegers(m);
      assert Ticks(l, tick) == m;
      assert m as real * 0.000001 == l;
    } else {
      TicksWithin(l, tick);
    }
  }

  lemma TickPriceIs(ticks: int, tick: real, p: real)
    requires p == ticks as real * tick
    ensures TickPrice(ticks, tick) == Round6(p)
  {
  }

  lemma FineTickIsFixed(l: real, m: int, tick: real)
    requires 0.0 < tick <= 0.000001 && l * 1000000.0 == m as real
    ensures TickPrice(Ticks(l, tick), tick) == l
  {
    FineTickIsNear(l, m, tick);
    var p := Ticks(l, tick) as real * tick;
    var gap := p - l;
    assert -0.5 < gap * 1000000.0 < 0.5;
    NearGridPoint(p, l, m, 1000000.0);
    TickPriceIs(Ticks(l, tick), tick, p);
  }

  lemma RoundedIsOnGrid(p: real, scale: real)
    requires scale > 0.0
    ensures RoundTo(p, scale) * scale == HalfEven(p * scale) as real
  {
    DivThenMul(HalfEven(p * scale) as real, scale);
  }

  lemma FineTickAgain(k: int, tick: real)
    requires 0.0 < tick <= 0.000001
    ensures TickPrice(Ticks(TickPrice(k, tick), tick), tick) == TickPrice(k, tick)
  {
    var p := k as real * tick;
    RoundedIsOnGrid(p, 1000000.0);
    TickPriceIs(k, tick, p);
    FineTickIsFixed(TickPrice(k, tick), HalfEven(p * 1000000.0), tick);
  }

  /** A price already rounded to the tick is left alone, for every tick size whatsoever. */
  lemma RoundToTickIdempotent(price: real, tick: real)
    ensures RoundToTick(RoundToTick(price, tick), tick) == RoundToTick(price, tick)
  {
    if tick <= 0.0 {
      RoundToNearest(Round2(price), HalfEven(price * 100.0), 100.0);
    } else if tick > 0.000001 {
      CoarseTickIsFixed(Ticks(price, tick), tick);
    } else {
      FineTickAgain(Ticks(price, tick), tick);
    }
  }
}
