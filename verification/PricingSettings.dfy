/**
 What each setting and each input does to a price, in its own unit: a basis point is a
 ten-thousandth of the touch price, and every setting acts through its score alone.
 */
module PricingSettings {
  import opened Prelude
  import opened RealLaws
  import opened Rounding
  import opened TickRounding
  import opened Sums
  import opened AdaptivePricing
  import opened PricingTheorems

  /** `price` made more aggressive by an amount: higher for a buyer, lower for a seller. */
  function Pressed(side: Side, price: real, amount: real): real {
    if side == Buy then price + amount else price - amount
  }

  /** This call does not step on a previous limit. */
  predicate NoStep(d: Input, p: Policy) { d.currentLimit.None? || d.retryIndex <= 0 || p.retryStepPct <= 0.0 }

  /** The buffers are not cut off at zero by a book leaning our way. */
  predicate NotFloored(d: Input, p: Policy)
    requires GoodQuote(d)
  {
    TotalBuffer(d, p) > 0.0 || p.imbalanceBps <= 0.0
  }

  /** The quote of a usable input: the ask for a buyer, the bid for a seller. */
  function QuotedTouch(d: Input): real { if d.side == Buy then d.ask else d.bid }

  // ---------------------------------------------------------------- the scores

  /** Three quarters signal and one quarter retries, for a signal and a retry count within their ranges. */
  lemma UrgencyIs(s: real, i: int, m: int)
    requires 0.0 <= s <= 1.0 && 0 <= i <= m
    ensures m == 0 ==> Urgency(Some(s), i, m) == 0.75 * s
    ensures m > 0 ==> Urgency(Some(s), i, m) * m as real == 0.75 * s * m as real + 0.25 * i as real
  {
    if m > 0 {
      var r := i as real / m as real;
      DivThenMul(i as real, m as real);
      DivMonotone(0.0, i as real, m as real);
      DivMonotone(i as real, m as real, m as real);
      assert RetryPressure(i, m) == r && 0.0 <= r <= 1.0;
      ProductOfSum(0.75 * s, 0.25 * r, m as real);
      assert (0.25 * r) * m as real == 0.25 * (r * m as real);
    }
  }

  /** Beyond its range a signal or a retry count is as good as the end of the range; a missing signal is one half. */
  lemma UrgencySaturates(s: real, i: int, m: int)
    ensures s < 0.0 ==> Urgency(Some(s), i, m) == Urgency(Some(0.0), i, m)
    ensures s > 1.0 ==> Urgency(Some(s), i, m) == Urgency(Some(1.0), i, m)
    ensures m > 0 && i > m ==> Urgency(Some(s), i, m) == Urgency(Some(s), m, m)
    ensures Urgency(None, i, m) == Urgency(Some(0.5), i, m)
  {
    if m > 0 && i > m {
      DivMonotone(m as real, i as real, m as real);
      assert m as real / m as real == 1.0;
      assert RetryPressure(i, m) == 1.0 && RetryPressure(m, m) == 1.0;
    }
  }

  /** The square of the elapsed share of the timeout, or of the retries when there is no timeout. */
  lemma TimeDecayIs(elapsed: real, timeout: real, i: int, m: int)
    ensures 0.0 <= elapsed <= timeout && timeout > 0.0 ==>
              TimeDecay(elapsed, timeout, i, m) * (timeout * timeout) == elapsed * elapsed
    ensures elapsed > timeout > 0.0 ==> TimeDecay(elapsed, timeout, i, m) == 1.0
    ensures elapsed < 0.0 < timeout ==> TimeDecay(elapsed, timeout, i, m) == 0.0
    ensures timeout <= 0.0 && 0 <= i <= m && m > 0 ==>
              TimeDecay(elapsed, timeout, i, m) * (m as real * m as real) == i as real * i as real
    ensures timeout <= 0.0 && i > m > 0 ==> TimeDecay(elapsed, timeout, i, m) == 1.0
    ensures timeout <= 0.0 && m <= 0 ==> TimeDecay(elapsed, timeout, i, m) == 0.0
  {
    if timeout > 0.0 {
      hide Clamp;
      ShareSquared(NonNeg(elapsed), timeout);
    } else if m > 0 && i >= 0 {
      hide Clamp;
      ShareSquared(i as real, m as real);
    }
  }

  lemma ShareSquared(x: real, t: real)
    requires 0.0 <= x && t > 0.0
    ensures var r := Clamp(x / t, 0.0, 1.0);
            && Clamp(r * r, 0.0, 1.0) == r * r && (x <= t ==> (r * r) * (t * t) == x * x)
            && (x > t ==> r == 1.0) && (x == 0.0 ==> r == 0.0)
  {
    DivMonotone(0.0, x, t);
    DivThenMul(x, t);
    var r := Clamp(x / t, 0.0, 1.0);
    SquareMonotone(r, 1.0);
    if x <= t {
      DivMonotone(x, t, t);
      assert r == x / t;
      assert (r * r) * (t * t) == (r * t) * (r * t);
    } else {
      DivMonotone(t, x, t);
    }
  }

  /** The quantities of the first levels of a book; what cannot be read or is negative counts as nothing. */
  function Quantities(book: seq<Option<real>>, n: nat): (q: seq<real>)
    requires n <= |book|
    ensures |q| == n
  {
    seq(n, i requires 0 <= i < n => if book[i].Some? && book[i].value > 0.0 then book[i].value else 0.0)
  }

  lemma {:induction false} SumQtyIs(levels: seq<Option<real>>)
    ensures SumQty(levels) == Sum(Quantities(levels, |levels|)) >= 0.0
  {
    if levels != [] {
      var n := |levels| - 1;
      SumQtyIs(levels[..n]);
      assert Quantities(levels, |levels|)[..n] == Quantities(levels[..n], n);
    }
  }

  /**
   The order's share of the first `levels` levels (at least one) of the opposite side, at
   most ten and to six decimals.
   */
  lemma QueueConsumptionIs(depth: Option<Depth>, side: Side, qty: real, levels: int)
    requires side != BadSide && qty >= 0.0
    ensures depth.None? ==> QueueConsumption(depth, side, qty, levels) == 0.0
    ensures depth.Some? ==>
              var book := if side == Buy then depth.value.sell else depth.value.buy;
              var n := MinInt(if levels > 1 then levels else 1, |book|);
              var total := Sum(Quantities(book, n));
              var share := qty / (if total > 1.0 then total else 1.0);
              var got := QueueConsumption(depth, side, qty, levels);
              if book == [] then got == 0.0
              else -0.0000005 <= got - (if share > 10.0 then 10.0 else share) <= 0.0000005
  {
    if depth.Some? {
      var book := if side == Buy then depth.value.sell else depth.value.buy;
      if book != [] {
        var n := MinInt(if levels > 1 then levels else 1, |book|);
        SumQtyIs(book[..n]);
        assert Quantities(book[..n], n) == Quantities(book, n);
        var total := Sum(Quantities(book, n));
        DivMonotone(0.0, qty, MaxReal(total, 1.0));
        RoundToWithin(Clamp(qty / MaxReal(total, 1.0), 0.0, 10.0), 1000000.0);
      }
    }
  }

  lemma SpreadPctIs(d: Input)
    requires GoodQuote(d)
    ensures d.spreadPct.Some? ==> SpreadPct(d) == if d.spreadPct.value > 0.0 then d.spreadPct.value else 0.0
    ensures d.spreadPct.None? ==> SpreadPct(d) * (d.bid + d.ask) == 2.0 * (d.ask - d.bid)
  {
  }

  // ---------------------------------------------------------------- what each setting adds

  /** With every setting at zero or below, the price is the touch. */
  lemma NothingSetIsTouch(d: Input, p: Policy)
    requires GoodQuote(d) && p.baseSlippageBps <= 0.0 && p.spreadMult <= 0.0 && p.volZBps <= 0.0
    requires p.imbalanceBps <= 0.0 && p.atrVolBpsMult <= 0.0 && p.queueConsumptionBps <= 0.0
    requires p.urgencyBps <= 0.0 && p.timeDecayBps <= 0.0 && p.retryStepPct <= 0.0
    ensures Unguarded(d, p) == QuotedTouch(d)
  {
    hide QueueConsumption, Urgency, TimeDecay, SpreadPct;
    assert SpreadBuffer(d, p) == 0.0 && VolBuffer(d, p) == 0.0 && FavorableImbalance(d, p) == 0.0;
    assert QueueBuffer(d, p) == 0.0 && UrgencyBuffer(d, p) == 0.0 && DecayBuffer(d, p) == 0.0;
    assert Bps(p.baseSlippageBps) == 0.0;
    hide SpreadBuffer, VolBuffer, FavorableImbalance, QueueBuffer, UrgencyBuffer, DecayBuffer, Bps;
    assert TotalBuffer(d, p) == 0.0;
  }

  lemma PressedBy(d: Input, p: Policy, p2: Policy, delta: real)
    requires GoodQuote(d) && NoStep(d, p) && p2.retryStepPct == p.retryStepPct
    requires TotalBuffer(d, p2) == TotalBuffer(d, p) + delta
    ensures Unguarded(d, p2) == Pressed(d.side, Unguarded(d, p), QuotedTouch(d) * delta)
  {
    hide TotalBuffer;
    var t, b := QuotedTouch(d), TotalBuffer(d, p);
    ProductOfSum(1.0 + b, delta, t);
    ProductOfDifference(1.0 - b, delta, t);
    assert t * (1.0 + (b + delta)) == (1.0 + b + delta) * t;
    assert t * (1.0 - (b + delta)) == (1.0 - b - delta) * t;
  }

  lemma ChargeGrows(score: real, bps: real, x: real)
    requires bps >= 0.0 && x >= 0.0
    ensures Charge(score, bps + x) == Charge(score, bps) + score * x / 10000.0
  {
    var a, b := bps / 10000.0, x / 10000.0;
    assert (bps + x) / 10000.0 == a + b;
    assert score * (a + b) == score * a + score * b;
    assert score * b == score * x / 10000.0;
  }

  /** The buffers added up, before the cut at zero. */
  function Parts(d: Input, p: Policy): real
    requires GoodQuote(d)
  {
    Bps(p.baseSlippageBps) + SpreadBuffer(d, p) + VolBuffer(d, p) + QueueBuffer(d, p) + UrgencyBuffer(d, p)
    + DecayBuffer(d, p) - FavorableImbalance(d, p)
  }

  lemma BuffersAreNotNegative(d: Input, p: Policy)
    requires GoodQuote(d)
    ensures Bps(p.baseSlippageBps) >= 0.0 && SpreadBuffer(d, p) >= 0.0 && VolBuffer(d, p) >= 0.0
    ensures QueueBuffer(d, p) >= 0.0 && UrgencyBuffer(d, p) >= 0.0 && DecayBuffer(d, p) >= 0.0
  {
    hide SpreadPct, QueueConsumption, Urgency, TimeDecay;
    ProductNonNegative(AbsReal(OrElse(d.volZ, 0.0)), Bps(p.volZBps));
    ProductNonNegative(NonNeg(OrElse(d.atrRatio, 0.0)), NonNeg(p.atrVolBpsMult));
    ProductNonNegative(Clamp(QueueConsumption(d.depth, d.side, MaxReal(d.qty, 1.0), p.queueLevels), 0.0, 10.0),
                       Bps(p.queueConsumptionBps));
    var i, m := MaxInt(d.retryIndex, 0), MaxInt(d.maxRetries, 0);
    ProductNonNegative(Urgency(d.signalStrength, i, m), Bps(p.urgencyBps));
    ProductNonNegative(TimeDecay(d.elapsedSec, d.timeoutSec, i, m), Bps(p.timeDecayBps));
  }

  lemma PartsAreTotal(d: Input, p: Policy)
    requires GoodQuote(d)
    ensures TotalBuffer(d, p) == MaxReal(0.0, Parts(d, p)) && (NotFloored(d, p) ==> Parts(d, p) >= 0.0)
  {
    BuffersAreNotNegative(d, p);
    if p.imbalanceBps <= 0.0 { assert FavorableImbalance(d, p) == 0.0; }
    hide SpreadBuffer, VolBuffer, FavorableImbalance, QueueBuffer, UrgencyBuffer, DecayBuffer, Bps;
  }

  /** Each buffer reads its own settings only. */
  lemma OwnSettings(d: Input, p: Policy, p2: Policy)
    requires GoodQuote(d)
    ensures p.spreadMult == p2.spreadMult && p.maxBufferPct == p2.maxBufferPct ==>
              SpreadBuffer(d, p) == SpreadBuffer(d, p2)
    ensures p.volZBps == p2.volZBps && p.atrVolBpsMult == p2.atrVolBpsMult ==> VolBuffer(d, p) == VolBuffer(d, p2)
    ensures p.queueConsumptionBps == p2.queueConsumptionBps && p.queueLevels == p2.queueLevels ==>
              QueueBuffer(d, p) == QueueBuffer(d, p2)
    ensures p.urgencyBps == p2.urgencyBps ==> UrgencyBuffer(d, p) == UrgencyBuffer(d, p2)
    ensures p.timeDecayBps == p2.timeDecayBps ==> DecayBuffer(d, p) == DecayBuffer(d, p2)
    ensures p.imbalanceBps == p2.imbalanceBps ==> FavorableImbalance(d, p) == FavorableImbalance(d, p2)
  {
    hide Bps, Charge, Clamp, QueueConsumption, Urgency, TimeDecay, SpreadPct;
  }

  lemma Grown(d: Input, p: Policy, p2: Policy, delta: real)
    requires GoodQuote(d) && NoStep(d, p) && p2.retryStepPct == p.retryStepPct
    requires NotFloored(d, p) && delta >= 0.0 && Parts(d, p2) == Parts(d, p) + delta
    ensures Unguarded(d, p2) == Pressed(d.side, Unguarded(d, p), QuotedTouch(d) * delta)
  {
    hide Parts, TotalBuffer;
    PartsAreTotal(d, p);
    PartsAreTotal(d, p2);
    PressedBy(d, p, p2, delta);
  }

  lemma BaseSlippageGrows(d: Input, p: Policy, x: real)
    requires GoodQuote(d) && x >= 0.0 && p.baseSlippageBps >= 0.0
    ensures var p2 := p.(baseSlippageBps := p.baseSlippageBps + x);
            Bps(p2.baseSlippageBps) == Bps(p.baseSlippageBps) + x / 10000.0
  {
    var p2 := p.(baseSlippageBps := p.baseSlippageBps + x);
  }

  /** `x` more basis points of base slippage. */
  lemma MoreBaseSlippage(d: Input, p: Policy, x: real)
    requires GoodQuote(d) && NoStep(d, p) && NotFloored(d, p) && p.baseSlippageBps >= 0.0 && x >= 0.0
    ensures var p2 := p.(baseSlippageBps := p.baseSlippageBps + x);
            Unguarded(d, p2) == Pressed(d.side, Unguarded(d, p), QuotedTouch(d) * (x / 10000.0))
  {
    hide SpreadBuffer, VolBuffer, FavorableImbalance, QueueBuffer, UrgencyBuffer, DecayBuffer, Bps;
    hide Urgency, TimeDecay, QueueConsumption, SpreadPct, Clamp;
    var p2 := p.(baseSlippageBps := p.baseSlippageBps + x);
    BaseSlippageGrows(d, p, x);
    OwnSettings(d, p, p2);
    Grown(d, p, p2, x / 10000.0);
  }

  lemma VolatilityGrows(d: Input, p: Policy, x: real)
    requires GoodQuote(d) && x >= 0.0 && p.volZBps >= 0.0
    ensures var p2 := p.(volZBps := p.volZBps + x);
            var score := AbsReal(OrElse(d.volZ, 0.0));
            VolBuffer(d, p2) == VolBuffer(d, p) + score * x / 10000.0
  {
    var p2 := p.(volZBps := p.volZBps + x);
    var score := AbsReal(OrElse(d.volZ, 0.0));
    ChargeGrows(score, p.volZBps, x);
    ProductNonNegative(score, x);
  }

  /** `x` more basis points per unit of the volatility score, whichever its sign; a missing score is zero. */
  lemma MoreVolatility(d: Input, p: Policy, x: real)
    requires GoodQuote(d) && NoStep(d, p) && NotFloored(d, p) && p.volZBps >= 0.0 && x >= 0.0
    ensures var p2 := p.(volZBps := p.volZBps + x);
            var score := if d.volZ.None? then 0.0 else if d.volZ.value < 0.0 then -d.volZ.value else d.volZ.value;
            Unguarded(d, p2) == Pressed(d.side, Unguarded(d, p), QuotedTouch(d) * (score * x / 10000.0))
  {
    hide SpreadBuffer, VolBuffer, FavorableImbalance, QueueBuffer, UrgencyBuffer, DecayBuffer, Bps;
    hide Urgency, TimeDecay, QueueConsumption, SpreadPct, Clamp;
    var p2 := p.(volZBps := p.volZBps + x);
    var score := AbsReal(OrElse(d.volZ, 0.0));
    VolatilityGrows(d, p, x);
    ProductNonNegative(score, x);
    OwnSettings(d, p, p2);
    Grown(d, p, p2, score * x / 10000.0);
  }

  lemma RangeGrows(d: Input, p: Policy, x: real)
    requires GoodQuote(d) && x >= 0.0 && p.atrVolBpsMult >= 0.0
    ensures var p2 := p.(atrVolBpsMult := p.atrVolBpsMult + x);
            var ratio := NonNeg(OrElse(d.atrRatio, 0.0));
            VolBuffer(d, p2) == VolBuffer(d, p) + ratio * x
  {
    var p2 := p.(atrVolBpsMult := p.atrVolBpsMult + x);
    var ratio := NonNeg(OrElse(d.atrRatio, 0.0));
    ProductNonNegative(ratio, x);
    assert ratio * (p.atrVolBpsMult + x) == ratio * p.atrVolBpsMult + ratio * x;
  }

  /** `x` more per unit of the range ratio, which is a fraction of the price already. */
  lemma MoreRange(d: Input, p: Policy, x: real)
    requires GoodQuote(d) && NoStep(d, p) && NotFloored(d, p) && p.atrVolBpsMult >= 0.0 && x >= 0.0
    ensures var p2 := p.(atrVolBpsMult := p.atrVolBpsMult + x);
            var ratio := if d.atrRatio.Some? && d.atrRatio.value > 0.0 then d.atrRatio.value else 0.0;
            Unguarded(d, p2) == Pressed(d.side, Unguarded(d, p), QuotedTouch(d) * (ratio * x))
  {
    hide SpreadBuffer, VolBuffer, FavorableImbalance, QueueBuffer, UrgencyBuffer, DecayBuffer, Bps;
    hide Urgency, TimeDecay, QueueConsumption, SpreadPct, Clamp;
    var p2 := p.(atrVolBpsMult := p.atrVolBpsMult + x);
    var ratio := NonNeg(OrElse(d.atrRatio, 0.0));
    RangeGrows(d, p, x);
    ProductNonNegative(ratio, x);
    OwnSettings(d, p, p2);
    Grown(d, p, p2, ratio * x);
  }

  lemma QueueGrows(d: Input, p: Policy, x: real)
    requires GoodQuote(d) && x >= 0.0 && p.queueConsumptionBps >= 0.0
    ensures var p2 := p.(queueConsumptionBps := p.queueConsumptionBps + x);
            var share := QueueConsumption(d.depth, d.side, MaxReal(d.qty, 1.0), p.queueLevels);
            QueueBuffer(d, p2) == QueueBuffer(d, p) + share * x / 10000.0
  {
    var p2 := p.(queueConsumptionBps := p.queueConsumptionBps + x);
    var share := QueueConsumption(d.depth, d.side, MaxReal(d.qty, 1.0), p.queueLevels);
    ConsumptionInRange(d.depth, d.side, MaxReal(d.qty, 1.0), p.queueLevels);
    hide QueueConsumption;
    ChargeGrows(share, p.queueConsumptionBps, x);
    hide Charge;
  }

  /** `x` more basis points per unit of queue consumption, of an order of at least one. */
  lemma MoreQueue(d: Input, p: Policy, x: real)
    requires GoodQuote(d) && NoStep(d, p) && NotFloored(d, p) && p.queueConsumptionBps >= 0.0 && x >= 0.0
    ensures var p2 := p.(queueConsumptionBps := p.queueConsumptionBps + x);
            var share := QueueConsumption(d.depth, d.side, if d.qty > 1.0 then d.qty else 1.0, p.queueLevels);
            Unguarded(d, p2) == Pressed(d.side, Unguarded(d, p), QuotedTouch(d) * (share * x / 10000.0))
  {
    hide SpreadBuffer, VolBuffer, FavorableImbalance, QueueBuffer, UrgencyBuffer, DecayBuffer, Bps;
    hide Urgency, TimeDecay, QueueConsumption, SpreadPct, Clamp;
    var p2 := p.(queueConsumptionBps := p.queueConsumptionBps + x);
    var share := QueueConsumption(d.depth, d.side, MaxReal(d.qty, 1.0), p.queueLevels);
    QueueGrows(d, p, x);
    ConsumptionInRange(d.depth, d.side, MaxReal(d.qty, 1.0), p.queueLevels);
    ProductNonNegative(share, x);
    OwnSettings(d, p, p2);
    Grown(d, p, p2, share * x / 10000.0);
  }

  lemma ConsumptionInRange(depth: Option<Depth>, side: Side, qty: real, levels: int)
    ensures 0.0 <= QueueConsumption(depth, side, qty, levels) <= 10.0
  {
    var book := Book(depth, side);
    if book != [] {
      var share := Clamp(NonNeg(qty) / MaxReal(SumQty(TopLevels(book, levels)), 1.0), 0.0, 10.0);
      RoundToMonotone(0.0, share, 1000000.0);
      RoundToMonotone(share, 10.0, 1000000.0);
      RoundToNearest(0.0, 0, 1000000.0);
      RoundToNearest(10.0, 10000000, 1000000.0);
    }
  }

  lemma UrgencyGrows(d: Input, p: Policy, x: real)
    requires GoodQuote(d) && x >= 0.0 && p.urgencyBps >= 0.0
    ensures var p2 := p.(urgencyBps := p.urgencyBps + x);
            var score := Urgency(d.signalStrength, MaxInt(d.retryIndex, 0), MaxInt(d.maxRetries, 0));
            UrgencyBuffer(d, p2) == UrgencyBuffer(d, p) + score * x / 10000.0
  {
    var p2 := p.(urgencyBps := p.urgencyBps + x);
    var score := Urgency(d.signalStrength, MaxInt(d.retryIndex, 0), MaxInt(d.maxRetries, 0));
    ChargeGrows(score, p.urgencyBps, x);
    ProductNonNegative(score, x);
    hide Urgency, Charge;
  }

  /** `x` more basis points per unit of urgency; negative retry counts are zero. */
  lemma MoreUrgency(d: Input, p: Policy, x: real)
    requires GoodQuote(d) && NoStep(d, p) && NotFloored(d, p) && p.urgencyBps >= 0.0 && x >= 0.0
    ensures var p2 := p.(urgencyBps := p.urgencyBps + x);
            var score := Urgency(d.signalStrength, if d.retryIndex > 0 then d.retryIndex else 0,
                                 if d.maxRetries > 0 then d.maxRetries else 0);
            Unguarded(d, p2) == Pressed(d.side, Unguarded(d, p), QuotedTouch(d) * (score * x / 10000.0))
  {
    hide SpreadBuffer, VolBuffer, FavorableImbalance, QueueBuffer, UrgencyBuffer, DecayBuffer, Bps;
    hide Urgency, TimeDecay, QueueConsumption, SpreadPct, Clamp;
    var p2 := p.(urgencyBps := p.urgencyBps + x);
    var score := Urgency(d.signalStrength, MaxInt(d.retryIndex, 0), MaxInt(d.maxRetries, 0));
    UrgencyGrows(d, p, x);
    ProductNonNegative(score, x);
    OwnSettings(d, p, p2);
    Grown(d, p, p2, score * x / 10000.0);
  }

  lemma DecayGrows(d: Input, p: Policy, x: real)
    requires GoodQuote(d) && x >= 0.0 && p.timeDecayBps >= 0.0
    ensures var p2 := p.(timeDecayBps := p.timeDecayBps + x);
            var score := TimeDecay(d.elapsedSec, d.timeoutSec, MaxInt(d.retryIndex, 0), MaxInt(d.maxRetries, 0));
            DecayBuffer(d, p2) == DecayBuffer(d, p) + score * x / 10000.0
  {
    var p2 := p.(timeDecayBps := p.timeDecayBps + x);
    var score := TimeDecay(d.elapsedSec, d.timeoutSec, MaxInt(d.retryIndex, 0), MaxInt(d.maxRetries, 0));
    ChargeGrows(score, p.timeDecayBps, x);
    ProductNonNegative(score, x);
    hide TimeDecay, Charge;
  }

  /** `x` more basis points per unit of time decay. */
  lemma MoreDecay(d: Input, p: Policy, x: real)
    requires GoodQuote(d) && NoStep(d, p) && NotFloored(d, p) && p.timeDecayBps >= 0.0 && x >= 0.0
    ensures var p2 := p.(timeDecayBps := p.timeDecayBps + x);
            var score := TimeDecay(d.elapsedSec, d.timeoutSec, if d.retryIndex > 0 then d.retryIndex else 0,
                                   if d.maxRetries > 0 then d.maxRetries else 0);
            Unguarded(d, p2) == Pressed(d.side, Unguarded(d, p), QuotedTouch(d) * (score * x / 10000.0))
  {
    hide SpreadBuffer, VolBuffer, FavorableImbalance, QueueBuffer, UrgencyBuffer, DecayBuffer, Bps;
    hide Urgency, TimeDecay, QueueConsumption, SpreadPct, Clamp;
    var p2 := p.(timeDecayBps := p.timeDecayBps + x);
    var score := TimeDecay(d.elapsedSec, d.timeoutSec, MaxInt(d.retryIndex, 0), MaxInt(d.maxRetries, 0));
    DecayGrows(d, p, x);
    ProductNonNegative(score, x);
    OwnSettings(d, p, p2);
    Grown(d, p, p2, score * x / 10000.0);
  }

  lemma SpreadGrows(d: Input, p: Policy, x: real)
    requires GoodQuote(d) && x >= 0.0 && p.spreadMult >= 0.0
    requires SpreadPct(d) * (p.spreadMult + x) <= p.maxBufferPct
    ensures var p2 := p.(spreadMult := p.spreadMult + x);
            var s := SpreadPct(d);
            SpreadBuffer(d, p2) == SpreadBuffer(d, p) + s * x
  {
    var p2 := p.(spreadMult := p.spreadMult + x);
    var s := SpreadPct(d);
    ProductNonNegative(s, x);
    ProductNonNegative(s, p.spreadMult);
    hide SpreadPct;
    assert s * (p.spreadMult + x) == s * p.spreadMult + s * x;
  }

  /** `x` more per unit of spread, as long as the product stays within its cap. */
  lemma MoreSpread(d: Input, p: Policy, x: real)
    requires GoodQuote(d) && NoStep(d, p) && NotFloored(d, p) && p.spreadMult >= 0.0 && x >= 0.0
    requires SpreadPct(d) * (p.spreadMult + x) <= p.maxBufferPct
    ensures var p2 := p.(spreadMult := p.spreadMult + x);
            Unguarded(d, p2) == Pressed(d.side, Unguarded(d, p), QuotedTouch(d) * (SpreadPct(d) * x))
  {
    hide SpreadBuffer, VolBuffer, FavorableImbalance, QueueBuffer, UrgencyBuffer, DecayBuffer, Bps;
    hide Urgency, TimeDecay, QueueConsumption, SpreadPct, Clamp;
    var p2 := p.(spreadMult := p.spreadMult + x);
    var s := SpreadPct(d);
    SpreadGrows(d, p, x);
    ProductNonNegative(s, x);
    ProductNonNegative(s, p.spreadMult);
    OwnSettings(d, p, p2);
    Grown(d, p, p2, s * x);
  }

  lemma SameParts(d: Input, p: Policy, p2: Policy)
    requires GoodQuote(d) && Parts(d, p) == Parts(d, p2) && p2.retryStepPct == p.retryStepPct
    ensures Unguarded(d, p) == Unguarded(d, p2)
  {
    PartsAreTotal(d, p);
    PartsAreTotal(d, p2);
    hide TotalBuffer, Parts;
  }

  /** Past its cap the spread adds the cap, whatever the factor. */
  lemma SpreadIsCapped(d: Input, p: Policy, x: real)
    requires GoodQuote(d) && p.maxBufferPct >= 0.0 && p.spreadMult >= 0.0 && x >= 0.0
    ensures SpreadBuffer(d, p) <= p.maxBufferPct
    ensures SpreadPct(d) * p.spreadMult >= p.maxBufferPct ==>
              && SpreadBuffer(d, p) == p.maxBufferPct
              && Unguarded(d, p) == Unguarded(d, p.(spreadMult := p.spreadMult + x))
  {
    hide SpreadPct, VolBuffer, FavorableImbalance, QueueBuffer, UrgencyBuffer, DecayBuffer, Bps;
    var p2 := p.(spreadMult := p.spreadMult + x);
    MulMonotone(p.spreadMult, p2.spreadMult, SpreadPct(d));
    assert SpreadPct(d) * p.spreadMult >= p.maxBufferPct ==> SpreadBuffer(d, p) == SpreadBuffer(d, p2);
    hide SpreadBuffer;
    OwnSettings(d, p, p2);
    if SpreadPct(d) * p.spreadMult >= p.maxBufferPct { SameParts(d, p, p2); }
  }

  lemma ReliefGrows(d: Input, p: Policy, x: real)
    requires GoodQuote(d) && x >= 0.0 && p.imbalanceBps >= 0.0
    ensures var p2 := p.(imbalanceBps := p.imbalanceBps + x);
            var score := Clamp(Lean(d), 0.0, 1.0);
            FavorableImbalance(d, p2) == FavorableImbalance(d, p) + score * x / 10000.0
  {
    var p2 := p.(imbalanceBps := p.imbalanceBps + x);
    var score := Clamp(Lean(d), 0.0, 1.0);
    ChargeGrows(score, p.imbalanceBps, x);
    ProductNonNegative(score, x);
    ReliefIsLean(d, p);
    ReliefIsLean(d, p2);
    hide Charge;
  }

  /** `x` more basis points of relief per unit of lean our way, as long as the buffers do not run out. */
  lemma MoreRelief(d: Input, p: Policy, x: real)
    requires GoodQuote(d) && NoStep(d, p) && p.imbalanceBps >= 0.0 && x >= 0.0
    requires TotalBuffer(d, p.(imbalanceBps := p.imbalanceBps + x)) > 0.0
    ensures var p2 := p.(imbalanceBps := p.imbalanceBps + x);
            var lean := if d.depthImbalance.None? then 0.0
                        else if d.side == Buy then d.depthImbalance.value else -d.depthImbalance.value;
            var score := if lean < 0.0 then 0.0 else if lean > 1.0 then 1.0 else lean;
            Unguarded(d, p) == Pressed(d.side, Unguarded(d, p2), QuotedTouch(d) * (score * x / 10000.0))
  {
    hide SpreadBuffer, VolBuffer, FavorableImbalance, QueueBuffer, UrgencyBuffer, DecayBuffer, Bps;
    hide Urgency, TimeDecay, QueueConsumption, SpreadPct;
    var p2 := p.(imbalanceBps := p.imbalanceBps + x);
    var score := Clamp(Lean(d), 0.0, 1.0);
    ReliefGrows(d, p, x);
    ProductNonNegative(score, x);
    OwnSettings(d, p, p2);
    Grown(d, p2, p, score * x / 10000.0);
  }

  function AtLeastZero(x: real): real { if x > 0.0 then x else 0.0 }

  /** The policy with every negative setting at zero, and at least one level. */
  function Sensible(p: Policy): Policy {
    Policy(AtLeastZero(p.baseSlippageBps), AtLeastZero(p.spreadMult), AtLeastZero(p.maxBufferPct),
           AtLeastZero(p.volZBps), AtLeastZero(p.imbalanceBps), AtLeastZero(p.atrVolBpsMult),
           AtLeastZero(p.queueConsumptionBps), AtLeastZero(p.urgencyBps), AtLeastZero(p.timeDecayBps),
           AtLeastZero(p.retryStepPct), AtLeastZero(p.maxSlippageBps), AtLeastZero(p.minTick),
           if p.queueLevels > 1 then p.queueLevels else 1)
  }

  lemma SensibleParts(d: Input, p: Policy)
    requires GoodQuote(d)
    ensures Parts(d, p) == Parts(d, Sensible(p))
  {
    hide Urgency, TimeDecay, SpreadPct, Clamp, SumQty, Round6;
    var p2 := Sensible(p);
    assert Bps(p.baseSlippageBps) == Bps(p2.baseSlippageBps);
    assert SpreadBuffer(d, p) == SpreadBuffer(d, p2);
    assert VolBuffer(d, p) == VolBuffer(d, p2);
    assert FavorableImbalance(d, p) == FavorableImbalance(d, p2);
    assert QueueConsumption(d.depth, d.side, MaxReal(d.qty, 1.0), p.queueLevels)
        == QueueConsumption(d.depth, d.side, MaxReal(d.qty, 1.0), p2.queueLevels);
    hide QueueConsumption;
    assert QueueBuffer(d, p) == QueueBuffer(d, p2);
    assert UrgencyBuffer(d, p) == UrgencyBuffer(d, p2) && DecayBuffer(d, p) == DecayBuffer(d, p2);
    hide SpreadBuffer, VolBuffer, FavorableImbalance, QueueBuffer, UrgencyBuffer, DecayBuffer, Bps;
  }

  /** A negative setting counts as zero, and fewer than one level as one. */
  lemma NegativeSettingsAreZero(d: Input, p: Policy)
    ensures LimitPrice(d, p) == LimitPrice(d, Sensible(p))
  {
    if GoodQuote(d) {
      var p2 := Sensible(p);
      SensibleParts(d, p);
      PartsAreTotal(d, p);
      PartsAreTotal(d, p2);
      hide TotalBuffer, Parts;
      assert SteppedLimit(d, p) == SteppedLimit(d, p2) && GuardPrice(d, p) == GuardPrice(d, p2);
      hide SteppedLimit, GuardPrice;
      assert RawLimit(d, p) == RawLimit(d, p2);
      hide RawLimit;
    }
  }

  // ---------------------------------------------------------------- step, guard and rounding

  /** Stepping on the previous limit takes the more aggressive of the two prices. */
  lemma StepIs(d: Input, p: Policy)
    requires GoodQuote(d) && d.currentLimit.Some?
    ensures var anew := Unguarded(d.(currentLimit := None), p);
            var stepped := if d.side == Buy then d.currentLimit.value * (1.0 + p.retryStepPct)
                           else d.currentLimit.value * (1.0 - p.retryStepPct);
            Unguarded(d, p) == if d.retryIndex <= 0 || p.retryStepPct <= 0.0 then anew
                               else if d.side == Buy then (if stepped > anew then stepped else anew)
                               else (if stepped < anew then stepped else anew)
  {
    var d2 := d.(currentLimit := None);
    hide TotalBuffer, Charge, Clamp, Book;
    assert QueueBuffer(d, p) == QueueBuffer(d2, p);
    SameBuffers(d, d2, p);
  }

  /** The guard cuts the price at the allowed slippage from the touch, when there is an allowance. */
  lemma GuardIs(d: Input, p: Policy)
    requires GoodQuote(d)
    ensures p.maxSlippageBps <= 0.0 ==> RawLimit(d, p) == Unguarded(d, p)
    ensures p.maxSlippageBps > 0.0 && d.side == Buy ==>
              var guard := d.ask * (1.0 + p.maxSlippageBps / 10000.0);
              RawLimit(d, p) == if Unguarded(d, p) > guard then guard else Unguarded(d, p)
    ensures p.maxSlippageBps > 0.0 && d.side == Sell ==>
              var guard := d.bid * (1.0 - p.maxSlippageBps / 10000.0);
              RawLimit(d, p) == if Unguarded(d, p) < guard then guard else Unguarded(d, p)
  {
    hide TotalBuffer;
  }

  /** A price on the tick grid is, to six decimals, the nearest whole number of ticks; without a tick, of cents. */
  lemma RoundToTickIs(price: real, tick: real) returns (n: int)
    ensures tick > 0.0 ==>
              && -0.5 * tick <= n as real * tick - price <= 0.5 * tick
              && -0.0000005 <= RoundToTick(price, tick) - n as real * tick <= 0.0000005
    ensures tick <= 0.0 ==> RoundToTick(price, tick) * 100.0 == n as real && -0.5 <= n as real - price * 100.0 <= 0.5
  {
    if tick > 0.0 {
      n := Ticks(price, tick);
      TicksWithin(price, tick);
      TickPriceWithin(n, tick);
      hide Ticks, TickPrice;
    } else {
      n := HalfEven(price * 100.0);
      HalfEvenWithinHalf(price * 100.0);
      hide HalfEven;
      RoundedIsOnGrid(price, 100.0);
    }
  }

  /** A limit is returned exactly for a usable quote whose rounded price is positive, and is that price. */
  lemma LimitIs(d: Input, p: Policy)
    ensures LimitPrice(d, p).Some? <==>
              && d.side in {Buy, Sell} && 0.0 < d.bid <= d.ask
              && RoundToTick(RawLimit(d, p), p.minTick) > 0.0
    ensures LimitPrice(d, p).Some? ==> LimitPrice(d, p).value == RoundToTick(RawLimit(d, p), p.minTick)
  {
    hide RawLimit, RoundToTick;
  }
}
