/** Relational facts about the whole pricing composition, and about runs of retries. */
module PricingTheorems {
  import opened Prelude
  import opened RealLaws
  import opened Rounding
  import opened TickRounding
  import opened AdaptivePricing

  /** `y` is at least as aggressive a price as `x`: not lower for a buyer, not higher for a seller. */
  predicate NotMeeker(side: Side, x: real, y: real) { if side == Buy then x <= y else y <= x }

  // ---------------------------------------------------------------- each buffer is monotone

  lemma QueueConsumptionMonotone(depth: Option<Depth>, side: Side, q1: real, q2: real, levels: int)
    requires q1 <= q2
    ensures QueueConsumption(depth, side, q1, levels) <= QueueConsumption(depth, side, q2, levels)
  {
    var book := Book(depth, side);
    if book != [] {
      var total := MaxReal(SumQty(TopLevels(book, levels)), 1.0);
      DivMonotone(NonNeg(q1), NonNeg(q2), total);
      RoundToMonotone(Clamp(NonNeg(q1) / total, 0.0, 10.0), Clamp(NonNeg(q2) / total, 0.0, 10.0), 1000000.0);
    }
  }

  lemma ChargeMonotone(x: real, y: real, bps: real)
    requires x <= y
    ensures Charge(x, bps) <= Charge(y, bps)
  {
    MulMonotone(x, y, Bps(bps));
  }

  lemma RetryPressureMonotone(i1: int, i2: int, maxRetries: int)
    requires i1 <= i2
    ensures RetryPressure(i1, maxRetries) <= RetryPressure(i2, maxRetries)
  {
    if maxRetries > 0 {
      DivMonotone(i1 as real, i2 as real, maxRetries as real);
    }
  }

  lemma UrgencyMonotone(s1: Option<real>, s2: Option<real>, i1: int, i2: int, maxRetries: int)
    requires OrElse(s1, 0.5) <= OrElse(s2, 0.5) && i1 <= i2
    ensures Urgency(s1, i1, maxRetries) <= Urgency(s2, i2, maxRetries)
  {
    RetryPressureMonotone(i1, i2, maxRetries);
  }

  lemma SquareMonotone(x: real, y: real)
    requires 0.0 <= x <= y
    ensures x * x <= y * y
  {
    MulMonotone(x, y, x);
    MulMonotone(x, y, y);
  }

  lemma ProgressMonotone(e1: real, e2: real, timeout: real, i1: int, i2: int, maxRetries: int)
    requires e1 <= e2 && i1 <= i2
    ensures Progress(e1, timeout, i1, maxRetries) <= Progress(e2, timeout, i2, maxRetries)
  {
    RetryPressureMonotone(i1, i2, maxRetries);
    hide RetryPressure;
    if NonNeg(timeout) > 0.0 {
      DivMonotone(NonNeg(e1), NonNeg(e2), NonNeg(timeout));
    }
  }

  lemma TimeDecayMonotone(e1: real, e2: real, timeout: real, i1: int, i2: int, maxRetries: int)
    requires e1 <= e2 && i1 <= i2
    ensures TimeDecay(e1, timeout, i1, maxRetries) <= TimeDecay(e2, timeout, i2, maxRetries)
  {
    ProgressMonotone(e1, e2, timeout, i1, i2, maxRetries);
    hide Progress;
    SquareMonotone(Progress(e1, timeout, i1, maxRetries), Progress(e2, timeout, i2, maxRetries));
  }

  /** `d2` asks for more, later, with a stronger signal or after more retries, in the same market. */
  predicate PressesHarder(d1: Input, d2: Input) {
    && d2 == d1.(qty := d2.qty, elapsedSec := d2.elapsedSec, signalStrength := d2.signalStrength,
                 retryIndex := d2.retryIndex, currentLimit := d2.currentLimit)
    && d1.qty <= d2.qty && d1.elapsedSec <= d2.elapsedSec && d1.retryIndex <= d2.retryIndex
    && OrElse(d1.signalStrength, 0.5) <= OrElse(d2.signalStrength, 0.5)
  }

  /** The same, with nothing else changed. */
  predicate MoreAggressive(d1: Input, d2: Input) { PressesHarder(d1, d2) && d1.currentLimit == d2.currentLimit }

  lemma QueueBufferMonotone(d1: Input, d2: Input, p: Policy)
    requires PressesHarder(d1, d2)
    ensures QueueBuffer(d1, p) <= QueueBuffer(d2, p)
  {
    var q1, q2 := MaxReal(d1.qty, 1.0), MaxReal(d2.qty, 1.0);
    QueueConsumptionMonotone(d1.depth, d1.side, q1, q2, p.queueLevels);
    ChargeMonotone(Clamp(QueueConsumption(d1.depth, d1.side, q1, p.queueLevels), 0.0, 10.0),
                   Clamp(QueueConsumption(d1.depth, d1.side, q2, p.queueLevels), 0.0, 10.0), p.queueConsumptionBps);
  }

  lemma UrgencyBufferMonotone(d1: Input, d2: Input, p: Policy)
    requires PressesHarder(d1, d2)
    ensures UrgencyBuffer(d1, p) <= UrgencyBuffer(d2, p)
  {
    var i1, i2, m := MaxInt(d1.retryIndex, 0), MaxInt(d2.retryIndex, 0), MaxInt(d1.maxRetries, 0);
    UrgencyMonotone(d1.signalStrength, d2.signalStrength, i1, i2, m);
    ChargeMonotone(Urgency(d1.signalStrength, i1, m), Urgency(d2.signalStrength, i2, m), p.urgencyBps);
  }

  lemma DecayBufferMonotone(d1: Input, d2: Input, p: Policy)
    requires PressesHarder(d1, d2)
    ensures DecayBuffer(d1, p) <= DecayBuffer(d2, p)
  {
    var i1, i2, m := MaxInt(d1.retryIndex, 0), MaxInt(d2.retryIndex, 0), MaxInt(d1.maxRetries, 0);
    TimeDecayMonotone(d1.elapsedSec, d2.elapsedSec, d1.timeoutSec, i1, i2, m);
    ChargeMonotone(TimeDecay(d1.elapsedSec, d1.timeoutSec, i1, m), TimeDecay(d2.elapsedSec, d1.timeoutSec, i2, m),
                   p.timeDecayBps);
  }

  lemma SameOtherBuffers(d1: Input, d2: Input, p: Policy)
    requires GoodQuote(d1) && PressesHarder(d1, d2)
    ensures SpreadBuffer(d1, p) == SpreadBuffer(d2, p)
    ensures VolBuffer(d1, p) == VolBuffer(d2, p)
    ensures FavorableImbalance(d1, p) == FavorableImbalance(d2, p)
  {
  }

  lemma SumBuffersMonotone(base: real, spread: real, vol: real, q1: real, q2: real, u1: real, u2: real, t1: real,
                           t2: real, relief: real)
    requires q1 <= q2 && u1 <= u2 && t1 <= t2
    ensures SumBuffers(base, spread, vol, q1, u1, t1, relief) <= SumBuffers(base, spread, vol, q2, u2, t2, relief)
  {
  }

  lemma TotalBufferMonotone(d1: Input, d2: Input, p: Policy)
    requires GoodQuote(d1) && PressesHarder(d1, d2)
    ensures TotalBuffer(d1, p) <= TotalBuffer(d2, p)
  {
    QueueBufferMonotone(d1, d2, p);
    UrgencyBufferMonotone(d1, d2, p);
    DecayBufferMonotone(d1, d2, p);
    SameOtherBuffers(d1, d2, p);
    SumBuffersMonotone(Bps(p.baseSlippageBps), SpreadBuffer(d1, p), VolBuffer(d1, p),
                       QueueBuffer(d1, p), QueueBuffer(d2, p), UrgencyBuffer(d1, p), UrgencyBuffer(d2, p),
                       DecayBuffer(d1, p), DecayBuffer(d2, p), FavorableImbalance(d1, p));
  }

  // ---------------------------------------------------------------- the price is monotone

  lemma MovedMonotone(side: Side, price: real, f1: real, f2: real)
    requires price >= 0.0 && f1 <= f2
    ensures NotMeeker(side, Moved(side, price, f1), Moved(side, price, f2))
  {
    MulMonotone(1.0 + f1, 1.0 + f2, price);
    MulMonotone(1.0 - f2, 1.0 - f1, price);
  }

  lemma MovedFromHere(side: Side, price: real, f: real)
    requires price >= 0.0 && f >= 0.0
    ensures NotMeeker(side, price, Moved(side, price, f))
  {
    MovedMonotone(side, price, 0.0, f);
    assert Moved(side, price, 0.0) == price;
  }

  lemma RoundedNotMeeker(side: Side, x: real, y: real, tick: real)
    requires NotMeeker(side, x, y)
    ensures NotMeeker(side, RoundToTick(x, tick), RoundToTick(y, tick))
  {
    if side == Buy {
      RoundToTickMonotone(x, y, tick);
    } else {
      RoundToTickMonotone(y, x, tick);
    }
  }

  lemma RawLimitMonotone(d1: Input, d2: Input, p: Policy)
    requires GoodQuote(d1) && PressesHarder(d1, d2)
    requires SteppedLimit(d1, p) == None || SteppedLimit(d1, p) == SteppedLimit(d2, p)
    ensures NotMeeker(d1.side, RawLimit(d1, p), RawLimit(d2, p))
  {
    TotalBufferMonotone(d1, d2, p);
    var b1, b2 := TotalBuffer(d1, p), TotalBuffer(d2, p);
    MovedMonotone(d1.side, Touch(d1), b1, b2);
    StepThenGuardMonotone(d1.side, Moved(d1.side, Touch(d1), b1), Moved(d1.side, Touch(d1), b2),
                          SteppedLimit(d1, p), SteppedLimit(d2, p), GuardPrice(d1, p));
  }

  lemma StepThenGuardMonotone(side: Side, x: real, y: real, s1: Option<real>, s2: Option<real>, guard: Option<real>)
    requires NotMeeker(side, x, y) && (s1 == None || s1 == s2)
    ensures NotMeeker(side, StepThenGuard(side, x, s1, guard), StepThenGuard(side, y, s2, guard))
  {
  }

  /**
   More quantity, more elapsed time, a stronger signal or more retries never make the limit
   less aggressive; a buyer's limit stays defined, and a seller's was defined before.
   */
  lemma LimitPriceMonotone(d1: Input, d2: Input, p: Policy)
    requires MoreAggressive(d1, d2)
    ensures LimitPrice(d1, p).Some? && LimitPrice(d2, p).Some?
            ==> NotMeeker(d1.side, LimitPrice(d1, p).value, LimitPrice(d2, p).value)
    ensures d1.side == Buy && LimitPrice(d1, p).Some? ==> LimitPrice(d2, p).Some?
    ensures d1.side == Sell && LimitPrice(d2, p).Some? ==> LimitPrice(d1, p).Some?
  {
    if GoodQuote(d1) {
      RawLimitMonotone(d1, d2, p);
      RoundedNotMeeker(d1.side, RawLimit(d1, p), RawLimit(d2, p), p.minTick);
    }
  }

  // ---------------------------------------------------------------- the market

  /** How far the book leans our way. */
  function Lean(d: Input): real {
    var imbalance := OrElse(d.depthImbalance, 0.0);
    if d.side == Buy then imbalance else -imbalance
  }

  /** A wider spread, more volatility and a book leaning less our way, at the same quote. */
  predicate RougherMarket(d1: Input, d2: Input)
    requires GoodQuote(d1)
  {
    && d2 == d1.(spreadPct := d2.spreadPct, volZ := d2.volZ, atrRatio := d2.atrRatio,
                 depthImbalance := d2.depthImbalance)
    && SpreadPct(d1) <= SpreadPct(d2) && AbsReal(OrElse(d1.volZ, 0.0)) <= AbsReal(OrElse(d2.volZ, 0.0))
    && NonNeg(OrElse(d1.atrRatio, 0.0)) <= NonNeg(OrElse(d2.atrRatio, 0.0)) && Lean(d2) <= Lean(d1)
  }

  lemma CappedMonotone(x: real, y: real, cap: real)
    requires x <= y
    ensures MinReal(NonNeg(x), cap) <= MinReal(NonNeg(y), cap)
  {
  }

  lemma SpreadBufferMonotone(d1: Input, d2: Input, p: Policy)
    requires GoodQuote(d1) && RougherMarket(d1, d2)
    ensures SpreadBuffer(d1, p) <= SpreadBuffer(d2, p)
  {
    hide SpreadPct;
    var mult := NonNeg(p.spreadMult);
    MulMonotone(SpreadPct(d1), SpreadPct(d2), mult);
    CappedMonotone(SpreadPct(d1) * mult, SpreadPct(d2) * mult, NonNeg(p.maxBufferPct));
  }

  lemma WeightedSumMonotone(x1: real, x2: real, a: real, y1: real, y2: real, b: real)
    requires x1 <= x2 && a >= 0.0 && y1 <= y2 && b >= 0.0
    ensures x1 * a + y1 * b <= x2 * a + y2 * b
  {
    MulMonotone(x1, x2, a);
    MulMonotone(y1, y2, b);
  }

  lemma VolBufferMonotone(d1: Input, d2: Input, p: Policy)
    requires GoodQuote(d1) && RougherMarket(d1, d2)
    ensures VolBuffer(d1, p) <= VolBuffer(d2, p)
  {
    assert Bps(p.volZBps) >= 0.0;
    hide SpreadPct, Bps, Lean;
    WeightedSumMonotone(AbsReal(OrElse(d1.volZ, 0.0)), AbsReal(OrElse(d2.volZ, 0.0)), Bps(p.volZBps),
                        NonNeg(OrElse(d1.atrRatio, 0.0)), NonNeg(OrElse(d2.atrRatio, 0.0)), NonNeg(p.atrVolBpsMult));
  }

  /** The relief is the lean, as far as it is positive and at most one, priced in basis points. */
  lemma ReliefIsLean(d: Input, p: Policy)
    requires GoodQuote(d)
    ensures FavorableImbalance(d, p) == Charge(Clamp(Lean(d), 0.0, 1.0), p.imbalanceBps)
  {
    assert Charge(0.0, p.imbalanceBps) == 0.0;
  }

  lemma ReliefMonotone(d1: Input, d2: Input, p: Policy)
    requires GoodQuote(d1) && RougherMarket(d1, d2)
    ensures 0.0 <= FavorableImbalance(d2, p) <= FavorableImbalance(d1, p)
  {
    ReliefIsLean(d1, p);
    ReliefIsLean(d2, p);
    ChargeMonotone(0.0, Clamp(Lean(d2), 0.0, 1.0), p.imbalanceBps);
    ChargeMonotone(Clamp(Lean(d2), 0.0, 1.0), Clamp(Lean(d1), 0.0, 1.0), p.imbalanceBps);
    assert Charge(0.0, p.imbalanceBps) == 0.0;
  }

  /** A rougher market never makes the limit less aggressive. */
  lemma RougherMarketMonotone(d1: Input, d2: Input, p: Policy)
    requires GoodQuote(d1) && RougherMarket(d1, d2)
    ensures NotMeeker(d1.side, RawLimit(d1, p), RawLimit(d2, p))
    ensures NotMeeker(d1.side, RoundToTick(RawLimit(d1, p), p.minTick), RoundToTick(RawLimit(d2, p), p.minTick))
  {
    SpreadBufferMonotone(d1, d2, p);
    VolBufferMonotone(d1, d2, p);
    ReliefMonotone(d1, d2, p);
    MarketBufferMonotone(d1, d2, p);
    var b1, b2 := TotalBuffer(d1, p), TotalBuffer(d2, p);
    hide TotalBuffer, SpreadPct;
    MovedMonotone(d1.side, Touch(d1), b1, b2);
    StepThenGuardMonotone(d1.side, Moved(d1.side, Touch(d1), b1), Moved(d1.side, Touch(d1), b2),
                          SteppedLimit(d1, p), SteppedLimit(d2, p), GuardPrice(d1, p));
    RoundedNotMeeker(d1.side, RawLimit(d1, p), RawLimit(d2, p), p.minTick);
  }

  lemma MarketBufferMonotone(d1: Input, d2: Input, p: Policy)
    requires GoodQuote(d1) && RougherMarket(d1, d2)
    requires SpreadBuffer(d1, p) <= SpreadBuffer(d2, p) && VolBuffer(d1, p) <= VolBuffer(d2, p)
    requires FavorableImbalance(d2, p) <= FavorableImbalance(d1, p)
    ensures TotalBuffer(d1, p) <= TotalBuffer(d2, p)
  {
    assert QueueBuffer(d1, p) == QueueBuffer(d2, p);
    assert UrgencyBuffer(d1, p) == UrgencyBuffer(d2, p);
    assert DecayBuffer(d1, p) == DecayBuffer(d2, p);
    hide SpreadBuffer, VolBuffer, FavorableImbalance, QueueBuffer, UrgencyBuffer, DecayBuffer, Bps, SpreadPct;
  }

  lemma SameMarketBuffers(d1: Input, d2: Input, p: Policy)
    requires GoodQuote(d1) && d2 == d1.(depth := d2.depth, currentLimit := d2.currentLimit)
    ensures SpreadBuffer(d1, p) == SpreadBuffer(d2, p) && VolBuffer(d1, p) == VolBuffer(d2, p)
    ensures FavorableImbalance(d1, p) == FavorableImbalance(d2, p)
  {
    assert SpreadPct(d1) == SpreadPct(d2);
    hide SpreadPct, Bps;
  }

  lemma SameScoreBuffers(d1: Input, d2: Input, p: Policy)
    requires d2 == d1.(depth := d2.depth, currentLimit := d2.currentLimit)
    ensures UrgencyBuffer(d1, p) == UrgencyBuffer(d2, p) && DecayBuffer(d1, p) == DecayBuffer(d2, p)
  {
    hide Charge, Urgency, TimeDecay;
  }

  lemma SameBuffers(d1: Input, d2: Input, p: Policy)
    requires GoodQuote(d1) && d2 == d1.(depth := d2.depth, currentLimit := d2.currentLimit)
    requires QueueBuffer(d1, p) == QueueBuffer(d2, p)
    ensures TotalBuffer(d1, p) == TotalBuffer(d2, p)
  {
    hide SpreadBuffer, VolBuffer, FavorableImbalance, QueueBuffer, UrgencyBuffer, DecayBuffer, Bps;
    SameMarketBuffers(d1, d2, p);
    SameScoreBuffers(d1, d2, p);
  }

  /** Only the side of the book one trades against is looked at. */
  lemma OwnBookIsIgnored(d: Input, p: Policy, own: seq<Option<real>>)
    requires d.side != BadSide && d.depth.Some?
    ensures var other := d.depth.value;
            LimitPrice(d.(depth := Some(if d.side == Buy then Depth(own, other.sell) else Depth(other.buy, own))), p)
            == LimitPrice(d, p)
  {
    var other := d.depth.value;
    var d2 := d.(depth := Some(if d.side == Buy then Depth(own, other.sell) else Depth(other.buy, own)));
    assert Book(d2.depth, d.side) == Book(d.depth, d.side);
    hide TotalBuffer, RoundToTick, Charge, Clamp, Book;
    assert QueueBuffer(d, p) == QueueBuffer(d2, p);
    if GoodQuote(d) { SameBuffers(d, d2, p); }
  }

  /** Without a retry step, or on the first attempt, the previous limit does not matter. */
  lemma NoStepIgnoresCurrentLimit(d: Input, p: Policy, other: Option<real>)
    requires d.retryIndex <= 0 || p.retryStepPct <= 0.0
    ensures LimitPrice(d.(currentLimit := other), p) == LimitPrice(d, p)
  {
    var d2 := d.(currentLimit := other);
    hide TotalBuffer, RoundToTick, Charge, Clamp, Book;
    assert QueueBuffer(d, p) == QueueBuffer(d2, p);
    if GoodQuote(d) { SameBuffers(d, d2, p); }
  }

  // ---------------------------------------------------------------- bounds

  lemma StepThenGuardBound(side: Side, touch: real, base: real, stepped: Option<real>, guard: Option<real>)
    requires NotMeeker(side, touch, base) && (guard.Some? ==> NotMeeker(side, touch, guard.value))
    ensures NotMeeker(side, touch, StepThenGuard(side, base, stepped, guard))
    ensures guard.Some? ==> NotMeeker(side, StepThenGuard(side, base, stepped, guard), guard.value)
  {
  }

  lemma RawLimitBound(d: Input, p: Policy)
    requires GoodQuote(d)
    ensures NotMeeker(d.side, Touch(d), RawLimit(d, p))
    ensures GuardPrice(d, p).Some? ==> NotMeeker(d.side, RawLimit(d, p), GuardPrice(d, p).value)
  {
    hide TotalBuffer, Bps;
    MovedFromHere(d.side, Touch(d), TotalBuffer(d, p));
    if GuardPrice(d, p).Some? {
      MovedFromHere(d.side, Touch(d), SlippageCap(p));
    }
    hide Moved;
    StepThenGuardBound(d.side, Touch(d), Moved(d.side, Touch(d), TotalBuffer(d, p)), SteppedLimit(d, p),
                       GuardPrice(d, p));
  }

  /**
   The raw price lies between the touch and the slippage cap, and the limit is within half a
   tick (plus the last decimal) of it.
   */
  lemma LimitPriceBound(d: Input, p: Policy)
    requires LimitPrice(d, p).Some?
    ensures d.side != BadSide
    ensures d.side == Buy ==> d.ask <= RawLimit(d, p)
    ensures d.side == Sell ==> RawLimit(d, p) <= d.bid
    ensures d.side == Buy && p.maxSlippageBps > 0.0 ==> RawLimit(d, p) <= d.ask * (1.0 + p.maxSlippageBps / 10000.0)
    ensures d.side == Sell && p.maxSlippageBps > 0.0 ==> d.bid * (1.0 - p.maxSlippageBps / 10000.0) <= RawLimit(d, p)
    ensures var error := if p.minTick > 0.0 then 0.5 * p.minTick + 0.0000005 else 0.005;
            -error <= LimitPrice(d, p).value - RawLimit(d, p) <= error
  {
    hide RawLimit, RoundToTick, GuardPrice;
    RoundToTickWithin(RawLimit(d, p), p.minTick);
    RawLimitBound(d, p);
    GuardPriceIs(d, p);
  }

  // ---------------------------------------------------------------- the retry ladder

  /** The next attempt: the same order at the same quote, later, fed the limit just computed. */
  predicate NextAttempt(d1: Input, limit: real, d2: Input) {
    && d2 == d1.(retryIndex := d2.retryIndex, elapsedSec := d2.elapsedSec, currentLimit := Some(limit))
    && d1.retryIndex <= d2.retryIndex && d1.elapsedSec <= d2.elapsedSec
  }

  lemma SteppedRung(d2: Input, p: Policy, limit: real)
    requires GoodQuote(d2) && d2.currentLimit == Some(limit) && limit > 0.0
    requires SteppedLimit(d2, p).Some? && RoundToTick(limit, p.minTick) == limit
    requires GuardPrice(d2, p).Some? ==> NotMeeker(d2.side, limit, RoundToTick(GuardPrice(d2, p).value, p.minTick))
    ensures NotMeeker(d2.side, limit, RoundToTick(RawLimit(d2, p), p.minTick))
  {
    MovedFromHere(d2.side, limit, NonNeg(p.retryStepPct));
    var least := if GuardPrice(d2, p).Some? then Meeker(d2.side, limit, GuardPrice(d2, p).value) else limit;
    RoundedNotMeeker(d2.side, least, RawLimit(d2, p), p.minTick);
  }

  lemma PlainRung(d1: Input, d2: Input, p: Policy, limit: real)
    requires GoodQuote(d1) && NextAttempt(d1, limit, d2)
    requires SteppedLimit(d2, p).None?
    ensures NotMeeker(d1.side, RoundToTick(RawLimit(d1, p), p.minTick), RoundToTick(RawLimit(d2, p), p.minTick))
  {
    assert SteppedLimit(d1, p).None?;
    RawLimitMonotone(d1, d2, p);
    RoundedNotMeeker(d1.side, RawLimit(d1, p), RawLimit(d2, p), p.minTick);
  }

  /** The guard price: the touch moved by the allowed slippage. */
  lemma GuardPriceIs(d: Input, p: Policy)
    requires d.side != BadSide
    ensures GuardPrice(d, p).None? <==> p.maxSlippageBps <= 0.0
    ensures p.maxSlippageBps > 0.0 && d.side == Buy ==>
              GuardPrice(d, p).value == d.ask * (1.0 + p.maxSlippageBps / 10000.0)
    ensures p.maxSlippageBps > 0.0 && d.side == Sell ==>
              GuardPrice(d, p).value == d.bid * (1.0 - p.maxSlippageBps / 10000.0)
  {
  }

  /** Every limit stays on the meek side of the rounded guard. */
  lemma RoundedGuardHolds(d: Input, p: Policy)
    requires LimitPrice(d, p).Some? && GuardPrice(d, p).Some?
    ensures NotMeeker(d.side, LimitPrice(d, p).value, RoundToTick(GuardPrice(d, p).value, p.minTick))
  {
    RoundedNotMeeker(d.side, RawLimit(d, p), GuardPrice(d, p).value, p.minTick);
  }

  lemma LimitWithinGuard(d: Input, p: Policy)
    requires LimitPrice(d, p).Some? && p.maxSlippageBps > 0.0
    ensures var guard := if d.side == Buy then d.ask * (1.0 + p.maxSlippageBps / 10000.0)
                         else d.bid * (1.0 - p.maxSlippageBps / 10000.0);
            NotMeeker(d.side, LimitPrice(d, p).value, RoundToTick(guard, p.minTick))
  {
    hide GuardPrice, RawLimit, RoundToTick;
    GuardPriceIs(d, p);
    RoundedGuardHolds(d, p);
  }

  lemma Rung(d1: Input, d2: Input, p: Policy)
    requires LimitPrice(d1, p).Some? && LimitPrice(d2, p).Some?
    requires NextAttempt(d1, LimitPrice(d1, p).value, d2)
    ensures NotMeeker(d1.side, LimitPrice(d1, p).value, LimitPrice(d2, p).value)
  {
    var limit := LimitPrice(d1, p).value;
    if SteppedLimit(d2, p).Some? {
      RoundToTickIdempotent(RawLimit(d1, p), p.minTick);
      if GuardPrice(d1, p).Some? {
        RoundedGuardHolds(d1, p);
        assert GuardPrice(d1, p) == GuardPrice(d2, p);
      }
      SteppedRung(d2, p, limit);
    } else {
      PlainRung(d1, d2, p, limit);
    }
  }

  /** A run of attempts at one quote, each fed the limit before it. */
  ghost predicate Ladder(attempts: seq<Input>, p: Policy) {
    && (forall i :: 0 <= i < |attempts| ==> LimitPrice(attempts[i], p).Some?)
    && (forall i :: 0 <= i < |attempts| - 1 ==>
        NextAttempt(attempts[i], LimitPrice(attempts[i], p).value, attempts[i + 1]))
  }

  /**
   Whatever the tick size and step, a ladder of retries moves in one direction only: a
   buyer's limits never fall and a seller's never rise, and none passes the rounded guard.
   */
  lemma {:induction false} LadderIsOneWay(attempts: seq<Input>, p: Policy, i: nat, j: nat)
    requires Ladder(attempts, p) && i <= j < |attempts|
    ensures attempts[j].side == attempts[i].side && GuardPrice(attempts[j], p) == GuardPrice(attempts[i], p)
    ensures NotMeeker(attempts[i].side, LimitPrice(attempts[i], p).value, LimitPrice(attempts[j], p).value)
    ensures GuardPrice(attempts[i], p).Some? ==>
              NotMeeker(attempts[i].side, LimitPrice(attempts[j], p).value,
                        RoundToTick(GuardPrice(attempts[i], p).value, p.minTick))
  {
    if i < j {
      LadderIsOneWay(attempts, p, i, j - 1);
      Rung(attempts[j - 1], attempts[j], p);
    }
    if GuardPrice(attempts[j], p).Some? {
      RoundedGuardHolds(attempts[j], p);
    }
  }
}
