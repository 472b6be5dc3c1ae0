/**
 Adaptive limit pricing: buffers added to the touch price, an optional retry step,
 a slippage guard and rounding to the tick.  Prices are exact reals; rounding is explicit.
 */
module AdaptivePricing {
  import opened Prelude
  import opened RealLaws
  import opened Rounding
  import opened TickRounding

  datatype Side = Buy | Sell | BadSide

  datatype Policy = Policy(
    baseSlippageBps: real, spreadMult: real, maxBufferPct: real, volZBps: real, imbalanceBps: real,
    atrVolBpsMult: real, queueConsumptionBps: real, urgencyBps: real, timeDecayBps: real,
    retryStepPct: real, maxSlippageBps: real, minTick: real, queueLevels: int)

  // A book level whose quantity cannot be read is `None`.
  datatype Depth = Depth(buy: seq<Option<real>>, sell: seq<Option<real>>)

  datatype Input = Input(
    side: Side, bid: real, ask: real, qty: real, spreadPct: Option<real>, depthImbalance: Option<real>,
    volZ: Option<real>, atrRatio: Option<real>, depth: Option<Depth>, signalStrength: Option<real>,
    elapsedSec: real, timeoutSec: real, retryIndex: int, maxRetries: int, currentLimit: Option<real>)

  function Clamp(value: real, lo: real, hi: real): real {
    if value < lo then lo else if value > hi then hi else value
  }

  function NonNeg(x: real): real { MaxReal(x, 0.0) }

  function OrElse(x: Option<real>, default: real): real { if x.Some? then x.value else default }

  // ---------------------------------------------------------------- queue depth

  function LevelQty(level: Option<real>): real { NonNeg(OrElse(level, 0.0)) }

  function SumQty(levels: seq<Option<real>>): real {
    if levels == [] then 0.0 else SumQty(levels[..|levels| - 1]) + LevelQty(levels[|levels| - 1])
  }

  datatype QueueEstimate = QueueEstimate(available: Option<real>, consumptionRatio: real, aheadRatio: Option<real>)

  function Book(depth: Option<Depth>, side: Side): seq<Option<real>> {
    if depth.None? then [] else if side == Buy then depth.value.sell else depth.value.buy
  }

  function TopLevels(book: seq<Option<real>>, levels: int): seq<Option<real>> {
    book[..MinInt(MaxInt(1, levels), |book|)]
  }

  function QueueConsumption(depth: Option<Depth>, side: Side, qty: real, levels: int): real {
    var book := Book(depth, side);
    if book == [] then 0.0
    else Round6(Clamp(NonNeg(qty) / MaxReal(SumQty(TopLevels(book, levels)), 1.0), 0.0, 10.0))
  }

  method EstimateQueueDepthConsumption(depth: Option<Depth>, side: Side, qty: real, levels: int)
    returns (r: QueueEstimate)
    ensures r.consumptionRatio == QueueConsumption(depth, side, qty, levels)
    ensures r.available
         == if Book(depth, side) == [] then None else Some(Round6(SumQty(TopLevels(Book(depth, side), levels))))
    ensures r.aheadRatio == if Book(depth, side) == [] then None
                            else var top := LevelQty(Book(depth, side)[0]);
                                 Some(Round6(Clamp(top / MaxReal(top + NonNeg(qty), 1.0), 0.0, 1.0)))
  {
    var book := Book(depth, side);
    if book == [] {
      return QueueEstimate(None, 0.0, None);
    }
    var levels' := MaxInt(1, levels);
    var top := TopLevels(book, levels');
    var totalQty, topQty := 0.0, 0.0;
    for idx := 0 to |top|
      invariant totalQty == SumQty(top[..idx])
      invariant idx > 0 ==> topQty == LevelQty(book[0])
    {
      var q := LevelQty(top[idx]);
      assert top[..idx + 1][..idx] == top[..idx];
      totalQty := totalQty + q;
      if idx == 0 {
        topQty := q;
      }
    }
    assert top[..|top|] == top;
    var qtyAbs := NonNeg(qty);
    var consumption := qtyAbs / MaxReal(totalQty, 1.0);
    var aheadRatio := topQty / MaxReal(topQty + qtyAbs, 1.0);
    r := QueueEstimate(Some(Round6(totalQty)), Round6(Clamp(consumption, 0.0, 10.0)),
                       Some(Round6(Clamp(aheadRatio, 0.0, 1.0))));
  }

  // ---------------------------------------------------------------- urgency and time decay

  function RetryPressure(retryIndex: int, maxRetries: int): real {
    if maxRetries > 0 then Clamp(retryIndex as real / maxRetries as real, 0.0, 1.0) else 0.0
  }

  function Urgency(signal: Option<real>, retryIndex: int, maxRetries: int): (u: real)
    ensures 0.0 <= u <= 1.0
  {
    Clamp(0.75 * Clamp(OrElse(signal, 0.5), 0.0, 1.0) + 0.25 * RetryPressure(retryIndex, maxRetries), 0.0, 1.0)
  }

  function Progress(elapsed: real, timeout: real, retryIndex: int, maxRetries: int): (p: real)
    ensures 0.0 <= p <= 1.0
  {
    if NonNeg(timeout) > 0.0 then Clamp(NonNeg(elapsed) / NonNeg(timeout), 0.0, 1.0)
    else RetryPressure(retryIndex, maxRetries)
  }

  function TimeDecay(elapsed: real, timeout: real, retryIndex: int, maxRetries: int): (d: real)
    ensures 0.0 <= d <= 1.0
  {
    var p := Progress(elapsed, timeout, retryIndex, maxRetries);
    Clamp(p * p, 0.0, 1.0)
  }

  // ---------------------------------------------------------------- the price

  function Bps(x: real): real { NonNeg(x) / 10000.0 }

  predicate GoodQuote(d: Input) { d.side != BadSide && d.bid > 0.0 && d.ask > 0.0 && d.ask >= d.bid }

  /** The spread as a fraction of the mid price, unless the caller knows it. */
  function SpreadPct(d: Input): (s: real)
    requires d.bid + d.ask > 0.0
    ensures s >= 0.0
    ensures d.spreadPct.None? && d.ask >= d.bid ==> s * ((d.bid + d.ask) / 2.0) == d.ask - d.bid
  {
    var mid := (d.bid + d.ask) / 2.0;
    QuotientTimes(d.ask - d.bid, mid);
    NonNeg(OrElse(d.spreadPct, (d.ask - d.bid) / mid))
  }

  lemma QuotientTimes(x: real, t: real)
    requires t > 0.0
    ensures x / t * t == x && (x >= 0.0 ==> x / t >= 0.0)
  {
    DivThenMul(x, t);
  }

  function SpreadBuffer(d: Input, p: Policy): (b: real)
    requires d.bid + d.ask > 0.0
    ensures 0.0 <= b <= NonNeg(p.maxBufferPct)
  {
    MinReal(NonNeg(SpreadPct(d) * NonNeg(p.spreadMult)), NonNeg(p.maxBufferPct))
  }

  function VolBuffer(d: Input, p: Policy): real {
    AbsReal(OrElse(d.volZ, 0.0)) * Bps(p.volZBps) + NonNeg(OrElse(d.atrRatio, 0.0)) * NonNeg(p.atrVolBpsMult)
  }

  /** What a book leaning our way takes off the buffer. */
  function FavorableImbalance(d: Input, p: Policy): real {
    var imbalance := Clamp(OrElse(d.depthImbalance, 0.0), -1.0, 1.0);
    if (d.side == Buy && imbalance > 0.0) || (d.side == Sell && imbalance < 0.0)
    then AbsReal(imbalance) * Bps(p.imbalanceBps) else 0.0
  }

  /** A score or ratio priced in basis points. */
  function Charge(score: real, bps: real): real { score * Bps(bps) }

  function QueueBuffer(d: Input, p: Policy): real {
    Charge(Clamp(QueueConsumption(d.depth, d.side, MaxReal(d.qty, 1.0), p.queueLevels), 0.0, 10.0),
           p.queueConsumptionBps)
  }

  function UrgencyBuffer(d: Input, p: Policy): real {
    Charge(Urgency(d.signalStrength, MaxInt(d.retryIndex, 0), MaxInt(d.maxRetries, 0)), p.urgencyBps)
  }

  function DecayBuffer(d: Input, p: Policy): real {
    Charge(TimeDecay(d.elapsedSec, d.timeoutSec, MaxInt(d.retryIndex, 0), MaxInt(d.maxRetries, 0)), p.timeDecayBps)
  }

  function SumBuffers(base: real, spread: real, vol: real, queue: real, urgency: real, decay: real,
                      relief: real): real {
    MaxReal(0.0, base + spread + vol + queue + urgency + decay - relief)
  }

  function TotalBuffer(d: Input, p: Policy): (b: real)
    requires GoodQuote(d)
    ensures b >= 0.0
  {
    SumBuffers(Bps(p.baseSlippageBps), SpreadBuffer(d, p), VolBuffer(d, p), QueueBuffer(d, p),
               UrgencyBuffer(d, p), DecayBuffer(d, p), FavorableImbalance(d, p))
  }

  function SlippageCap(p: Policy): real { Bps(p.maxSlippageBps) }

  /** The touch price moved by a fraction in the aggressive direction: up from the ask, down from the bid. */
  function Moved(side: Side, price: real, fraction: real): real {
    if side == Buy then price * (1.0 + fraction) else price * (1.0 - fraction)
  }

  function Touch(d: Input): real { if d.side == Buy then d.ask else d.bid }

  /** The more aggressive of two prices, and the less aggressive one. */
  function Bolder(side: Side, x: real, y: real): real { if side == Buy then MaxReal(x, y) else MinReal(x, y) }

  function Meeker(side: Side, x: real, y: real): real { if side == Buy then MinReal(x, y) else MaxReal(x, y) }

  /** The stepped-on previous limit, when this call steps. */
  function SteppedLimit(d: Input, p: Policy): Option<real> {
    if d.currentLimit.Some? && NonNeg(p.retryStepPct) > 0.0 && d.retryIndex > 0
    then Some(Moved(d.side, d.currentLimit.value, NonNeg(p.retryStepPct))) else None
  }

  /** The guard price, when slippage is capped. */
  function GuardPrice(d: Input, p: Policy): Option<real> {
    if SlippageCap(p) > 0.0 then Some(Moved(d.side, Touch(d), SlippageCap(p))) else None
  }

  function StepThenGuard(side: Side, base: real, stepped: Option<real>, guard: Option<real>): real {
    var price := if stepped.Some? then Bolder(side, base, stepped.value) else base;
    if guard.Some? then Meeker(side, price, guard.value) else price
  }

  /** The price before rounding to the tick. */
  function RawLimit(d: Input, p: Policy): real
    requires GoodQuote(d)
  {
    StepThenGuard(d.side, Moved(d.side, Touch(d), TotalBuffer(d, p)), SteppedLimit(d, p), GuardPrice(d, p))
  }

  /** The raw price if slippage were not capped. */
  function Unguarded(d: Input, p: Policy): real
    requires GoodQuote(d)
  {
    StepThenGuard(d.side, Moved(d.side, Touch(d), TotalBuffer(d, p)), SteppedLimit(d, p), None)
  }

  function LimitPrice(d: Input, p: Policy): Option<real> {
    if !GoodQuote(d) then None
    else
      var limit := RoundToTick(RawLimit(d, p), p.minTick);
      if limit <= 0.0 then None else Some(limit)
  }

  datatype Reason = Ok | BadSideReason | BadQuote | BadMid | BadLimit

  method ComputeAdaptiveLimitPrice(d: Input, p: Policy) returns (limit: Option<real>, reason: Reason, guardHit: bool)
    ensures limit == LimitPrice(d, p)
    ensures d.side == BadSide ==> reason == BadSideReason
    ensures d.side != BadSide && !GoodQuote(d) ==> reason == BadQuote
    ensures GoodQuote(d) ==> reason == if limit.None? then BadLimit else Ok
    ensures guardHit <==> GoodQuote(d) && RawLimit(d, p) != Unguarded(d, p)
  {
    if d.side == BadSide { return None, BadSideReason, false; }
    if d.bid <= 0.0 || d.ask <= 0.0 || d.ask < d.bid { return None, BadQuote, false; }
    var mid := (d.bid + d.ask) / 2.0;
    if mid <= 0.0 { return None, BadMid, false; }
    var queueBuf := ComputeQueueBuffer(d, p);
    var total := SumBuffers(Bps(p.baseSlippageBps), SpreadBuffer(d, p), VolBuffer(d, p), queueBuf,
                            UrgencyBuffer(d, p), DecayBuffer(d, p), FavorableImbalance(d, p));
    var raw := Moved(d.side, Touch(d), total);
    raw, guardHit := StepAndGuard(d.side, raw, SteppedLimit(d, p), GuardPrice(d, p));
    var rounded := RoundToTick(raw, p.minTick);
    if rounded <= 0.0 { return None, BadLimit, guardHit; }
    return Some(rounded), Ok, guardHit;
  }

  method ComputeQueueBuffer(d: Input, p: Policy) returns (queueBuf: real)
    ensures queueBuf == QueueBuffer(d, p)
  {
    var queue := EstimateQueueDepthConsumption(d.depth, d.side, MaxReal(d.qty, 1.0), p.queueLevels);
    queueBuf := Charge(Clamp(queue.consumptionRatio, 0.0, 10.0), p.queueConsumptionBps);
  }

  method StepAndGuard(side: Side, base: real, stepped: Option<real>, guard: Option<real>)
    returns (raw: real, guardHit: bool)
    ensures raw == StepThenGuard(side, base, stepped, guard)
    ensures guardHit <==> raw != StepThenGuard(side, base, stepped, None)
  {
    raw, guardHit := base, false;
    if stepped.Some? {
      if side == Buy {
        raw := MaxReal(raw, stepped.value);
      } else {
        raw := MinReal(raw, stepped.value);
      }
    }
    if guard.Some? {
      if side == Buy && raw > guard.value {
        raw, guardHit := guard.value, true;
      } else if side != Buy && raw < guard.value {
        raw, guardHit := guard.value, true;
      }
    }
  }
}
