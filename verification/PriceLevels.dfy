/** Stop and target levels recomputed from the final entry, and the ordering check on canonical rows. */
module PriceLevels {
  import opened Prelude
  import opened RealLaws
  import opened Rounding

  datatype Side = Buy | Sell | OtherSide

  datatype RowKind = CanonicalSuggestion | OtherKind

  datatype Reason = NoReason | MissingFinalEntry | InsufficientRiskContext

  datatype Row = Row(
    kind: RowKind, side: Side, isOption: bool, entry: Option<real>, finalEntry: Option<real>,
    capitalAtRisk: Option<real>, stop: Option<real>, stopLoss: Option<real>, stopPrice: Option<real>,
    originalStop: Option<real>, currentStop: Option<real>, target: Option<real>, targetPrice: Option<real>,
    rrRatio: Option<real>, targetRr: Option<real>,
    bestBid: Option<real>, bid: Option<real>, optBid: Option<real>,
    bestAsk: Option<real>, ask: Option<real>, optAsk: Option<real>,
    nonCanonical: bool, recomputed: bool, reason: Reason)

  /** The option-stop settings; `None` is a knob that is not set. */
  datatype Tightening = Tightening(
    enabled: bool, maxPct: Option<real>, minPct: Option<real>, spreadMult: Option<real>,
    maxAbs: Option<real>, minAbs: Option<real>)

  predicate Positive(x: Option<real>) { x.Some? && x.value > 0.0 }

  // ---------------------------------------------------------------- the risk that is used

  /** Capital at risk if positive, else the distance to the old stop, else whatever was there. */
  function ContextRisk(row: Row, entry: real): Option<real> {
    var oldStop := if row.stopLoss.Some? then row.stopLoss else row.stop;
    if Positive(row.capitalAtRisk) then row.capitalAtRisk
    else if oldStop.Some? then Some(AbsReal(entry - oldStop.value))
    else row.capitalAtRisk
  }

  function FirstOf(a: Option<real>, b: Option<real>, c: Option<real>): Option<real> {
    if a.Some? then a else if b.Some? then b else c
  }

  function BidOf(row: Row): Option<real> { FirstOf(row.bestBid, row.bid, row.optBid) }

  function AskOf(row: Row): Option<real> { FirstOf(row.bestAsk, row.ask, row.optAsk) }

  /** How far the ask stands above the bid, when it does. */
  function Spread(row: Row): (s: Option<real>)
    ensures s.Some? ==> s.value > 0.0 && BidOf(row).Some? && AskOf(row) == Some(BidOf(row).value + s.value)
    ensures s.None? && BidOf(row).Some? && AskOf(row).Some? ==> AskOf(row).value <= BidOf(row).value
  {
    var bid, ask := BidOf(row), AskOf(row);
    if bid.Some? && ask.Some? && ask.value - bid.value > 0.0 then Some(ask.value - bid.value) else None
  }

  /** A positive setting applied to an amount; an unset or non-positive one gives no limit. */
  function Scaled(amount: real, setting: Option<real>): Option<real> {
    if Positive(setting) then Some(amount * setting.value) else None
  }

  function Raise(x: real, floor: Option<real>): real { if floor.Some? then MaxReal(x, floor.value) else x }

  function Lower(x: real, cap: Option<real>): real { if cap.Some? then MinReal(x, cap.value) else x }

  function SpreadFloor(row: Row, t: Tightening): Option<real> {
    if Spread(row).Some? then Scaled(Spread(row).value, t.spreadMult) else None
  }

  /** The context risk raised to every floor that is set. */
  function Floored(row: Row, entry: real, t: Tightening, risk: Option<real>): real {
    var start := if Positive(risk) then risk.value else 0.0;
    Raise(Raise(Raise(start, Scaled(entry, t.minPct)), Scaled(1.0, t.minAbs)), SpreadFloor(row, t))
  }

  /** The lowest of the caps that apply; 99% of the entry always does. */
  function Cap(entry: real, t: Tightening): real {
    Lower(Lower(0.99 * entry, Scaled(entry, t.maxPct)), Scaled(1.0, t.maxAbs))
  }

  predicate Tightens(row: Row, t: Tightening) { t.enabled && row.isOption && row.side == Buy }

  function UsedRisk(row: Row, entry: real, t: Tightening): Option<real> {
    var risk := ContextRisk(row, entry);
    var tightened := MinReal(Floored(row, entry, t, risk), Cap(entry, t));
    if Tightens(row, t) && tightened > 0.0 then Some(tightened) else risk
  }

  function RewardRatio(row: Row, rrDefault: real): real {
    if Positive(row.rrRatio) then row.rrRatio.value
    else if Positive(row.targetRr) then row.targetRr.value
    else rrDefault
  }

  // ---------------------------------------------------------------- recompute and validate

  function WithStop(row: Row, stop: Option<real>): Row {
    row.(stop := stop, stopLoss := stop, stopPrice := stop, originalStop := stop, currentStop := stop)
  }

  function WithTarget(row: Row, target: Option<real>): Row { row.(target := target, targetPrice := target) }

  /** Entry moved by an amount towards the stop of its side. */
  function StopAt(side: Side, entry: real, risk: real): real {
    if side == Sell then Round2(entry + risk) else Round2(entry - risk)
  }

  function TargetAt(side: Side, entry: real, risk: real, rr: real): real {
    if side == Sell then Round2(entry - risk * rr) else Round2(entry + risk * rr)
  }

  function Recomputed(row: Row, entry: real, risk: real, rr: real): Row {
    WithTarget(WithStop(row, Some(StopAt(row.side, entry, risk))), Some(TargetAt(row.side, entry, risk, rr)))
    .(capitalAtRisk := Some(Round2(risk)), targetRr := Some(rr), recomputed := true, nonCanonical := false,
      reason := NoReason)
  }

  method RecomputeLevelsFromFinalEntry(row: Row, rrDefault: real, t: Tightening) returns (out: Row)
    ensures row.finalEntry.None? ==>
              out == WithTarget(WithStop(row, None), None).(nonCanonical := true, recomputed := false,
                                                            reason := MissingFinalEntry)
    ensures row.finalEntry.Some? && !Positive(UsedRisk(row, row.finalEntry.value, t)) ==>
              out == WithTarget(WithStop(row, None), None).(nonCanonical := true, recomputed := false,
                                                            reason := InsufficientRiskContext)
    ensures row.finalEntry.Some? && Positive(UsedRisk(row, row.finalEntry.value, t)) ==>
              out == Recomputed(row, row.finalEntry.value, UsedRisk(row, row.finalEntry.value, t).value,
                                RewardRatio(row, rrDefault))
  {
    out := row;
    if row.finalEntry.None? {
      out := WithTarget(WithStop(out, None), None);
      out := out.(nonCanonical := true, recomputed := false, reason := MissingFinalEntry);
      return;
    }
    var entry := row.finalEntry.value;
    var risk := ReadRisk(row, entry);
    if t.enabled && row.isOption && row.side == Buy {
      var candidate := TightenedRisk(row, entry, t, risk);
      if candidate > 0.0 {
        risk := Some(candidate);
      }
    }
    assert risk == UsedRisk(row, entry, t);
    if risk.None? || risk.value <= 0.0 {
      out := WithTarget(WithStop(out, None), None);
      out := out.(nonCanonical := true, recomputed := false, reason := InsufficientRiskContext);
      return;
    }
    var rr := row.rrRatio;
    if rr.None? || rr.value <= 0.0 {
      rr := row.targetRr;
    }
    if rr.None? || rr.value <= 0.0 {
      rr := Some(rrDefault);
    }
    assert rr.value == RewardRatio(row, rrDefault);
    var stopValue := StopAt(row.side, entry, risk.value);
    var targetValue := TargetAt(row.side, entry, risk.value, rr.value);
    out := WithTarget(WithStop(out, Some(stopValue)), Some(targetValue));
    out := out.(capitalAtRisk := Some(Round2(risk.value)), targetRr := Some(rr.value), recomputed := true,
                nonCanonical := false, reason := NoReason);
  }

  method ReadRisk(row: Row, entry: real) returns (risk: Option<real>)
    ensures risk == ContextRisk(row, entry)
  {
    risk := row.capitalAtRisk;
    if risk.None? || risk.value <= 0.0 {
      var oldStop := row.stopLoss;
      if oldStop.None? {
        oldStop := row.stop;
      }
      if oldStop.Some? {
        risk := Some(AbsReal(entry - oldStop.value));
      }
    }
  }

  /** Each side of the quote is looked for under three names. */
  method OptionBidAskSpread(row: Row) returns (s: Option<real>)
    ensures s == Spread(row)
  {
    var bid := row.bestBid;
    if bid.None? { bid := row.bid; }
    if bid.None? { bid := row.optBid; }
    var ask := row.bestAsk;
    if ask.None? { ask := row.ask; }
    if ask.None? { ask := row.optAsk; }
    if bid.None? || ask.None? { return None; }
    var spread := ask.value - bid.value;
    if spread <= 0.0 { return None; }
    return Some(spread);
  }

  method TightenedRisk(row: Row, entry: real, t: Tightening, risk: Option<real>) returns (candidate: real)
    ensures candidate == MinReal(Floored(row, entry, t, risk), Cap(entry, t))
  {
    var spread := OptionBidAskSpread(row);
    var spreadFloor := if spread.Some? then Scaled(spread.value, t.spreadMult) else None;
    var maxRisk := Scaled(entry, t.maxPct);
    var minRisk := Scaled(entry, t.minPct);
    var minAbs := Scaled(1.0, t.minAbs);
    var maxAbs := Scaled(1.0, t.maxAbs);
    candidate := ClampRisk(if Positive(risk) then risk.value else 0.0,
                           minRisk, minAbs, spreadFloor, maxRisk, maxAbs, 0.99 * entry);
  }

  method ClampRisk(start: real, minRisk: Option<real>, minAbs: Option<real>, spreadFloor: Option<real>,
                   maxRisk: Option<real>, maxAbs: Option<real>, ceiling: real) returns (candidate: real)
    ensures candidate == MinReal(Raise(Raise(Raise(start, minRisk), minAbs), spreadFloor),
                                 Lower(Lower(ceiling, maxRisk), maxAbs))
  {
    candidate := start;
    if minRisk.Some? {
      candidate := MaxReal(candidate, minRisk.value);
    }
    if minAbs.Some? {
      candidate := MaxReal(candidate, minAbs.value);
    }
    if spreadFloor.Some? {
      candidate := MaxReal(candidate, spreadFloor.value);
    }
    if maxRisk.Some? {
      candidate := MinReal(candidate, maxRisk.value);
    }
    if maxAbs.Some? {
      candidate := MinReal(candidate, maxAbs.value);
    }
    candidate := MinReal(candidate, ceiling);
  }

  datatype Verdict = Fine | LevelsMissing | BuyOrderBroken | SellOrderBroken

  /** Stop, entry and target strictly ordered for their side. */
  function CheckLevels(side: Side, entry: Option<real>, stop: Option<real>, target: Option<real>): (v: Verdict)
    ensures v == Fine <==>
              && entry.Some? && stop.Some? && target.Some?
              && (if side == Sell then target.value < entry.value < stop.value
                  else stop.value < entry.value < target.value)
  {
    if entry.None? || stop.None? || target.None? then LevelsMissing
    else if side == Sell then
      if target.value < entry.value < stop.value then Fine else SellOrderBroken
    else if stop.value < entry.value < target.value then Fine else BuyOrderBroken
  }

  function ValidatePriceLevelInvariants(row: Row): Verdict {
    if row.kind != CanonicalSuggestion then Fine
    else CheckLevels(row.side, row.entry, if row.stopLoss.Some? then row.stopLoss else row.stop, row.target)
  }

  // ---------------------------------------------------------------- when rounding keeps the order

  /** The greatest whole cent strictly below a price, and the least one strictly above it. */
  function CentBelow(price: real): int { -(-(price * 100.0)).Floor - 1 }

  function CentAbove(price: real): int { (price * 100.0).Floor + 1 }

  /** Going down (up) by `gap` gets past the midpoint that rounds to the neighbouring cent. */
  predicate GapReachesBelow(entry: real, gap: real) {
    var c := CentBelow(entry);
    (entry - gap) * 100.0 < c as real + 0.5 || ((entry - gap) * 100.0 == c as real + 0.5 && c % 2 == 0)
  }

  predicate GapReachesAbove(entry: real, gap: real) {
    var c := CentAbove(entry);
    (entry + gap) * 100.0 > c as real - 0.5 || ((entry + gap) * 100.0 == c as real - 0.5 && c % 2 == 0)
  }

  lemma Round2BelowIff(entry: real, gap: real)
    ensures Round2(entry - gap) < entry <==> GapReachesBelow(entry, gap)
  {
    HalfEvenAtMost((entry - gap) * 100.0, CentBelow(entry));
  }

  lemma Round2AboveIff(entry: real, gap: real)
    ensures Round2(entry + gap) > entry <==> GapReachesAbove(entry, gap)
  {
    HalfEvenAtLeast((entry + gap) * 100.0, CentAbove(entry));
  }

  /**
   Recomputed levels pass the canonical check exactly when risk and reward are each large
   enough to round to another cent on their side of the entry.
   */
  lemma RecomputedPassesIff(row: Row, entry: real, risk: real, rr: real)
    ensures ValidatePriceLevelInvariants(Recomputed(row, entry, risk, rr).(kind := CanonicalSuggestion,
                                                                           entry := Some(entry))) == Fine
        <==> if row.side == Sell then GapReachesAbove(entry, risk) && GapReachesBelow(entry, risk * rr)
             else GapReachesBelow(entry, risk) && GapReachesAbove(entry, risk * rr)
  {
    var reward := risk * rr;
    Round2BelowIff(entry, risk);
    Round2AboveIff(entry, risk);
    Round2BelowIff(entry, reward);
    Round2AboveIff(entry, reward);
  }

  lemma HalfCentReaches(entry: real, gap: real)
    requires gap > 0.005
    ensures GapReachesBelow(entry, gap) && GapReachesAbove(entry, gap)
  {
  }

  /** More than half a cent of risk and of reward is always enough. */
  lemma RecomputedPasses(row: Row, entry: real, risk: real, rr: real)
    requires risk > 0.005 && risk * rr > 0.005
    ensures ValidatePriceLevelInvariants(Recomputed(row, entry, risk, rr).(kind := CanonicalSuggestion,
                                                                           entry := Some(entry))) == Fine
  {
    RecomputedPassesIff(row, entry, risk, rr);
    HalfCentReaches(entry, risk);
    HalfCentReaches(entry, risk * rr);
  }

  /** Half a cent exactly is not enough at a whole even price: the stop rounds back onto the entry. */
  lemma HalfCentRiskCanFail(row: Row, rr: real)
    requires row.side == Buy
    ensures ValidatePriceLevelInvariants(Recomputed(row, 100.0, 0.005, rr).(kind := CanonicalSuggestion,
                                                                            entry := Some(100.0))) == BuyOrderBroken
  {
    assert CentBelow(100.0) == 9999;
    Round2BelowIff(100.0, 0.005);
  }

  // ---------------------------------------------------------------- tightened option stops

  lemma CapIsPositive(entry: real, t: Tightening)
    requires entry > 0.0
    ensures Cap(entry, t) > 0.0
  {
    if Positive(t.maxPct) {
      assert entry * t.maxPct.value > 0.0;
    }
  }

  predicate NotBelow(x: real, floor: Option<real>) { floor.Some? ==> floor.value <= x }

  predicate NotAbove(x: real, cap: Option<real>) { cap.Some? ==> x <= cap.value }

  predicate WithinCaps(entry: real, t: Tightening, risk: real) {
    risk <= 0.99 * entry && NotAbove(risk, Scaled(entry, t.maxPct)) && NotAbove(risk, Scaled(1.0, t.maxAbs))
  }

  predicate AboveFloors(row: Row, entry: real, t: Tightening, risk: real) {
    && NotBelow(risk, ContextRisk(row, entry))
    && NotBelow(risk, Scaled(entry, t.minPct))
    && NotBelow(risk, Scaled(1.0, t.minAbs))
    && NotBelow(risk, SpreadFloor(row, t))
  }

  lemma RaiseChain(start: real, a: Option<real>, b: Option<real>, c: Option<real>)
    ensures var x := Raise(Raise(Raise(start, a), b), c);
            start <= x && NotBelow(x, a) && NotBelow(x, b) && NotBelow(x, c)
  {
  }

  lemma CapIsWithinCaps(entry: real, t: Tightening)
    ensures WithinCaps(entry, t, Cap(entry, t))
  {
  }

  lemma FlooredIsAboveFloors(row: Row, entry: real, t: Tightening)
    ensures AboveFloors(row, entry, t, Floored(row, entry, t, ContextRisk(row, entry)))
  {
    var risk := ContextRisk(row, entry);
    RaiseChain(if Positive(risk) then risk.value else 0.0,
               Scaled(entry, t.minPct), Scaled(1.0, t.minAbs), SpreadFloor(row, t));
  }

  lemma UsedRiskIsClamped(row: Row, entry: real, t: Tightening)
    requires Tightens(row, t) && entry > 0.0 && Positive(UsedRisk(row, entry, t))
    ensures UsedRisk(row, entry, t).value == MinReal(Floored(row, entry, t, ContextRisk(row, entry)), Cap(entry, t))
  {
    CapIsPositive(entry, t);
    FlooredIsAboveFloors(row, entry, t);
  }

  /**
   For a positive entry the risk of a tightened stop obeys every cap, and every floor too
   unless it already sits at the lowest cap.
   */
  lemma TightenedRiskObeysCaps(row: Row, entry: real, t: Tightening)
    requires Tightens(row, t) && entry > 0.0 && Positive(UsedRisk(row, entry, t))
    ensures var risk := UsedRisk(row, entry, t).value;
            WithinCaps(entry, t, risk) && (risk == Cap(entry, t) || AboveFloors(row, entry, t, risk))
  {
    UsedRiskIsClamped(row, entry, t);
    CapIsWithinCaps(entry, t);
    FlooredIsAboveFloors(row, entry, t);
  }

  /** So the stop of a tightened option keeps at least 1% of its entry, and is never negative. */
  lemma TightenedStopKeepsOnePercent(row: Row, entry: real, t: Tightening)
    requires Tightens(row, t) && entry > 0.0 && Positive(UsedRisk(row, entry, t))
    ensures StopAt(Buy, entry, UsedRisk(row, entry, t).value) >= Round2(0.01 * entry) >= 0.0
  {
    TightenedRiskObeysCaps(row, entry, t);
    RoundToMonotone(0.01 * entry, entry - UsedRisk(row, entry, t).value, 100.0);
    RoundToMonotone(0.0, 0.01 * entry, 100.0);
  }

  // ---------------------------------------------------------------- what the levels come from

  /** The risk a row brings along: its capital at risk if positive, else the distance from the old stop. */
  lemma ContextRiskIs(row: Row, entry: real)
    ensures row.capitalAtRisk.Some? && row.capitalAtRisk.value > 0.0 ==> ContextRisk(row, entry) == row.capitalAtRisk
    ensures !(row.capitalAtRisk.Some? && row.capitalAtRisk.value > 0.0) ==>
              && (row.stopLoss.Some? ==>
                    ContextRisk(row, entry) == Some(if entry < row.stopLoss.value then row.stopLoss.value - entry
                                                    else entry - row.stopLoss.value))
              && (row.stopLoss.None? && row.stop.Some? ==>
                    ContextRisk(row, entry) == Some(if entry < row.stop.value then row.stop.value - entry
                                                    else entry - row.stop.value))
              && (row.stopLoss.None? && row.stop.None? ==> ContextRisk(row, entry) == row.capitalAtRisk)
  {
  }

  /** Tightening is for bought options at a positive entry, and only when it is switched on. */
  lemma UntightenedRiskIs(row: Row, entry: real, t: Tightening)
    requires !t.enabled || !row.isOption || row.side != Buy || entry <= 0.0
    ensures UsedRisk(row, entry, t) == ContextRisk(row, entry)
  {
    if Positive(t.maxPct) && entry <= 0.0 { assert Cap(entry, t) <= 0.0; }
  }

  /** The quote's spread: the first ask found less the first bid found. */
  function QuotedSpread(row: Row): real {
    var bid := if row.bestBid.Some? then row.bestBid else if row.bid.Some? then row.bid else row.optBid;
    var ask := if row.bestAsk.Some? then row.bestAsk else if row.ask.Some? then row.ask else row.optAsk;
    if bid.Some? && ask.Some? then ask.value - bid.value else 0.0
  }

  /** The positive amount that a setting asks for, or zero when it asks for nothing. */
  function Asked(amount: real, setting: Option<real>): real {
    if setting.Some? && setting.value > 0.0 then amount * setting.value else 0.0
  }

  /** The largest amount that calls for a wider stop. */
  function LeastWanted(row: Row, entry: real, t: Tightening): (least: real)
    ensures least >= 0.0
  {
    var risk := ContextRisk(row, entry);
    var spread := if QuotedSpread(row) > 0.0 then Asked(QuotedSpread(row), t.spreadMult) else 0.0;
    MaxReal(MaxReal(if risk.Some? then risk.value else 0.0, 0.0),
            MaxReal(MaxReal(Asked(entry, t.minPct), Asked(1.0, t.minAbs)), spread))
  }

  /**
   The tightened risk is the largest of the amounts that want a wider stop, cut to the
   smallest of those that want a narrower one; there is none exactly when nothing wants any.
   */
  lemma TightenedRiskIs(row: Row, entry: real, t: Tightening)
    requires t.enabled && row.isOption && row.side == Buy && entry > 0.0
    ensures Positive(UsedRisk(row, entry, t)) <==> LeastWanted(row, entry, t) > 0.0
    ensures LeastWanted(row, entry, t) > 0.0 ==>
              var used, most := UsedRisk(row, entry, t).value, 0.99 * entry;
              && used <= LeastWanted(row, entry, t) && used <= most
              && (t.maxPct.Some? && t.maxPct.value > 0.0 ==> used <= entry * t.maxPct.value)
              && (t.maxAbs.Some? && t.maxAbs.value > 0.0 ==> used <= t.maxAbs.value)
              && (used == LeastWanted(row, entry, t) || used == most
                  || (t.maxPct.Some? && t.maxPct.value > 0.0 && used == entry * t.maxPct.value)
                  || (t.maxAbs.Some? && t.maxAbs.value > 0.0 && used == t.maxAbs.value))
  {
    hide Floored, LeastWanted, ContextRisk, Cap;
    TightenedIsMin(row, entry, t);
    CapIs(entry, t);
  }

  lemma TightenedIsMin(row: Row, entry: real, t: Tightening)
    requires t.enabled && row.isOption && row.side == Buy && entry > 0.0
    ensures Positive(UsedRisk(row, entry, t)) <==> LeastWanted(row, entry, t) > 0.0
    ensures LeastWanted(row, entry, t) > 0.0 ==>
              UsedRisk(row, entry, t) == Some(MinReal(LeastWanted(row, entry, t), Cap(entry, t)))
  {
    hide Floored, LeastWanted, ContextRisk, Cap;
    CapIsPositive(entry, t);
    FlooredIsLeastWanted(row, entry, t);
    ContextRiskIsWanted(row, entry, t);
  }

  lemma CapIs(entry: real, t: Tightening)
    ensures var cap := Cap(entry, t);
            && cap <= 0.99 * entry
            && (t.maxPct.Some? && t.maxPct.value > 0.0 ==> cap <= entry * t.maxPct.value)
            && (t.maxAbs.Some? && t.maxAbs.value > 0.0 ==> cap <= t.maxAbs.value)
            && (cap == 0.99 * entry
                || (t.maxPct.Some? && t.maxPct.value > 0.0 && cap == entry * t.maxPct.value)
                || (t.maxAbs.Some? && t.maxAbs.value > 0.0 && cap == t.maxAbs.value))
  {
  }

  lemma FlooredIsLeastWanted(row: Row, entry: real, t: Tightening)
    requires entry > 0.0
    ensures Floored(row, entry, t, ContextRisk(row, entry)) == LeastWanted(row, entry, t)
  {
    hide ContextRisk;
    assert Spread(row).Some? <==> QuotedSpread(row) > 0.0;
    assert Spread(row).Some? ==> Spread(row).value == QuotedSpread(row);
    hide Spread, QuotedSpread;
    assert Positive(t.minPct) ==> entry * t.minPct.value >= 0.0;
    assert Spread(row).Some? && Positive(t.spreadMult) ==> Spread(row).value * t.spreadMult.value >= 0.0;
  }

  lemma ContextRiskIsWanted(row: Row, entry: real, t: Tightening)
    ensures Positive(ContextRisk(row, entry)) ==> LeastWanted(row, entry, t) > 0.0
  {
    hide ContextRisk;
  }

  /** The reward is the row's own ratio if positive, else its target's, else the default. */
  lemma RewardRatioIs(row: Row, rrDefault: real)
    ensures row.rrRatio.Some? && row.rrRatio.value > 0.0 ==> RewardRatio(row, rrDefault) == row.rrRatio.value
    ensures !(row.rrRatio.Some? && row.rrRatio.value > 0.0) && row.targetRr.Some? && row.targetRr.value > 0.0 ==>
              RewardRatio(row, rrDefault) == row.targetRr.value
    ensures !(row.rrRatio.Some? && row.rrRatio.value > 0.0) && !(row.targetRr.Some? && row.targetRr.value > 0.0) ==>
              RewardRatio(row, rrDefault) == rrDefault
  {
  }

  /** Every field of a recomputed row. */
  lemma RecomputedIs(row: Row, entry: real, risk: real, rr: real)
    ensures var stop := Some(Round2(if row.side == Sell then entry + risk else entry - risk));
            var target := Some(Round2(if row.side == Sell then entry - risk * rr else entry + risk * rr));
            Recomputed(row, entry, risk, rr)
            == row.(stop := stop, stopLoss := stop, stopPrice := stop, originalStop := stop, currentStop := stop,
                    target := target, targetPrice := target, capitalAtRisk := Some(Round2(risk)),
                    targetRr := Some(rr), recomputed := true, nonCanonical := false, reason := NoReason)
    ensures WithTarget(WithStop(row, None), None)
         == row.(stop := None, stopLoss := None, stopPrice := None, originalStop := None, currentStop := None,
                 target := None, targetPrice := None)
  {
    hide Round2;
  }

  /** A canonical row is fine exactly when its stop (the stop loss, if given), entry and target are in order. */
  lemma ValidIs(row: Row)
    ensures var stop := if row.stopLoss.Some? then row.stopLoss else row.stop;
            ValidatePriceLevelInvariants(row) == Fine <==>
              row.kind == CanonicalSuggestion ==>
                && row.entry.Some? && stop.Some? && row.target.Some?
                && if row.side == Sell then row.target.value < row.entry.value < stop.value
                   else stop.value < row.entry.value < row.target.value
    ensures ValidatePriceLevelInvariants(row) == SellOrderBroken ==> row.side == Sell
    ensures ValidatePriceLevelInvariants(row) == BuyOrderBroken ==> row.side != Sell
    ensures ValidatePriceLevelInvariants(row) == LevelsMissing ==>
              row.entry.None? || row.target.None? || (row.stopLoss.None? && row.stop.None?)
  {
  }
}
