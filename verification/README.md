# Verified models of the trading desk's safety-critical cores

This project models, in Dafny, the parts of the desk whose mistakes cost most, and proves what they are
there to guarantee.

* **Order approvals** (`OrderApproval`, `ApprovalCalls`, `ApprovalStore`, `RacingCreates`). Rows keyed by the hash of
  an order intent are created, approved, rejected, armed and consumed by atomic transactions. `Transition` is one
  transaction, `Run` a whole history by any actors with any clock readings; the class `Store` works on the table in
  place, retries while the database is locked, and is proved to be one transition of `Run` per call, whatever other
  connections commit while it sleeps. The history of commits determines every column of every row; nothing rejected,
  expired or consumed is ever approved again without being created anew; and a consumption succeeds exactly when
  everything that happened to the hash since its creation authorises it. `ApprovalCalls` says the same, and when every
  other call succeeds, in terms of the calls and their arguments alone. Creation alone reads and writes without a lock;
  `RacingCreates` takes it apart and says exactly what the race can do.
* **Adaptive pricing and levels** (`Rounding`, `TickRounding`, `AdaptivePricing`, `PricingTheorems`, `PricingSettings`,
  `PriceLevels`). Exact reals with explicit half-to-even rounding. Monotonicity goes through the book-depth loop,
  clamps, guard and tick; a ladder of retries that feeds its own limits back only ever moves one way.
  `PricingSettings` says what each setting adds to a price, in its own unit.
* **Statistics** (`Sums`, `Drawdown`, `KolmogorovSmirnov`, `Calibration`). Three short loops proved equal to, or
  bounded by, what they are meant to measure.
* **Audit log** (`AuditLog`, `AuditLogTheorems`, `RacingAppends`). A hash chain appended through a bounded tail read
  and checked by a full scan, by one writer or by racing ones. JSON and SHA-256 (FIPS 180-4, section 6.2) enter as
  functions about which each theorem names the laws it needs; bytes and characters coincide because the JSON encoder
  writes ASCII.
* **Advisory rows** (`AdvisoryRow`). The enforcement of the executable-entry invariant, for every behaviour of the
  recovery helpers, with the exact condition under which a claim to be executable survives.
* **Agent governance** (`Workflow`, `AgentWork`, `AgentWorkTheorems`, `AgentTaskStore`, `AgentTaskCalls`,
  `ChangedFiles`, `Text`). The workflow replay, the scope guard, the write-once task and decision files with their
  index, and the changed-file audit.
* **Contract resolution** (`BrokerResolver`, `ResolutionHealth`). Exact strike or nearest fallback, readiness records
  and the health panel over a batch.

Findings where the code does not do what one would expect, each with its exact condition and a concrete input:

* A consumed approval can be consumed again, exactly when a creation of the same hash read the row before the
  consumption and wrote it afterwards (`RacingCreates.ConsumableAgainIff`, `RacingCreates.DoubleConsumption`).
* An audit log written by appends alone does *not* always verify: it does exactly when every line but the last
  is, with its newline, at most 16384 bytes. After a longer line the next append starts a new chain
  (`AuditLogTheorems.AppendedVerifiesIff`, `AuditLogTheorems.OverlongNoteBreaksTheLog`).
* Appends read the tail and write the line without a lock. Short of a hash collision within the log itself, a log
  with several writers verifies exactly when, besides, no append straddles a line that another one writes
  (`RacingAppends.RacedVerifiesIff`, `RacingAppends.ForkedAppends`).
* A risk of exactly half a cent can round the stop onto the entry (`PriceLevels.HalfCentRiskCanFail`);
  `PriceLevels.RecomputedPassesIff` says exactly when recomputed levels stay ordered.
* Normalising a changed-file path is not idempotent, and the audit normalises each path twice: `./ /x` passes the
  first time and raises the second (`ChangedFiles.SecondNormalizationCanFail`); `ChangedFiles.NormalizingTwiceIff`
  says when the second pass changes a path and `ChangedFiles.SecondPassRefusesIff` when it refuses it.
* A contract resolved exactly is still reported as mismatched exactly when its listed expiry is a date, as the broker
  client delivers it (core/kite_client.py:478-483), or its listed expiry, type or exchange carries stray space
  (`ResolutionHealth.ExactMismatchIffUntidy`, `ResolutionHealth.DatedExpiryIsFlagged`,
  `ResolutionHealth.SpacedExpiryIsFlagged`).
* The scope guard's path prefixes without a slash at their end also cover paths that merely continue their last
  segment: `core/risk` covers `core/riskless.py` (`AgentWork.GuardIsWiderThanSegments`,
  `AgentWork.RiskPrefixCoversRiskless`). The changed-file audit does match by segments
  (`ChangedFiles.MatchesIffSegmentPrefix`).
* The scope guard compares text and resolves neither `.` nor `..`. A path is seen by every list that holds a directory
  it leads to or into exactly when resolving it only cuts pieces off its end (`AgentWork.SeenWhereverItLeadsIff`);
  such a path is refused wherever it leads into a forbidden directory (`AgentWork.StraightForbiddenIsRefused`).
  `docs/../broker_contract/resolver.py` is approved for a patch without a human (`AgentWork.TraversalEscapesTheGuard`).
* A task's id does not depend on its allowed and forbidden paths, so resubmitting a request under other bounds is a
  conflict and leaves the stored task alone (`AgentTaskStore.ConflictIff`, `AgentTaskStore.OtherBoundsConflict`).
* Tick rounding leaves an already rounded price alone for every tick size, not only for multiples of 1e-6
  (`TickRounding.RoundToTickIdempotent`), so the retry ladder needs no assumption about the tick.

## Model

| member | source | states |
|---|---|---|
| `OrderApproval.TableAgreesWithHistory` | core/approval_store.py:330-948 | in every run each column of each row is what the latest commit that touches it wrote, and a hash has a row exactly when some commit is about it |
| `OrderApproval.UsedAbsorbs` | core/approval_store.py:330-948 | no operation changes a USED row, and none about its hash succeeds |
| `OrderApproval.UsedIsForever` | core/approval_store.py:330-948 | once a row is USED it is frozen for the rest of any run |
| `OrderApproval.ConsumedAtMostOnce` | core/approval_store.py:685-948 | after a successful consumption of a hash, no later call about it in the run succeeds, so none consumes it again |
| `OrderApproval.RunsNeverRevive` | core/approval_store.py:330-948 | in every run a rejected, expired or consumed hash is created anew before any approval of it |
| `OrderApproval.LiveHistoryIsClean` | core/approval_store.py:330-822 | while the last word on the status is pending or approved, nothing since the latest creation rejected, expired or consumed the hash, and the status is approved exactly when the creation or a later commit approved it |
| `OrderApproval.ConsumeSucceedsIff` | core/approval_store.py:722-822 | after any run a consumption succeeds if and only if the history of commits holds some creation that has not expired, nothing since it rejected, expired, consumed or recreated the hash, it approved the hash or an approval followed, and (when required) an arm after it is the last word on arming and its recorded time has not passed; `ApprovalCalls.SucceedsIff` says so of the calls |
| `OrderApproval.ArmSucceedsIff` | core/approval_store.py:562-670 | after any run arming succeeds if and only if the history authorises a consumption that needs no arming |
| `OrderApproval.ApproveSucceedsIff` | core/approval_store.py:330-387 | after any run approving succeeds if and only if some creation as pending or approved has not expired and nothing since it rejected, expired, consumed or recreated the hash |
| `OrderApproval.ConsumableIsAuthorised` | core/approval_store.py:722-822 | a row that lets a consumption through is authorised by everything committed since its creation, given that nothing was ever revived |
| `OrderApproval.AuthorisedIsConsumable` | core/approval_store.py:722-822 | a history that authorises a consumption comes with a row that lets it through |
| `OrderApproval.ReachableRowsAreWellKept` | core/approval_store.py:579-682 | in every reachable table an arming never outlives its approval, PENDING and USED rows are never armed, only USED rows have a use time, APPROVED rows have an approval time |
| `OrderApproval.TransitionKeepsRows` | core/approval_store.py:455-948 | each single transaction keeps that row invariant |
| `ApprovalCalls.SucceedsIff` | core/approval_store.py:284-948 | after any run each of the six calls succeeds if and only if the earlier calls call for it: a consumption when a creation as pending or approved, good until the time it asked for, was approved and not ended since, and (when required) the last change to the arming is an arm whose requested time has not passed |
| `ApprovalCalls.RowsMirrorCalls` | core/approval_store.py:284-948 | after any run a row is there, used, pending, approved, good until and armed until exactly what the calls about its hash amount to |
| `ApprovalCalls.ArmedWindow` | core/approval_store.py:637-814 | an arm that nothing about its hash follows lets through exactly the consumptions within the time it was given and the time the creation was given |
| `ApprovalCalls.RowAfterSuccess` | core/approval_store.py:284-948 | what each successful call found and every column it leaves |
| `ApprovalCalls.RowAfterRefusal` | core/approval_store.py:330-814 | a refusal leaves at most an expiry or a disarming, each exactly when its time has passed |
| `ApprovalCalls.RefusedBecause` | core/approval_store.py:284-948 | what each refusal code says about the call and the row it met |
| `ApprovalCalls.AnswerOfSuccess` | core/approval_store.py:284-948 | the code with which each call succeeds |
| `ApprovalStore.Store.constructor` | core/approval_store.py:76-171 | an empty table and an empty history |
| `ApprovalStore.Store.CreateOrderApproval` | core/approval_store.py:423-523 | the upsert is one transition: refused for a missing hash, an unknown status or a USED row; otherwise every column is reset, the approval time set only for APPROVED |
| `ApprovalStore.Store.CreateProposal` | core/approval_store.py:284-327 | succeeds exactly for a non-empty hash whose row is not USED, and then the row is PENDING until the given time |
| `ApprovalStore.Store.ApproveIntent` | core/approval_store.py:330-387 | one transition, in which an approval past its expiry becomes EXPIRED; a fault before commit leaves the store as it was |
| `ApprovalStore.Store.RejectIntent` | core/approval_store.py:390-420 | one transition, refused only for a missing or USED row; a fault before commit leaves the store as it was |
| `ApprovalStore.Store.TryArm` | core/approval_store.py:582-668 | one BEGIN IMMEDIATE attempt is one transition: it succeeds exactly on an approved, unexpired row, which is then armed until the time asked for or its expiry, whichever is earlier; its conditional UPDATE always finds its row |
| `ApprovalStore.Store.ArmOrderIntent` | core/approval_store.py:562-682 | whatever faults hit the attempts, the call takes effect once, right after what other connections did, or not at all; on success the row is armed for the time the caller asked for, within its expiry; the race-lost code is unreachable |
| `ApprovalStore.RetriedStepwise` | core/approval_store.py:579-682 | what the retry loop does, attempt by attempt: no fault takes effect, another error ends it without one, a lock lets the others work and tries again |
| `ApprovalStore.Store.TryConsume` | core/approval_store.py:707-820 | one attempt is one transition: it succeeds exactly on an approved, unexpired row that is armed where it must be, and leaves it USED; its conditional UPDATE always finds its row |
| `ApprovalStore.Store.ConsumeValidApproval` | core/approval_store.py:685-834 | the same for consumption: at most one effect, none when every attempt was locked, never race-lost; success leaves the row USED at that time |
| `ApprovalStore.Store.TryApproveAndConsume` | core/approval_store.py:859-934 | the two writes of one transaction are one transition to USED that keeps an earlier approval time |
| `ApprovalStore.Store.ApproveAndConsumeOrderIntent` | core/approval_store.py:837-948 | the same for approving and consuming at once |
| `ApprovalStore.Store.Sleep` | core/approval_store.py:671-681 | while a locked attempt waits, others may commit any operations and the store stays a run |
| `RacingCreates.ReadThenWriteIsAtomic` | core/approval_store.py:453-515 | a creation whose write follows its read at once is the one-step creation |
| `RacingCreates.AtomicRunsAreRuns` | core/approval_store.py:423-948 | runs in which every creation is one step are the runs of the transaction model |
| `RacingCreates.UsedUntilStraddled` | core/approval_store.py:453-515 | from a write of USED on the row stays USED and no creation of its hash can start, until a creation that had read before it writes |
| `RacingCreates.UsedSurvivesIff` | core/approval_store.py:453-515 | after the last write of USED the row is still USED if and only if no creation straddles that write |
| `RacingCreates.ConsumableAgainIff` | core/approval_store.py:453-948 | a consumed hash can be approved and consumed again if and only if a creation read it before its last write of USED and wrote it after |
| `RacingCreates.TwiceConsumedIsStraddled` | core/approval_store.py:453-948 | between two consumptions of one hash, in any interleaving, some write of USED is straddled by a creation |
| `RacingCreates.DoubleConsumption` | core/approval_store.py:453-948 | a run of four events in which one hash is consumed twice |
| `Rounding.HalfEvenNearest` | core/adaptive_pricing.py:71-76 | rounding returns the only integer closer than one half |
| `Rounding.HalfEvenMonotone` | core/adaptive_pricing.py:71-76 | rounding half to even is monotone |
| `Rounding.HalfEvenAtMost` | core/advisory_row_integrity.py:174-179 | exactly when the rounded value is at most a given integer, ties included |
| `Rounding.RoundToMonotone` | core/adaptive_pricing.py:71-76 | rounding to a number of decimals is monotone |
| `Rounding.RoundToWithin` | core/adaptive_pricing.py:71-76 | it moves a value by at most half a unit of the last decimal |
| `Rounding.RoundToNearest` | core/adaptive_pricing.py:71-76 | a decimal closer than half a unit is the result |
| `Rounding.DecimalsAre` | core/adaptive_pricing.py:71-76 | two decimals are whole cents within half a cent, six are whole millionths |
| `TickRounding.RoundToTickMonotone` | core/adaptive_pricing.py:71-76 | rounding to the tick and then to six decimals is monotone |
| `TickRounding.RoundToTickWithin` | core/adaptive_pricing.py:71-76 | it moves a price by at most half a tick plus half the sixth decimal |
| `TickRounding.RoundToTickIdempotent` | core/adaptive_pricing.py:71-76 | a rounded price is left alone, for every tick size |
| `AdaptivePricing.EstimateQueueDepthConsumption` | core/adaptive_pricing.py:79-118 | the loop returns the capped ratio of the quantity to the summed top levels of the opposite book, the sum itself and the queue-ahead ratio; nothing for an empty book |
| `AdaptivePricing.StepAndGuard` | core/adaptive_pricing.py:227-250 | the retry step takes the bolder price and the guard the meeker one; the guard is hit exactly when it changed the price |
| `AdaptivePricing.ComputeAdaptiveLimitPrice` | core/adaptive_pricing.py:153-255 | computes `LimitPrice` with the right refusal for a bad side, a bad quote or a non-positive limit, and reports the guard exactly when it changed the price |
| `PricingTheorems.QueueConsumptionMonotone` | core/adaptive_pricing.py:111-116 | consumption grows with the quantity, through the clamp and the rounding |
| `PricingTheorems.UrgencyMonotone` | core/adaptive_pricing.py:121-131 | urgency grows with signal strength and retry index |
| `PricingTheorems.TimeDecayMonotone` | core/adaptive_pricing.py:134-150 | the convex time curve grows with elapsed time and retry index |
| `PricingTheorems.TotalBufferMonotone` | core/adaptive_pricing.py:198-220 | the sum of all buffers grows when the order presses harder |
| `PricingTheorems.RawLimitMonotone` | core/adaptive_pricing.py:222-250 | so does the price after stepping and guarding |
| `PricingTheorems.LimitPriceMonotone` | core/adaptive_pricing.py:153-255 | more quantity, elapsed time, signal strength or retries never make a defined limit less aggressive, and say when it stays defined |
| `PricingTheorems.LimitPriceBound` | core/adaptive_pricing.py:198-252 | the raw price lies between the touch and the touch moved by the allowed basis points, and the limit within half a tick and half the sixth decimal of it |
| `PricingTheorems.LimitWithinGuard` | core/adaptive_pricing.py:237-252 | no limit passes the touch moved by the allowed basis points and rounded to the tick |
| `PricingTheorems.GuardPriceIs` | core/adaptive_pricing.py:237-250 | the guard is the touch moved by the allowed basis points, each a ten-thousandth, and is absent without an allowance |
| `PricingTheorems.ReliefIsLean` | core/adaptive_pricing.py:206-215 | what a leaning book takes off the buffer is the lean in our direction, between nothing and one, priced in basis points, for both sides |
| `PricingTheorems.RougherMarketMonotone` | core/adaptive_pricing.py:198-252 | a wider spread, more volatility or a book leaning less our way never make the price less aggressive, before or after rounding |
| `PricingTheorems.OwnBookIsIgnored` | core/adaptive_pricing.py:92-118 | the limit depends only on the side of the book one trades against |
| `PricingTheorems.NoStepIgnoresCurrentLimit` | core/adaptive_pricing.py:227-235 | without a retry step, or on the first attempt, the previous limit does not matter |
| `AdaptivePricing.SpreadPct` | core/adaptive_pricing.py:165-172 | the derived spread times the mid price is the distance between ask and bid |
| `PricingTheorems.Rung` | core/adaptive_pricing.py:227-252 | feeding a limit back into the next attempt never gives a less aggressive one |
| `PricingTheorems.LadderIsOneWay` | core/adaptive_pricing.py:227-252 | over a whole ladder of retries at one quote a buyer's limits never fall, a seller's never rise, and none passes the rounded guard |
| `PricingSettings.NothingSetIsTouch` | core/adaptive_pricing.py:198-224 | with every setting at zero the price is the touch |
| `PricingSettings.MoreBaseSlippage` | core/adaptive_pricing.py:198-224 | x more basis points of base slippage move the unguarded price by touch times x ten-thousandths |
| `PricingSettings.MoreVolatility` | core/adaptive_pricing.py:175-224 | x more volatility basis points move it by the size of the score times as much |
| `PricingSettings.MoreRange` | core/adaptive_pricing.py:176-224 | x more per unit of the range ratio move it by that share of the touch |
| `PricingSettings.MoreQueue` | core/adaptive_pricing.py:178-224 | x more queue basis points move it by the consumption of an order of at least one times as much |
| `PricingSettings.MoreUrgency` | core/adaptive_pricing.py:187-224 | x more urgency basis points move it by the urgency score times as much |
| `PricingSettings.MoreDecay` | core/adaptive_pricing.py:192-224 | x more decay basis points move it by the time-decay score times as much |
| `PricingSettings.MoreSpread` | core/adaptive_pricing.py:199-224 | x more of the spread factor move it by that much of the spread, up to the cap |
| `PricingSettings.SpreadIsCapped` | core/adaptive_pricing.py:199-202 | past its cap the spread adds the cap, whatever the factor |
| `PricingSettings.MoreRelief` | core/adaptive_pricing.py:206-224 | x more relief basis points move it back by the lean our way, at most one, times as much |
| `PricingSettings.NegativeSettingsAreZero` | core/adaptive_pricing.py:198-237 | a negative setting counts as zero, and fewer than one book level as one |
| `PricingSettings.StepIs` | core/adaptive_pricing.py:227-235 | a retry takes the more aggressive of the new price and the previous limit moved by the step |
| `PricingSettings.GuardIs` | core/adaptive_pricing.py:237-250 | the raw price is the unguarded one cut at the guard |
| `PricingSettings.LimitIs` | core/adaptive_pricing.py:149-156 | a limit is returned if and only if side and quote are usable and the rounded price is positive, and is that price |
| `PricingSettings.RoundToTickIs` | core/adaptive_pricing.py:71-76 | a rounded price is, to six decimals, the nearest whole number of ticks, or of cents without a tick |
| `PricingSettings.SpreadPctIs` | core/adaptive_pricing.py:169-172 | the spread is the one given if positive, or twice the difference of ask and bid over their sum |
| `PricingSettings.UrgencyIs` | core/adaptive_pricing.py:121-131 | three quarters signal and one quarter retries |
| `PricingSettings.UrgencySaturates` | core/adaptive_pricing.py:121-131 | beyond its range a signal or retry count is as good as the end of the range, and a missing signal is one half |
| `PricingSettings.TimeDecayIs` | core/adaptive_pricing.py:134-151 | the square of the elapsed share of the timeout, or of the retries when there is none, and at most one |
| `PricingSettings.QueueConsumptionIs` | core/adaptive_pricing.py:79-118 | the share of the readable, positive quantities of the first levels, at least one of them, of the opposite side, at most ten and to six decimals |
| `PriceLevels.RecomputeLevelsFromFinalEntry` | core/advisory_row_integrity.py:101-188 | without a final entry or a usable risk the row is marked non-canonical with the reason; otherwise stop and target are the rounded levels at the used risk and reward |
| `PriceLevels.OptionBidAskSpread` | core/advisory_row_integrity.py:37-53 | the positive distance from the first bid to the first ask, each looked for under three names |
| `PriceLevels.TightenedRisk` | core/advisory_row_integrity.py:132-158 | the risk after the floors and then the caps |
| `PriceLevels.CheckLevels` | core/advisory_row_integrity.py:205-215 | passes exactly when stop, entry and target are present and strictly ordered for their side |
| `PriceLevels.Round2BelowIff` | core/advisory_row_integrity.py:174-179 | exactly when a rounded stop stays below the entry: the gap reaches past the rounding boundary of the next lower cent |
| `PriceLevels.Round2AboveIff` | core/advisory_row_integrity.py:174-179 | the mirror image above the entry |
| `PriceLevels.RecomputedPassesIff` | core/advisory_row_integrity.py:174-215 | recomputed canonical levels pass the ordering check if and only if risk and reward both reach another cent on their side |
| `PriceLevels.RecomputedPasses` | core/advisory_row_integrity.py:174-215 | more than half a cent of risk and of reward is always enough |
| `PriceLevels.HalfCentRiskCanFail` | core/advisory_row_integrity.py:174-215 | half a cent exactly is not: at 100 the stop rounds back onto the entry |
| `PriceLevels.TightenedRiskObeysCaps` | core/advisory_row_integrity.py:132-158 | a tightened risk is within every cap and 99% of the entry, and above every floor unless a cap won |
| `PriceLevels.TightenedStopKeepsOnePercent` | core/advisory_row_integrity.py:156-178 | so a buyer's stop keeps at least one percent of the entry, rounded |
| `PriceLevels.UntightenedRiskIs` | core/advisory_row_integrity.py:132-158 | risk is tightened for bought options at a positive entry only, and only when switched on |
| `PriceLevels.ContextRiskIs` | core/advisory_row_integrity.py:122-130 | the capital at risk if positive, else the distance from the stop loss, else from the stop |
| `PriceLevels.TightenedRiskIs` | core/advisory_row_integrity.py:132-158 | the largest amount that asks for a wider stop, cut to the smallest that asks for a narrower one; there is none exactly when nothing asks |
| `PriceLevels.RewardRatioIs` | core/advisory_row_integrity.py:168-172 | the row's ratio if positive, else its target's, else the default |
| `PriceLevels.RecomputedIs` | core/advisory_row_integrity.py:174-188 | every field of a recomputed row, and of one whose levels are taken away |
| `PriceLevels.ValidIs` | core/advisory_row_integrity.py:191-215 | a canonical row is fine if and only if stop loss (or stop), entry and target are there and in order |
| `Drawdown.MaxDrawdown` | core/acceptance_gate.py:31-41 | the running loop returns exactly the least sum over all contiguous, possibly empty, stretches |
| `KolmogorovSmirnov.SearchRightCounts` | core/auto_retrain.py:841-842 | on a sorted sample the bisection index is the number of values at most the point |
| `KolmogorovSmirnov.KsIsSupremum` | core/auto_retrain.py:835-843 | the gap at the pooled points bounds the difference of the two distribution functions at every real, and is attained |
| `KolmogorovSmirnov.KsInUnit` | core/auto_retrain.py:835-843 | the statistic lies in [0, 1] |
| `KolmogorovSmirnov.KsSymmetric` | core/auto_retrain.py:835-843 | swapping the samples changes nothing |
| `KolmogorovSmirnov.KsTriangle` | core/auto_retrain.py:835-843 | it satisfies the triangle inequality |
| `KolmogorovSmirnov.KsZeroIff` | core/auto_retrain.py:835-843 | it is zero exactly when the two distribution functions agree everywhere |
| `KolmogorovSmirnov.KsOfEmpty` | core/auto_retrain.py:838-839 | without a sample on one side the statistic is zero |
| `KolmogorovSmirnov.CdfIs` | core/auto_retrain.py:841-842 | a distribution function is the share of a sample at or below the point, the point included |
| `KolmogorovSmirnov.CountOfBoth` | core/auto_retrain.py:841-842 | counts of two samples add up, so the distribution function counts every point once |
| `Calibration.ExactlyOneBin` | core/acceptance_gate.py:199-208 | a clipped prediction falls in exactly one bin, the last one closed on the right |
| `Calibration.Ece` | core/acceptance_gate.py:196-215 | the loop over bins returns the sum of the weighted gaps |
| `Calibration.CountsAddUp` | core/acceptance_gate.py:202-211 | the bin counts sum to the number of predictions |
| `Calibration.BinsPartition` | core/acceptance_gate.py:202-208 | bin sums add up to the sum of all values |
| `Calibration.EceBounds` | core/acceptance_gate.py:196-215 | the error is at least the gap between mean prediction and mean label and at most the mean absolute error, for any number of bins |
| `Calibration.EceInUnit` | core/acceptance_gate.py:196-215 | with labels between 0 and 1 it lies in [0, 1], the empty series included |
| `Calibration.EceSquaredAtMostBrier` | core/acceptance_gate.py:190-215 | its square never exceeds the Brier score |
| `Calibration.ClippedIs` | core/acceptance_gate.py:192-198 | predictions are clipped to the unit interval and otherwise stand |
| `Calibration.BrierOfOne` | core/acceptance_gate.py:190-193 | the score of one prediction is its squared error |
| `Calibration.BrierOfBoth` | core/acceptance_gate.py:190-193 | the totals of two series add up |
| `Calibration.EceOfOneBin` | core/acceptance_gate.py:196-215 | with one bin the error is the gap between mean prediction and mean label |
| `Calibration.EceIs` | core/acceptance_gate.py:196-215 | with any bins it is the mean over the bins of what their members miss together |
| `AuditLog.Log.constructor` | core/audit_log.py:66-68 | no file yet |
| `AuditLog.Log.ReadLastHash` | core/audit_log.py:20-43 | the backward loop over the window returns the last hash named in it, else GENESIS |
| `AuditLog.Log.SearchBackwards` | core/audit_log.py:31-43 | the loop from the last line back finds the last hash that is named, and stops at JSON that is not an object |
| `AuditLog.Log.AppendEvent` | core/audit_log.py:53-63 | appends one line: the event with its defaults, the hash read from the tail as its link, and its own hash, which is returned |
| `AuditLog.Log.VerifyChain` | core/audit_log.py:66-88 | the scan stops at the first line that is not JSON, is no object, lacks a hash field, links wrongly or hashes wrongly, with the count so far |
| `AuditLogTheorems.ScanVerifiesIff` | core/audit_log.py:66-88 | a log verifies if and only if its non-blank lines decode to a chain of correctly linked and hashed events; it then reports their number and last hash |
| `AuditLogTheorems.SameHashSameEvent` | core/audit_log.py:46-50 | two sealed events with one hash are equal, or their texts less the hash are two different texts with the same SHA |
| `AuditLogTheorems.SameHeadSameLog` | core/audit_log.py:66-88 | two verified logs with one head hold the same events in the same order, or the texts of an event of one and an event of the other are a SHA collision, or one of them hashes to GENESIS |
| `AuditLogTheorems.TamperingShows` | core/audit_log.py:46-88 | a log in which one event of a verified log is changed in anything but its own hash, whatever else is changed, does not verify, or the change is a SHA collision |
| `AuditLogTheorems.RewrittenFieldShows` | core/audit_log.py:46-88 | in particular a log with one field of one event rewritten |
| `AuditLogTheorems.ScanStops` | core/audit_log.py:66-88 | a scan that does not verify stops at the first faulty line, after a chain whose length it reports, and says what is wrong with that line |
| `AuditLogTheorems.LastHashIs` | core/audit_log.py:31-43 | the read takes the last line that is neither blank, nor broken JSON, nor without a hash, and stops at JSON that is no object |
| `AuditLogTheorems.NoHashNamed` | core/audit_log.py:31-43 | without such a line it gives GENESIS |
| `AuditLogTheorems.LinesHoldNoBreaks` | core/audit_log.py:20-33 | the lines of a file are what stands between its line breaks |
| `AuditLogTheorems.SealedHolds` | core/audit_log.py:53-63 | an appended line holds the caller's fields unchanged, the defaults of those it lacks, the link, and the SHA of all of it but the hash |
| `AuditLogTheorems.TailReadFits` | core/audit_log.py:20-43 | when the last line fits the window the bounded read finds exactly its hash |
| `AuditLogTheorems.TailReadOverflows` | core/audit_log.py:20-43 | when it does not fit the read falls back to GENESIS |
| `AuditLogTheorems.AppendedFile` | core/audit_log.py:53-63 | the modelled file is what one more append leaves |
| `AuditLogTheorems.AppendedLinkIff` | core/audit_log.py:53-63 | an appended event links to its predecessor if and only if that one fitted the window |
| `AuditLogTheorems.TailReadIs` | core/audit_log.py:20-43 | the next append reads the last hash if the last line fits the window, else GENESIS |
| `AuditLogTheorems.WrittenVerifiesIff` | core/audit_log.py:66-88 | a log of written events verifies if and only if they form a chain, and then with their number and the last hash |
| `AuditLogTheorems.AppendedVerifiesIff` | core/audit_log.py:53-88 | a log written by appends verifies if and only if every line but the last is at most 16384 bytes, and then with the number of appends and the last returned hash |
| `AuditLogTheorems.OverlongNoteBreaksTheLog` | core/audit_log.py:20-88 | appending a note of 16384 characters and then any event leaves a log that does not verify |
| `RacingAppends.ReadThenWriteIsAppend` | core/audit_log.py:58-62 | an append whose write follows its read at once is the one-step append |
| `RacingAppends.InTurnIsAppended` | core/audit_log.py:53-63 | appends that take turns leave the log of the one-step appends |
| `RacingAppends.RunsAreWellSealed` | core/audit_log.py:58-62 | in every interleaving each line is sealed against the log as its writer read it |
| `RacingAppends.HashesBeforeDiffer` | core/audit_log.py:46-50 | two places of a chain never have the same hash before them, unless two of its own events collide |
| `RacingAppends.RacedLinkIff` | core/audit_log.py:53-63 | a line whose writer saw the whole log links to its predecessor if and only if that one fits the window; one whose writer saw less links only where the hashes agree |
| `RacingAppends.RacedVerifiesIff` | core/audit_log.py:53-88 | in every interleaving the log verifies if every line but the last fits the window and no append straddles a line; if it verifies otherwise, two of its own events collide |
| `RacingAppends.ForkedAppends` | core/audit_log.py:53-88 | two appends that both read before either writes leave a log that does not verify |
| `AdvisoryRow.ApplyPostLevelEntryMutationPolicy` | core/advisory_schema.py:1053-1091 | the change flag is set exactly when a price changed; under strict settings a changed canonical row loses its levels, any other row keeps them |
| `AdvisoryRow.RecoverExecutionEntry` | core/advisory_schema.py:1112-1127 | a missing execution entry is taken from the helper exactly when it offers an executable one |
| `AdvisoryRow.ResolveExecutionEntry` | core/advisory_schema.py:1112-1144 | after recovery and withdrawal the execution entry is executable if and only if the candidate is, was not recovered earlier, and a last-price one is allowed |
| `AdvisoryRow.FillDisplay` | core/advisory_schema.py:1153-1162 | an executable entry is shown exactly when nothing else is, with a known status and source |
| `AdvisoryRow.FillEntry` | core/advisory_schema.py:1164-1182 | the entry is filled from the displayed entry, status by status, and a consistent row is left alone |
| `AdvisoryRow.WithdrawVerdict` | core/advisory_schema.py:1234-1243 | all six spellings of a claim are taken back, to the blocked or the advisory value |
| `AdvisoryRow.WithdrawClaims` | core/advisory_schema.py:1222-1248 | the row is blocked with a blocker unless it is only displayed, and says why |
| `AdvisoryRow.ConfrontClaims` | core/advisory_schema.py:1184-1248 | a row keeps its claims exactly when it has an executable entry that is not missing, and is then untouched |
| `AdvisoryRow.EnforceExecutableEntryInvariant` | core/advisory_schema.py:1094-1254 | for any helpers, a claim survives if and only if it was made and is backed; then the verdict is unchanged and the entry is the row's own or the helper's, executable and from a tradable source; without an own entry and an executable recovery no claim and no entry is left; under strict settings canonical rows keep prices and levels |
| `AdvisoryRow.BackedIff` | core/advisory_schema.py:1112-1182 | what backs a claim, read off the row and the helpers: an executable value from a tradable source, the row's own or else the helper's, allowed if it is a last price, not recovered earlier and not shown as missing |
| `AdvisoryRow.CandidateIs` | core/advisory_schema.py:1112-1127 | only an executable recovery, and only for a row without an entry, takes the place of the row's own entry |
| `AdvisoryRow.ClaimsIff` | core/advisory_schema.py:1190 | a row claims to be executable if and only if one of six fields says so |
| `AdvisoryRow.Finish` | core/advisory_schema.py:1582-1591 | the last rewriting copies the displayed entry's source and status and still passes every check |
| `AdvisoryRow.MarkKind` | core/advisory_schema.py:1285-1286 | records the row's kind without affecting the checks, and does nothing the second time |
| `AdvisoryRow.CheckRow` | core/advisory_schema.py:1305-1537 | an accepted row is settled: trustworthy, with its kind recorded; a settled row is accepted unchanged |
| `AdvisoryRow.SettledIff` | core/advisory_schema.py:1305-1591 | what holds of a settled row, field by field |
| `AdvisoryRow.PassesIffConsistent` | core/advisory_schema.py:1400-1537 | the chain of checks lets a row through if and only if prices, statuses, verdict and blockers are consistent |
| `AdvisoryRow.RejectedBecause` | core/advisory_schema.py:1400-1537 | what each rejection says about the row |
| `AdvisoryRow.ValidateAdvisoryRow` | core/advisory_schema.py:1257-1727 | an accepted row claims executability if and only if the input did and was backed, and then its entry is the input's or the helper's, executable and from a tradable source; it is trustworthy and strictly ordered if canonical; an accepted row that claims executability is accepted again unchanged, provided the helper still allows a last-price entry |
| `Workflow.ReplayAgentWorkflow` | agent_system/workflow_state.py:304-337 | the loop computes the replay, stopping at the first refused or blocking decision, and reports merge-readiness of the final state |
| `Workflow.AcceptedIff` | agent_system/workflow_state.py:179-301 | a transition is accepted if and only if it blocks or is the one right next step of its owner with the required flags; the state then moves to the target, else stays |
| `Workflow.BlockedIsFinal` | agent_system/workflow_state.py:179-200 | blocked states are exactly those off the path, and every transition out of one is refused with one blocker |
| `Workflow.BlockersMean` | agent_system/workflow_state.py:179-301 | each blocker is reported if and only if the transition gives cause for it |
| `Workflow.ReplayIsShort` | agent_system/workflow_state.py:304-337 | a replay makes at most nine decisions less the steps already done |
| `Workflow.ReplayRecords` | agent_system/workflow_state.py:304-337 | a replay records one decision after another, each in the state the one before left, until one refuses or blocks or the list ends |
| `Workflow.ReplayRaisesIff` | agent_system/workflow_state.py:304-337 | it raises if and only if it reaches a transition whose target or role is unknown |
| `Workflow.MergeReadyDecisions` | agent_system/workflow_state.py:304-337 | a merge-ready replay's first eight decisions are the eight owned transitions in order |
| `Workflow.MergeReadyIff` | agent_system/workflow_state.py:304-337 | replay ends merge-ready if and only if the list starts with the eight role-owned transitions, flags set, and nothing undoes them; then eight or nine decisions are made |
| `Text.SplitAtSlash` | agent_system/changed_file_auditor.py:81-82 | splitting at a slash splits the pieces |
| `Text.JoinOfSplit` | agent_system/changed_file_auditor.py:81-82 | joining the pieces gives the path back |
| `Text.ExtendsIffPiecesExtend` | agent_system/changed_file_auditor.py:93-95 | a path extends another and a slash if and only if its pieces properly extend the other's |
| `Text.TrimIs` | agent_system/changed_file_auditor.py:75-76 | trimming cuts off spaces at both ends and nothing else |
| `Text.IsSpaceIff` | agent_system/changed_file_auditor.py:75-76 | the ten characters that are cut |
| `Text.UpperIs` | broker_contract/resolver.py:28-35 | small letters become the capitals in the same place, and nothing else changes |
| `ChangedFiles.NormalizeChangedFilePath` | agent_system/changed_file_auditor.py:75-83 | the loop computes the normalised path or the error |
| `ChangedFiles.NormalizedIsSafe` | agent_system/changed_file_auditor.py:75-83 | a normalised path is relative, has no parent segment, no leading dot-slash and no backslash |
| `ChangedFiles.NormalizeMeans` | agent_system/changed_file_auditor.py:75-83 | missing, unsafe or usable, each exactly when what is left of the path after trimming, slashing and dropping is empty, leads out or neither |
| `ChangedFiles.DropDotSlashIs` | agent_system/changed_file_auditor.py:77-78 | what is dropped in front is a dot and a slash, as often as it stands there |
| `ChangedFiles.NormalizingTwiceIff` | agent_system/changed_file_auditor.py:75-83 | normalising again changes nothing if and only if no leading space was uncovered |
| `ChangedFiles.SecondPassRefusesIff` | agent_system/changed_file_auditor.py:75-87 | the second normalisation refuses a usable path if and only if what is left without its leading spaces and dot-slashes is empty, starts with a slash or goes up at once |
| `ChangedFiles.SecondNormalizationCanFail` | agent_system/changed_file_auditor.py:75-87 | a path that passes the first time and is refused the second |
| `ChangedFiles.MatchesIffSegmentPrefix` | agent_system/changed_file_auditor.py:86-95 | the string comparison holds if and only if the rule's segments are a prefix of the path's, a proper one for a rule ending in a slash |
| `ChangedFiles.PathMatchesRule` | agent_system/changed_file_auditor.py:86-95 | the code computes that segment relation, or raises when the path does not normalise |
| `ChangedFiles.MatchesAny` | agent_system/changed_file_auditor.py:191-202 | some rule covers the path; with no rules nothing is normalised and nothing raised |
| `ChangedFiles.AuditFile` | agent_system/changed_file_auditor.py:185-220 | a file has no blocker if and only if every role's handoff covers it, none forbids it and a human approved a high-risk one; each blocker has its exact cause |
| `ChangedFiles.HighRiskList` | agent_system/role_registry.py:56-67 | the places that need a human approval whatever the handoffs say |
| `ChangedFiles.AuditChangedFilesAgainstHandoffs` | agent_system/changed_file_auditor.py:132-234 | the audit is valid if and only if task id and role names are usable, there are files, all handoffs load, and every file is safe twice over and in scope |
| `ChangedFiles.ValidAuditMeans` | agent_system/changed_file_auditor.py:132-234 | a valid audit, role by role and file by file: every counting handoff names each file and none forbids it, and none is of high risk without a human |
| `ChangedFiles.TaskIdErrorIs` | agent_system/changed_file_auditor.py:98-104 | a task id is usable if and only if it is not blank and has no slash of either kind and no two dots in a row |
| `ChangedFiles.AuditAgainst` | agent_system/changed_file_auditor.py:132-234 | the same for any high-risk list, with one finding per file that names the roles for and against it; each refusal, the first bad path and the raised error have their exact condition |
| `ChangedFiles.AuditOfPartsIff` | agent_system/changed_file_auditor.py:185-225 | an audit of two non-empty parts together is valid if and only if both are |
| `AgentWork.NormalizeAgentWorkRequest` | agent_system/work_contract.py:204-234 | the first missing or unknown field is reported; an accepted shape has at least one requested path and no empty one |
| `AgentWorkTheorems.NormalizeIs` | agent_system/work_contract.py:204-234 | each shape error has its exact condition, and an accepted request has every field trimmed and cleaned |
| `AgentWorkTheorems.CleanPathsIs` | agent_system/work_contract.py:118-136 | paths are cleaned one by one in their order, blank ones left out |
| `AgentWorkTheorems.SameIdentityIff` | agent_system/work_contract.py:241-252 | two requests have one identity if and only if they differ in bounds, human flag and metadata alone |
| `AgentWork.AcceptedIffWithinBounds` | agent_system/scope_guard.py:170-240 | a scope is accepted if and only if the action is allowed for its source and not forbidden and every requested path is neither forbidden nor outside a non-empty allowed list; only docs and tests need no human |
| `AgentWorkTheorems.ScopeMeans` | agent_system/scope_guard.py:170-266 | low risk, permission to patch, the approved state and no need for a human are one and the same, and belong exactly to requests within bounds that lie wholly under docs and tests and touch nothing of high risk; high risk is exactly work within bounds at a high-risk place; blocked is exactly out of bounds |
| `AgentWorkTheorems.BlockersMean` | agent_system/scope_guard.py:178-212 | each blocker is reported if and only if the request gives cause for it |
| `AgentWorkTheorems.ActionAllowedIff` | agent_system/scope_guard.py:45-78 | which agents each action belongs to |
| `AgentWorkTheorems.ForbiddenActionIff` | agent_system/scope_guard.py:125-145 | forbidden actions are those about orders, positions, the broker, live mode or the risk gate, which only the manual source may ask for |
| `AgentWorkTheorems.ForbiddenPlaces` | agent_system/scope_guard.py:17-27 | the places no agent may ask for |
| `AgentWorkTheorems.HighRiskPlaces` | agent_system/scope_guard.py:29-39 | the places whose change needs a human |
| `AgentWorkTheorems.LowRiskPlaces` | agent_system/scope_guard.py:41-44 | docs and tests |
| `AgentWork.DirectoryPrefixIff` | agent_system/scope_guard.py:113-122 | a prefix ending in slashes covers exactly the path left when they are stripped and everything below the prefix less one slash; with a single slash that is the directory and all below it |
| `AgentWork.PlainPrefixIff` | agent_system/scope_guard.py:113-122 | a prefix without one covers every path that starts with it |
| `AgentWork.GuardIsWiderThanSegments` | agent_system/scope_guard.py:113-122 | such a prefix covers what matching by segments would, and beyond that exactly the paths that continue its last segment |
| `AgentWork.RiskPrefixCoversRiskless` | agent_system/scope_guard.py:113-122 | `core/risk` covers `core/riskless.py`, which is not below it |
| `AgentWork.StraightPathIsSeen` | agent_system/scope_guard.py:109-122 | a path that resolving at most shortens at its end, and that leads to a listed directory or into it, is covered by the list |
| `AgentWork.CrookedPathIsMissed` | agent_system/scope_guard.py:109-122 | the prefix of the very directory that any other path leads to does not cover that path |
| `AgentWork.SeenWhereverItLeadsIff` | agent_system/scope_guard.py:109-122 | a path is covered by every prefix whose directory it leads to or into if and only if resolving it at most shortens it at its end |
| `AgentWork.StraightForbiddenIsRefused` | agent_system/scope_guard.py:109-203 | a path that resolving at most shortens at its end is refused whenever it leads to or into a forbidden directory |
| `AgentWork.TraversalLeadsToBroker` | agent_system/scope_guard.py:109-122 | `docs/../broker_contract/resolver.py` leads to `broker_contract/resolver.py` |
| `AgentWork.TraversalEscapesTheGuard` | agent_system/scope_guard.py:170-266 | a request for that path is within bounds, approved for a patch, and needs no human |
| `AgentWork.NormalizePathTwice` | agent_system/scope_guard.py:109-122 | normalising a path again, as the guard does, changes nothing |
| `AgentWork.AllowedListOnlyNarrows` | agent_system/scope_guard.py:118-122 | an allowed list only narrows what an empty one allows, and listing the requested paths themselves narrows nothing |
| `AgentWork.AssessAgentScope` | agent_system/scope_guard.py:170-266 | the loop collects exactly the blockers that apply and decides accordingly; what the decision says is `AgentWorkTheorems.ScopeMeans` |
| `AgentWork.ApprovedIffGrantable` | agent_system/approval.py:71-99 | work is approved if and only if its scope is accepted, safe, and has a named human where one is required |
| `AgentWorkTheorems.ApprovalMeans` | agent_system/approval.py:60-130 | an approval, its permission and its approver, from the scope decision, the human flag and the name |
| `AgentWorkTheorems.ApprovalBlockersMean` | agent_system/approval.py:71-99 | each blocker of an approval is reported if and only if there is cause for it |
| `AgentWork.ApproveAgentWork` | agent_system/approval.py:60-130 | computes that decision; patches are allowed exactly when approved and an approver is recorded only for a human approval |
| `AgentTaskStore.IndexIsUnique` | agent_system/task_store.py:206-245 | the task files determine their index |
| `AgentTaskStore.IndexHoldsEveryTask` | agent_system/task_store.py:206-245 | the index holds every task's projection once, in ascending order of work id, and nothing else |
| `AgentTaskCalls.ProjectIs` | agent_system/task_store.py:214-219 | an index entry repeats six fields of its task |
| `AgentTaskCalls.SelectsByField` | agent_system/task_store.py:294-316 | an open filter selects everything, and each field it fixes selects by that field alone |
| `AgentTaskCalls.FiltersConjoin` | agent_system/task_store.py:294-316 | filters on different fields select together what both select |
| `AgentTaskStore.StepKeeps` | api/agent_tasks.py:169-349 | one intake, approval, rejection or query keeps every stored task filed under its own id, every decision earned and the index exact |
| `AgentTaskStore.RunsAreWellKept` | api/agent_tasks.py:169-349 | so does every run from the empty store |
| `AgentTaskStore.WrittenOnce` | agent_system/task_store.py:255-262 | a task file or a decision never changes or disappears once written |
| `AgentTaskStore.DecidedAtMostOnce` | agent_system/patch_approval.py:220-231 | two recorded decisions of a run are about different work ids |
| `AgentTaskStore.PatchPermissionIsEarned` | api/agent_tasks.py:288-319 | permission to patch, in any run, comes with a named approver and a stored request within bounds under that id |
| `AgentTaskStore.ApproveRecordsIff` | api/agent_tasks.py:288-319 | an approval is recorded if and only if the task exists, is undecided and within bounds, and the approver's name is not blank |
| `AgentTaskCalls.IntakeMeans` | api/agent_tasks.py:169-226 | what an intake stores and answers for every request: the record of the request, the conflict with another task, or the shape error |
| `AgentTaskCalls.IntakeStatusMeans` | api/agent_tasks.py:169-226 | blocked means out of bounds; approved means harmless work, or a named human |
| `AgentTaskCalls.ApprovalRecords` | api/agent_tasks.py:288-319 | every field of a recorded approval, and the exact cause of each refusal |
| `AgentTaskCalls.RejectionRecords` | api/agent_tasks.py:322-349 | every field of a recorded rejection, and the exact cause of each refusal |
| `AgentTaskCalls.RejectRecordsIff` | api/agent_tasks.py:322-349 | a rejection is recorded if and only if the task exists, is undecided and somebody is named, whatever its scope |
| `AgentTaskStore.IntakeIndexes` | agent_system/task_store.py:248-276 | after an intake that persisted the index is the sorted projection of the task files and lists the submitted task |
| `AgentTaskStore.ResubmissionIsNoOp` | agent_system/task_store.py:255-262 | sending the same request again stores nothing and reports that it exists |
| `AgentTaskStore.ConflictIff` | agent_system/task_store.py:248-262 | an intake is a conflict if and only if a task under the id of its identity fields has another request, approval or day; the identity fields of that task hash to the same id |
| `AgentTaskStore.OtherBoundsConflict` | agent_system/task_store.py:248-262 | the same request under another allowed list is refused and stores nothing |
| `AgentTaskStore.Store.constructor` | agent_system/task_store.py:138-151 | no tasks, no decisions, no index |
| `AgentTaskStore.Store.RebuildAgentTaskIndex` | agent_system/task_store.py:206-245 | the index becomes the sorted projection of the task files |
| `AgentTaskStore.Store.PersistAgentTask` | agent_system/task_store.py:248-276 | creates, recognises or refuses a task file; on a conflict neither file nor index changes |
| `AgentTaskStore.Store.BuildAgentTaskIntakePayload` | api/agent_tasks.py:169-226 | an intake call is one step of a run, blocked work included |
| `AgentTaskStore.Store.PersistAgentPatchApproval` | agent_system/patch_approval.py:220-231 | a decision file is written only where there is none |
| `AgentTaskStore.Store.BuildAgentTaskPatchApprovalPayload` | api/agent_tasks.py:288-319 | an approval call is one step of a run, with the errors in the code's order |
| `AgentTaskStore.Store.BuildAgentTaskPatchRejectionPayload` | api/agent_tasks.py:322-349 | a rejection call is one step of a run, with the errors in the code's order |
| `AgentTaskStore.Store.QueryAgentTasks` | agent_system/task_store.py:279-328 | a query rebuilds the index and returns the first `limit` selected entries in index order, or refuses a negative limit |
| `BrokerResolver.CoverageCount` | broker_contract/resolver.py:157-159 | counts the tradable rows of the request's family |
| `BrokerResolver.CoverageIsCount` | broker_contract/resolver.py:157-159 | coverage is the number of places that list a tradable row |
| `BrokerResolver.TradableIff` | broker_contract/resolver.py:84-120 | a listed row is tradable if and only if its fields, trimmed and in capitals and each under the first name that is given, are the request's and it has a token |
| `BrokerResolver.FindExact` | broker_contract/resolver.py:123-131 | the first row at the requested strike, or none exists |
| `BrokerResolver.SortByDistance` | broker_contract/resolver.py:153 | the stable sort orders candidates by distance and then by position |
| `BrokerResolver.FindSafeFallback` | broker_contract/resolver.py:134-154 | the earliest of the nearest rows within the limit, or none is within it |
| `BrokerResolver.ResolveOptionContract` | broker_contract/resolver.py:167-241 | every outcome means what it says: a fallback is the earliest nearest strike, at a positive distance, and only when no exact row is listed |
| `BrokerResolver.ResolutionMeans` | broker_contract/resolver.py:162-241 | each outcome in terms of the request as it came: why it is invalid, not covered or not found, and what strike at what distance it got |
| `BrokerResolver.ResolvedRowMatches` | broker_contract/resolver.py:113-154 | a resolved row is tradable, of the requested symbol, expiry, type and exchange, at the reported distance |
| `BrokerResolver.ResolutionIsUnique` | broker_contract/resolver.py:167-241 | that description leaves one outcome only |
| `BrokerResolver.MoreInstrumentsNeverHurt` | broker_contract/resolver.py:167-241 | listing more instruments anywhere keeps a resolved request resolved and never increases its distance |
| `BrokerResolver.NormalTwice` | broker_contract/resolver.py:28-35 | normalising a request twice is normalising it once |
| `ResolutionHealth.BuildBrokerContractReadiness` | broker_contract/readiness.py:156-233 | a strike that is not a number raises unless a field is missing; otherwise the status says which fields were missing or how the contract resolved, each unresolved status with its blockers, a fallback with its distance and warning, and a resolved record with the resolved instrument and its token |
| `ResolutionHealth.MissingFieldsAre` | broker_contract/readiness.py:134-141 | each missing field is named, and nothing else |
| `ResolutionHealth.RequestIs` | broker_contract/readiness.py:101-131 | the request is the candidate's fields, trimmed and the names in capitals, and the default for a missing or blank exchange |
| `ResolutionHealth.MismatchesAre` | broker_contract/instrument_resolution_health.py:226-246 | no mismatch is reported if and only if every field given on both sides agrees, the strike of a fallback excepted; a listed date agrees with no text |
| `ResolutionHealth.MismatchIff` | broker_contract/instrument_resolution_health.py:226-246 | each mismatch is reported if and only if both sides give the field and it differs, capitals aside |
| `ResolutionHealth.RowIs` | broker_contract/instrument_resolution_health.py:117-147 | a health row repeats its record and adds the mismatches of the resolved instrument |
| `ResolutionHealth.SourceIs` | broker_contract/instrument_resolution_health.py:211-223 | the source of a readiness record is the status it was built with |
| `ResolutionHealth.ExactMismatchIffUntidy` | broker_contract/instrument_resolution_health.py:226-246 | an exact match is flagged as mismatched if and only if its listed expiry is a date or one of its compared fields carries stray space |
| `ResolutionHealth.DatedExpiryIsFlagged` | broker_contract/instrument_resolution_health.py:226-246 | a listed date that prints as the requested expiry matches exactly and is flagged |
| `ResolutionHealth.SpacedExpiryIsFlagged` | broker_contract/instrument_resolution_health.py:226-246 | so is the requested expiry with a space behind it |
| `ResolutionHealth.SummaryAddsUp` | broker_contract/instrument_resolution_health.py:150-171 | over coherent rows exact plus fallback is resolved, and missing tokens are the unresolved ones |
| `ResolutionHealth.CountsAre` | broker_contract/instrument_resolution_health.py:150-171 | a row more adds one to each count whose test it passes, and its warnings to theirs |
| `ResolutionHealth.StatusMeans` | broker_contract/instrument_resolution_health.py:174-181 | what each health status says about the rows, whatever they are |
| `ResolutionHealth.BuildInstrumentResolutionHealthPanel` | broker_contract/instrument_resolution_health.py:103-181 | for any batch: blocked means an unresolved, tokenless or mismatched row, healthy means that every row is resolved, matching, no fallback and without warnings, nothing blocked means all resolved without blockers; for records that readiness built the counts also add up and a healthy row is an exact match |

## Left out

- SQLite, files and temporary-file replacement: tables and files are maps and strings, transactions and single writes atomic steps; of the approval rows only the epoch columns and the status are kept.
- ApprovalStore.Store.CreateOrderApproval: taken as one step, although its read and its upsert are two statements without a lock; what a write between them can do is in `RacingCreates`.
- OrderApproval.TableAgreesWithHistory: the history is one of commits and exists in the model only. The program's audit file holds event, status, detail and actor, but no expiry, no arming window and no caller's clock; its entries are written after the commit, possibly in another order, and a failure to write one is ignored. Nothing is claimed about that file.
- ApprovalStore.Store.ArmOrderIntent: the number of attempts is the length of an arbitrary list of faults rather than the configured count, and back-off times are not modelled.
- The legacy `approvals` table, the schema migrations and the retained columns about people and channels.
- AuditLog.Log.ReadLastHash: hash fields are texts; an event whose hash field holds another JSON value is not modelled.
- AuditLog.Log.AppendEvent: taken as one step, although it reads the tail and writes the line without a lock; what other appends can do in between is in `RacingAppends`, where each line is still written whole.
- Floating point: prices and statistics are exact reals, with the code's own roundings explicit; NaN and infinities are excluded.
- AdvisoryRow.CheckRow: the identity, timestamp, quote and confidence checks are one boolean input.
- AdvisoryRow.ValidateAdvisoryRow: the identity, timestamp, quote and confidence checks are one boolean input, the rewriting of confidence fields and of the combined blocker list is omitted, and the legacy adapter is not part of this model.
- AdvisoryRow.EnforceExecutableEntryInvariant: `derive_execution_entry_recovery` and `should_allow_last_execution_fallback` are arbitrary functions of the row.
- AgentWork.NormalizeAgentWorkRequest: source and action arrive as known names or unknown; type checks of the JSON payload are not modelled.
- AgentTaskStore.Store.BuildAgentTaskIntakePayload: the evidence files are not modelled, only the date in the reference to them; work ids are numbers given by an arbitrary function of the identity fields; corrupt task files are not modelled; the constant safety flags of records are omitted.
- BrokerResolver.ResolveOptionContract: of the aliases of an instrument's fields, those of expiry and type are modelled and the others resolved before the model sees them; text is upper-cased as ASCII.
- ResolutionHealth.BuildBrokerContractReadiness: the record of a candidate with a missing field does not repeat the fields it does name.
- ResolutionHealth.BuildInstrumentResolutionHealthPanel: records are typed, so dictionaries with missing or misspelt keys are not modelled; blockers and warnings are sets of non-blank texts, so their order is lost.
- ChangedFiles.AuditChangedFilesAgainstHandoffs: loading and validating handoff files is one function that may fail; a role name arrives as a known role or as an unknown name.
- Text.Trim: strips the ASCII characters that Python's `strip` does; space characters beyond ASCII are not modelled.
- `_expectancy_below_baseline`, the stability index and the rest of retraining, alpha ensembles, configuration parsing, broker clients, HTTP routes and schemas: they rest on numerical and network libraries that are not part of this model, or only carry values from one format to another.
