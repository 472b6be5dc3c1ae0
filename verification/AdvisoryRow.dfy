/**
 Enforcing the executable-entry invariant on advisory rows, and the checks that follow.
 Text fields hold their trimmed, case-folded values, which is how every reader sees them.
 */
module AdvisoryRow {
  import opened Prelude
  import PriceLevels

  datatype Source =
    | Ask | Bid | Mark | Mid | Last | RecoveredFallback
    | RetainedPriorAsk | RetainedPriorBid | RetainedPriorMark | NoSource | UnknownSource

  datatype EntryStatus = Executable | NonExecutable | Missing | Displayable | Blank | UnknownStatus

  datatype ExecutionStatus = ExecBlocked | ExecAdvisoryOnly | ExecQueueOnly | ExecExecutable | ExecScored | ExecUnknown

  datatype Readiness = Ready | QueueOnly | AdvisoryOnly | Blocked | UnknownReadiness

  datatype Action = Execute | Block | AdviseOnly | OtherAction

  datatype RowStatus = StatusReady | StatusInvalid | StatusAdvisoryOnly | OtherStatus

  datatype RowKind = Canonical | AdvisoryOnlyKind | BlockedDebug | OtherKind

  datatype ClearReason =
    | NoReason | MissingExecutionEntry | EntryStatusReason(status: EntryStatus) | OtherReason(text: string)

  /** One of the row's three prices: the entry, the displayed entry, the entry to execute at. */
  datatype Quote = Quote(value: Option<real>, source: Source, status: EntryStatus)

  datatype Verdict = Verdict(
    execution: ExecutionStatus, isExecutable: bool, readiness: Readiness, finalAction: Action, permission: Action,
    status: RowStatus)

  datatype Levels = Levels(
    explicitKind: Option<RowKind>, fromTradeBuilder: bool, advisoryVisible: bool, nonCanonical: bool,
    side: PriceLevels.Side, stop: Option<real>, stopLoss: Option<real>, target: Option<real>, recomputed: bool)

  datatype Row = Row(
    entry: Quote, display: Quote, shownStatus: EntryStatus, execution: Quote, entryRecovered: bool, derivation: string,
    executionAllowed: bool, clearReason: ClearReason, blockCode: ClearReason, verdict: Verdict,
    hardBlockers: seq<string>, blockers: seq<string>, levels: Levels, entryChangedPostLevels: bool)

  /** What the recovery helper proposes; nothing is assumed about it. */
  datatype Recovery = Recovery(entry: Option<real>, source: Source, status: EntryStatus, reason: string)

  predicate KnownEntryStatus(s: EntryStatus) { s == Displayable || s == NonExecutable || s == Missing }

  predicate KnownOnScreen(s: EntryStatus): (k: bool)
    ensures k <==> s == Displayable || s == NonExecutable
  {
    KnownEntryStatus(s) && s != Missing
  }

  predicate HasExecutableEntryTruth(q: Quote) {
    && q.value.Some? && q.status == Executable
    && q.source in {Ask, Bid, Last, RetainedPriorAsk, RetainedPriorBid}
  }

  /** The six ways a row can claim to be executable. */
  predicate Claims(v: Verdict) {
    || v.execution == ExecExecutable || v.isExecutable || v.readiness == Ready
    || v.finalAction == Execute || v.permission == Execute || v.status == StatusReady
  }

  function StopOf(levels: Levels): Option<real> { if levels.stopLoss.Some? then levels.stopLoss else levels.stop }

  function DeriveRowKind(row: Row): (kind: RowKind)
    ensures row.levels.explicitKind.None? ==>
              (kind == Canonical <==>
                 && !row.levels.fromTradeBuilder && !row.levels.nonCanonical && row.levels.advisoryVisible
                 && row.entry.value.Some? && StopOf(row.levels).Some? && row.levels.target.Some?)
    ensures row.levels.explicitKind.Some? ==> row.levels.explicitKind == Some(kind)
    ensures row.levels.explicitKind.None? && kind != Canonical ==>
              kind == if row.levels.fromTradeBuilder then BlockedDebug else AdvisoryOnlyKind
  {
    var levels := row.levels;
    if levels.explicitKind.Some? then levels.explicitKind.value
    else if levels.fromTradeBuilder then BlockedDebug
    else if levels.nonCanonical || !levels.advisoryVisible then AdvisoryOnlyKind
    else if row.entry.value.Some? && StopOf(levels).Some? && levels.target.Some? then Canonical
    else AdvisoryOnlyKind
  }

  predicate SamePrices(a: Row, b: Row) {
    a.entry.value == b.entry.value && a.display.value == b.display.value && a.execution.value == b.execution.value
  }

  // ---------------------------------------------------------------- what a claim must rest on

  /** The execution entry in play: the row's own, or an executable one that the helper recovered for a row without. */
  function Candidate(row: Row, recover: Row -> Recovery): Quote {
    var recovery := recover(row);
    if row.execution.value.None? && recovery.entry.Some? && recovery.status == Executable
    then Quote(recovery.entry, recovery.source, Executable)
    else row.execution
  }

  /** The row as the last-price helper is asked about it. */
  function Considered(row: Row, recover: Row -> Recovery): Row {
    if row.execution.value.Some? then row
    else row.(execution := Candidate(row, recover), derivation := recover(row).reason)
  }

  predicate Usable(row: Row, recover: Row -> Recovery, allowLast: Row -> bool) {
    var candidate := Candidate(row, recover);
    && !row.entryRecovered && HasExecutableEntryTruth(candidate)
    && (candidate.source == Last ==> allowLast(Considered(row, recover)))
  }

  /** The entry in play is the row's own, unless it has none and the helper has an executable one. */
  lemma CandidateIs(row: Row, recover: Row -> Recovery)
    ensures row.execution.value.Some? || recover(row).entry.None? || recover(row).status != Executable ==>
              Candidate(row, recover) == row.execution
    ensures row.execution.value.None? && recover(row).entry.Some? && recover(row).status == Executable ==>
              Candidate(row, recover) == Quote(recover(row).entry, recover(row).source, Executable)
  {
  }

  /** The displayed entry is marked missing and the entry status cannot overrule it. */
  predicate MarkedMissing(row: Row) {
    row.display.value.Some? && row.display.status == Missing && !KnownOnScreen(row.entry.status)
  }

  /** Exactly when a claim to be executable survives. */
  predicate Backed(row: Row, recover: Row -> Recovery, allowLast: Row -> bool) {
    Usable(row, recover, allowLast) && !MarkedMissing(row)
  }

  /** An entry that may be executed: it has a value, says so, and comes from a source one can trade at. */
  predicate MayExecute(entry: Option<real>, source: Source, status: EntryStatus) {
    && entry.Some? && status == Executable
    && (source == Ask || source == Bid || source == Last || source == RetainedPriorAsk || source == RetainedPriorBid)
  }

  /** What backs a claim, read off the row and the helpers' answers. */
  lemma BackedIff(row: Row, recover: Row -> Recovery, allowLast: Row -> bool)
    ensures var r := recover(row);
            Backed(row, recover, allowLast) <==>
              && !row.entryRecovered
              && (if row.execution.value.Some?
                  then && MayExecute(row.execution.value, row.execution.source, row.execution.status)
                       && (row.execution.source == Last ==> allowLast(row))
                  else && MayExecute(r.entry, r.source, r.status)
                       && (r.source == Last ==>
                             allowLast(row.(execution := Quote(r.entry, Last, Executable), derivation := r.reason))))
              && (row.display.value.Some? && row.display.status == Missing ==>
                    row.entry.status == Displayable || row.entry.status == NonExecutable)
  {
  }

  /** Any one of the six claims is a claim, and a row without any makes none. */
  lemma ClaimsIff(v: Verdict)
    ensures !Claims(v) <==>
              && v.execution != ExecExecutable && !v.isExecutable && v.readiness != Ready
              && v.finalAction != Execute && v.permission != Execute && v.status != StatusReady
  {
  }

  // ---------------------------------------------------------------- the enforcement, step by step

  method ApplyPostLevelEntryMutationPolicy(row: Row, before: Row, strict: bool) returns (out: Row)
    ensures out == row.(levels := out.levels, entryChangedPostLevels := !SamePrices(row, before))
    ensures out.entryChangedPostLevels <==>
              || row.entry.value != before.entry.value || row.display.value != before.display.value
              || row.execution.value != before.execution.value
    ensures strict && !SamePrices(row, before) ==> DeriveRowKind(out) != Canonical
    ensures if strict && !SamePrices(row, before) && DeriveRowKind(row) == Canonical
            then out.levels == row.levels.(explicitKind := Some(AdvisoryOnlyKind), nonCanonical := true,
                                           recomputed := false, stop := None, stopLoss := None, target := None)
            else out.levels == row.levels
  {
    var changed := before.entry.value != row.entry.value || before.display.value != row.display.value
                   || before.execution.value != row.execution.value;
    out := row.(entryChangedPostLevels := changed);
    if !changed || DeriveRowKind(out) != Canonical || !strict { return; }
    out := out.(levels := out.levels.(explicitKind := Some(AdvisoryOnlyKind), nonCanonical := true, recomputed := false,
                                      stop := None, stopLoss := None, target := None));
  }

  /** Asks the helper for an execution entry when the row has none. */
  method RecoverExecutionEntry(payload: Row, recover: Row -> Recovery) returns (out: Row)
    ensures out == payload.(execution := out.execution, derivation := out.derivation)
    ensures out.execution.value == Candidate(payload, recover).value
            && out.execution.source == Candidate(payload, recover).source
    ensures out.execution.value.Some? ==> out == Considered(payload, recover)
    ensures out.execution.value.None? ==>
              && out.derivation == recover(payload).reason
              && out.execution.status == (if payload.execution.status !in {Blank, Missing} then payload.execution.status
                                          else if recover(payload).status == Blank then Missing
                                              else recover(payload).status)
  {
    out := payload;
    if out.execution.value.None? {
      var recovery := recover(out);
      out := out.(derivation := recovery.reason);
      if recovery.entry.Some? && recovery.status == Executable {
        out := out.(execution := Quote(recovery.entry, recovery.source, Executable));
      } else if out.execution.status == Blank || out.execution.status == Missing {
        var status := if recovery.status == Blank then Missing else recovery.status;
        out := out.(execution := out.execution.(status := status));
      }
    }
  }

  /** Recovers a missing execution entry, then withdraws one that must not be executed. */
  method ResolveExecutionEntry(payload: Row, recover: Row -> Recovery, allowLast: Row -> bool) returns (out: Row)
    ensures out == payload.(execution := out.execution, derivation := out.derivation,
                            executionAllowed := out.executionAllowed, verdict := out.verdict)
    ensures HasExecutableEntryTruth(out.execution) <==> Usable(payload, recover, allowLast)
    ensures Usable(payload, recover, allowLast) ==> out == Considered(payload, recover)
    ensures Candidate(payload, recover).value.None? ==> out.execution.value.None?
    ensures var candidate := Candidate(payload, recover);
            candidate.value.Some? ==>
              out.execution.value
              == if candidate.source == Last && !allowLast(Considered(payload, recover)) then None else candidate.value
    ensures var candidate := Candidate(payload, recover);
            candidate.value.Some? && candidate.source == Last && !allowLast(Considered(payload, recover)) ==>
              out.execution
              == Quote(None, NoSource, if candidate.status == Executable then NonExecutable else candidate.status)
    ensures var candidate := Candidate(payload, recover);
            candidate.value.Some? && (candidate.source == Last ==> allowLast(Considered(payload, recover))) ==>
              out.execution == if !payload.entryRecovered then candidate
                               else Quote(candidate.value,
                                          if candidate.source == NoSource then RecoveredFallback else candidate.source,
                                          NonExecutable)
    ensures if payload.entryRecovered && out.execution.value.Some?
            then out.execution.status == NonExecutable && !out.executionAllowed
                 && out.verdict == payload.verdict.(execution := ExecAdvisoryOnly, isExecutable := false)
            else out.verdict == payload.verdict && out.executionAllowed == payload.executionAllowed
  {
    out := RecoverExecutionEntry(payload, recover);
    var entry, source, status := out.execution.value, out.execution.source, out.execution.status;
    if out.entryRecovered && entry.Some? && source == NoSource {
      source := RecoveredFallback;
      out := out.(execution := Quote(entry, source, status));
    }
    if source == Last && !allowLast(out) {
      entry, source := None, NoSource;
      if status == Executable {
        status := NonExecutable;
      }
      out := out.(execution := Quote(entry, source, status));
    }
    if out.entryRecovered && entry.Some? {
      out := out.(execution := Quote(entry, source, NonExecutable), executionAllowed := false,
                  verdict := out.verdict.(execution := ExecAdvisoryOnly, isExecutable := false));
    }
  }

  /** A row whose entry and displayed entry already agree and are shown. */
  predicate WellShown(row: Row) {
    && row.display.value.Some? && row.entry.value.Some?
    && (row.entry.source == NoSource ==> row.display.source == NoSource)
    && row.display.status == row.entry.status == row.shownStatus == Displayable
  }

  /** A ready execution entry is shown when nothing else is. */
  method FillDisplay(row: Row) returns (out: Row)
    ensures row.display.value.Some? || !HasExecutableEntryTruth(row.execution) ==> out == row
    ensures row.display.value.None? && HasExecutableEntryTruth(row.execution) ==>
              out == row.(clearReason := NoReason,
                          display := Quote(row.execution.value,
                                           if row.display.source in {UnknownSource, NoSource}
                                           then row.execution.source else row.display.source,
                                           if KnownOnScreen(row.display.status)
                                           then row.display.status else Displayable))
  {
    out := row;
    if HasExecutableEntryTruth(row.execution) && row.display.value.None? {
      var source, status := row.display.source, row.display.status;
      if source == UnknownSource || source == NoSource {
        source := if row.execution.source == UnknownSource then Last else row.execution.source;
      }
      if !KnownOnScreen(status) {
        status := Displayable;
      }
      out := out.(display := Quote(row.execution.value, source, status), clearReason := NoReason);
    }
  }

  /** Fills the entry from the displayed entry, field by field; `shown` is the display status before any filling. */
  method FillEntry(row: Row, shown: EntryStatus) returns (out: Row)
    ensures out == row.(entry := out.entry, display := row.display.(status := out.display.status),
                        shownStatus := out.shownStatus)
    ensures row.display.value.None? ==> out == row
    ensures out.entry.value == if row.entry.value.None? then row.display.value else row.entry.value
    ensures row.display.value.Some? && row.execution.value.Some? ==>
              && out.display == row.display
              && out.entry.status == if KnownOnScreen(row.entry.status) then row.entry.status else row.display.status
    ensures row.display.value.Some? && row.execution.value.None? ==>
              out.display.status == out.entry.status == out.shownStatus == Displayable
    ensures row.display.value.Some? ==>
            out.entry.source == if row.entry.source == NoSource then row.display.source else row.entry.source
    ensures row.display.value.Some? && row.execution.value.Some? ==>
              out.shownStatus == if KnownOnScreen(if row.shownStatus == Blank then shown else row.shownStatus)
                                 then row.shownStatus else row.display.status
    ensures WellShown(row) ==> out == row
  {
    out := row;
    var display := row.display;
    if display.value.None? { return; }
    var entry, onScreen := row.entry, row.shownStatus;
    if entry.value.None? {
      entry := entry.(value := display.value);
    }
    if entry.source == NoSource {
      entry := entry.(source := display.source);
    }
    if !KnownOnScreen(entry.status) {
      entry := entry.(status := display.status);
    }
    if !KnownOnScreen(if onScreen == Blank then shown else onScreen) {
      onScreen := display.status;
    }
    if row.execution.value.None? {
      display := display.(status := Displayable);
      entry, onScreen := entry.(status := Displayable), Displayable;
    }
    out := row.(entry := entry, display := display, shownStatus := onScreen);
  }

  function WithBlocker(codes: seq<string>): (r: seq<string>)
    ensures codes <= r && "MISSING_ENTRY" in r && |r| == |codes| + if "MISSING_ENTRY" in codes then 0 else 1
  {
    if "MISSING_ENTRY" in codes then codes else codes + ["MISSING_ENTRY"]
  }

  /** Each claim is replaced by what the new execution status calls for, and everything else is kept. */
  predicate TakenBack(before: Verdict, v: Verdict) {
    var block := v.execution == ExecBlocked;
    && !v.isExecutable
    && v.readiness
       == (if before.readiness != Ready then before.readiness else if block then Blocked else AdvisoryOnly)
    && v.finalAction
       == (if before.finalAction != Execute then before.finalAction else if block then Block else AdviseOnly)
    && v.permission
       == (if before.permission != Execute then before.permission else if block then Block else AdviseOnly)
    && v.status
       == if before.status != StatusReady then before.status else if block then StatusInvalid else StatusAdvisoryOnly
  }

  /** Takes back every claim, in all six spellings. */
  method WithdrawVerdict(before: Verdict, block: bool) returns (v: Verdict)
    ensures !Claims(v) && TakenBack(before, v) && v.execution == if block then ExecBlocked else ExecAdvisoryOnly
  {
    v := before.(execution := if block then ExecBlocked else ExecAdvisoryOnly, isExecutable := false);
    if v.readiness == Ready {
      v := v.(readiness := if block then Blocked else AdvisoryOnly);
    }
    if v.finalAction == Execute {
      v := v.(finalAction := if block then Block else AdviseOnly);
    }
    if v.permission == Execute {
      v := v.(permission := if block then Block else AdviseOnly);
    }
    if v.status == StatusReady {
      v := v.(status := if block then StatusInvalid else StatusAdvisoryOnly);
    }
  }

  /** A row that claims too much loses its claims and says why. */
  method WithdrawClaims(row: Row, displayOnly: bool) returns (out: Row)
    ensures !Claims(out.verdict) && TakenBack(row.verdict, out.verdict)
    ensures out == row.(verdict := out.verdict, hardBlockers := out.hardBlockers, blockers := out.blockers,
                        clearReason := out.clearReason, blockCode := out.blockCode)
    ensures out.hardBlockers == if displayOnly || row.hardBlockers != [] then row.hardBlockers else ["MISSING_ENTRY"]
    ensures out.verdict.execution == if displayOnly && row.hardBlockers == [] then ExecAdvisoryOnly else ExecBlocked
    ensures out.blockers == if displayOnly || row.hardBlockers != [] then row.blockers else WithBlocker(row.blockers)
    ensures out.clearReason == if row.clearReason != NoReason then row.clearReason
                               else if HasExecutableEntryTruth(row.execution) then EntryStatusReason(row.entry.status)
                               else MissingExecutionEntry
    ensures out.blockCode == if row.blockCode != NoReason then row.blockCode else out.clearReason
  {
    out := row;
    var hasHard := row.hardBlockers != [];
    if !displayOnly && !hasHard {
      out := out.(hardBlockers := WithBlocker(row.hardBlockers), blockers := WithBlocker(row.blockers));
      hasHard := true;
    }
    var verdict := WithdrawVerdict(row.verdict, hasHard || !displayOnly);
    out := out.(verdict := verdict);
    if out.clearReason == NoReason {
      var reason := if HasExecutableEntryTruth(row.execution) then EntryStatusReason(row.entry.status)
                    else MissingExecutionEntry;
      out := out.(clearReason := reason);
    }
    if out.blockCode == NoReason {
      out := out.(blockCode := out.clearReason);
    }
  }

  method FillDisplayFields(row: Row) returns (out: Row)
    ensures out == row.(entry := out.entry, display := out.display, shownStatus := out.shownStatus,
                        clearReason := out.clearReason)
    ensures HasExecutableEntryTruth(row.execution) ==>
              && (EntryMissing(out) <==> MarkedMissing(row))
              && out.display.value == (if row.display.value.None? then row.execution.value else row.display.value)
              && out.entry.value == (if row.entry.value.None? then out.display.value else row.entry.value)
    ensures WellShown(row) ==> out == row
  {
    out := FillDisplay(row);
    out := FillEntry(out, row.display.status);
  }

  predicate EntryMissing(row: Row) { row.entry.value.None? || row.entry.status == Missing }

  /** Compares what the row claims with the entry it has. */
  method ConfrontClaims(row: Row) returns (out: Row)
    ensures Claims(out.verdict) <==> Claims(row.verdict) && HasExecutableEntryTruth(row.execution) && !EntryMissing(row)
    ensures HasExecutableEntryTruth(row.execution) && (Claims(row.verdict) ==> !EntryMissing(row)) ==> out == row
    ensures row.execution.value.None? ==> out.execution.value.None?
    ensures !Claims(row.verdict) ==> out == row.(execution := out.execution)
    ensures !Claims(row.verdict) ==>
              out.execution == (if row.execution.value.Some? && row.execution.status != Executable
                                then Quote(None, NoSource, if row.execution.status == Blank
                                                           then NonExecutable else row.execution.status)
                                else row.execution)
    ensures Claims(row.verdict) && !Claims(out.verdict) ==>
              && out.verdict.execution in {ExecBlocked, ExecAdvisoryOnly} && TakenBack(row.verdict, out.verdict)
              && out.clearReason != NoReason && out.blockCode != NoReason
              && (out.verdict.execution == ExecBlocked ==> out.hardBlockers != [])
    ensures Claims(row.verdict) && !Claims(out.verdict) ==>
              (out.verdict.execution == ExecAdvisoryOnly <==>
                 row.display.value.Some? && !HasExecutableEntryTruth(row.execution) && row.hardBlockers == [])
    ensures Claims(row.verdict) && !HasExecutableEntryTruth(row.execution) && row.display.value.Some? ==>
              && out.execution == Quote(None, NoSource, NonExecutable)
              && out.display.status == out.entry.status == Displayable
    ensures row.hardBlockers <= out.hardBlockers && row.blockers <= out.blockers && out.levels == row.levels
  {
    out := row;
    var ready := HasExecutableEntryTruth(row.execution);
    if !Claims(row.verdict) {
      if row.execution.value.Some? && row.execution.status != Executable {
        var status := if row.execution.status == Blank then NonExecutable else row.execution.status;
        out := out.(execution := Quote(None, NoSource, status));
      }
      return;
    }
    if !ready && row.display.value.Some? {
      out := out.(execution := Quote(None, NoSource, NonExecutable), display := out.display.(status := Displayable),
                  entry := out.entry.(status := Displayable));
    }
    if EntryMissing(row) || !ready {
      var displayOnly := row.display.value.Some? && !ready && out.entry.status == Displayable;
      out := WithdrawClaims(out, displayOnly);
    }
  }

  method EnforceExecutableEntryInvariant(payload: Row, recover: Row -> Recovery, allowLast: Row -> bool, strict: bool)
    returns (out: Row)
    ensures Claims(out.verdict) <==> Claims(payload.verdict) && Backed(payload, recover, allowLast)
    ensures Claims(out.verdict) ==>
              && out.verdict == payload.verdict && HasExecutableEntryTruth(out.execution) && !out.entryRecovered
              && out.execution == Candidate(payload, recover) && out.display.value.Some? && out.entry.value.Some?
    ensures payload.execution.value.None? && (recover(payload).entry.None? || recover(payload).status != Executable) ==>
              !Claims(out.verdict) && out.execution.value.None?
    ensures Claims(out.verdict) ==>
              && MayExecute(out.execution.value, out.execution.source, out.execution.status)
              && (out.execution == payload.execution
                  || (payload.execution.value.None? && recover(payload).status == Executable
                      && out.execution == Quote(recover(payload).entry, recover(payload).source, Executable)))
    ensures Claims(payload.verdict) && !Claims(out.verdict) ==>
              && out.verdict.execution in {ExecBlocked, ExecAdvisoryOnly} && TakenBack(payload.verdict, out.verdict)
              && (out.verdict.execution == ExecBlocked ==> out.hardBlockers != [])
    ensures payload.hardBlockers <= out.hardBlockers && payload.blockers <= out.blockers
    ensures strict && DeriveRowKind(out) == Canonical ==> SamePrices(out, payload) && out.levels == payload.levels
    ensures Backed(payload, recover, allowLast) && payload.execution.value.Some? && WellShown(payload) ==>
              out == payload.(entryChangedPostLevels := false)
  {
    var resolved := ResolveExecutionEntry(payload, recover, allowLast);
    var filled := FillDisplayFields(resolved);
    var confronted := ConfrontClaims(filled);
    out := ApplyPostLevelEntryMutationPolicy(confronted, payload, strict);
  }

  // ---------------------------------------------------------------- validation

  datatype Rejection =
    | LevelsBroken(verdict: PriceLevels.Verdict) | BadExecutionEntryStatus | BadDisplayEntryStatus | BadEntryStatus
    | BadReadiness | BadExecutionStatus | BadExecutionEntrySource | BadDisplayEntrySource | ExecutionEntryNotExecutable
    | ExecutableWithoutEntry | DisplayStatusMismatch | MissingDisplayNeedsReason | EntryDisplayStatusMismatch
    | ReadyWithBlockers | BlockedWithoutBlockers | IsExecutableMismatch | EntryNotDisplayEntry | EntryStatusMismatch
    | BlockWithoutReason | OtherFieldsInvalid

  datatype Validated = Accepted(row: Row) | Rejected(why: Rejection)

  function FirstRejection(row: Row): Option<Rejection> {
    var shown := if row.shownStatus == Blank then row.display.status else row.shownStatus;
    if row.execution.status !in {Executable, NonExecutable, Missing} then Some(BadExecutionEntryStatus)
    else if !KnownEntryStatus(row.display.status) then Some(BadDisplayEntryStatus)
    else if !KnownEntryStatus(row.entry.status) then Some(BadEntryStatus)
    else if row.verdict.readiness == UnknownReadiness then Some(BadReadiness)
    else if row.verdict.execution == ExecUnknown then Some(BadExecutionStatus)
    else if row.execution.source == UnknownSource then Some(BadExecutionEntrySource)
    else if row.display.source == UnknownSource then Some(BadDisplayEntrySource)
    else if row.execution.value.Some? && row.execution.status != Executable then Some(ExecutionEntryNotExecutable)
    else if row.execution.value.None? && row.execution.status == Executable then Some(ExecutableWithoutEntry)
    else if row.display.value.Some? && row.display.status != Displayable then Some(DisplayStatusMismatch)
    else if row.display.value.None? && row.display.status != Missing then Some(DisplayStatusMismatch)
    else if row.display.value.None? && row.clearReason == NoReason then Some(MissingDisplayNeedsReason)
    else if shown != row.display.status then Some(EntryDisplayStatusMismatch)
    else if row.verdict.readiness == Ready && row.hardBlockers != [] then Some(ReadyWithBlockers)
    else if (row.verdict.readiness == Blocked || row.verdict.execution == ExecBlocked) && row.hardBlockers == [] then
      Some(BlockedWithoutBlockers)
    else if row.verdict.isExecutable && row.verdict.execution != ExecExecutable then Some(IsExecutableMismatch)
    else if row.entry.value != row.display.value then Some(EntryNotDisplayEntry)
    else if row.entry.status != row.display.status then Some(EntryStatusMismatch)
    else if row.verdict.finalAction == Block && row.hardBlockers == [] && row.blockCode == NoReason then
      Some(BlockWithoutReason)
    else None
  }

  /** The checks read only the prices, the statuses, the verdict and the blockers. */
  lemma FirstRejectionIgnoresLevels(row: Row, levels: Levels)
    ensures FirstRejection(row.(levels := levels)) == FirstRejection(row)
  {
  }

  /** The chain of checks lets a row through exactly when it is consistent. */
  lemma PassesIffConsistent(row: Row)
    ensures FirstRejection(row).None? <==> Consistent(row)
  {
  }

  /** What is wrong with a row that a check rejects. */
  lemma RejectedBecause(row: Row)
    ensures match FirstRejection(row)
            case None => true
            case Some(why) =>
              match why
              case BadExecutionEntryStatus =>
                row.execution.status.Displayable? || row.execution.status.Blank? || row.execution.status.UnknownStatus?
              case BadDisplayEntryStatus =>
                row.display.status.Executable? || row.display.status.Blank? || row.display.status.UnknownStatus?
              case BadEntryStatus =>
                row.entry.status.Executable? || row.entry.status.Blank? || row.entry.status.UnknownStatus?
              case BadReadiness => row.verdict.readiness == UnknownReadiness
              case BadExecutionStatus => row.verdict.execution == ExecUnknown
              case BadExecutionEntrySource => row.execution.source == UnknownSource
              case BadDisplayEntrySource => row.display.source == UnknownSource
              case ExecutionEntryNotExecutable => row.execution.value.Some? && row.execution.status != Executable
              case ExecutableWithoutEntry => row.execution.value.None? && row.execution.status == Executable
              case DisplayStatusMismatch =>
                if row.display.value.Some? then row.display.status != Displayable else row.display.status != Missing
              case MissingDisplayNeedsReason => row.display.value.None? && row.clearReason == NoReason
              case EntryDisplayStatusMismatch => row.shownStatus != Blank && row.shownStatus != row.display.status
              case ReadyWithBlockers => row.verdict.readiness == Ready && row.hardBlockers != []
              case BlockedWithoutBlockers =>
                (row.verdict.readiness == Blocked || row.verdict.execution == ExecBlocked) && row.hardBlockers == []
              case IsExecutableMismatch => row.verdict.isExecutable && row.verdict.execution != ExecExecutable
              case EntryNotDisplayEntry => row.entry.value != row.display.value
              case EntryStatusMismatch => row.entry.status != row.display.status
              case BlockWithoutReason =>
                row.verdict.finalAction == Block && row.hardBlockers == [] && row.blockCode == NoReason
              case _ => false
  {
  }

  predicate KindMarked(row: Row) {
    row.levels.explicitKind.Some? && (row.levels.explicitKind != Some(Canonical) ==> row.levels.nonCanonical)
  }

  predicate Consistent(row: Row) {
    && (if row.execution.value.Some? then row.execution.status == Executable
        else row.execution.status in {NonExecutable, Missing})
    && row.entry.value == row.display.value && row.entry.status == row.display.status
    && row.display.status == (if row.display.value.Some? then Displayable else Missing)
    && (row.shownStatus == Blank || row.shownStatus == row.display.status)
    && (row.display.value.None? ==> row.clearReason != NoReason)
    && row.execution.source != UnknownSource && row.display.source != UnknownSource
    && row.verdict.readiness != UnknownReadiness && row.verdict.execution != ExecUnknown
    && (row.verdict.finalAction == Block ==> row.hardBlockers != [] || row.blockCode != NoReason)
    && (row.verdict.readiness == Ready ==> row.hardBlockers == [])
    && (row.verdict.readiness == Blocked || row.verdict.execution == ExecBlocked ==> row.hardBlockers != [])
    && (row.verdict.isExecutable ==> row.verdict.execution == ExecExecutable)
  }

  predicate LevelsInOrder(row: Row) {
    PriceLevels.CheckLevels(row.levels.side, row.entry.value, StopOf(row.levels), row.levels.target) == PriceLevels.Fine
  }

  /** What a consumer may rely on in any accepted row. */
  predicate Trustworthy(row: Row) {
    && Consistent(row) && row.entry == row.display && row.shownStatus == row.display.status
    && (Claims(row.verdict) ==>
        HasExecutableEntryTruth(row.execution) && !row.entryRecovered && row.display.value.Some?)
    && (row.levels.explicitKind == Some(Canonical) ==> LevelsInOrder(row))
  }

  /** A row in the shape in which validation leaves it. */
  predicate Settled(row: Row) {
    && Trustworthy(row) && KindMarked(row) && (row.blockCode == NoReason ==> row.clearReason == NoReason)
  }

  /** What holds of a settled row, field by field. */
  lemma SettledIff(row: Row)
    ensures var v, levels, entry := row.verdict, row.levels, row.entry.value;
            var stop := if levels.stopLoss.Some? then levels.stopLoss else levels.stop;
            Settled(row) <==>
              && row.entry == row.display && row.shownStatus == row.display.status
              && row.display.status == (if row.display.value.Some? then Displayable else Missing)
              && (if row.execution.value.Some? then row.execution.status == Executable
                  else row.execution.status == NonExecutable || row.execution.status == Missing)
              && row.execution.source != UnknownSource && row.display.source != UnknownSource
              && (row.display.value.None? ==> row.clearReason != NoReason)
              && (row.blockCode == NoReason ==> row.clearReason == NoReason)
              && v.readiness != UnknownReadiness && v.execution != ExecUnknown
              && (v.isExecutable ==> v.execution == ExecExecutable)
              && (v.readiness == Ready ==> row.hardBlockers == [])
              && (v.readiness == Blocked || v.execution == ExecBlocked ==> row.hardBlockers != [])
              && (v.finalAction == Block ==> row.hardBlockers != [] || row.blockCode != NoReason)
              && (v.execution == ExecExecutable || v.readiness == Ready || v.finalAction == Execute
                  || v.permission == Execute || v.status == StatusReady ==>
                    && MayExecute(row.execution.value, row.execution.source, row.execution.status)
                    && !row.entryRecovered && row.display.value.Some?)
              && levels.explicitKind.Some? && (levels.explicitKind.value != Canonical ==> levels.nonCanonical)
              && (levels.explicitKind.value == Canonical ==>
                    && entry.Some? && stop.Some? && levels.target.Some?
                    && (if levels.side == PriceLevels.Sell then levels.target.value < entry.value < stop.value
                        else stop.value < entry.value < levels.target.value))
  {
  }

  /** The last rewriting of a row that passed every check. */
  method Finish(row: Row) returns (out: Row)
    requires FirstRejection(row).None?
    ensures out == row.(entry := row.display, shownStatus := row.display.status,
                        blockCode := if row.blockCode == NoReason then row.clearReason else row.blockCode)
    ensures FirstRejection(out).None?
  {
    out := row;
    if out.shownStatus == Blank {
      out := out.(shownStatus := out.display.status);
    }
    if out.blockCode == NoReason {
      out := out.(blockCode := out.clearReason);
    }
    out := out.(entry := Quote(out.entry.value, out.display.source, out.display.status));
  }

  /** Records the row's kind, so that it cannot be derived differently later. */
  method MarkKind(row: Row) returns (out: Row)
    ensures out == row.(levels := out.levels) && DeriveRowKind(out) == DeriveRowKind(row)
    ensures KindMarked(out) && FirstRejection(out) == FirstRejection(row)
    ensures KindMarked(row) ==> out == row
  {
    var kind := DeriveRowKind(row);
    var nonCanonical := row.levels.nonCanonical || kind != Canonical;
    out := row.(levels := row.levels.(explicitKind := Some(kind), nonCanonical := nonCanonical));
    FirstRejectionIgnoresLevels(row, out.levels);
  }

  /** The checks themselves; a row that passes them leaves settled. */
  method CheckRow(row: Row, otherFieldsOk: bool) returns (v: Validated)
    requires KindMarked(row)
    requires Claims(row.verdict) ==>
             HasExecutableEntryTruth(row.execution) && !row.entryRecovered && row.display.value.Some?
    ensures v.Accepted? ==> Settled(v.row) && otherFieldsOk && v.row.verdict == row.verdict && SamePrices(v.row, row)
    ensures v.Accepted? ==> v.row.levels == row.levels && v.row.execution == row.execution
    ensures Settled(row) && otherFieldsOk ==> v == Accepted(row)
    ensures v.Accepted? <==>
              && (DeriveRowKind(row) == Canonical ==> LevelsInOrder(row))
              && FirstRejection(row).None? && otherFieldsOk
  {
    PassesIffConsistent(row);
    if DeriveRowKind(row) == Canonical && !LevelsInOrder(row) {
      var found := PriceLevels.CheckLevels(row.levels.side, row.entry.value, StopOf(row.levels), row.levels.target);
      return Rejected(LevelsBroken(found));
    }
    var why := FirstRejection(row);
    if why.Some? { return Rejected(why.value); }
    if !otherFieldsOk { return Rejected(OtherFieldsInvalid); }
    var out := Finish(row);
    PassesIffConsistent(out);
    return Accepted(out);
  }

  /** `otherFieldsOk` stands for the identity, timestamp, quote and confidence checks. */
  method ValidateAdvisoryRow(payload: Row, recover: Row -> Recovery, allowLast: Row -> bool, strict: bool,
                             otherFieldsOk: bool)
    returns (v: Validated)
    ensures v.Accepted? ==> Settled(v.row) && otherFieldsOk
    ensures v.Accepted? ==> (Claims(v.row.verdict) <==> Claims(payload.verdict) && Backed(payload, recover, allowLast))
    ensures v.Accepted? && strict && v.row.levels.explicitKind == Some(Canonical) ==> SamePrices(v.row, payload)
    ensures v.Accepted? && v.row.levels.explicitKind == Some(Canonical) ==>
              var levels, entry := v.row.levels, v.row.entry.value;
              var stop := if levels.stopLoss.Some? then levels.stopLoss else levels.stop;
              && entry.Some? && stop.Some? && levels.target.Some?
              && if levels.side == PriceLevels.Sell then levels.target.value < entry.value < stop.value
                 else stop.value < entry.value < levels.target.value
    ensures v.Accepted? && payload.execution.value.None?
            && (recover(payload).entry.None? || recover(payload).status != Executable) ==>
              !Claims(v.row.verdict) && v.row.execution.value.None?
    ensures v.Accepted? && Claims(v.row.verdict) ==>
              && MayExecute(v.row.execution.value, v.row.execution.source, v.row.execution.status)
              && (v.row.execution == payload.execution
                  || (payload.execution.value.None? && recover(payload).status == Executable
                      && v.row.execution == Quote(recover(payload).entry, recover(payload).source, Executable)))
    ensures Settled(payload) && Claims(payload.verdict) && (payload.execution.source == Last ==> allowLast(payload))
            && otherFieldsOk ==>
              v == Accepted(payload.(entryChangedPostLevels := false))
  {
    var out := EnforceExecutableEntryInvariant(payload, recover, allowLast, strict);
    out := MarkKind(out);
    v := CheckRow(out, otherFieldsOk);
  }
}
