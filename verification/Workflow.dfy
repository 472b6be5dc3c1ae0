/** The agent workflow state machine and its replay. */
module Workflow {
  import opened Prelude

  datatype State =
    | Requested | ScopedByScopeOwner | ReviewedByGrill | DesignedByHermes | ImplementedByGsd
    | ReviewedByQaSafety | EvidenceRecorded | HumanApproved | MergeReady
    | BlockedScope | BlockedSafety | BlockedMissingEvidence | BlockedForbiddenPath | BlockedUnapprovedPatch

  datatype Role =
    | ScopeOwner | GrillReviewer | HermesArchitect | GsdImplementer
    | QaSafetyReviewer | EvidenceRecorder | HumanApprover

  datatype Blocker =
    | CurrentStateTerminalBlocked | MergeReadyRequiresHumanApprover | MergeReadyRequiresHumanApprovedState
    | CurrentStateInvalidForRole | TargetStateInvalidForRole | RequiredOutputsMissing
    | SafetyReviewNotPassed | EvidenceNotRecorded | HumanApprovalRequired

  // A target or role whose text is not a known one is `None`.
  datatype Transition = Transition(
    target: Option<State>, role: Option<Role>,
    outputsPresent: bool, safetyPassed: bool, evidenceRecorded: bool, humanApproved: bool)

  datatype Decision = Decision(accepted: bool, current: State, target: State, role: Role, newState: State,
                               blockers: set<Blocker>)

  predicate TerminalBlocked(s: State) {
    s in {BlockedScope, BlockedSafety, BlockedMissingEvidence, BlockedForbiddenPath, BlockedUnapprovedPatch}
  }

  /** The one transition each role owns. */
  function RoleTransition(role: Role): (State, State) {
    match role
    case ScopeOwner => (Requested, ScopedByScopeOwner)
    case GrillReviewer => (ScopedByScopeOwner, ReviewedByGrill)
    case HermesArchitect => (ReviewedByGrill, DesignedByHermes)
    case GsdImplementer => (DesignedByHermes, ImplementedByGsd)
    case QaSafetyReviewer => (ImplementedByGsd, ReviewedByQaSafety)
    case EvidenceRecorder => (ReviewedByQaSafety, EvidenceRecorded)
    case HumanApprover => (EvidenceRecorded, HumanApproved)
  }

  function If(condition: bool, b: Blocker): set<Blocker> { if condition then {b} else {} }

  function MergeBlockers(current: State, role: Role, t: Transition): set<Blocker> {
    If(role != HumanApprover, MergeReadyRequiresHumanApprover)
    + If(current != HumanApproved, MergeReadyRequiresHumanApprovedState)
    + If(!t.outputsPresent, RequiredOutputsMissing)
    + If(!t.safetyPassed, SafetyReviewNotPassed)
    + If(!t.evidenceRecorded, EvidenceNotRecorded)
    + If(!t.humanApproved, HumanApprovalRequired)
  }

  function RoleBlockers(current: State, target: State, role: Role, t: Transition): set<Blocker> {
    If(current != RoleTransition(role).0, CurrentStateInvalidForRole)
    + If(target != RoleTransition(role).1, TargetStateInvalidForRole)
    + If(!t.outputsPresent, RequiredOutputsMissing)
    + If(target == ReviewedByQaSafety && !t.safetyPassed, SafetyReviewNotPassed)
    + If(target == EvidenceRecorded && !t.evidenceRecorded, EvidenceNotRecorded)
    + If(target == HumanApproved && !t.humanApproved, HumanApprovalRequired)
  }

  function Settle(current: State, target: State, role: Role, blockers: set<Blocker>): Decision {
    Decision(blockers == {}, current, target, role, if blockers == {} then target else current, blockers)
  }

  /** `None` when the target or the role is unknown. */
  function Evaluate(current: State, t: Transition): Option<Decision> {
    if t.target.None? || t.role.None? then None
    else
      var target, role := t.target.value, t.role.value;
      if TerminalBlocked(current) then Some(Settle(current, target, role, {CurrentStateTerminalBlocked}))
      else if TerminalBlocked(target) then Some(Settle(current, target, role, {}))
      else if target == MergeReady then Some(Settle(current, target, role, MergeBlockers(current, role, t)))
      else Some(Settle(current, target, role, RoleBlockers(current, target, role, t)))
  }

  // ---------------------------------------------------------------- replay

  datatype Replayed = Replayed(finalState: State, decisions: seq<Decision>)

  /** `None` when an unknown state or role is met before the replay stops. */
  function ReplayFrom(state: State, ts: seq<Transition>): Option<Replayed>
    decreases ts
  {
    if ts == [] then Some(Replayed(state, []))
    else
      match Evaluate(state, ts[0])
      case None => None
      case Some(d) =>
        if !d.accepted || TerminalBlocked(d.newState) then Some(Replayed(d.newState, [d]))
        else
          match ReplayFrom(d.newState, ts[1..])
          case None => None
          case Some(r) => Some(Replayed(r.finalState, [d] + r.decisions))
  }

  function Prepend(ds: seq<Decision>, r: Option<Replayed>): Option<Replayed> {
    if r.None? then None else Some(Replayed(r.value.finalState, ds + r.value.decisions))
  }

  predicate Stops(d: Decision) { !d.accepted || TerminalBlocked(d.newState) }

  lemma PrependStep(ds: seq<Decision>, state: State, ts: seq<Transition>)
    requires ts != [] && Evaluate(state, ts[0]).Some?
    ensures var d := Evaluate(state, ts[0]).value;
            Prepend(ds, ReplayFrom(state, ts))
            == if Stops(d) then Some(Replayed(d.newState, ds + [d]))
               else Prepend(ds + [d], ReplayFrom(d.newState, ts[1..]))
  {
    var d := Evaluate(state, ts[0]).value;
    var later := ReplayFrom(d.newState, ts[1..]);
    assert later.Some? ==> ds + ([d] + later.value.decisions) == (ds + [d]) + later.value.decisions;
  }

  lemma PrependNothing(r: Option<Replayed>)
    ensures Prepend([], r) == r
  {
    assert r.Some? ==> [] + r.value.decisions == r.value.decisions;
  }

  method ReplayAgentWorkflow(ts: seq<Transition>) returns (r: Option<Replayed>, mergeReady: bool)
    ensures r == ReplayFrom(Requested, ts)
    ensures mergeReady <==> r.Some? && r.value.finalState == MergeReady
  {
    var state, decisions := Requested, [];
    assert ts[0..] == ts;
    PrependNothing(ReplayFrom(Requested, ts));
    for i := 0 to |ts|
      invariant ReplayFrom(Requested, ts) == Prepend(decisions, ReplayFrom(state, ts[i..]))
    {
      assert ts[i..][0] == ts[i] && ts[i..][1..] == ts[i + 1..];
      var d := Evaluate(state, ts[i]);
      if d.None? { return None, false; }
      PrependStep(decisions, state, ts[i..]);
      decisions := decisions + [d.value];
      state := d.value.newState;
      if !d.value.accepted || TerminalBlocked(state) {
        return Some(Replayed(state, decisions)), state == MergeReady;
      }
    }
    assert ts[|ts|..] == [] && decisions + [] == decisions;
    return Some(Replayed(state, decisions)), state == MergeReady;
  }

  // ---------------------------------------------------------------- the only way to merge

  /** How far along the happy path a state is; blocked states are nowhere on it. */
  function Rank(s: State): nat {
    match s
    case Requested => 0
    case ScopedByScopeOwner => 1
    case ReviewedByGrill => 2
    case DesignedByHermes => 3
    case ImplementedByGsd => 4
    case ReviewedByQaSafety => 5
    case EvidenceRecorded => 6
    case HumanApproved => 7
    case MergeReady => 8
    case _ => 9
  }

  function Owner(k: nat): Role
    requires k < 8
  {
    match k
    case 0 => ScopeOwner
    case 1 => GrillReviewer
    case 2 => HermesArchitect
    case 3 => GsdImplementer
    case 4 => QaSafetyReviewer
    case 5 => EvidenceRecorder
    case _ => HumanApprover
  }

  /** The k-th transition is the one its owner must submit, with the proofs that step needs. */
  predicate RightStep(k: nat, t: Transition)
    requires k < 8
  {
    && t.target.Some? && t.role == Some(Owner(k)) && Rank(t.target.value) == k + 1
    && t.outputsPresent
    && (k == 4 ==> t.safetyPassed)
    && (k == 5 ==> t.evidenceRecorded)
    && (k == 6 ==> t.humanApproved)
    && (k == 7 ==> t.safetyPassed && t.evidenceRecorded && t.humanApproved)
  }

  /** A transition that follows a merge-ready state without undoing it: known, and not a block. */
  predicate Harmless(t: Transition) { t.target.Some? && t.role.Some? && !TerminalBlocked(t.target.value) }

  lemma OwnersStep(s: State, target: State, role: Role)
    requires Rank(s) < 8
    ensures target != MergeReady ==>
              ((s, target) == RoleTransition(role) <==> role == Owner(Rank(s)) && Rank(target) == Rank(s) + 1)
  {
  }

  lemma NoMergeBlockers(current: State, role: Role, t: Transition)
    ensures MergeBlockers(current, role, t) == {}
        <==> && role == HumanApprover && current == HumanApproved
             && t.outputsPresent && t.safetyPassed && t.evidenceRecorded && t.humanApproved
  {
    var b := MergeBlockers(current, role, t);
    assert role != HumanApprover ==> MergeReadyRequiresHumanApprover in b;
    assert current != HumanApproved ==> MergeReadyRequiresHumanApprovedState in b;
    assert !t.outputsPresent ==> RequiredOutputsMissing in b;
    assert !t.safetyPassed ==> SafetyReviewNotPassed in b;
    assert !t.evidenceRecorded ==> EvidenceNotRecorded in b;
    assert !t.humanApproved ==> HumanApprovalRequired in b;
  }

  lemma NoRoleBlockers(current: State, target: State, role: Role, t: Transition)
    ensures RoleBlockers(current, target, role, t) == {}
        <==> (current, target) == RoleTransition(role) && t.outputsPresent
             && (target == ReviewedByQaSafety ==> t.safetyPassed) && (target == EvidenceRecorded ==> t.evidenceRecorded)
             && (target == HumanApproved ==> t.humanApproved)
  {
    var b := RoleBlockers(current, target, role, t);
    assert current != RoleTransition(role).0 ==> CurrentStateInvalidForRole in b;
    assert target != RoleTransition(role).1 ==> TargetStateInvalidForRole in b;
    assert !t.outputsPresent ==> RequiredOutputsMissing in b;
    assert target == ReviewedByQaSafety && !t.safetyPassed ==> SafetyReviewNotPassed in b;
    assert target == EvidenceRecorded && !t.evidenceRecorded ==> EvidenceNotRecorded in b;
    assert target == HumanApproved && !t.humanApproved ==> HumanApprovalRequired in b;
  }

  lemma OwnerOfMerge()
    ensures Owner(7) == HumanApprover
  {
  }

  /** An accepted step either blocks or is the right next one. */
  lemma AcceptedIff(s: State, t: Transition)
    requires Rank(s) <= 8 && Evaluate(s, t).Some?
    ensures var d := Evaluate(s, t).value;
            && (d.accepted <==> TerminalBlocked(t.target.value) || (Rank(s) < 8 && RightStep(Rank(s), t)))
            && d.newState == if d.accepted then t.target.value else s
  {
    hide MergeBlockers, RoleBlockers, RoleTransition, Owner;
    if t.target.value == MergeReady {
      MergeAcceptedIff(s, t);
    } else if !TerminalBlocked(t.target.value) {
      OwnedAcceptedIff(s, t);
    }
  }

  lemma MergeAcceptedIff(s: State, t: Transition)
    requires Rank(s) <= 8 && t.target == Some(MergeReady) && t.role.Some?
    ensures MergeBlockers(s, t.role.value, t) == {} <==> Rank(s) < 8 && RightStep(Rank(s), t)
  {
    NoMergeBlockers(s, t.role.value, t);
    hide MergeBlockers;
    OwnerOfMerge();
  }

  lemma OwnedAcceptedIff(s: State, t: Transition)
    requires Rank(s) <= 8 && t.target.Some? && t.role.Some? && t.target.value != MergeReady
             && !TerminalBlocked(t.target.value)
    ensures RoleBlockers(s, t.target.value, t.role.value, t) == {} <==> Rank(s) < 8 && RightStep(Rank(s), t)
  {
    NoRoleBlockers(s, t.target.value, t.role.value, t);
    hide RoleBlockers;
    if Rank(s) < 8 {
      OwnersStep(s, t.target.value, t.role.value);
      hide Owner;
    }
  }

  lemma {:induction false} ReplayIsShort(s: State, ts: seq<Transition>)
    requires Rank(s) <= 8 && ReplayFrom(s, ts).Some?
    ensures |ReplayFrom(s, ts).value.decisions| <= 9 - Rank(s)
    decreases ts
  {
    if ts != [] {
      AcceptedIff(s, ts[0]);
      var d := Evaluate(s, ts[0]).value;
      if d.accepted && !TerminalBlocked(d.newState) {
        ReplayIsShort(d.newState, ts[1..]);
      }
    }
  }

  /** From a state of rank k the replay ends merge-ready exactly along the remaining right steps. */
  ghost predicate RightSteps(k: nat, ts: seq<Transition>) {
    && k <= 8 && |ts| >= 8 - k
    && (forall j :: 0 <= j < 8 - k ==> RightStep(k + j, ts[j]))
    && (|ts| > 8 - k ==> Harmless(ts[8 - k]))
  }

  lemma RightStepsTail(k: nat, ts: seq<Transition>)
    requires k < 8 && ts != []
    ensures RightSteps(k, ts) <==> RightStep(k, ts[0]) && RightSteps(k + 1, ts[1..])
  {
    var rest := ts[1..];
    assert forall j :: 0 <= j < |rest| ==> rest[j] == ts[j + 1];
    if RightSteps(k, ts) {
      assert RightStep(k + 0, ts[0]);
      forall j | 0 <= j < 8 - (k + 1) ensures RightStep(k + 1 + j, rest[j]) {
        assert RightStep(k + (j + 1), ts[j + 1]);
      }
    }
    if RightStep(k, ts[0]) && RightSteps(k + 1, rest) {
      forall j | 0 <= j < 8 - k ensures RightStep(k + j, ts[j]) {
        if j > 0 {
          assert RightStep(k + 1 + (j - 1), rest[j - 1]);
        }
      }
    }
  }

  lemma {:induction false} MergeReadyFromIff(s: State, ts: seq<Transition>)
    requires Rank(s) <= 8
    ensures ReplayFrom(s, ts).Some? && ReplayFrom(s, ts).value.finalState == MergeReady <==> RightSteps(Rank(s), ts)
    decreases ts
  {
    hide Evaluate;
    if ts != [] {
      BlockedIsFinal(s, ts[0]);
    }
    if ts != [] && Evaluate(s, ts[0]).Some? {
      AcceptedIff(s, ts[0]);
      if Rank(s) < 8 {
        RightStepsTail(Rank(s), ts);
        if RightStep(Rank(s), ts[0]) {
          MergeReadyFromIff(Evaluate(s, ts[0]).value.newState, ts[1..]);
        }
      }
    }
  }

  predicate OwnedAcceptance(k: nat, d: Decision)
    requires k < 8
  {
    d.accepted && d.role == Owner(k) && Rank(d.newState) == k + 1 && d.blockers == {}
  }

  /** The decisions of a merge-ready replay. */
  lemma {:induction false} MergeReadyDecisions(s: State, ts: seq<Transition>)
    requires Rank(s) <= 8 && RightSteps(Rank(s), ts) && ReplayFrom(s, ts).Some?
    ensures var ds := ReplayFrom(s, ts).value.decisions;
            && |ds| == 8 - Rank(s) + (if |ts| > 8 - Rank(s) then 1 else 0)
            && forall j :: 0 <= j < 8 - Rank(s) ==> OwnedAcceptance(Rank(s) + j, ds[j])
    decreases ts
  {
    var k := Rank(s);
    if ts != [] {
      AcceptedIff(s, ts[0]);
    }
    if k < 8 {
      RightStepsTail(k, ts);
      var d := Evaluate(s, ts[0]).value;
      MergeReadyDecisions(d.newState, ts[1..]);
      var later := ReplayFrom(d.newState, ts[1..]).value.decisions;
      forall j | 0 <= j < 8 - k ensures OwnedAcceptance(k + j, ([d] + later)[j]) {
        assert j > 0 ==> OwnedAcceptance(k + 1 + (j - 1), later[j - 1]);
      }
    }
  }

  /**
   A replay ends merge-ready exactly when its first eight transitions are the eight owned
   ones in order, each with its proofs, and a ninth (if any) is known and blocks nothing.
   It then made eight decisions, or nine, and the first eight are the owned acceptances.
   */
  lemma MergeReadyIff(ts: seq<Transition>)
    ensures ReplayFrom(Requested, ts).Some? && ReplayFrom(Requested, ts).value.finalState == MergeReady
        <==> RightSteps(0, ts)
    ensures RightSteps(0, ts) ==>
              var ds := ReplayFrom(Requested, ts).value.decisions;
              && 8 <= |ds| <= 9
              && forall j :: 0 <= j < 8 ==> OwnedAcceptance(j, ds[j])
    ensures ReplayFrom(Requested, ts).Some? ==> |ReplayFrom(Requested, ts).value.decisions| <= 9
  {
    MergeReadyFromIff(Requested, ts);
    if ReplayFrom(Requested, ts).Some? {
      ReplayIsShort(Requested, ts);
    }
    if RightSteps(0, ts) {
      MergeReadyDecisions(Requested, ts);
      assert forall j :: 0 <= j < 8 ==> OwnedAcceptance(0 + j, ReplayFrom(Requested, ts).value.decisions[j]);
    }
  }

  // ---------------------------------------------------------------- what each decision says

  /** Blocked states are exactly those off the path, and nothing leads out of them. */
  lemma BlockedIsFinal(s: State, t: Transition)
    ensures TerminalBlocked(s) <==> Rank(s) > 8
    ensures Evaluate(s, t).None? <==> t.target.None? || t.role.None?
    ensures TerminalBlocked(s) && Evaluate(s, t).Some? ==>
              var d := Evaluate(s, t).value;
              !d.accepted && d.newState == s && d.blockers == {CurrentStateTerminalBlocked}
  {
  }

  /** Each blocker of a decision is reported exactly when the transition gives cause for it. */
  predicate CausedBy(b: Blocker, s: State, target: State, role: Role, t: Transition) {
    if Rank(s) > 8 then b == CurrentStateTerminalBlocked
    else if Rank(target) > 8 then false
    else match b
      case CurrentStateTerminalBlocked => false
      case MergeReadyRequiresHumanApprover => target == MergeReady && role != HumanApprover
      case MergeReadyRequiresHumanApprovedState => target == MergeReady && s != HumanApproved
      case CurrentStateInvalidForRole => target != MergeReady && (Rank(s) > 6 || role != Owner(Rank(s)))
      case TargetStateInvalidForRole =>
        target != MergeReady && (Rank(target) == 0 || role != Owner(Rank(target) - 1))
      case RequiredOutputsMissing => !t.outputsPresent
      case SafetyReviewNotPassed => target in {ReviewedByQaSafety, MergeReady} && !t.safetyPassed
      case EvidenceNotRecorded => target in {EvidenceRecorded, MergeReady} && !t.evidenceRecorded
      case HumanApprovalRequired => target in {HumanApproved, MergeReady} && !t.humanApproved
  }

  lemma RoleTransitionIs(role: Role, s: State)
    ensures s == RoleTransition(role).0 <==> Rank(s) <= 6 && role == Owner(Rank(s))
    ensures s == RoleTransition(role).1 <==> 1 <= Rank(s) <= 7 && role == Owner(Rank(s) - 1)
  {
  }

  lemma MergeBlockersMean(s: State, role: Role, t: Transition, b: Blocker)
    requires Rank(s) <= 8
    ensures b in MergeBlockers(s, role, t) <==> CausedBy(b, s, MergeReady, role, t)
  {
  }

  lemma RoleBlockersAre(s: State, target: State, role: Role, t: Transition, b: Blocker)
    ensures b in RoleBlockers(s, target, role, t) <==>
              || (b == CurrentStateInvalidForRole && s != RoleTransition(role).0)
              || (b == TargetStateInvalidForRole && target != RoleTransition(role).1)
              || (b == RequiredOutputsMissing && !t.outputsPresent)
              || (b == SafetyReviewNotPassed && target == ReviewedByQaSafety && !t.safetyPassed)
              || (b == EvidenceNotRecorded && target == EvidenceRecorded && !t.evidenceRecorded)
              || (b == HumanApprovalRequired && target == HumanApproved && !t.humanApproved)
  {
    hide RoleTransition;
  }

  lemma RoleBlockersMean(s: State, target: State, role: Role, t: Transition, b: Blocker)
    requires Rank(s) <= 8 && Rank(target) < 8
    ensures b in RoleBlockers(s, target, role, t) <==> CausedBy(b, s, target, role, t)
  {
    hide RoleTransition, Owner, RoleBlockers;
    RoleBlockersAre(s, target, role, t, b);
    RoleTransitionIs(role, s);
    RoleTransitionIs(role, target);
    assert target != MergeReady;
    hide Rank;
  }

  lemma BlockersMean(s: State, t: Transition, b: Blocker)
    requires Evaluate(s, t).Some?
    ensures b in Evaluate(s, t).value.blockers <==> CausedBy(b, s, t.target.value, t.role.value, t)
    ensures var d := Evaluate(s, t).value;
            d.current == s && d.target == t.target.value && d.role == t.role.value
  {
    hide MergeBlockers, RoleBlockers, Owner;
    var target, role := t.target.value, t.role.value;
    BlockedIsFinal(s, t);
    BlockedIsFinal(target, t);
    assert Rank(target) == 8 <==> target == MergeReady;
    hide Rank;
    if Rank(s) <= 8 && Rank(target) <= 8 {
      if target == MergeReady { MergeBlockersMean(s, role, t, b); } else { RoleBlockersMean(s, target, role, t, b); }
    }
  }

  // ---------------------------------------------------------------- what a replay records

  /** The state before the i-th decision. */
  function StateBefore(start: State, ds: seq<Decision>, i: nat): State
    requires i <= |ds|
  {
    if i == 0 then start else ds[i - 1].newState
  }

  /** Each decision is the one about its own transition, in the state the one before left; only the last may stop it. */
  ghost predicate Records(start: State, ts: seq<Transition>, ds: seq<Decision>) {
    && |ds| <= |ts|
    && (forall i :: 0 <= i < |ds| ==> Evaluate(StateBefore(start, ds, i), ts[i]) == Some(ds[i]))
    && (forall i :: 0 <= i < |ds| - 1 ==> ds[i].accepted && Rank(ds[i].newState) <= 8)
  }

  lemma RecordsStep(start: State, ts: seq<Transition>, d: Decision, ds: seq<Decision>)
    requires ts != [] && Evaluate(start, ts[0]) == Some(d) && Records(d.newState, ts[1..], ds)
    requires ds != [] ==> d.accepted && Rank(d.newState) <= 8
    ensures Records(start, ts, [d] + ds)
    ensures StateBefore(start, [d] + ds, |ds| + 1) == StateBefore(d.newState, ds, |ds|)
  {
    hide Evaluate, Rank;
    var all := [d] + ds;
    forall i | 0 <= i < |all|
      ensures Evaluate(StateBefore(start, all, i), ts[i]) == Some(all[i])
    {
      if i > 0 {
        assert ts[1..][i - 1] == ts[i] && all[i] == ds[i - 1];
        assert StateBefore(start, all, i) == StateBefore(d.newState, ds, i - 1);
      }
    }
    forall i | 0 <= i < |all| - 1
      ensures all[i].accepted && Rank(all[i].newState) <= 8
    {
      assert i > 0 ==> all[i] == ds[i - 1];
    }
  }

  /**
   A replay records one decision after the other until one refuses or blocks or the list
   ends, and reports the state that the last one left.
   */
  lemma {:induction false} ReplayRecords(start: State, ts: seq<Transition>)
    requires ReplayFrom(start, ts).Some?
    ensures var ds := ReplayFrom(start, ts).value.decisions;
            && Records(start, ts, ds)
            && ReplayFrom(start, ts).value.finalState == StateBefore(start, ds, |ds|)
            && (|ds| < |ts| ==> ds != [] && (!ds[|ds| - 1].accepted || Rank(ds[|ds| - 1].newState) > 8))
    decreases ts
  {
    hide Evaluate, Rank, TerminalBlocked;
    if ts != [] {
      var d := Evaluate(start, ts[0]).value;
      BlockedIsFinal(d.newState, ts[0]);
      if d.accepted && !TerminalBlocked(d.newState) {
        ReplayRecords(d.newState, ts[1..]);
        var ds := ReplayFrom(d.newState, ts[1..]).value.decisions;
        RecordsStep(start, ts, d, ds);
        hide Records;
        assert ds != [] ==> ([d] + ds)[|ds|] == ds[|ds| - 1];
      } else {
        RecordsStep(start, ts, d, []);
        assert [d] + [] == [d];
      }
    }
  }

  /** After these decisions the replay goes on, and meets a transition whose target or role is unknown. */
  ghost predicate RaisesAfter(start: State, ts: seq<Transition>, ds: seq<Decision>) {
    && Records(start, ts, ds) && |ds| < |ts| && (ts[|ds|].target.None? || ts[|ds|].role.None?)
    && (ds != [] ==> ds[|ds| - 1].accepted && Rank(ds[|ds| - 1].newState) <= 8)
  }

  lemma {:induction false} RaisesForCause(start: State, ts: seq<Transition>) returns (ds: seq<Decision>)
    requires ReplayFrom(start, ts).None?
    ensures RaisesAfter(start, ts, ds)
    decreases ts
  {
    if Evaluate(start, ts[0]).None? {
      ds := [];
    } else {
      var d := Evaluate(start, ts[0]).value;
      BlockedIsFinal(d.newState, ts[0]);
      var later := RaisesForCause(d.newState, ts[1..]);
      RecordsStep(start, ts, d, later);
      ds := [d] + later;
      hide Records, Evaluate, ReplayFrom;
      assert ts[|ds|] == ts[1..][|later|];
      assert later != [] ==> ds[|ds| - 1] == later[|later| - 1];
    }
  }

  lemma {:induction false} RaisesWhenUnknown(start: State, ts: seq<Transition>, ds: seq<Decision>)
    requires RaisesAfter(start, ts, ds)
    ensures ReplayFrom(start, ts).None?
    decreases ts
  {
    hide Evaluate, Rank, TerminalBlocked;
    BlockedIsFinal(start, ts[0]);
    if ds != [] {
      var d, rest := ds[0], ds[1..];
      assert Evaluate(StateBefore(start, ds, 0), ts[0]) == Some(d);
      BlockedIsFinal(d.newState, ts[0]);
      LaterRecords(start, ts, ds);
      assert d.accepted && Rank(d.newState) <= 8;
      assert ts[1..][|rest|] == ts[|ds|];
      RaisesWhenUnknown(d.newState, ts[1..], rest);
    }
  }

  lemma LaterRecords(start: State, ts: seq<Transition>, ds: seq<Decision>)
    requires Records(start, ts, ds) && ds != []
    ensures Records(ds[0].newState, ts[1..], ds[1..])
  {
    hide Evaluate, Rank;
    var rest := ds[1..];
    forall i | 0 <= i < |rest|
      ensures Evaluate(StateBefore(ds[0].newState, rest, i), ts[1..][i]) == Some(rest[i])
    {
      assert StateBefore(ds[0].newState, rest, i) == StateBefore(start, ds, i + 1);
      assert Evaluate(StateBefore(start, ds, i + 1), ts[i + 1]) == Some(ds[i + 1]);
    }
    assert forall i :: 0 <= i < |rest| - 1 ==> rest[i] == ds[i + 1];
  }

  /** A replay raises exactly when it reaches a transition whose target or role is unknown. */
  lemma ReplayRaisesIff(start: State, ts: seq<Transition>)
    ensures ReplayFrom(start, ts).None? <==> exists ds :: RaisesAfter(start, ts, ds)
  {
    if ReplayFrom(start, ts).None? { var _ := RaisesForCause(start, ts); }
    if ds :| RaisesAfter(start, ts, ds) { RaisesWhenUnknown(start, ts, ds); }
  }
}
