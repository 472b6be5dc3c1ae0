/** What each answer of the scope guard and of the approval says, in terms of the request itself. */
module AgentWorkTheorems {
  import opened Prelude
  import opened Text
  import opened AgentWork

  // ---------------------------------------------------------------- requests

  /** The first field that is missing or unknown is reported; otherwise every text is trimmed and every path cleaned. */
  lemma NormalizeIs(raw: RawRequest)
    ensures Normalize(raw) == BadShape(SourceAgentUnknown) <==> raw.source.None?
    ensures Normalize(raw) == BadShape(ActionUnknown) <==> raw.source.Some? && raw.action.None?
    ensures Normalize(raw) == BadShape(TitleMissing) <==>
              raw.source.Some? && raw.action.Some? && Trim(raw.title) == ""
    ensures Normalize(raw) == BadShape(ScopeMissing) <==>
              raw.source.Some? && raw.action.Some? && Trim(raw.title) != "" && Trim(raw.scope) == ""
    ensures Normalize(raw) == BadShape(RequestedPathsMissing) <==>
              && raw.source.Some? && raw.action.Some? && Trim(raw.title) != "" && Trim(raw.scope) != ""
              && forall p :: p in raw.requestedPaths ==> Trim(p) == ""
    ensures Normalize(raw).WellShaped? ==>
              var r := Normalize(raw).request;
              && Some(r.source) == raw.source && Some(r.action) == raw.action
              && r.title == Trim(raw.title) && r.scope == Trim(raw.scope)
              && r.allowedPaths == CleanPaths(raw.allowedPaths) && r.requestedPaths == CleanPaths(raw.requestedPaths)
              && r.forbiddenPaths == CleanPaths(raw.forbiddenPaths)
              && r.requiresHuman == raw.requiresHuman && r.metadata == raw.metadata
  {
    hide Trim, CleanPaths;
    forall p | p in raw.requestedPaths && Trim(p) != ""
      ensures CleanPaths(raw.requestedPaths) != []
    {
      assert NormalizePath(p) in CleanPaths(raw.requestedPaths);
    }
    if CleanPaths(raw.requestedPaths) != [] {
      assert CleanPaths(raw.requestedPaths)[0] in CleanPaths(raw.requestedPaths);
    }
  }

  lemma {:induction false} CleanPathsOfBoth(a: seq<string>, b: seq<string>)
    ensures CleanPaths(a + b) == CleanPaths(a) + CleanPaths(b)
  {
    hide NormalizePath, Trim;
    if b == [] {
      assert a + b == a;
    } else {
      CleanPathsOfBoth(a, b[..|b| - 1]);
      assert (a + b)[..|a + b| - 1] == a + b[..|b| - 1];
    }
  }

  lemma CleanPathsOfOne(p: string)
    ensures CleanPaths([p]) == if Trim(p) == "" then [] else [Slashed(Trim(p))]
  {
    hide Trim;
    assert [p][..0] == [];
  }

  /** Paths are cleaned one by one, in their order: trimmed, with slashes for backslashes, blank ones left out. */
  lemma CleanPathsIs(a: seq<string>, b: seq<string>)
    ensures CleanPaths(a + b) == CleanPaths(a) + CleanPaths(b)
    ensures forall p :: CleanPaths([p]) == if Trim(p) == "" then [] else [Slashed(Trim(p))]
  {
    hide CleanPaths, Trim, Slashed;
    CleanPathsOfBoth(a, b);
    forall p
      ensures CleanPaths([p]) == if Trim(p) == "" then [] else [Slashed(Trim(p))]
    {
      CleanPathsOfOne(p);
    }
  }

  /** Two requests have one identity exactly when they differ in bounds, human flag and metadata alone. */
  lemma SameIdentityIff(a: Request, b: Request)
    ensures IdentityOf(a) == IdentityOf(b)
        <==> a == b.(allowedPaths := a.allowedPaths, forbiddenPaths := a.forbiddenPaths,
                     requiresHuman := a.requiresHuman, metadata := a.metadata)
  {
  }

  // ---------------------------------------------------------------- who may do what

  /** The agents that an action belongs to; the manual source may ask for any. */
  function Doers(a: Action): set<Source> {
    match a
    case CritiqueScope | ReviewPr | AuditRisk | FindFakeProgress => {GrillMe, Manual}
    case DesignArchitecture | DefineContract | MapWorkflow | CreateAcceptanceGates => {Hermes, Manual}
    case PlanPr | GenerateTests | GeneratePatch | FixTestFailure => {Gsd, Manual}
    case UpdateDocs => {Hermes, Gsd, Manual}
    case PlaceOrder | ModifyOrder | CancelOrder | ExitPosition | EnableLive | DisableRiskGate => {Manual}
    case ChangeBrokerConfig | ChangeLiveConfig | CallBrokerApi => {Manual}
  }

  lemma ActionAllowedIff(source: Source, a: Action)
    ensures ActionAllowed(source, a) <==> source in Doers(a)
  {
  }

  /** An action is forbidden exactly when it is about orders, positions, the broker, live mode or the risk gate. */
  lemma ForbiddenActionIff(a: Action)
    ensures ForbiddenAction(a) <==> OrderAction(a) || BrokerAction(a) || LiveAction(a) || a == DisableRiskGate
    ensures OrderAction(a) <==> a.PlaceOrder? || a.ModifyOrder? || a.CancelOrder? || a.ExitPosition?
    ensures BrokerAction(a) <==> a.CallBrokerApi? || a.ChangeBrokerConfig?
    ensures LiveAction(a) <==> a.EnableLive? || a.ChangeLiveConfig?
    ensures ForbiddenAction(a) <==> Doers(a) == {Manual}
  {
    match a
    case UpdateDocs => assert Gsd in Doers(a);
    case CritiqueScope | ReviewPr | AuditRisk | FindFakeProgress => assert GrillMe in Doers(a);
    case DesignArchitecture | DefineContract | MapWorkflow | CreateAcceptanceGates => assert Hermes in Doers(a);
    case PlanPr | GenerateTests | GeneratePatch | FixTestFailure => assert Gsd in Doers(a);
    case _ =>
  }

  // ---------------------------------------------------------------- guarded places

  /** The path is the directory itself or starts with its name and a slash. */
  predicate Inside(path: string, dir: string) { path == dir || dir + ['/'] <= path }

  /** A list covers a path exactly when one of its entries does. */
  predicate Covers(path: string, prefix: string) {
    if prefix != "" && prefix[|prefix| - 1] == '/' then Inside(path, prefix[..|prefix| - 1]) else prefix <= path
  }

  lemma UnderAnyIff(path: string, prefixes: seq<string>)
    requires forall i :: 0 <= i < |prefixes| ==> OneSlashAtMost(prefixes[i])
    ensures UnderAny(path, prefixes) <==> exists i :: 0 <= i < |prefixes| && Covers(path, prefixes[i])
  {
    forall i | 0 <= i < |prefixes|
      ensures path == StripSlashes(prefixes[i]) || prefixes[i] <= path <==> Covers(path, prefixes[i])
    {
      DirectoryIsStripped(prefixes[i]);
      hide StripSlashes;
    }
    hide StripSlashes, Covers;
  }

  lemma CoversDirectory(path: string, prefix: string, dir: string)
    requires prefix == dir + ['/']
    ensures Covers(path, prefix) <==> Inside(path, dir)
  {
    assert prefix[..|prefix| - 1] == dir;
  }

  lemma CoversName(path: string, prefix: string)
    requires prefix != "" && prefix[|prefix| - 1] != '/'
    ensures Covers(path, prefix) <==> prefix <= path
  {
  }

  /** The places that no agent may ask for. */
  lemma ForbiddenPlaces(path: string)
    ensures UnderAny(path, ForbiddenPathPrefixes()) <==>
              || ".env" <= path || "credentials.py" <= path || "config/secrets" <= path || "runtime/live" <= path
              || "logs/broker" <= path || Inside(path, "broker_contract") || "execution_safety/live" <= path
              || "execution_readiness/live" <= path || "paper_broker/live" <= path
  {
    hide UnderAny, StripSlashes, Covers, Inside;
    var l := ForbiddenPathPrefixes();
    assert |l| == 9;
    CoversName(path, l[0]);
    CoversName(path, l[1]);
    CoversName(path, l[2]);
    CoversName(path, l[3]);
    CoversName(path, l[4]);
    CoversDirectory(path, l[5], "broker_contract");
    CoversName(path, l[6]);
    CoversName(path, l[7]);
    CoversName(path, l[8]);
    UnderAnyIff(path, l);
  }

  /** The places whose change a human has to approve. */
  lemma HighRiskPlaces(path: string)
    ensures UnderAny(path, HighRiskPathPrefixes()) <==>
              || Inside(path, "broker_contract") || Inside(path, "execution_safety")
              || Inside(path, "execution_readiness") || Inside(path, "paper_trading")
              || "core/risk" <= path || "core/execution" <= path || Inside(path, "config")
              || "main.py" <= path || "run_live.sh" <= path
  {
    hide UnderAny, StripSlashes, Covers, Inside;
    var l := HighRiskPathPrefixes();
    assert |l| == 9;
    CoversDirectory(path, l[0], "broker_contract");
    CoversDirectory(path, l[1], "execution_safety");
    CoversDirectory(path, l[2], "execution_readiness");
    CoversDirectory(path, l[3], "paper_trading");
    CoversName(path, l[4]);
    CoversName(path, l[5]);
    CoversDirectory(path, l[6], "config");
    CoversName(path, l[7]);
    CoversName(path, l[8]);
    UnderAnyIff(path, l);
  }

  lemma LowRiskPlaces(path: string)
    ensures UnderAny(path, LowRiskPathPrefixes()) <==> Inside(path, "docs") || Inside(path, "tests")
  {
    hide UnderAny, StripSlashes, Covers, Inside;
    var l := LowRiskPathPrefixes();
    assert |l| == 2;
    CoversDirectory(path, l[0], "docs");
    CoversDirectory(path, l[1], "tests");
    UnderAnyIff(path, l);
  }

  // ---------------------------------------------------------------- the scope decision

  /** A path with backslashes for slashes, or space around it, counts as the path it is cleaned to. */
  predicate UnderPlace(path: string, prefixes: seq<string>) { UnderAny(Slashed(Trim(path)), prefixes) }

  ghost predicate HighRiskWork(r: Request) {
    exists p :: p in r.requestedPaths && UnderPlace(p, HighRiskPathPrefixes())
  }

  ghost predicate HarmlessWork(r: Request) {
    r.requestedPaths != [] && forall p :: p in r.requestedPaths ==> UnderPlace(p, LowRiskPathPrefixes())
  }

  /**
   A patch may be made without a human, at low risk, exactly by a request within bounds that
   lies wholly under docs and tests and touches nothing of high risk.
   */
  lemma ScopeMeans(r: Request, idOf: Identity -> WorkId)
    ensures var d := Scope(r, idOf);
            && (d.state == ApprovedForPatch <==> WithinBounds(r) && HarmlessWork(r) && !HighRiskWork(r))
            && (d.state == ApprovedForPatch <==> d.allowedForPatch)
            && (d.state == ApprovedForPatch <==> d.risk == Low)
            && (d.state == ApprovedForPatch <==> !d.requiresHuman)
            && (d.risk == High <==> WithinBounds(r) && HighRiskWork(r))
            && (d.risk == BlockedRisk <==> !WithinBounds(r)) && (d.state == Blocked <==> !WithinBounds(r))
            && (d.accepted <==> WithinBounds(r)) && (d.blockers == {} <==> WithinBounds(r))
            && d.workId == (if WithinBounds(r) then Some(idOf(IdentityOf(r))) else None) && d.unsafeFlags == {}
  {
    AcceptedIffWithinBounds(r, idOf);
    hide WithinBounds, ForbiddenPathPrefixes, HighRiskPathPrefixes, LowRiskPathPrefixes, BlockersUpTo, UnderAny, Trim,
      Slashed;
  }

  /** Each blocker is reported exactly when the request gives cause for it. */
  ghost predicate CausedBy(b: Blocker, r: Request) {
    match b
    case ActionNotAllowedForSourceAgent => r.source !in Doers(r.action)
    case ActionForbidden => Doers(r.action) == {Manual}
    case OrderActionForbidden => OrderAction(r.action)
    case BrokerApiForbidden => BrokerAction(r.action)
    case LiveActionForbidden => LiveAction(r.action)
    case RequestedPathsMissingBlocker => r.requestedPaths == []
    case ForbiddenPathRequested => exists p :: p in r.requestedPaths && UnderPlace(p, ForbiddenPathPrefixes())
    case RequestedPathExplicitlyForbidden =>
      exists p, q :: p in r.requestedPaths && q in r.forbiddenPaths && Slashed(Trim(p)) == Slashed(Trim(q))
    case RequestedPathOutsideAllowedPaths =>
      r.allowedPaths != [] && exists p :: p in r.requestedPaths && !UnderPlace(p, r.allowedPaths)
  }

  lemma PathCauses(path: string, r: Request, b: Blocker)
    ensures b in PathBlockers(path, r) <==>
              || (b == ForbiddenPathRequested && UnderPlace(path, ForbiddenPathPrefixes()))
              || (b == RequestedPathExplicitlyForbidden
                  && exists q :: q in r.forbiddenPaths && Slashed(Trim(path)) == Slashed(Trim(q)))
              || (b == RequestedPathOutsideAllowedPaths && r.allowedPaths != [] && !UnderPlace(path, r.allowedPaths))
  {
    NormalizePathTwice(path);
    hide ForbiddenPathPrefixes, UnderAny, Trim, Slashed;
    assert ExplicitlyForbidden(NormalizePath(path), r.forbiddenPaths)
      <==> exists q :: q in r.forbiddenPaths && Slashed(Trim(path)) == Slashed(Trim(q));
    hide ExplicitlyForbidden;
  }

  lemma {:induction false} BlockersAre(r: Request, n: nat, b: Blocker)
    requires n <= |r.requestedPaths|
    ensures b in BlockersUpTo(r, n)
        <==> b in ActionBlockers(r) || exists i :: 0 <= i < n && b in PathBlockers(r.requestedPaths[i], r)
  {
    hide ActionBlockers, PathBlockers;
    if n > 0 { BlockersAre(r, n - 1, b); }
  }

  lemma BlockersMean(r: Request, idOf: Identity -> WorkId, b: Blocker)
    ensures b in Scope(r, idOf).blockers <==> CausedBy(b, r)
  {
    hide PathBlockers, ActionBlockers, UnderPlace, Trim, Slashed, ForbiddenPathPrefixes, BlockersUpTo;
    BlockersAre(r, |r.requestedPaths|, b);
    ActionCauses(r, b);
    SomePathCauses(r, b);
  }

  lemma SomePathCauses(r: Request, b: Blocker)
    ensures (exists i :: 0 <= i < |r.requestedPaths| && b in PathBlockers(r.requestedPaths[i], r)) <==>
              && (b.ForbiddenPathRequested? || b.RequestedPathExplicitlyForbidden?
                  || b.RequestedPathOutsideAllowedPaths?)
              && CausedBy(b, r)
  {
    hide PathBlockers, UnderPlace, Trim, Slashed, ForbiddenPathPrefixes, Doers, OrderAction, BrokerAction, LiveAction;
    if i :| 0 <= i < |r.requestedPaths| && b in PathBlockers(r.requestedPaths[i], r) {
      PathCauses(r.requestedPaths[i], r, b);
    }
    if (b.ForbiddenPathRequested? || b.RequestedPathExplicitlyForbidden? || b.RequestedPathOutsideAllowedPaths?)
       && CausedBy(b, r) {
      var p := CauseOf(r, b);
      var i :| 0 <= i < |r.requestedPaths| && r.requestedPaths[i] == p;
    }
  }

  lemma CauseOf(r: Request, b: Blocker) returns (p: string)
    requires b.ForbiddenPathRequested? || b.RequestedPathExplicitlyForbidden? || b.RequestedPathOutsideAllowedPaths?
    requires CausedBy(b, r)
    ensures p in r.requestedPaths && b in PathBlockers(p, r)
  {
    hide PathBlockers, UnderPlace, Trim, Slashed, ForbiddenPathPrefixes;
    if b.ForbiddenPathRequested? {
      p :| p in r.requestedPaths && UnderPlace(p, ForbiddenPathPrefixes());
    } else if b.RequestedPathExplicitlyForbidden? {
      p :| p in r.requestedPaths && exists q :: q in r.forbiddenPaths && Slashed(Trim(p)) == Slashed(Trim(q));
    } else {
      p :| p in r.requestedPaths && !UnderPlace(p, r.allowedPaths);
    }
    PathCauses(p, r, b);
  }

  lemma ActionCauses(r: Request, b: Blocker)
    ensures b in ActionBlockers(r) <==>
              && (b.ActionNotAllowedForSourceAgent? || b.ActionForbidden? || b.OrderActionForbidden?
                  || b.BrokerApiForbidden? || b.LiveActionForbidden? || b.RequestedPathsMissingBlocker?)
              && CausedBy(b, r)
  {
    ActionAllowedIff(r.source, r.action);
    ForbiddenActionIff(r.action);
    hide ActionAllowed, ForbiddenAction, OrderAction, BrokerAction, LiveAction, Doers;
  }

  // ---------------------------------------------------------------- the approval

  /** What an approval decision says, and why it refuses. */
  lemma ApprovalMeans(d: ScopeDecision, human: bool, approver: Option<string>)
    ensures var a := Approval(d, human, approver);
            var named := approver.Some? && Trim(approver.value) != "";
            && (a.approved <==>
                  && d.accepted && d.state != Blocked && d.unsafeFlags == {}
                  && (d.requiresHuman ==> human && named))
            && a.allowedForPatch == a.approved && a.workId == d.workId
            && a.approvedBy == (if a.approved && human && named then Some(Trim(approver.value)) else None)
  {
    ApprovedIffGrantable(d, human, approver);
    hide ApprovalBlockers, Trim;
  }

  predicate Refused(b: ApprovalBlocker, d: ScopeDecision, human: bool, approver: Option<string>) {
    match b
    case ScopeDecisionNotAccepted => !d.accepted
    case BlockedWorkCannotBeApproved => d.state == Blocked
    case HumanApprovalRequired => d.requiresHuman && !human
    case ApprovedByRequired => d.requiresHuman && human && (approver.None? || Trim(approver.value) == "")
    case OrderForbidden => IsOrderAction in d.unsafeFlags
    case BrokerForbidden => BrokerApiCalled in d.unsafeFlags || AllowedForBrokerApi in d.unsafeFlags
    case LiveExecutionForbidden => LiveModeTouched in d.unsafeFlags || AllowedForLiveExecution in d.unsafeFlags
    case RuntimeWiringForbidden => AllowedForRuntimeWiring in d.unsafeFlags
  }

  lemma ApprovalBlockersMean(d: ScopeDecision, human: bool, approver: Option<string>, b: ApprovalBlocker)
    ensures b in Approval(d, human, approver).blockers <==> Refused(b, d, human, approver)
  {
    hide Trim;
  }
}
