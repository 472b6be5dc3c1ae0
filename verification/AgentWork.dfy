/** Agent work requests, the scope guard that bounds them, and the approval that may follow. */
module AgentWork {
  import opened Prelude
  import opened Text

  datatype Source = GrillMe | Hermes | Gsd | Manual

  datatype Action =
    | CritiqueScope | ReviewPr | AuditRisk | FindFakeProgress
    | DesignArchitecture | DefineContract | MapWorkflow | CreateAcceptanceGates
    | PlanPr | GenerateTests | GeneratePatch | FixTestFailure | UpdateDocs
    | PlaceOrder | ModifyOrder | CancelOrder | ExitPosition | EnableLive | DisableRiskGate
    | ChangeBrokerConfig | ChangeLiveConfig | CallBrokerApi

  predicate ActionAllowed(source: Source, a: Action) {
    match source
    case GrillMe => a in {CritiqueScope, ReviewPr, AuditRisk, FindFakeProgress}
    case Hermes => a in {DesignArchitecture, DefineContract, MapWorkflow, CreateAcceptanceGates, UpdateDocs}
    case Gsd => a in {PlanPr, GenerateTests, GeneratePatch, FixTestFailure, UpdateDocs}
    case Manual => true
  }

  predicate OrderAction(a: Action) { a in {PlaceOrder, ModifyOrder, CancelOrder, ExitPosition} }

  predicate BrokerAction(a: Action) { a in {CallBrokerApi, ChangeBrokerConfig} }

  predicate LiveAction(a: Action) { a in {EnableLive, ChangeLiveConfig} }

  predicate ForbiddenAction(a: Action) {
    a in {PlaceOrder, ModifyOrder, CancelOrder, ExitPosition, EnableLive, DisableRiskGate, ChangeBrokerConfig,
          ChangeLiveConfig, CallBrokerApi}
  }

  // ---------------------------------------------------------------- requests

  // A source or action whose text is not a known one is `None`.
  datatype RawRequest = RawRequest(
    source: Option<Source>, action: Option<Action>, title: string, scope: string, allowedPaths: seq<string>,
    requestedPaths: seq<string>, forbiddenPaths: seq<string>, requiresHuman: bool, metadata: string)

  datatype Request = Request(
    source: Source, action: Action, title: string, scope: string, allowedPaths: seq<string>,
    requestedPaths: seq<string>, forbiddenPaths: seq<string>, requiresHuman: bool, metadata: string)

  datatype ShapeError = SourceAgentUnknown | ActionUnknown | TitleMissing | ScopeMissing | RequestedPathsMissing

  datatype Normalized = WellShaped(request: Request) | BadShape(error: ShapeError)

  function NormalizePath(path: string): string { Slashed(Trim(path)) }

  function CleanPaths(raw: seq<string>): (clean: seq<string>)
    ensures forall p :: p in clean <==> p != "" && exists q :: q in raw && NormalizePath(q) == p
  {
    if raw == [] then []
    else
      var last := NormalizePath(raw[|raw| - 1]);
      assert raw == raw[..|raw| - 1] + [raw[|raw| - 1]];
      CleanPaths(raw[..|raw| - 1]) + if last == "" then [] else [last]
  }

  method CollectPaths(raw: seq<string>) returns (clean: seq<string>)
    ensures clean == CleanPaths(raw)
  {
    hide NormalizePath;
    clean := [];
    for i := 0 to |raw|
      invariant clean == CleanPaths(raw[..i])
    {
      assert raw[..i + 1][..i] == raw[..i];
      var path := NormalizePath(raw[i]);
      if path != "" { clean := clean + [path]; }
    }
    assert raw[..|raw|] == raw;
  }

  function Normalize(raw: RawRequest): Normalized {
    if raw.source.None? then BadShape(SourceAgentUnknown)
    else if raw.action.None? then BadShape(ActionUnknown)
    else if Trim(raw.title) == "" then BadShape(TitleMissing)
    else if Trim(raw.scope) == "" then BadShape(ScopeMissing)
    else if CleanPaths(raw.requestedPaths) == [] then BadShape(RequestedPathsMissing)
    else WellShaped(Request(raw.source.value, raw.action.value, Trim(raw.title), Trim(raw.scope),
                            CleanPaths(raw.allowedPaths), CleanPaths(raw.requestedPaths),
                            CleanPaths(raw.forbiddenPaths), raw.requiresHuman, raw.metadata))
  }

  method NormalizeAgentWorkRequest(raw: RawRequest) returns (n: Normalized)
    ensures n == Normalize(raw)
    ensures n.WellShaped? ==> n.request.requestedPaths != [] && "" !in n.request.requestedPaths
  {
    if raw.source.None? { return BadShape(SourceAgentUnknown); }
    if raw.action.None? { return BadShape(ActionUnknown); }
    var title := Trim(raw.title);
    if title == "" { return BadShape(TitleMissing); }
    var scope := Trim(raw.scope);
    if scope == "" { return BadShape(ScopeMissing); }
    var allowed := CollectPaths(raw.allowedPaths);
    var requested := CollectPaths(raw.requestedPaths);
    if requested == [] { return BadShape(RequestedPathsMissing); }
    var forbidden := CollectPaths(raw.forbiddenPaths);
    return WellShaped(Request(raw.source.value, raw.action.value, title, scope, allowed, requested, forbidden,
                              raw.requiresHuman, raw.metadata));
  }

  /** The fields that a work id is a digest of; the allowed and forbidden paths are not among them. */
  datatype Identity = Identity(source: Source, action: Action, title: string, scope: string,
                               requestedPaths: seq<string>)

  type WorkId = nat

  function IdentityOf(r: Request): Identity { Identity(r.source, r.action, r.title, r.scope, r.requestedPaths) }

  // ---------------------------------------------------------------- the scope guard

  function ForbiddenPathPrefixes(): seq<string> {
    [".env", "credentials.py", "config/secrets", "runtime/live", "logs/broker", "broker_contract/",
     "execution_safety/live", "execution_readiness/live", "paper_broker/live"]
  }

  function HighRiskPathPrefixes(): seq<string> {
    ["broker_contract/", "execution_safety/", "execution_readiness/", "paper_trading/", "core/risk",
     "core/execution", "config/", "main.py", "run_live.sh"]
  }

  function LowRiskPathPrefixes(): seq<string> { ["docs/", "tests/"] }

  function StripSlashes(s: string): string {
    if s != "" && s[|s| - 1] == '/' then StripSlashes(s[..|s| - 1]) else s
  }

  predicate UnderAny(path: string, prefixes: seq<string>) {
    exists i :: 0 <= i < |prefixes| && (path == StripSlashes(prefixes[i]) || prefixes[i] <= path)
  }

  predicate StartsWithAny(path: string, prefixes: seq<string>) { UnderAny(NormalizePath(path), prefixes) }

  predicate OutsideAllowedPaths(path: string, allowed: seq<string>) {
    allowed != [] && !UnderAny(NormalizePath(path), allowed)
  }

  predicate ExplicitlyForbidden(path: string, forbidden: seq<string>) {
    exists i :: 0 <= i < |forbidden| && NormalizePath(path) == NormalizePath(forbidden[i])
  }

  datatype Blocker =
    | ActionNotAllowedForSourceAgent | ActionForbidden | OrderActionForbidden | BrokerApiForbidden | LiveActionForbidden
    | RequestedPathsMissingBlocker | ForbiddenPathRequested | RequestedPathExplicitlyForbidden
    | RequestedPathOutsideAllowedPaths

  datatype WorkState = Blocked | WaitingHumanApproval | ApprovedForPatch

  datatype Risk = Low | Medium | High | BlockedRisk

  datatype UnsafeFlag =
    | IsOrderAction | BrokerApiCalled | LiveModeTouched
    | AllowedForRuntimeWiring | AllowedForBrokerApi | AllowedForLiveExecution

  datatype ScopeDecision = ScopeDecision(
    workId: Option<WorkId>, accepted: bool, state: WorkState, risk: Risk, unsafeFlags: set<UnsafeFlag>,
    allowedForPatch: bool, requiresHuman: bool, blockers: set<Blocker>)

  /** What an accepted request stays within. */
  predicate WithinBounds(r: Request) {
    && ActionAllowed(r.source, r.action) && !ForbiddenAction(r.action) && r.requestedPaths != []
    && forall p :: p in r.requestedPaths ==> PathWithinBounds(p, r)
  }

  predicate PathWithinBounds(path: string, r: Request) {
    && !StartsWithAny(path, ForbiddenPathPrefixes())
    && !ExplicitlyForbidden(NormalizePath(path), r.forbiddenPaths)
    && !OutsideAllowedPaths(NormalizePath(path), r.allowedPaths)
  }

  predicate TouchesHighRisk(r: Request) {
    exists p :: p in r.requestedPaths && StartsWithAny(p, HighRiskPathPrefixes())
  }

  predicate DocsOrTestsOnly(r: Request) {
    r.requestedPaths != [] && forall p :: p in r.requestedPaths ==> StartsWithAny(p, LowRiskPathPrefixes())
  }

  // ---------------------------------------------------------------- what the prefixes cover

  lemma NormalizePathTwice(path: string)
    ensures NormalizePath(NormalizePath(path)) == NormalizePath(path)
  {
    var n := NormalizePath(path);
    assert n != "" ==> n[0] == Slashed(Trim(path))[0] && !IsSpace(n[0]) && !IsSpace(n[|n| - 1]);
    assert Trim(n) == n;
    assert Slashed(n) == n;
  }

  /**
   A prefix that ends in a slash covers exactly what the prefix less its slashes names and
   everything below the prefix less one slash; that is the directory and all below it when
   there is only one slash.
   */
  lemma DirectoryPrefixIff(path: string, prefix: string)
    requires prefix != "" && prefix[|prefix| - 1] == '/'
    ensures var dir := prefix[..|prefix| - 1];
            && (UnderAny(path, [prefix]) <==> path == StripSlashes(prefix) || Split(dir) < Split(path))
            && (dir == "" || dir[|dir| - 1] != '/' ==> (UnderAny(path, [prefix]) <==> Split(dir) <= Split(path)))
  {
    hide Split, StripSlashes;
    var dir := prefix[..|prefix| - 1];
    OneSlashIsStripped(dir);
    assert prefix == dir + ['/'];
    CoveredByOne(path, prefix);
    hide UnderAny;
    StartsIffPiecesStart(dir, path);
    ExtendsIffPiecesExtend(dir, path);
  }

  lemma CoveredByOne(path: string, prefix: string)
    ensures UnderAny(path, [prefix]) <==> path == StripSlashes(prefix) || prefix <= path
  {
    assert [prefix][0] == prefix;
  }

  lemma OneSlashIsStripped(dir: string)
    ensures dir == "" || dir[|dir| - 1] != '/' ==> StripSlashes(dir + ['/']) == dir
  {
    assert (dir + ['/'])[..|dir|] == dir;
  }

  /** A prefix without a slash at its end covers every path that starts with it, across segment boundaries. */
  lemma PlainPrefixIff(path: string, prefix: string)
    requires prefix != "" && prefix[|prefix| - 1] != '/'
    ensures UnderAny(path, [prefix]) <==> prefix <= path
  {
    assert [prefix][0] == prefix;
  }

  /** So the guard is at least as wide as matching by segments, and wider exactly inside a segment. */
  lemma GuardIsWiderThanSegments(path: string, prefix: string)
    requires prefix != "" && prefix[|prefix| - 1] != '/'
    ensures UnderAny(path, [prefix]) <==> Split(prefix) <= Split(path) || (prefix < path && path[|prefix|] != '/')
  {
    hide Split, UnderAny;
    PlainPrefixIff(path, prefix);
    StartsIffPiecesStart(prefix, path);
    ContinuationIff(path, prefix);
  }

  lemma ContinuationIff(path: string, prefix: string)
    ensures prefix <= path <==> path == prefix || prefix < path
    ensures prefix < path && path[|prefix|] == '/' <==> prefix + ['/'] <= path
  {
    if prefix <= path { assert path[..|prefix|] == prefix; }
    if prefix < path && path[|prefix|] == '/' {
      assert path[..|prefix|] == prefix;
    }
    if prefix + ['/'] <= path {
      assert path[|prefix|] == (prefix + ['/'])[|prefix|];
    }
  }

  /** For one: `core/risk` covers a file that merely starts with it. */
  lemma RiskPrefixCoversRiskless()
    ensures UnderAny("core/riskless.py", ["core/risk"]) && !(Split("core/risk") <= Split("core/riskless.py"))
  {
    hide Split, UnderAny;
    var prefix, path := "core/risk", "core/riskless.py";
    assert path[..9] == prefix && path[9] == 'l';
    GuardIsWiderThanSegments(path, prefix);
    StartsIffPiecesStart(prefix, path);
    ContinuationIff(path, prefix);
  }

  // ---------------------------------------------------------------- what the guard does not resolve

  /** The directory a prefix names: the prefix less one slash at its end. */
  function DirectoryOf(prefix: string): string {
    if prefix != "" && prefix[|prefix| - 1] == '/' then prefix[..|prefix| - 1] else prefix
  }

  predicate OneSlashAtMost(prefix: string) {
    DirectoryOf(prefix) != "" && DirectoryOf(prefix)[|DirectoryOf(prefix)| - 1] != '/'
  }

  /**
   Resolving the path only cuts pieces off its end, if any.  The empty piece before a leading
   slash is not kept by resolving, so a rooted path that leads anywhere is not straight.
   */
  predicate Straight(path: string) { LeadsTo(Split(path)) <= Split(path) }

  lemma DirectoryIsStripped(prefix: string)
    requires OneSlashAtMost(prefix)
    ensures StripSlashes(prefix) == DirectoryOf(prefix)
    ensures prefix == DirectoryOf(prefix) || prefix == DirectoryOf(prefix) + ['/']
  {
    assert StripSlashes(DirectoryOf(prefix)) == DirectoryOf(prefix);
  }

  /** A straight path is seen by every prefix that names a directory it leads to or into. */
  lemma StraightPathIsSeen(path: string, prefixes: seq<string>, k: nat)
    requires k < |prefixes| && OneSlashAtMost(prefixes[k]) && Straight(path)
    requires Split(DirectoryOf(prefixes[k])) <= LeadsTo(Split(path))
    ensures UnderAny(path, prefixes)
  {
    hide Split, LeadsTo, StripSlashes, DirectoryOf;
    var dir := DirectoryOf(prefixes[k]);
    DirectoryIsStripped(prefixes[k]);
    StartsIffPiecesStart(dir, path);
    assert path == StripSlashes(prefixes[k]) || prefixes[k] <= path;
  }

  /** The prefix that lists the directory a path leads to does not see a path that is not straight. */
  lemma CrookedPathIsMissed(path: string) returns (dir: string)
    requires !Straight(path)
    ensures OneSlashAtMost(dir + ['/']) && DirectoryOf(dir + ['/']) == dir && Split(dir) == LeadsTo(Split(path))
    ensures !UnderAny(path, [dir + ['/']])
  {
    var pieces := LeadsTo(Split(path));
    LeadsToOwnPieces(Split(path));
    PiecesHoldNoSlash(path);
    hide Split, LeadsTo;
    SplitOfJoin(pieces);
    JoinEndsAsItsPieces(pieces);
    dir := Join(pieces);
    assert (dir + ['/'])[..|dir|] == dir;
    DirectoryPrefixIff(path, dir + ['/']);
    hide UnderAny;
  }

  /** The path is seen by each list that holds a directory it leads to or into. */
  ghost predicate SeenWhereverItLeads(path: string) {
    forall prefix :: OneSlashAtMost(prefix) && Split(DirectoryOf(prefix)) <= LeadsTo(Split(path)) ==>
      UnderAny(path, [prefix])
  }

  /** Exactly the straight paths are seen wherever they lead. */
  lemma SeenWhereverItLeadsIff(path: string)
    ensures SeenWhereverItLeads(path) <==> Straight(path)
  {
    if Straight(path) {
      forall prefix | OneSlashAtMost(prefix) && Split(DirectoryOf(prefix)) <= LeadsTo(Split(path))
        ensures UnderAny(path, [prefix])
      {
        StraightPathIsSeen(path, [prefix], 0);
      }
    } else {
      var dir := CrookedPathIsMissed(path);
      assert OneSlashAtMost(dir + ['/']);
    }
  }

  lemma ForbiddenPrefixesHaveOneSlashAtMost(k: nat)
    requires k < |ForbiddenPathPrefixes()|
    ensures OneSlashAtMost(ForbiddenPathPrefixes()[k])
  {
  }

  /** A straight path is refused whenever it leads into a forbidden directory. */
  lemma StraightForbiddenIsRefused(path: string, r: Request, k: nat)
    requires k < |ForbiddenPathPrefixes()| && Straight(NormalizePath(path))
    requires Split(DirectoryOf(ForbiddenPathPrefixes()[k])) <= LeadsTo(Split(NormalizePath(path)))
    ensures !PathWithinBounds(path, r)
  {
    ForbiddenPrefixesHaveOneSlashAtMost(k);
    hide ForbiddenPathPrefixes, Straight;
    StraightPathIsSeen(NormalizePath(path), ForbiddenPathPrefixes(), k);
  }

  lemma StartsElsewhere(path: string, prefixes: seq<string>)
    requires path != "" && forall k :: 0 <= k < |prefixes| ==> prefixes[k] != "" && prefixes[k][0] != path[0]
    ensures !UnderAny(path, prefixes)
  {
    forall k | 0 <= k < |prefixes|
      ensures path != StripSlashes(prefixes[k])
    {
      StripSlashesKeepsPrefix(prefixes[k]);
    }
  }

  lemma StripSlashesKeepsPrefix(s: string)
    ensures StripSlashes(s) <= s
  {
  }

  /** `docs/../broker_contract/resolver.py` */
  function Traversal(): string { "docs" + ['/'] + (".." + ['/'] + ("broker_contract" + ['/'] + "resolver.py")) }

  lemma TraversalIsNormal()
    ensures NormalizePath(Traversal()) == Traversal()
  {
    var path := Traversal();
    assert path[0] == 'd' && path[|path| - 1] == 'y';
    assert forall i :: 0 <= i < |path| ==> path[i] != '\\';
    hide Traversal;
    TrimmedAlready(path);
  }

  /** The path leads into the broker's directory. */
  lemma TraversalLeadsToBroker()
    ensures LeadsTo(Split(Traversal())) == ["broker_contract", "resolver.py"]
  {
    var a, b, c, d := "docs", "..", "broker_contract", "resolver.py";
    assert '/' !in a && '/' !in b && '/' !in c && '/' !in d;
    hide Split, LeadsTo;
    SplitOfFour(a, b, c, d);
    LeadsUpThenDown(a, c, d);
  }

  lemma SplitOfFour(a: string, b: string, c: string, d: string)
    requires '/' !in a && '/' !in b && '/' !in c && '/' !in d
    ensures Split(a + ['/'] + (b + ['/'] + (c + ['/'] + d))) == [a, b, c, d]
  {
    hide Split;
    SplitOfPiece(a);
    SplitOfPiece(b);
    SplitOfPiece(c);
    SplitOfPiece(d);
    SplitAtSlash(c, d);
    SplitAtSlash(b, c + ['/'] + d);
    SplitAtSlash(a, b + ['/'] + (c + ['/'] + d));
  }

  lemma LeadsUpThenDown(a: string, c: string, d: string)
    requires PlainPiece(a) && PlainPiece(c) && PlainPiece(d)
    ensures LeadsTo([a, "..", c, d]) == [c, d]
  {
    hide LeadsTo;
    LeadsOneFurther([], a);
    LeadsOneFurther([a], "..");
    LeadsOneFurther([a, ".."], c);
    LeadsOneFurther([a, "..", c], d);
    assert [] + [a] == [a] && [a] + [".."] == [a, ".."] && [a, ".."] + [c] == [a, "..", c];
    assert [a, "..", c] + [d] == [a, "..", c, d];
    NothingLeadsNowhere();
    assert [a][..0] == [] && [c] + [d] == [c, d];
  }

  lemma NothingLeadsNowhere()
    ensures LeadsTo([]) == []
  {
  }

  lemma TraversalPrefixes()
    ensures !UnderAny(Traversal(), ForbiddenPathPrefixes()) && !UnderAny(Traversal(), HighRiskPathPrefixes())
    ensures UnderAny(Traversal(), LowRiskPathPrefixes())
  {
    StartsElsewhere(Traversal(), ForbiddenPathPrefixes());
    StartsElsewhere(Traversal(), HighRiskPathPrefixes());
    assert LowRiskPathPrefixes()[0] <= Traversal();
  }

  /** And yet a request for it is approved for a patch without anybody being asked. */
  lemma TraversalEscapesTheGuard(idOf: Identity -> WorkId)
    ensures var r := Request(Gsd, UpdateDocs, "t", "s", [], [Traversal()], [], true, "");
            WithinBounds(r) && Scope(r, idOf).state == ApprovedForPatch && !Scope(r, idOf).requiresHuman
  {
    TraversalIsNormal();
    TraversalPrefixes();
    hide Traversal, NormalizePath, UnderAny, ForbiddenPathPrefixes, HighRiskPathPrefixes, LowRiskPathPrefixes;
    var r := Request(Gsd, UpdateDocs, "t", "s", [], [Traversal()], [], true, "");
    assert Traversal() in r.requestedPaths;
    AcceptedIffWithinBounds(r, idOf);
    assert !TouchesHighRisk(r) && DocsOrTestsOnly(r);
  }

  /** Without an allowed list every path is allowed; naming paths in one only ever narrows the bounds. */
  lemma AllowedListOnlyNarrows(r: Request)
    ensures WithinBounds(r) ==> WithinBounds(r.(allowedPaths := []))
    ensures r.allowedPaths == r.requestedPaths && (forall p :: p in r.requestedPaths ==> NormalizePath(p) == p) ==>
              (WithinBounds(r) <==> WithinBounds(r.(allowedPaths := [])))
  {
    hide StartsWithAny, ExplicitlyForbidden, ForbiddenPathPrefixes, NormalizePath, StripSlashes, ActionAllowed,
      ForbiddenAction;
    var open := r.(allowedPaths := []);
    assert forall p :: PathWithinBounds(p, r) ==> PathWithinBounds(p, open);
    if r.allowedPaths == r.requestedPaths && forall p :: p in r.requestedPaths ==> NormalizePath(p) == p {
      forall p | p in r.requestedPaths
        ensures !OutsideAllowedPaths(NormalizePath(p), r.allowedPaths)
      {
        var i :| 0 <= i < |r.allowedPaths| && r.allowedPaths[i] == p;
        assert r.allowedPaths[i] <= NormalizePath(NormalizePath(p));
      }
    }
  }

  function ActionBlockers(r: Request): set<Blocker> {
    (if !ActionAllowed(r.source, r.action) then {ActionNotAllowedForSourceAgent} else {})
    + (if ForbiddenAction(r.action) then {ActionForbidden} else {})
    + (if OrderAction(r.action) then {OrderActionForbidden} else {})
    + (if BrokerAction(r.action) then {BrokerApiForbidden} else {})
    + (if LiveAction(r.action) then {LiveActionForbidden} else {})
    + (if r.requestedPaths == [] then {RequestedPathsMissingBlocker} else {})
  }

  function PathBlockers(path: string, r: Request): set<Blocker> {
    (if StartsWithAny(path, ForbiddenPathPrefixes()) then {ForbiddenPathRequested} else {})
    + (if ExplicitlyForbidden(NormalizePath(path), r.forbiddenPaths) then {RequestedPathExplicitlyForbidden} else {})
    + (if OutsideAllowedPaths(NormalizePath(path), r.allowedPaths) then {RequestedPathOutsideAllowedPaths} else {})
  }

  function BlockersUpTo(r: Request, n: nat): set<Blocker>
    requires n <= |r.requestedPaths|
  {
    if n == 0 then ActionBlockers(r) else BlockersUpTo(r, n - 1) + PathBlockers(r.requestedPaths[n - 1], r)
  }

  function Scope(r: Request, idOf: Identity -> WorkId): ScopeDecision {
    var blockers := BlockersUpTo(r, |r.requestedPaths|);
    var id := idOf(IdentityOf(r));
    if blockers != {} then ScopeDecision(None, false, Blocked, BlockedRisk, {}, false, true, blockers)
    else if TouchesHighRisk(r) then ScopeDecision(Some(id), true, WaitingHumanApproval, High, {}, false, true, {})
    else if DocsOrTestsOnly(r) then ScopeDecision(Some(id), true, ApprovedForPatch, Low, {}, true, false, {})
    else ScopeDecision(Some(id), true, WaitingHumanApproval, Medium, {}, false, true, {})
  }

  lemma ActionBlockersIff(r: Request)
    ensures ActionBlockers(r) == {}
        <==> ActionAllowed(r.source, r.action) && !ForbiddenAction(r.action) && r.requestedPaths != []
  {
    assert !ActionAllowed(r.source, r.action) ==> ActionNotAllowedForSourceAgent in ActionBlockers(r);
    assert ForbiddenAction(r.action) ==> ActionForbidden in ActionBlockers(r);
    assert r.requestedPaths == [] ==> RequestedPathsMissingBlocker in ActionBlockers(r);
  }

  lemma PathBlockersIff(path: string, r: Request)
    ensures PathBlockers(path, r) == {} <==> PathWithinBounds(path, r)
  {
    hide ForbiddenPathPrefixes, StartsWithAny, ExplicitlyForbidden, OutsideAllowedPaths;
    assert StartsWithAny(path, ForbiddenPathPrefixes()) ==> ForbiddenPathRequested in PathBlockers(path, r);
    assert ExplicitlyForbidden(NormalizePath(path), r.forbiddenPaths) ==>
           RequestedPathExplicitlyForbidden in PathBlockers(path, r);
    assert OutsideAllowedPaths(NormalizePath(path), r.allowedPaths) ==>
           RequestedPathOutsideAllowedPaths in PathBlockers(path, r);
  }

  lemma {:induction false} BlockersUpToIff(r: Request, n: nat)
    requires n <= |r.requestedPaths|
    ensures BlockersUpTo(r, n) == {}
        <==> ActionBlockers(r) == {} && forall i :: 0 <= i < n ==> PathWithinBounds(r.requestedPaths[i], r)
  {
    hide PathWithinBounds, ActionBlockers, PathBlockers;
    if n > 0 {
      BlockersUpToIff(r, n - 1);
      PathBlockersIff(r.requestedPaths[n - 1], r);
    }
  }

  /** A request is accepted exactly when its action is allowed and every path stays in bounds. */
  lemma AcceptedIffWithinBounds(r: Request, idOf: Identity -> WorkId)
    ensures Scope(r, idOf).accepted <==> WithinBounds(r)
    ensures Scope(r, idOf).accepted <==> Scope(r, idOf).state != Blocked
    ensures Scope(r, idOf).accepted <==> Scope(r, idOf).workId == Some(idOf(IdentityOf(r)))
    ensures !Scope(r, idOf).requiresHuman <==> WithinBounds(r) && !TouchesHighRisk(r) && DocsOrTestsOnly(r)
  {
    hide PathWithinBounds, ActionBlockers, TouchesHighRisk, DocsOrTestsOnly, ActionAllowed, ForbiddenAction;
    BlockersUpToIff(r, |r.requestedPaths|);
    ActionBlockersIff(r);
    assert (forall p :: p in r.requestedPaths ==> PathWithinBounds(p, r))
        <==> (forall i :: 0 <= i < |r.requestedPaths| ==> PathWithinBounds(r.requestedPaths[i], r));
  }

  method AssessAgentScope(r: Request, idOf: Identity -> WorkId) returns (d: ScopeDecision)
    ensures d == Scope(r, idOf)
    ensures d.accepted <==> WithinBounds(r)
  {
    AcceptedIffWithinBounds(r, idOf);
    hide NormalizePath, StartsWithAny, ExplicitlyForbidden, OutsideAllowedPaths, ForbiddenPathPrefixes,
      HighRiskPathPrefixes, LowRiskPathPrefixes, ActionAllowed, WithinBounds;
    var blockers: set<Blocker> := {};
    if !ActionAllowed(r.source, r.action) { blockers := blockers + {ActionNotAllowedForSourceAgent}; }
    if ForbiddenAction(r.action) { blockers := blockers + {ActionForbidden}; }
    if OrderAction(r.action) { blockers := blockers + {OrderActionForbidden}; }
    if BrokerAction(r.action) { blockers := blockers + {BrokerApiForbidden}; }
    if LiveAction(r.action) { blockers := blockers + {LiveActionForbidden}; }
    if r.requestedPaths == [] { blockers := blockers + {RequestedPathsMissingBlocker}; }
    assert blockers == ActionBlockers(r);
    for i := 0 to |r.requestedPaths|
      invariant blockers == BlockersUpTo(r, i)
    {
      var path := r.requestedPaths[i];
      if StartsWithAny(path, ForbiddenPathPrefixes()) { blockers := blockers + {ForbiddenPathRequested}; }
      if ExplicitlyForbidden(NormalizePath(path), r.forbiddenPaths) {
        blockers := blockers + {RequestedPathExplicitlyForbidden};
      }
      if OutsideAllowedPaths(NormalizePath(path), r.allowedPaths) {
        blockers := blockers + {RequestedPathOutsideAllowedPaths};
      }
    }
    var touchesHighRisk :=
      exists i :: 0 <= i < |r.requestedPaths| && StartsWithAny(r.requestedPaths[i], HighRiskPathPrefixes());
    var docsOrTestsOnly :=
      && r.requestedPaths != []
      && forall i :: 0 <= i < |r.requestedPaths| ==> StartsWithAny(r.requestedPaths[i], LowRiskPathPrefixes());
    if blockers != {} {
      d := ScopeDecision(None, false, Blocked, BlockedRisk, {}, false, true, blockers);
    } else if touchesHighRisk {
      d := ScopeDecision(Some(idOf(IdentityOf(r))), true, WaitingHumanApproval, High, {}, false, true, {});
    } else if docsOrTestsOnly {
      d := ScopeDecision(Some(idOf(IdentityOf(r))), true, ApprovedForPatch, Low, {}, true, false, {});
    } else {
      d := ScopeDecision(Some(idOf(IdentityOf(r))), true, WaitingHumanApproval, Medium, {}, false, true, {});
    }
  }

  // ---------------------------------------------------------------- approval

  datatype ApprovalBlocker =
    | ScopeDecisionNotAccepted | BlockedWorkCannotBeApproved | HumanApprovalRequired | ApprovedByRequired
    | OrderForbidden | BrokerForbidden | LiveExecutionForbidden | RuntimeWiringForbidden

  datatype ApprovalDecision = ApprovalDecision(
    workId: Option<WorkId>, approved: bool, approvedBy: Option<string>, allowedForPatch: bool,
    blockers: set<ApprovalBlocker>)

  function CleanName(name: Option<string>): Option<string> {
    if name.None? || Trim(name.value) == "" then None else Some(Trim(name.value))
  }

  predicate Grantable(d: ScopeDecision, human: bool, approver: Option<string>) {
    d.accepted && d.state != Blocked && d.unsafeFlags == {} && (d.requiresHuman ==> human && CleanName(approver).Some?)
  }

  function AddIf(codes: set<ApprovalBlocker>, cond: bool, code: ApprovalBlocker): (r: set<ApprovalBlocker>)
    ensures r == {} <==> codes == {} && !cond
  {
    if cond then codes + {code} else codes
  }

  function ApprovalBlockers(d: ScopeDecision, human: bool, approver: Option<string>): set<ApprovalBlocker> {
    var scope := AddIf(AddIf({}, !d.accepted, ScopeDecisionNotAccepted), d.state == Blocked,
                       BlockedWorkCannotBeApproved);
    var person := AddIf(AddIf(scope, d.requiresHuman && !human, HumanApprovalRequired),
                        d.requiresHuman && human && CleanName(approver).None?, ApprovedByRequired);
    var order := AddIf(person, IsOrderAction in d.unsafeFlags, OrderForbidden);
    var broker := AddIf(order, BrokerApiCalled in d.unsafeFlags || AllowedForBrokerApi in d.unsafeFlags,
                        BrokerForbidden);
    var live := AddIf(broker, LiveModeTouched in d.unsafeFlags || AllowedForLiveExecution in d.unsafeFlags,
                      LiveExecutionForbidden);
    AddIf(live, AllowedForRuntimeWiring in d.unsafeFlags, RuntimeWiringForbidden)
  }

  function Approval(d: ScopeDecision, human: bool, approver: Option<string>): ApprovalDecision {
    var blockers := ApprovalBlockers(d, human, approver);
    ApprovalDecision(d.workId, blockers == {}, if blockers == {} && human then CleanName(approver) else None,
                     blockers == {}, blockers)
  }

  lemma ApprovedIffGrantable(d: ScopeDecision, human: bool, approver: Option<string>)
    ensures Approval(d, human, approver).approved <==> Grantable(d, human, approver)
  {
    hide CleanName, AddIf;
    forall flag | flag in d.unsafeFlags
      ensures ApprovalBlockers(d, human, approver) != {}
    {
      match flag
      case IsOrderAction | BrokerApiCalled | LiveModeTouched
         | AllowedForRuntimeWiring | AllowedForBrokerApi | AllowedForLiveExecution =>
    }
  }

  method ApproveAgentWork(d: ScopeDecision, human: bool, approver: Option<string>) returns (a: ApprovalDecision)
    ensures a == Approval(d, human, approver)
    ensures a.approved <==> Grantable(d, human, approver)
    ensures a.allowedForPatch == a.approved && (a.approvedBy.Some? ==> a.approved && human)
  {
    ApprovedIffGrantable(d, human, approver);
    hide CleanName, Grantable;
    var blockers: set<ApprovalBlocker> := {};
    if !d.accepted { blockers := blockers + {ScopeDecisionNotAccepted}; }
    if d.state == Blocked { blockers := blockers + {BlockedWorkCannotBeApproved}; }
    if d.requiresHuman {
      if !human { blockers := blockers + {HumanApprovalRequired}; }
      if human && CleanName(approver).None? { blockers := blockers + {ApprovedByRequired}; }
    }
    if IsOrderAction in d.unsafeFlags { blockers := blockers + {OrderForbidden}; }
    if BrokerApiCalled in d.unsafeFlags || AllowedForBrokerApi in d.unsafeFlags {
      blockers := blockers + {BrokerForbidden};
    }
    if LiveModeTouched in d.unsafeFlags || AllowedForLiveExecution in d.unsafeFlags {
      blockers := blockers + {LiveExecutionForbidden};
    }
    if AllowedForRuntimeWiring in d.unsafeFlags { blockers := blockers + {RuntimeWiringForbidden}; }
    assert blockers == ApprovalBlockers(d, human, approver);
    var approved := blockers == {};
    return ApprovalDecision(d.workId, approved, if approved && human then CleanName(approver) else None,
                            approved, blockers);
  }
}
