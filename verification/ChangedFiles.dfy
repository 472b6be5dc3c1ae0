/** Auditing changed files against the scope that every approving role signed off. */
module ChangedFiles {
  import opened Prelude
  import opened Text
  import opened Workflow

  datatype Normalized = Usable(path: string) | PathMissing | PathUnsafe

  function DropDotSlash(s: string): (r: string)
    ensures !("./" <= r) && |r| <= |s|
  {
    if "./" <= s then DropDotSlash(s[2..]) else s
  }

  lemma {:induction false} DropCutsFront(s: string) returns (k: nat)
    ensures k <= |s| && DropDotSlash(s) == s[k..]
  {
    k := 0;
    if "./" <= s {
      k := DropCutsFront(s[2..]);
      k := k + 2;
    }
  }

  /** A relative path that cannot leave the repository. */
  predicate Safe(path: string) {
    path != "" && path[0] != '/' && ".." !in Split(path) && !("./" <= path) && '\\' !in path
  }

  function Normalize(path: string): Normalized {
    var n := DropDotSlash(Slashed(Trim(path)));
    if n == "" then PathMissing else if n[0] == '/' || ".." in Split(n) then PathUnsafe else Usable(n)
  }

  lemma NormalizedIsSafe(path: string)
    requires Normalize(path).Usable?
    ensures Safe(Normalize(path).path)
    ensures !IsSpace(Normalize(path).path[|Normalize(path).path| - 1]) && |Normalize(path).path| <= |path|
  {
    hide Split, Trim, Slashed, DropDotSlash;
    var whole, n := Slashed(Trim(path)), Normalize(path).path;
    var k := DropCutsFront(whole);
    SuffixKeeps(whole, k);
  }

  lemma SuffixKeeps(whole: string, k: nat)
    requires k < |whole|
    ensures var n := whole[k..];
            n[|n| - 1] == whole[|whole| - 1] && forall ch :: ch in n ==> ch in whole
  {
  }

  method NormalizeChangedFilePath(path: string) returns (n: Normalized)
    ensures n == Normalize(path)
  {
    var normalized := Slashed(Trim(path));
    while "./" <= normalized
      invariant DropDotSlash(normalized) == DropDotSlash(Slashed(Trim(path)))
      decreases |normalized|
    {
      normalized := normalized[2..];
    }
    if normalized == "" { return PathMissing; }
    if normalized[0] == '/' || ".." in Split(normalized) { return PathUnsafe; }
    return Usable(normalized);
  }

  lemma TrimStep(s: string)
    requires s != "" && IsSpace(s[0])
    ensures Trim(s) == Trim(s[1..])
  {
  }

  lemma NoDotSlash(s: string)
    requires !("./" <= s)
    ensures DropDotSlash(s) == s
  {
  }

  /** Normalising again changes nothing exactly when dropping `./` did not uncover a leading space. */
  lemma NormalizingTwiceIff(path: string)
    requires Normalize(path).Usable?
    ensures Normalize(Normalize(path).path) == Normalize(path) <==> !IsSpace(Normalize(path).path[0])
  {
    var n := Normalize(path).path;
    NormalizedIsSafe(path);
    if !IsSpace(n[0]) {
      hide Split, Trim, Slashed, DropDotSlash;
      TrimmedAlready(n);
      NoDotSlash(n);
      assert Normalize(n) == Usable(n);
    } else {
      TrimStep(n);
      SecondPassIsShorter(n);
    }
  }

  lemma SecondPassIsShorter(n: string)
    requires n != "" && Trim(n) == Trim(n[1..])
    ensures Normalize(n) != Usable(n)
  {
    hide Split;
    assert |Trim(n)| < |n|;
    hide Trim;
  }

  /** When the front of a text is cut off, only the first piece of what is left can be new. */
  lemma {:induction false} PiecesOfSuffix(s: string, k: nat)
    requires k <= |s|
    ensures forall p :: p in Split(s[k..])[1..] ==> p in Split(s)[1..]
  {
    if k > 0 {
      PiecesOfSuffix(s[1..], k - 1);
      assert s[1..][k - 1..] == s[k..];
      FrontPieces(s);
    } else {
      assert s[0..] == s;
    }
  }

  lemma FrontPieces(s: string)
    requires s != ""
    ensures forall p :: p in Split(s[1..])[1..] ==> p in Split(s)[1..]
  {
  }

  lemma {:induction false} TrimCutsFront(s: string) returns (k: nat)
    requires s != "" && !IsSpace(s[|s| - 1])
    ensures k <= |s| && Trim(s) == s[k..]
  {
    k := 0;
    if IsSpace(s[0]) {
      k := TrimCutsFront(s[1..]);
      k := k + 1;
    }
  }

  lemma NothingToSlash(s: string)
    requires '\\' !in s
    ensures Slashed(Trim(s)) == Trim(s)
  {
    hide Trim;
  }

  /** Trimming and dropping `./` only cut off the front of a path that does not end in a space. */
  lemma SecondPassCutsFront(n: string) returns (k: nat)
    requires n != "" && !IsSpace(n[|n| - 1]) && '\\' !in n
    ensures k <= |n| && DropDotSlash(Slashed(Trim(n))) == DropDotSlash(Trim(n)) == n[k..]
  {
    NothingToSlash(n);
    var i := TrimCutsFront(n);
    var j := DropCutsFront(n[i..]);
    hide Trim, DropDotSlash, Slashed;
    k := i + j;
    assert n[i..][j..] == n[k..];
  }

  lemma GoesUpAtOnce(n: string, k: nat)
    requires k <= |n| && ".." !in Split(n)
    ensures ".." in Split(n[k..]) <==> Split(n[k..])[0] == ".."
  {
    PiecesOfSuffix(n, k);
    hide Split;
    var pieces := Split(n[k..]);
    assert pieces == [pieces[0]] + pieces[1..];
  }

  /**
   The second normalisation of a usable path refuses it exactly when what is left without
   its leading spaces and `./` is empty, rooted or goes up at once.
   */
  lemma SecondPassRefusesIff(path: string)
    requires Normalize(path).Usable?
    ensures var left := DropDotSlash(Trim(Normalize(path).path));
            !Normalize(Normalize(path).path).Usable? <==> left == "" || left[0] == '/' || Split(left)[0] == ".."
  {
    hide Split, Trim, Slashed, DropDotSlash;
    var n := Normalize(path).path;
    NormalizedIsSafe(path);
    var k := SecondPassCutsFront(n);
    GoesUpAtOnce(n, k);
  }

  lemma DropOneDotSlash(s: string)
    requires "./" <= s && !("./" <= s[2..])
    ensures DropDotSlash(s) == s[2..]
  {
  }

  lemma PiecesOfSpaceSlashX()
    ensures ".." !in Split([' ', '/', 'x'])
  {
    SplitOfPiece([' ']);
    SplitOfPiece(['x']);
    SplitAtSlash([' '], ['x']);
    assert [' ', '/', 'x'] == [' '] + ['/'] + ['x'];
  }

  /** An audited path can therefore be refused at its second normalisation, in the middle of the audit. */
  lemma SecondNormalizationCanFail()
    ensures Normalize(['.', '/', ' ', '/', 'x']) == Usable([' ', '/', 'x'])
    ensures Normalize([' ', '/', 'x']) == PathUnsafe
  {
    hide Slashed, Split, Trim, DropDotSlash;
    var path, n, rooted := ['.', '/', ' ', '/', 'x'], [' ', '/', 'x'], ['/', 'x'];
    TrimmedAlready(path);
    TrimmedAlready(rooted);
    assert path[2..] == n;
    DropOneDotSlash(path);
    PiecesOfSpaceSlashX();
    TrimStep(n);
    assert n[1..] == rooted;
    NoDotSlash(rooted);
  }

  // ---------------------------------------------------------------- rules

  function RuleText(rule: string): string { DropDotSlash(Slashed(Trim(rule))) }

  /** The string comparison, on a path that is normalised already. */
  predicate Matches(path: string, rule: string) {
    var r := RuleText(rule);
    r != "" && if r[|r| - 1] == '/' then r <= path else path == r || r + ['/'] <= path
  }

  /** What it is meant to be: the rule names the path or a directory above it. */
  predicate NamesOrContains(rule: string, path: string) {
    && rule != ""
    && if rule[|rule| - 1] == '/' then Split(rule[..|rule| - 1]) < Split(path) else Split(rule) <= Split(path)
  }

  lemma SegmentPrefix(r: string, path: string)
    requires r != ""
    ensures NamesOrContains(r, path) <==> if r[|r| - 1] == '/' then r <= path else path == r || r + ['/'] <= path
  {
    if r[|r| - 1] == '/' {
      assert r == r[..|r| - 1] + ['/'];
      ExtendsIffPiecesExtend(r[..|r| - 1], path);
    } else {
      ExtendsIffPiecesExtend(r, path);
      if Split(r) == Split(path) { SplitIsInjective(r, path); }
    }
  }

  lemma MatchesIffSegmentPrefix(path: string, rule: string)
    ensures Matches(path, rule) <==> NamesOrContains(RuleText(rule), path)
  {
    if RuleText(rule) != "" { SegmentPrefix(RuleText(rule), path); }
  }

  method NormalizeRule(rule: string) returns (r: string)
    ensures r == RuleText(rule)
  {
    r := Slashed(Trim(rule));
    while "./" <= r
      invariant DropDotSlash(r) == RuleText(rule)
      decreases |r|
    {
      r := r[2..];
    }
  }

  method PathMatchesRule(path: string, rule: string) returns (matched: Option<bool>)
    ensures matched.Some? <==> Normalize(path).Usable?
    ensures matched.Some? ==> matched.value == NamesOrContains(RuleText(rule), Normalize(path).path)
  {
    hide Normalize, NamesOrContains, RuleText;
    var changed := NormalizeChangedFilePath(path);
    if !changed.Usable? { return None; }
    var r := NormalizeRule(rule);
    MatchesIffSegmentPrefix(changed.path, rule);
    if r == "" { return Some(false); }
    if r[|r| - 1] == '/' { return Some(r <= changed.path); }
    return Some(changed.path == r || r + ['/'] <= changed.path);
  }

  predicate CoveredBy(path: string, rules: seq<string>) {
    exists i :: 0 <= i < |rules| && NamesOrContains(RuleText(rules[i]), path)
  }

  /** The first failing normalisation stops the search, as the raised error does. */
  method MatchesAny(path: string, rules: seq<string>) returns (matched: Option<bool>)
    ensures matched == if rules == [] then Some(false)
                       else match Normalize(path) { case Usable(p) => Some(CoveredBy(p, rules)) case _ => None }
  {
    hide Normalize, NamesOrContains, RuleText;
    for i := 0 to |rules|
      invariant i > 0 ==> Normalize(path).Usable?
      invariant forall k :: 0 <= k < i ==> !NamesOrContains(RuleText(rules[k]), Normalize(path).path)
    {
      matched := PathMatchesRule(path, rules[i]);
      if matched != Some(false) { return; }
    }
    return Some(false);
  }

  // ---------------------------------------------------------------- the audit

  const HIGH_RISK_ROLE_PATH_PREFIXES: seq<string> :=
    ["agent_system/", "api/", "config/", "core/", "execution_readiness/", "execution_safety/", "main.py",
     "paper_trading/", "run_live.sh", "runtime_contract.py"]

  const DEFAULT_SCOPE_APPROVAL_ROLES: seq<Role> := [ScopeOwner, HermesArchitect, GsdImplementer]

  datatype Artifact = Artifact(filesAllowed: seq<string>, filesForbidden: seq<string>)

  datatype FileBlocker = ForbiddenByHandoff | OutsideApprovedScope | HighRiskRequiresHumanApproval

  datatype Finding = Finding(path: string, blockers: set<FileBlocker>, allowedRoles: set<Role>,
                             forbiddenRoles: set<Role>, highRisk: bool)

  datatype Problem = PathProblem(problem: Normalized) | ChangedFilesMissing | HandoffEvidenceInvalid

  datatype CallError = TaskIdMissing | TaskIdUnsafe | UnknownScopeRole

  datatype Outcome =
    | CallRefused(error: CallError) | Blocked(problem: Problem) | Raised | Report(valid: bool, findings: seq<Finding>)

  /**
   Whose approval counts and what it covers.  A handoff that is missing, malformed, or for
   another task or role loads as `None`.
   */
  datatype Scope = Scope(load: Role -> Option<Artifact>, roles: seq<Role>, humanApproved: bool, highRisk: seq<string>)

  predicate AllLoaded(scope: Scope) { forall r :: r in scope.roles ==> scope.load(r).Some? }

  predicate Clears(path: string, artifact: Artifact) {
    CoveredBy(path, artifact.filesAllowed) && !CoveredBy(path, artifact.filesForbidden)
  }

  /** Every role's handoff covers the file, none forbids it, and a human has approved a high-risk one. */
  predicate InScope(path: string, scope: Scope)
    requires AllLoaded(scope)
  {
    && (forall r :: r in scope.roles ==> Clears(path, scope.load(r).value))
    && (CoveredBy(path, scope.highRisk) ==> scope.humanApproved)
  }

  /** The path as the rules see it: normalised when the list is read and again at every comparison. */
  function Seen(path: string): Normalized {
    match Normalize(path) case Usable(p) => Normalize(p) case n => n
  }

  predicate FileAccepted(path: string, scope: Scope)
    requires AllLoaded(scope)
  {
    Seen(path).Usable? && InScope(Seen(path).path, scope)
  }

  predicate ValidAudit(files: seq<string>, scope: Scope) {
    files != [] && AllLoaded(scope) && forall f :: f in files ==> FileAccepted(f, scope)
  }

  function RolesCovering(path: string, scope: Scope, n: nat): set<Role>
    requires n <= |scope.roles| && AllLoaded(scope)
  {
    set i | 0 <= i < n && CoveredBy(path, scope.load(scope.roles[i]).value.filesAllowed) :: scope.roles[i]
  }

  function RolesForbidding(path: string, scope: Scope, n: nat): set<Role>
    requires n <= |scope.roles| && AllLoaded(scope)
  {
    set i | 0 <= i < n && CoveredBy(path, scope.load(scope.roles[i]).value.filesForbidden) :: scope.roles[i]
  }

  lemma RolesAgreeIff(path: string, scope: Scope)
    requires AllLoaded(scope)
    ensures RolesForbidding(path, scope, |scope.roles|) == {}
         && RolesCovering(path, scope, |scope.roles|) == (set r | r in scope.roles)
        <==> forall r :: r in scope.roles ==> Clears(path, scope.load(r).value)
  {
    var covering, forbidding := RolesCovering(path, scope, |scope.roles|), RolesForbidding(path, scope, |scope.roles|);
    forall r | r in scope.roles
      ensures r in covering <==> CoveredBy(path, scope.load(r).value.filesAllowed)
      ensures r in forbidding <==> CoveredBy(path, scope.load(r).value.filesForbidden)
    {
      var i :| 0 <= i < |scope.roles| && scope.roles[i] == r;
    }
    assert forall r :: r in covering || r in forbidding ==> r in scope.roles;
  }

  /** What is found out about a usable path: who allows and who forbids it, and what stands against it. */
  ghost predicate IsFinding(f: Finding, path: string, scope: Scope)
    requires Normalize(path).Usable? && AllLoaded(scope)
  {
    var p := Normalize(path).path;
    && f.path == path
    && (forall r :: r in f.allowedRoles <==> r in scope.roles && CoveredBy(p, scope.load(r).value.filesAllowed))
    && (forall r :: r in f.forbiddenRoles <==> r in scope.roles && CoveredBy(p, scope.load(r).value.filesForbidden))
    && f.highRisk == CoveredBy(p, scope.highRisk)
    && (ForbiddenByHandoff in f.blockers <==> f.forbiddenRoles != {})
    && (OutsideApprovedScope in f.blockers <==> exists r :: r in scope.roles && r !in f.allowedRoles)
    && (HighRiskRequiresHumanApproval in f.blockers <==> f.highRisk && !scope.humanApproved)
  }

  lemma RolesAre(path: string, scope: Scope)
    requires AllLoaded(scope)
    ensures forall r :: r in RolesCovering(path, scope, |scope.roles|) <==>
              r in scope.roles && CoveredBy(path, scope.load(r).value.filesAllowed)
    ensures forall r :: r in RolesForbidding(path, scope, |scope.roles|) <==>
              r in scope.roles && CoveredBy(path, scope.load(r).value.filesForbidden)
  {
    hide CoveredBy;
    forall r | r in scope.roles
      ensures exists i :: 0 <= i < |scope.roles| && scope.roles[i] == r
    {
    }
  }

  /** One file against every role's handoff; `None` when the path is refused at its second normalisation. */
  method AuditFile(path: string, scope: Scope) returns (finding: Option<Finding>)
    requires scope.roles != [] && scope.highRisk != [] && AllLoaded(scope)
    ensures finding.Some? <==> Normalize(path).Usable?
    ensures finding.Some? ==>
              var p, f := Normalize(path).path, finding.value;
              IsFinding(f, path, scope) && (f.blockers == {} <==> InScope(p, scope))
  {
    hide Normalize, NamesOrContains, RuleText;
    var allowed: set<Role>, forbidden: set<Role> := {}, {};
    ghost var p := match Normalize(path) case Usable(p) => p case _ => "";
    for i := 0 to |scope.roles|
      invariant Normalize(path).Usable? ==>
                allowed == RolesCovering(p, scope, i) && forbidden == RolesForbidding(p, scope, i)
    {
      var role := scope.roles[i];
      var artifact := scope.load(role).value;
      var hit := MatchesAny(path, artifact.filesAllowed);
      if hit.None? { return None; }
      if hit.value { allowed := allowed + {role}; }
      hit := MatchesAny(path, artifact.filesForbidden);
      if hit.None? { return None; }
      if hit.value { forbidden := forbidden + {role}; }
    }
    var blockers: set<FileBlocker> := {};
    if forbidden != {} { blockers := blockers + {ForbiddenByHandoff}; }
    if allowed != set r | r in scope.roles { blockers := blockers + {OutsideApprovedScope}; }
    var highRisk := MatchesAny(path, scope.highRisk);
    if highRisk.None? { return None; }
    if highRisk.value && !scope.humanApproved { blockers := blockers + {HighRiskRequiresHumanApproval}; }
    if Normalize(path).Usable? {
      RolesAgreeIff(p, scope);
      RolesAre(p, scope);
      hide RolesCovering, RolesForbidding;
    }
    return Some(Finding(path, blockers, allowed, forbidden, highRisk.value));
  }

  method LoadScopeArtifacts(scope: Scope) returns (ok: bool)
    ensures ok == AllLoaded(scope)
  {
    for i := 0 to |scope.roles|
      invariant forall k :: 0 <= k < i ==> scope.load(scope.roles[k]).Some?
    {
      if scope.load(scope.roles[i]).None? {
        assert scope.roles[i] in scope.roles;
        return false;
      }
    }
    return true;
  }

  /** The file at `k` is the first that does not normalise. */
  predicate FirstBad(files: seq<string>, k: nat)
    requires k < |files|
  {
    !Normalize(files[k]).Usable? && forall j :: 0 <= j < k ==> Normalize(files[j]).Usable?
  }

  method NormalizeAll(files: seq<string>) returns (normalized: seq<string>, problem: Option<Normalized>)
    ensures problem.None? <==> forall k :: 0 <= k < |files| ==> Normalize(files[k]).Usable?
    ensures problem.None? ==>
              && |normalized| == |files|
              && forall k :: 0 <= k < |files| ==> Normalize(files[k]) == Usable(normalized[k])
    ensures problem.Some? ==>
              exists k :: 0 <= k < |files| && FirstBad(files, k) && Normalize(files[k]) == problem.value
  {
    hide Normalize;
    normalized, problem := [], None;
    for i := 0 to |files|
      invariant |normalized| == i && forall k :: 0 <= k < i ==> Normalize(files[k]) == Usable(normalized[k])
    {
      var n := NormalizeChangedFilePath(files[i]);
      if !n.Usable? {
        assert FirstBad(files, i);
        return normalized, Some(n);
      }
      normalized := normalized + [n.path];
    }
  }

  /** The findings for files whose first normalisation succeeded; it stops where the second one fails. */
  method AuditEach(files: seq<string>, normalized: seq<string>, scope: Scope)
    returns (findings: seq<Finding>, raised: bool)
    requires scope.roles != [] && scope.highRisk != [] && AllLoaded(scope)
    requires |normalized| == |files| && forall k :: 0 <= k < |files| ==> Normalize(files[k]) == Usable(normalized[k])
    ensures raised ==> |findings| < |files| && !Seen(files[|findings|]).Usable?
    ensures !raised ==> |findings| == |files|
    ensures forall k :: 0 <= k < |findings| ==>
              && Seen(files[k]).Usable? && (findings[k].blockers == {} <==> FileAccepted(files[k], scope))
              && IsFinding(findings[k], normalized[k], scope)
  {
    hide Normalize, InScope, AllLoaded, RolesCovering, RolesForbidding, CoveredBy;
    findings, raised := [], false;
    for i := 0 to |normalized|
      invariant |findings| == i
      invariant forall k :: 0 <= k < i ==>
                && Seen(files[k]).Usable? && (findings[k].blockers == {} <==> FileAccepted(files[k], scope))
                && IsFinding(findings[k], normalized[k], scope)
    {
      assert Seen(files[i]) == Normalize(normalized[i]);
      var finding := AuditFile(normalized[i], scope);
      if finding.None? { return findings, true; }
      findings := findings + [finding.value];
    }
  }

  predicate AllNormalize(files: seq<string>) { forall f :: f in files ==> Normalize(f).Usable? }

  predicate NoBlockers(findings: seq<Finding>) { forall k :: 0 <= k < |findings| ==> findings[k].blockers == {} }

  method AuditAgainst(files: seq<string>, scope: Scope) returns (out: Outcome)
    requires scope.roles != [] && scope.highRisk != []
    ensures out.Report? && out.valid <==> ValidAudit(files, scope)
    ensures out.Report? ==> AllLoaded(scope) && |out.findings| == |files| && forall i :: 0 <= i < |files| ==>
              && (out.findings[i].blockers == {} <==> FileAccepted(files[i], scope))
              && Normalize(files[i]).Usable? && Normalize(Normalize(files[i]).path).Usable?
              && IsFinding(out.findings[i], Normalize(files[i]).path, scope)
    ensures out.Raised? <==>
              && files != [] && AllNormalize(files) && AllLoaded(scope)
              && exists f :: f in files && !Seen(f).Usable?
    ensures !out.CallRefused? && (out == Blocked(ChangedFilesMissing) <==> files == [])
    ensures out == Blocked(HandoffEvidenceInvalid) <==> files != [] && AllNormalize(files) && !AllLoaded(scope)
    ensures out.Blocked? && out.problem.PathProblem? <==> !AllNormalize(files)
    ensures out.Blocked? && out.problem.PathProblem? ==>
              exists k :: 0 <= k < |files| && FirstBad(files, k) && Normalize(files[k]) == out.problem.problem
  {
    hide Normalize, InScope, AllLoaded;
    var normalized, problem := NormalizeAll(files);
    if problem.Some? {
      assert exists f :: f in files && !Normalize(f).Usable?;
      assert !AllNormalize(files);
      return Blocked(PathProblem(problem.value));
    }
    if normalized == [] { return Blocked(ChangedFilesMissing); }
    var loaded := LoadScopeArtifacts(scope);
    if !loaded { return Blocked(HandoffEvidenceInvalid); }
    var findings, raised := AuditEach(files, normalized, scope);
    if raised {
      assert files[|findings|] in files;
      return Raised;
    }
    assert NoBlockers(findings) <==> forall k :: 0 <= k < |files| ==> FileAccepted(files[k], scope);
    return Report(NoBlockers(findings), findings);
  }

  predicate GoesUp(s: string) { exists i :: 0 <= i < |s| - 1 && s[i] == s[i + 1] == '.' }

  function TaskIdError(taskId: string): Option<CallError> {
    var cleaned := Trim(taskId);
    if cleaned == "" then Some(TaskIdMissing)
    else if '/' in cleaned || '\\' in cleaned || GoesUp(cleaned) then Some(TaskIdUnsafe)
    else None
  }

  function KnownRoles(roles: seq<Option<Role>>): (known: seq<Role>)
    requires None !in roles
    ensures |known| == |roles| && forall i :: 0 <= i < |roles| ==> roles[i] == Some(known[i])
  {
    assert forall i :: 0 <= i < |roles| ==> roles[i] in roles && roles[i] != None;
    seq(|roles|, i requires 0 <= i < |roles| => roles[i].value)
  }

  function ScopeOf(taskId: string, load: (string, Role) -> Option<Artifact>, scopeRoles: seq<Option<Role>>,
                   humanApproved: bool): Scope
    requires None !in scopeRoles
  {
    var roles := if scopeRoles == [] then DEFAULT_SCOPE_APPROVAL_ROLES else KnownRoles(scopeRoles);
    Scope(role => load(Trim(taskId), role), roles, humanApproved, HIGH_RISK_ROLE_PATH_PREFIXES)
  }

  /** A role whose text names none of the seven is `None`; handoffs are loaded for the trimmed task id. */
  method AuditChangedFilesAgainstHandoffs(taskId: string, files: seq<string>, load: (string, Role) -> Option<Artifact>,
                                          scopeRoles: seq<Option<Role>>, humanApproved: bool)
    returns (out: Outcome)
    ensures out.CallRefused? <==> TaskIdError(taskId).Some? || None in scopeRoles
    ensures TaskIdError(taskId).Some? ==> out == CallRefused(TaskIdError(taskId).value)
    ensures TaskIdError(taskId).None? && out.CallRefused? ==> out == CallRefused(UnknownScopeRole)
    ensures out.Report? && out.valid
        <==> && TaskIdError(taskId).None? && None !in scopeRoles
             && ValidAudit(files, ScopeOf(taskId, load, scopeRoles, humanApproved))
  {
    hide Normalize, ValidAudit, NamesOrContains, Trim;
    if TaskIdError(taskId).Some? { return CallRefused(TaskIdError(taskId).value); }
    for i := 0 to |scopeRoles|
      invariant forall k :: 0 <= k < i ==> scopeRoles[k].Some?
    {
      if scopeRoles[i].None? {
        assert scopeRoles[i] in scopeRoles;
        return CallRefused(UnknownScopeRole);
      }
    }
    out := AuditAgainst(files, ScopeOf(taskId, load, scopeRoles, humanApproved));
  }

  /** An audit can be split and its parts joined: neither hides what the other would find. */
  lemma AuditOfPartsIff(a: seq<string>, b: seq<string>, scope: Scope)
    requires a != [] && b != []
    ensures ValidAudit(a + b, scope) <==> ValidAudit(a, scope) && ValidAudit(b, scope)
  {
    assert forall f :: f in a + b <==> f in a || f in b;
  }

  // ---------------------------------------------------------------- what an audit guarantees

  /** A usable path is what is left of the trimmed path, with slashes for backslashes, without its `./` in front. */
  lemma NormalizeMeans(path: string)
    ensures var left := DropDotSlash(Slashed(Trim(path)));
            && (Normalize(path) == PathMissing <==> left == "")
            && (Normalize(path) == PathUnsafe <==> left != "" && (left[0] == '/' || ".." in Split(left)))
            && (Normalize(path).Usable? ==> Normalize(path).path == left)
  {
    hide Split, Trim, Slashed, DropDotSlash;
  }

  /** What is dropped in front of a path is `./`, any number of times and as often as it stands there. */
  lemma {:induction false} DropDotSlashIs(s: string)
    ensures DropDotSlash("./" + s) == DropDotSlash(s)
    ensures !("./" <= s) ==> DropDotSlash(s) == s
  {
    assert ("./" + s)[2..] == s;
  }

  /** A task id is usable when it is not blank and names no path: no slash of either kind, no two dots in a row. */
  lemma TaskIdErrorIs(taskId: string)
    ensures TaskIdError(taskId) == Some(TaskIdMissing) <==> Trim(taskId) == ""
    ensures TaskIdError(taskId).None? <==>
              && Trim(taskId) != "" && '/' !in Trim(taskId) && '\\' !in Trim(taskId)
              && forall i :: 0 < i < |Trim(taskId)| ==> !(Trim(taskId)[i - 1] == '.' && Trim(taskId)[i] == '.')
  {
    hide Trim;
    var s := Trim(taskId);
    if GoesUp(s) {
      var i :| 0 <= i < |s| - 1 && s[i] == s[i + 1] == '.';
      assert s[i + 1 - 1] == '.' && s[i + 1] == '.';
    }
  }

  /** Without the human's approval none of these may change. */
  lemma HighRiskList(p: string)
    ensures p in HIGH_RISK_ROLE_PATH_PREFIXES <==>
              || p == "agent_system/" || p == "api/" || p == "config/" || p == "core/" || p == "execution_readiness/"
              || p == "execution_safety/" || p == "main.py" || p == "paper_trading/" || p == "run_live.sh"
              || p == "runtime_contract.py"
  {
  }

  /**
   A valid audit: every file is safe, each of the asked roles (or else the three that always
   count) has a handoff that names it and none that forbids it, and it is not of high risk
   unless a human approved.
   */
  lemma ValidAuditMeans(taskId: string, files: seq<string>, load: (string, Role) -> Option<Artifact>,
                        scopeRoles: seq<Option<Role>>, human: bool)
    requires None !in scopeRoles
    ensures ValidAudit(files, ScopeOf(taskId, load, scopeRoles, human)) <==>
              && files != []
              && (forall role :: Counts(role, scopeRoles) ==> load(Trim(taskId), role).Some?)
              && forall f :: f in files ==>
                   && Normalize(f).Usable? && Normalize(Normalize(f).path).Usable?
                   && var p := Normalize(Normalize(f).path).path;
                      && (forall role :: Counts(role, scopeRoles) ==>
                            && CoveredBy(p, load(Trim(taskId), role).value.filesAllowed)
                            && !CoveredBy(p, load(Trim(taskId), role).value.filesForbidden))
                      && (human || !CoveredBy(p, HIGH_RISK_ROLE_PATH_PREFIXES))
  {
    hide Normalize, CoveredBy, Trim, Counts;
    var scope := ScopeOf(taskId, load, scopeRoles, human);
    forall role
      ensures role in scope.roles <==> Counts(role, scopeRoles)
      ensures scope.load(role) == load(Trim(taskId), role)
    {
      CountingRoles(taskId, load, scopeRoles, human, role);
    }
    assert scope.highRisk == HIGH_RISK_ROLE_PATH_PREFIXES && scope.humanApproved == human;
    hide ScopeOf;
  }

  lemma CountingRoles(taskId: string, load: (string, Role) -> Option<Artifact>, scopeRoles: seq<Option<Role>>,
                      human: bool, role: Role)
    requires None !in scopeRoles
    ensures role in ScopeOf(taskId, load, scopeRoles, human).roles <==> Counts(role, scopeRoles)
  {
    if scopeRoles != [] {
      var known := KnownRoles(scopeRoles);
      if role in known {
        var i :| 0 <= i < |known| && known[i] == role;
        assert scopeRoles[i] == Some(role);
      }
      if Some(role) in scopeRoles {
        var i :| 0 <= i < |scopeRoles| && scopeRoles[i] == Some(role);
        assert known[i] == role;
      }
    }
  }

  /** The roles whose handoffs count. */
  predicate Counts(role: Role, scopeRoles: seq<Option<Role>>) {
    if scopeRoles == [] then role == ScopeOwner || role == HermesArchitect || role == GsdImplementer
    else Some(role) in scopeRoles
  }
}
