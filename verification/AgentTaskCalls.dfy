/** What each call on the task store stores and answers, in terms of what it was asked. */
module AgentTaskCalls {
  import opened Prelude
  import opened Text
  import opened AgentWork
  import opened AgentWorkTheorems
  import opened AgentTaskStore

  /** A name that is given and not blank. */
  predicate Named(name: Option<string>) { name.Some? && Trim(name.value) != "" }

  // ---------------------------------------------------------------- intake

  /** The record of a request: the request itself, what the guard and the approval say about it, and when. */
  predicate RecordOf(idOf: Identity -> WorkId, t: TaskRecord, r: Request, human: bool, approver: Option<string>,
                     day: nat, now: int) {
    && t.workId == idOf(IdentityOf(r)) && t.request == r && t.scope == Scope(r, idOf)
    && t.approval == Approval(Scope(r, idOf), human, approver) && t.evidence == day && t.createdAt == now
  }

  /** The same task, up to the time of its creation. */
  predicate SameTask(a: TaskRecord, b: TaskRecord) {
    && a.workId == b.workId && a.request == b.request && a.scope == b.scope
    && a.approval == b.approval && a.evidence == b.evidence
  }

  lemma IntakeMeans(idOf: Identity -> WorkId, tasks: Tasks, decisions: Decisions,
                    raw: RawRequest, human: bool, approver: Option<string>, day: nat, now: int)
    ensures var (after, decided, reply) := Transition(idOf, tasks, decisions, IntakeOp(raw, human, approver, day, now));
            && decided == decisions
            && match Normalize(raw)
               case BadShape(error) => reply == Failed(InvalidShape(error)) && after == tasks
               case WellShaped(r) =>
                 var id := idOf(IdentityOf(r));
                 if reply.Taken? then
                   && RecordOf(idOf, reply.record, r, human, approver, day, now)
                   && (if id in tasks
                       then reply.task == Exists && after == tasks && SameTask(tasks[id], reply.record)
                       else reply.task == Created && after == tasks[id := reply.record])
                 else
                   && reply == Failed(TaskIdConflict) && after == tasks && id in tasks
                   && forall t :: RecordOf(idOf, t, r, human, approver, day, now) ==> !SameTask(tasks[id], t)
  {
    hide Normalize, Scope, Approval;
  }

  /** How a request was taken: out of bounds, cleared for a patch, or neither. */
  lemma IntakeStatusMeans(idOf: Identity -> WorkId, tasks: Tasks, decisions: Decisions, r: Request,
                          raw: RawRequest, human: bool, approver: Option<string>, day: nat, now: int)
    requires Normalize(raw) == WellShaped(r)
    requires Transition(idOf, tasks, decisions, IntakeOp(raw, human, approver, day, now)).2.Taken?
    ensures var status := Transition(idOf, tasks, decisions, IntakeOp(raw, human, approver, day, now)).2.status;
            && (status == IntakeBlocked <==> !WithinBounds(r))
            && (status == IntakeApproved <==>
                  WithinBounds(r) && ((HarmlessWork(r) && !HighRiskWork(r)) || (human && Named(approver))))
  {
    ScopeMeans(r, idOf);
    ApprovalMeans(Scope(r, idOf), human, approver);
    hide Scope, Approval, WithinBounds, HarmlessWork, HighRiskWork, Normalize, Trim;
  }

  // ---------------------------------------------------------------- decisions

  /** Why a decision is not recorded, in the order in which the causes are looked for. */
  predicate NotRecorded(tasks: Tasks, decisions: Decisions, id: WorkId, actor: Option<string>, approving: bool,
                        error: Error) {
    match error
    case AgentTaskNotFound => id !in tasks
    case ActorMustBeString => id in tasks && actor.None?
    case ActorRequired => id in tasks && actor.Some? && !Named(actor)
    case TaskWorkIdMismatch => id in tasks && Named(actor) && tasks[id].workId != id
    case ApprovalDecisionNotApproved =>
      && approving && id in tasks && Named(actor) && tasks[id].workId == id
      && !(tasks[id].scope.accepted && tasks[id].scope.state != Blocked && tasks[id].scope.unsafeFlags == {})
    case DecisionAlreadyRecorded =>
      && id in tasks && Named(actor) && tasks[id].workId == id && id in decisions
      && (approving ==>
            tasks[id].scope.accepted && tasks[id].scope.state != Blocked && tasks[id].scope.unsafeFlags == {})
    case _ => false
  }

  /** A recorded decision: about the stored task, by a trimmed name, with the cleaned reason. */
  predicate DecisionOf(record: PatchRecord, t: TaskRecord, actor: string, approving: bool, reason: Option<string>,
                       now: int) {
    && record.workId == t.workId && record.allowedForPatch == approving
    && record.approvedBy == (if approving then Some(Trim(actor)) else None)
    && record.rejectedBy == (if approving then None else Some(Trim(actor)))
    && record.reason == (if Named(reason) then Some(Trim(reason.value)) else None)
    && record.createdAt == now && record.source == t.request.source && record.action == t.request.action
    && record.risk == t.scope.risk && record.taskState == t.scope.state
  }

  /** Deciding either records that decision, or changes nothing and says why. */
  ghost predicate Decides(tasks: Tasks, decisions: Decisions, id: WorkId, actor: Option<string>, approving: bool,
                          reason: Option<string>, now: int, out: (Tasks, Decisions, Reply)) {
    && out.0 == tasks
    && (out.2.DecisionRecorded? || out.2.Failed?)
    && (out.2.DecisionRecorded? ==>
          && id in tasks && Named(actor) && id !in decisions && tasks[id].workId == id
          && DecisionOf(out.2.decision, tasks[id], actor.value, approving, reason, now)
          && out.1 == decisions[id := out.2.decision])
    && (out.2.Failed? ==> NotRecorded(tasks, decisions, id, actor, approving, out.2.error) && out.1 == decisions)
  }

  lemma ApprovalRecords(idOf: Identity -> WorkId, tasks: Tasks, decisions: Decisions, id: WorkId,
                        approver: Option<string>, reason: Option<string>, now: int)
    ensures Decides(tasks, decisions, id, approver, true, reason, now,
                    Transition(idOf, tasks, decisions, ApproveOp(id, approver, reason, now)))
  {
    hide Approval, Trim, Normalize, TaskFor, StatusOf;
    if id in tasks { ApprovalMeans(tasks[id].scope, true, approver); }
  }

  lemma RejectionRecords(idOf: Identity -> WorkId, tasks: Tasks, decisions: Decisions, id: WorkId,
                         rejector: Option<string>, reason: Option<string>, now: int)
    ensures Decides(tasks, decisions, id, rejector, false, reason, now,
                    Transition(idOf, tasks, decisions, RejectOp(id, rejector, reason, now)))
  {
    hide Trim;
  }

  /** A rejection is recorded exactly when the task exists, is undecided and somebody is named; whatever its scope. */
  lemma RejectRecordsIff(idOf: Identity -> WorkId, s: State, id: WorkId, rejector: Option<string>,
                         reason: Option<string>, now: int)
    requires WellKept(idOf, s)
    ensures Transition(idOf, s.tasks, s.decisions, RejectOp(id, rejector, reason, now)).2.DecisionRecorded?
        <==> id in s.tasks && id !in s.decisions && Named(rejector)
  {
    RejectionRecords(idOf, s.tasks, s.decisions, id, rejector, reason, now);
    if id in s.tasks { assert Filed(idOf, s, id); }
    hide Transition, DecisionOf, Trim, WithinBounds, Scope;
  }

  // ---------------------------------------------------------------- the index and its filters

  lemma ProjectIs(t: TaskRecord)
    ensures var e := Project(t);
            && e.workId == t.workId && e.source == t.request.source && e.action == t.request.action
            && e.state == t.scope.state && e.risk == t.scope.risk && e.createdAt == t.createdAt
  {
  }

  /** What a filter leaves open selects everything; what it fixes selects by that field alone. */
  lemma SelectsByField(e: IndexEntry, w: WorkId, s: Source, a: Action, st: WorkState, k: Risk, from_: int, to_: int)
    ensures Selects(Filter(None, None, None, None, None, None, None), e)
    ensures Selects(Filter(Some(w), None, None, None, None, None, None), e) <==> e.workId == w
    ensures Selects(Filter(None, Some(s), None, None, None, None, None), e) <==> e.source == s
    ensures Selects(Filter(None, None, Some(a), None, None, None, None), e) <==> e.action == a
    ensures Selects(Filter(None, None, None, Some(st), None, None, None), e) <==> e.state == st
    ensures Selects(Filter(None, None, None, None, Some(k), None, None), e) <==> e.risk == k
    ensures Selects(Filter(None, None, None, None, None, Some(from_), None), e) <==> from_ <= e.createdAt
    ensures Selects(Filter(None, None, None, None, None, None, Some(to_)), e) <==> e.createdAt <= to_
  {
  }

  function Either<T>(a: Option<T>, b: Option<T>): Option<T> { if a.Some? then a else b }

  /** Two filters that fix different fields select together what both select. */
  lemma FiltersConjoin(f: Filter, g: Filter, e: IndexEntry)
    requires (f.workId.None? || g.workId.None?) && (f.source.None? || g.source.None?)
    requires (f.action.None? || g.action.None?) && (f.state.None? || g.state.None?) && (f.risk.None? || g.risk.None?)
    requires (f.createdFrom.None? || g.createdFrom.None?) && (f.createdTo.None? || g.createdTo.None?)
    ensures Selects(Filter(Either(f.workId, g.workId), Either(f.source, g.source), Either(f.action, g.action),
                           Either(f.state, g.state), Either(f.risk, g.risk), Either(f.createdFrom, g.createdFrom),
                           Either(f.createdTo, g.createdTo)), e)
        <==> Selects(f, e) && Selects(g, e)
  {
  }
}
