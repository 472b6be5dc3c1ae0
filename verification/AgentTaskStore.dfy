/**
 Task files, the index over them, and the write-once patch decisions.  Work ids are fixed-width
 hexadecimal digests, so the order of their file names is the order of the numbers.
 */
module AgentTaskStore {
  import opened Prelude
  import opened Text
  import opened AgentWork

  datatype TaskRecord = TaskRecord(
    workId: WorkId, request: Request, scope: ScopeDecision, approval: ApprovalDecision, evidence: nat, createdAt: int)

  datatype IndexEntry = IndexEntry(workId: WorkId, source: Source, action: Action, state: WorkState, risk: Risk,
                                   createdAt: int)

  datatype PatchRecord = PatchRecord(
    workId: WorkId, allowedForPatch: bool, approvedBy: Option<string>, rejectedBy: Option<string>,
    reason: Option<string>, createdAt: int, source: Source, action: Action, risk: Risk, taskState: WorkState)

  type Tasks = map<WorkId, TaskRecord>

  type Decisions = map<WorkId, PatchRecord>

  datatype State = State(tasks: Tasks, decisions: Decisions, index: Option<seq<IndexEntry>>)

  datatype Op =
    | IntakeOp(raw: RawRequest, human: bool, approver: Option<string>, day: nat, now: int)
    | ApproveOp(workId: WorkId, approver: Option<string>, reason: Option<string>, now: int)
    | RejectOp(workId: WorkId, rejector: Option<string>, reason: Option<string>, now: int)
    | QueryOp(filter: Filter, limit: Option<int>)

  datatype TaskStatus = Created | Exists

  datatype IntakeStatus = IntakeBlocked | IntakeApproved | IntakeRejected

  datatype Error =
    | InvalidShape(shape: ShapeError) | TaskIdConflict | AgentTaskNotFound | ActorMustBeString | ActorRequired
    | TaskWorkIdMismatch | ApprovalDecisionNotApproved | DecisionAlreadyRecorded | LimitMustBeNonNegative

  datatype Reply =
    | Taken(status: IntakeStatus, task: TaskStatus, record: TaskRecord) | DecisionRecorded(decision: PatchRecord)
    | Found(sourceCount: nat, records: seq<IndexEntry>) | Failed(error: Error)

  // ---------------------------------------------------------------- task files and their index

  function Project(t: TaskRecord): IndexEntry {
    IndexEntry(t.workId, t.request.source, t.request.action, t.scope.state, t.scope.risk, t.createdAt)
  }

  /** Everything but the creation time. */
  predicate SameDedupe(a: TaskRecord, b: TaskRecord) { a.(createdAt := 0) == b.(createdAt := 0) }

  /** One entry for every task file, in the order of the file names. */
  ghost predicate IsIndexOf(index: seq<IndexEntry>, tasks: Tasks) {
    exists ids: seq<WorkId> ::
      Ascending(ids) && (forall id :: id in ids <==> id in tasks) && IsProjection(index, ids, tasks)
  }

  predicate IsProjection(index: seq<IndexEntry>, ids: seq<WorkId>, tasks: Tasks) {
    |index| == |ids| && forall i :: 0 <= i < |ids| ==> ids[i] in tasks && index[i] == Project(tasks[ids[i]])
  }

  predicate Ascending(ids: seq<WorkId>) { forall i, j :: 0 <= i < j < |ids| ==> ids[i] < ids[j] }

  lemma SmallerIsFewer(a: set<WorkId>, b: set<WorkId>)
    requires a < b
    ensures |a| < |b|
  {
    assert b == a + (b - a);
    assert |b - a| > 0 by { var x :| x in b && x !in a; }
  }

  lemma LeastExists(s: set<WorkId>) returns (least: WorkId)
    requires s != {}
    ensures least in s && forall y :: y in s ==> least <= y
    decreases |s|
  {
    var x :| x in s;
    if forall y :: y in s ==> x <= y {
      least := x;
    } else {
      var smaller := set y | y in s && y < x;
      var y :| y in s && y < x;
      assert y in smaller && x !in smaller;
      assert smaller < s;
      SmallerIsFewer(smaller, s);
      least := LeastExists(smaller);
      assert least < x;
      forall z | z in s
        ensures least <= z
      {
        if z < x { assert z in smaller; }
      }
    }
  }

  method SortedIds(keys: set<WorkId>) returns (ids: seq<WorkId>)
    ensures Ascending(ids) && forall id :: id in ids <==> id in keys
  {
    ids := [];
    var rest := keys;
    while rest != {}
      invariant rest <= keys && Ascending(ids)
      invariant forall id :: id in keys <==> id in ids || id in rest
      invariant forall x, y :: x in ids && y in rest ==> x < y
    {
      var _ := LeastExists(rest);
      var least :| least in rest && forall y :: y in rest ==> least <= y;
      forall i | 0 <= i < |ids|
        ensures ids[i] < least
      {
        assert ids[i] in ids && least in rest;
      }
      ids := ids + [least];
      rest := rest - {least};
    }
  }

  lemma {:induction false} AscendingIsUnique(a: seq<WorkId>, b: seq<WorkId>)
    requires Ascending(a) && Ascending(b) && forall id :: id in a <==> id in b
    ensures a == b
  {
    assert a != [] ==> a[0] in b;
    assert b != [] ==> b[0] in a;
    if a != [] {
      var i :| 0 <= i < |b| && b[i] == a[0];
      var j :| 0 <= j < |a| && a[j] == b[0];
      assert a[0] == b[0];
      forall id
        ensures id in a[1..] <==> id in b[1..]
      {
        assert id in a[1..] <==> id in a && id != a[0];
        assert id in b[1..] <==> id in b && id != b[0];
      }
      AscendingIsUnique(a[1..], b[1..]);
    }
  }

  lemma IndexIsUnique(a: seq<IndexEntry>, b: seq<IndexEntry>, tasks: Tasks)
    requires IsIndexOf(a, tasks) && IsIndexOf(b, tasks)
    ensures a == b
  {
    var ids :| Ascending(ids) && (forall id :: id in ids <==> id in tasks) && IsProjection(a, ids, tasks);
    var jds :| Ascending(jds) && (forall id :: id in jds <==> id in tasks) && IsProjection(b, jds, tasks);
    hide Ascending, IsProjection;
    assert forall id :: id in ids <==> id in jds;
    AscendingIsUnique(ids, jds);
    ProjectionIsUnique(a, b, ids, tasks);
  }

  lemma ProjectionIsUnique(a: seq<IndexEntry>, b: seq<IndexEntry>, ids: seq<WorkId>, tasks: Tasks)
    requires IsProjection(a, ids, tasks) && IsProjection(b, ids, tasks)
    ensures a == b
  {
    hide Project;
  }

  /** The index holds exactly the projections of the task files. */
  lemma IndexHoldsEveryTask(index: seq<IndexEntry>, tasks: Tasks)
    requires IsIndexOf(index, tasks) && forall id :: id in tasks ==> tasks[id].workId == id
    ensures forall id :: id in tasks ==> Project(tasks[id]) in index
    ensures forall i :: 0 <= i < |index| ==> index[i].workId in tasks && index[i] == Project(tasks[index[i].workId])
    ensures forall i, j :: 0 <= i < j < |index| ==> index[i].workId < index[j].workId
  {
    var ids :| Ascending(ids) && (forall id :: id in ids <==> id in tasks) && IsProjection(index, ids, tasks);
    forall id | id in tasks
      ensures Project(tasks[id]) in index
    {
      var i :| 0 <= i < |ids| && ids[i] == id;
      assert index[i] == Project(tasks[id]);
    }
  }

  // ---------------------------------------------------------------- queries

  datatype Filter = Filter(
    workId: Option<WorkId>, source: Option<Source>, action: Option<Action>, state: Option<WorkState>,
    risk: Option<Risk>, createdFrom: Option<int>, createdTo: Option<int>)

  predicate Selects(f: Filter, e: IndexEntry) {
    && (f.workId.Some? ==> e.workId == f.workId.value) && (f.source.Some? ==> e.source == f.source.value)
    && (f.action.Some? ==> e.action == f.action.value) && (f.state.Some? ==> e.state == f.state.value)
    && (f.risk.Some? ==> e.risk == f.risk.value)
    && (f.createdFrom.Some? ==> f.createdFrom.value <= e.createdAt)
    && (f.createdTo.Some? ==> e.createdAt <= f.createdTo.value)
  }

  /** `records` are the entries of `index` at the increasing positions `at`, which are the selected ones. */
  predicate IsSelection(records: seq<IndexEntry>, at: seq<nat>, index: seq<IndexEntry>, f: Filter) {
    && |records| == |at| && Ascending(at)
    && (forall k :: 0 <= k < |at| ==> at[k] < |index| && records[k] == index[at[k]])
    && (forall i :: 0 <= i < |index| ==> (i in at <==> Selects(f, index[i])))
  }

  lemma SelectionGrows(records: seq<IndexEntry>, at: seq<nat>, index: seq<IndexEntry>, i: nat, f: Filter)
    requires i < |index| && IsSelection(records, at, index[..i], f)
    ensures if Selects(f, index[i]) then IsSelection(records + [index[i]], at + [i], index[..i + 1], f)
            else IsSelection(records, at, index[..i + 1], f)
  {
    hide Selects;
    assert forall k :: 0 <= k < i ==> index[..i + 1][k] == index[..i][k];
    assert forall k :: 0 <= k < |at| ==> at[k] < i;
    assert forall k :: k in at + [i] <==> k in at || k == i;
  }

  /** The first `limit` of the selected entries, in index order. */
  ghost predicate Answers(reply: Reply, index: seq<IndexEntry>, f: Filter, limit: Option<int>) {
    if limit.Some? && limit.value < 0 then reply == Failed(LimitMustBeNonNegative)
    else
      && reply.Found? && reply.sourceCount == |index|
      && exists records: seq<IndexEntry>, at: seq<nat> :: IsSelection(records, at, index, f)
           && reply.records == if limit.Some? && limit.value < |records| then records[..limit.value] else records
  }

  // ---------------------------------------------------------------- one step

  function TaskFor(idOf: Identity -> WorkId, r: Request, human: bool, approver: Option<string>, day: nat, now: int)
    : TaskRecord
  {
    TaskRecord(idOf(IdentityOf(r)), r, Scope(r, idOf), Approval(Scope(r, idOf), human, approver), day, now)
  }

  function StatusOf(t: TaskRecord): IntakeStatus {
    if t.scope.state == Blocked then IntakeBlocked else if t.approval.approved then IntakeApproved else IntakeRejected
  }

  function PatchApproval(t: TaskRecord, actor: string, reason: Option<string>, now: int): PatchRecord {
    PatchRecord(t.workId, true, Some(actor), None, reason, now, t.request.source, t.request.action, t.scope.risk,
                t.scope.state)
  }

  function PatchRejection(t: TaskRecord, actor: string, reason: Option<string>, now: int): PatchRecord {
    PatchRecord(t.workId, false, None, Some(actor), reason, now, t.request.source, t.request.action, t.scope.risk,
                t.scope.state)
  }

  function ActorError(actor: Option<string>): Option<Error> {
    if actor.None? then Some(ActorMustBeString) else if Trim(actor.value) == "" then Some(ActorRequired) else None
  }

  /** One call against the task files and the decision files; the index is described apart. */
  function Transition(idOf: Identity -> WorkId, tasks: Tasks, decisions: Decisions, op: Op): (Tasks, Decisions, Reply)
    requires !op.QueryOp?
  {
    match op
    case IntakeOp(raw, human, approver, day, now) =>
      (match Normalize(raw)
       case BadShape(error) => (tasks, decisions, Failed(InvalidShape(error)))
       case WellShaped(r) =>
         var t := TaskFor(idOf, r, human, approver, day, now);
         if t.workId !in tasks then (tasks[t.workId := t], decisions, Taken(StatusOf(t), Created, t))
         else if !SameDedupe(tasks[t.workId], t) then (tasks, decisions, Failed(TaskIdConflict))
         else (tasks, decisions, Taken(StatusOf(t), Exists, t)))
    case ApproveOp(id, approver, reason, now) =>
      if id !in tasks then (tasks, decisions, Failed(AgentTaskNotFound))
      else if ActorError(approver).Some? then (tasks, decisions, Failed(ActorError(approver).value))
      else if tasks[id].workId != id then (tasks, decisions, Failed(TaskWorkIdMismatch))
      else if !Approval(tasks[id].scope, true, approver).approved then
        (tasks, decisions, Failed(ApprovalDecisionNotApproved))
      else if id in decisions then (tasks, decisions, Failed(DecisionAlreadyRecorded))
      else
        var record := PatchApproval(tasks[id], Trim(approver.value), CleanName(reason), now);
        (tasks, decisions[id := record], DecisionRecorded(record))
    case RejectOp(id, rejector, reason, now) =>
      if id !in tasks then (tasks, decisions, Failed(AgentTaskNotFound))
      else if ActorError(rejector).Some? then (tasks, decisions, Failed(ActorError(rejector).value))
      else if tasks[id].workId != id then (tasks, decisions, Failed(TaskWorkIdMismatch))
      else if id in decisions then (tasks, decisions, Failed(DecisionAlreadyRecorded))
      else
        var record := PatchRejection(tasks[id], Trim(rejector.value), CleanName(reason), now);
        (tasks, decisions[id := record], DecisionRecorded(record))
  }

  /** The index is rebuilt by every intake that persists and by every query, and untouched otherwise. */
  ghost predicate Step(idOf: Identity -> WorkId, before: State, op: Op, after: State, reply: Reply) {
    && (if op.QueryOp?
        then after.tasks == before.tasks && after.decisions == before.decisions
             && (after.index.Some? ==> Answers(reply, after.index.value, op.filter, op.limit))
        else Transition(idOf, before.tasks, before.decisions, op) == (after.tasks, after.decisions, reply))
    && if op.QueryOp? || reply.Taken?
       then after.index.Some? && IsIndexOf(after.index.value, after.tasks) else after.index == before.index
  }

  // ---------------------------------------------------------------- what every run keeps

  /** A decision that allows a patch rests on an accountable approver and on a stored task within bounds. */
  predicate Earned(idOf: Identity -> WorkId, s: State, id: WorkId)
    requires id in s.decisions
  {
    var record := s.decisions[id];
    && record.workId == id && id in s.tasks
    && (record.allowedForPatch ==>
          && record.approvedBy.Some? && record.approvedBy.value != ""
          && Trim(record.approvedBy.value) == record.approvedBy.value
          && WithinBounds(s.tasks[id].request))
    && (!record.allowedForPatch ==> record.approvedBy.None? && record.rejectedBy.Some? && record.rejectedBy.value != "")
  }

  /** A stored task is filed under its own identity, with the scope decision its request deserves. */
  predicate Filed(idOf: Identity -> WorkId, s: State, id: WorkId)
    requires id in s.tasks
  {
    var t := s.tasks[id];
    t.workId == id == idOf(IdentityOf(t.request)) && t.scope == Scope(t.request, idOf)
  }

  ghost predicate WellKept(idOf: Identity -> WorkId, s: State) {
    && (forall id :: id in s.tasks ==> Filed(idOf, s, id))
    && (forall id :: id in s.decisions ==> Earned(idOf, s, id))
    && if s.index.Some? then IsIndexOf(s.index.value, s.tasks) else s.tasks == map[]
  }

  ghost predicate Extends(before: State, after: State) {
    && (forall id :: id in before.tasks ==> id in after.tasks && after.tasks[id] == before.tasks[id])
    && (forall id :: id in before.decisions ==> id in after.decisions && after.decisions[id] == before.decisions[id])
  }

  lemma ExtensionKeeps(idOf: Identity -> WorkId, before: State, after: State)
    requires WellKept(idOf, before) && Extends(before, after)
    requires forall id :: id in after.tasks && id !in before.tasks ==> Filed(idOf, after, id)
    requires forall id :: id in after.decisions && id !in before.decisions ==> Earned(idOf, after, id)
    requires if after.index.Some? then IsIndexOf(after.index.value, after.tasks) else after.tasks == map[]
    ensures WellKept(idOf, after)
  {
    hide WithinBounds, Scope, IsIndexOf;
    forall id | id in after.tasks
      ensures Filed(idOf, after, id)
    {
      if id in before.tasks { assert Filed(idOf, before, id); }
    }
    forall id | id in after.decisions
      ensures Earned(idOf, after, id)
    {
      if id in before.decisions { assert Earned(idOf, before, id); }
    }
  }

  lemma ApprovalIsEarned(idOf: Identity -> WorkId, before: State, after: State, id: WorkId, approver: Option<string>,
                         reason: Option<string>, now: int)
    requires id in before.tasks && Filed(idOf, before, id) && after.tasks == before.tasks
    requires ActorError(approver).None? && Approval(before.tasks[id].scope, true, approver).approved
    requires var record := PatchApproval(before.tasks[id], Trim(approver.value), CleanName(reason), now);
             after.decisions == before.decisions[id := record]
    ensures Earned(idOf, after, id)
  {
    ApprovedIffGrantable(before.tasks[id].scope, true, approver);
    AcceptedIffWithinBounds(before.tasks[id].request, idOf);
    TrimTwice(approver.value);
    hide Scope, Approval, WithinBounds, CleanName;
  }

  lemma StepExtends(idOf: Identity -> WorkId, before: State, op: Op, after: State, reply: Reply)
    requires Step(idOf, before, op, after, reply)
    ensures Extends(before, after)
  {
    hide Normalize, Scope, Approval, CleanName, IsIndexOf, TaskFor, PatchApproval, PatchRejection;
  }

  lemma NewTasksAreFiled(idOf: Identity -> WorkId, before: State, op: Op, after: State, reply: Reply)
    requires Step(idOf, before, op, after, reply)
    ensures forall id :: id in after.tasks && id !in before.tasks ==> Filed(idOf, after, id)
  {
    hide Scope, Approval, IsIndexOf, Normalize, PatchApproval, PatchRejection, CleanName;
  }

  lemma IndexFollows(idOf: Identity -> WorkId, before: State, op: Op, after: State, reply: Reply)
    requires WellKept(idOf, before) && Step(idOf, before, op, after, reply)
    ensures if after.index.Some? then IsIndexOf(after.index.value, after.tasks) else after.tasks == map[]
  {
    hide Scope, Approval, IsIndexOf, Normalize, PatchApproval, PatchRejection, CleanName, TaskFor, Filed, Earned;
  }

  lemma StepKeeps(idOf: Identity -> WorkId, before: State, op: Op, after: State, reply: Reply)
    requires WellKept(idOf, before) && Step(idOf, before, op, after, reply)
    ensures WellKept(idOf, after)
  {
    hide Step, IsIndexOf, Extends, WellKept, Filed, Earned;
    StepExtends(idOf, before, op, after, reply);
    forall id | id in after.decisions && id !in before.decisions
      ensures Earned(idOf, after, id)
    {
      DecisionsAreEarned(idOf, before, op, after, reply, id);
    }
    NewTasksAreFiled(idOf, before, op, after, reply);
    IndexFollows(idOf, before, op, after, reply);
    ExtensionKeeps(idOf, before, after);
  }

  lemma DecisionsAreEarned(idOf: Identity -> WorkId, before: State, op: Op, after: State, reply: Reply, id: WorkId)
    requires WellKept(idOf, before) && Step(idOf, before, op, after, reply)
    requires id in after.decisions && id !in before.decisions
    ensures Earned(idOf, after, id)
  {
    hide Scope, WithinBounds, Approval, Normalize, CleanName, IsIndexOf, Filed;
    match op {
      case ApproveOp(_, approver, reason, now) => ApprovalIsEarned(idOf, before, after, id, approver, reason, now);
      case RejectOp(_, _, _, _) => assert Filed(idOf, before, id);
      case IntakeOp(_, _, _, _, _) =>
      case QueryOp(_, _) =>
    }
  }

  // ---------------------------------------------------------------- runs

  datatype Event = Event(op: Op, reply: Reply, after: State)

  /** Some run of calls from the empty store. */
  ghost predicate IsRun(idOf: Identity -> WorkId, run: seq<Event>) {
    forall i :: 0 <= i < |run| ==> Step(idOf, StateAt(run, i), run[i].op, run[i].after, run[i].reply)
  }

  function StateAt(run: seq<Event>, i: nat): State
    requires i <= |run|
  {
    if i == 0 then State(map[], map[], None) else run[i - 1].after
  }

  lemma {:induction false} RunsAreWellKept(idOf: Identity -> WorkId, run: seq<Event>, i: nat)
    requires IsRun(idOf, run) && i <= |run|
    ensures WellKept(idOf, StateAt(run, i))
  {
    hide Step, WellKept;
    if i > 0 {
      RunsAreWellKept(idOf, run, i - 1);
      StepKeeps(idOf, StateAt(run, i - 1), run[i - 1].op, run[i - 1].after, run[i - 1].reply);
    } else {
      EmptyIsWellKept(idOf);
    }
  }

  lemma RunExtends(idOf: Identity -> WorkId, run: seq<Event>, e: Event)
    requires IsRun(idOf, run) && Step(idOf, StateAt(run, |run|), e.op, e.after, e.reply)
    ensures IsRun(idOf, run + [e]) && StateAt(run + [e], |run + [e]|) == e.after
  {
    hide Step;
    var longer := run + [e];
    forall i | 0 <= i < |longer|
      ensures Step(idOf, StateAt(longer, i), longer[i].op, longer[i].after, longer[i].reply)
    {
      assert StateAt(longer, i) == StateAt(run, i);
      if i < |run| { assert longer[i] == run[i]; }
    }
  }

  lemma EmptyIsWellKept(idOf: Identity -> WorkId)
    ensures WellKept(idOf, State(map[], map[], None))
  {
  }

  /** Task files and decisions are written once: whatever a run stored stays as it was. */
  lemma {:induction false} WrittenOnce(idOf: Identity -> WorkId, run: seq<Event>, i: nat, j: nat)
    requires IsRun(idOf, run) && i <= j <= |run|
    ensures Extends(StateAt(run, i), StateAt(run, j))
    decreases j
  {
    hide Step;
    if i < j {
      WrittenOnce(idOf, run, i, j - 1);
      StepExtends(idOf, StateAt(run, j - 1), run[j - 1].op, run[j - 1].after, run[j - 1].reply);
    }
  }

  /** A work id gets at most one decision in a run. */
  lemma DecidedAtMostOnce(idOf: Identity -> WorkId, run: seq<Event>, i: nat, j: nat)
    requires IsRun(idOf, run) && i < j < |run|
    requires run[i].reply.DecisionRecorded? && run[j].reply.DecisionRecorded?
    ensures run[i].reply.decision.workId != run[j].reply.decision.workId
  {
    hide Step, WellKept;
    WrittenOnce(idOf, run, i + 1, j);
    RunsAreWellKept(idOf, run, i);
    RunsAreWellKept(idOf, run, j);
    assert StateAt(run, i + 1) == run[i].after;
    DecisionIsNew(idOf, StateAt(run, i), run[i]);
    DecisionIsNew(idOf, StateAt(run, j), run[j]);
  }

  lemma DecisionIsNew(idOf: Identity -> WorkId, before: State, e: Event)
    requires WellKept(idOf, before) && Step(idOf, before, e.op, e.after, e.reply) && e.reply.DecisionRecorded?
    ensures e.reply.decision.workId !in before.decisions && e.reply.decision.workId in e.after.decisions
  {
    hide Normalize, Approval, Scope, CleanName, IsIndexOf, Earned;
  }

  /** Permission to patch, in any run, was earned: a named approver and a request within bounds, under its own id. */
  lemma PatchPermissionIsEarned(idOf: Identity -> WorkId, run: seq<Event>, id: WorkId)
    requires IsRun(idOf, run)
    requires id in StateAt(run, |run|).decisions && StateAt(run, |run|).decisions[id].allowedForPatch
    ensures var s := StateAt(run, |run|);
            && s.decisions[id].approvedBy.Some? && s.decisions[id].approvedBy.value != ""
            && id in s.tasks && idOf(IdentityOf(s.tasks[id].request)) == id && WithinBounds(s.tasks[id].request)
  {
    RunsAreWellKept(idOf, run, |run|);
    hide WithinBounds, Scope;
    var s := StateAt(run, |run|);
    assert Earned(idOf, s, id) && Filed(idOf, s, id);
  }

  /** After an intake that persisted, the index is the one sorted projection of the task files, the new one included. */
  lemma IntakeIndexes(idOf: Identity -> WorkId, run: seq<Event>, i: nat)
    requires IsRun(idOf, run) && i < |run| && run[i].reply.Taken? && run[i].op.IntakeOp?
    ensures run[i].after.index.Some? && IsIndexOf(run[i].after.index.value, run[i].after.tasks)
    ensures Project(run[i].reply.record).(createdAt := 0) in Undated(run[i].after.index.value)
  {
    hide WellKept, Step;
    RunsAreWellKept(idOf, run, i);
    RunsAreWellKept(idOf, run, i + 1);
    StepIndexes(idOf, StateAt(run, i), run[i]);
  }

  lemma StepIndexes(idOf: Identity -> WorkId, before: State, e: Event)
    requires Step(idOf, before, e.op, e.after, e.reply) && e.op.IntakeOp? && e.reply.Taken? && WellKept(idOf, e.after)
    ensures e.after.index.Some? && IsIndexOf(e.after.index.value, e.after.tasks)
    ensures Project(e.reply.record).(createdAt := 0) in Undated(e.after.index.value)
  {
    hide IsIndexOf, Scope, Approval, Normalize, Earned, PatchApproval, PatchRejection, CleanName, ActorError, StatusOf;
    var tasks, index, id := e.after.tasks, e.after.index.value, e.reply.record.workId;
    assert id in tasks && SameDedupe(tasks[id], e.reply.record);
    assert forall j :: j in tasks ==> Filed(idOf, e.after, j);
    IndexHoldsEveryTask(index, tasks);
    var k :| 0 <= k < |index| && index[k] == Project(tasks[id]);
    assert Undated(index)[k] == index[k].(createdAt := 0);
  }

  function Undated(index: seq<IndexEntry>): (r: seq<IndexEntry>)
    ensures |r| == |index| && forall i :: 0 <= i < |index| ==> r[i] == index[i].(createdAt := 0)
  {
    seq(|index|, i requires 0 <= i < |index| => index[i].(createdAt := 0))
  }

  /** Exactly when a patch approval is recorded. */
  lemma ApproveRecordsIff(idOf: Identity -> WorkId, s: State, id: WorkId, approver: Option<string>,
                          reason: Option<string>, now: int)
    requires WellKept(idOf, s)
    ensures Transition(idOf, s.tasks, s.decisions, ApproveOp(id, approver, reason, now)).2.DecisionRecorded? <==>
              && id in s.tasks && id !in s.decisions && CleanName(approver).Some? && WithinBounds(s.tasks[id].request)
  {
    if id in s.tasks {
      assert Filed(idOf, s, id);
      ApprovedIffGrantable(s.tasks[id].scope, true, approver);
      AcceptedIffWithinBounds(s.tasks[id].request, idOf);
    }
    hide Scope, WithinBounds, Approval;
  }

  /** Sending the same request again on the same day stores nothing new. */
  lemma ResubmissionIsNoOp(idOf: Identity -> WorkId, tasks: Tasks, decisions: Decisions,
                           raw: RawRequest, human: bool, approver: Option<string>, day: nat, now: int, later: int)
    requires Transition(idOf, tasks, decisions, IntakeOp(raw, human, approver, day, now)).2.Taken?
    ensures var once := Transition(idOf, tasks, decisions, IntakeOp(raw, human, approver, day, now));
            var again := Transition(idOf, once.0, once.1, IntakeOp(raw, human, approver, day, later));
            && again.0 == once.0 && again.1 == once.1
            && again.2.Taken? && again.2.task == Exists && again.2.status == once.2.status
  {
    hide Scope, Approval, Normalize;
  }

  /**
   Exactly when an intake is a conflict: under the id that the request's identity fields hash
   to there is a task whose request, approval or day differs.  That task's identity fields
   hash to the same id, so they are the same fields or the two requests collide.
   */
  lemma ConflictIff(idOf: Identity -> WorkId, s: State, r: Request,
                    raw: RawRequest, human: bool, approver: Option<string>, day: nat, now: int)
    requires WellKept(idOf, s) && Normalize(raw) == WellShaped(r)
    ensures var id, approval := idOf(IdentityOf(r)), Approval(Scope(r, idOf), human, approver);
            && (id in s.tasks ==> idOf(IdentityOf(s.tasks[id].request)) == id)
            && (Transition(idOf, s.tasks, s.decisions, IntakeOp(raw, human, approver, day, now)).2
                == Failed(TaskIdConflict) <==>
                  id in s.tasks
                  && (s.tasks[id].request != r || s.tasks[id].approval != approval || s.tasks[id].evidence != day))
  {
    var id := idOf(IdentityOf(r));
    if id in s.tasks { assert Filed(idOf, s, id); }
    hide Scope, Approval, Normalize, CleanName, Earned, IsIndexOf, StatusOf;
  }

  lemma CleanOne(path: string)
    requires path != "" && NormalizePath(path) == path
    ensures CleanPaths([path]) == [path]
  {
    assert [path][..0] == [];
  }

  function ExampleRequest(allowed: seq<string>): RawRequest {
    RawRequest(Some(Gsd), Some(UpdateDocs), "t", "s", allowed, ["docs/a.md"], [], true, "")
  }

  lemma ExampleIsWellShaped()
    ensures Normalize(ExampleRequest([]))
         == WellShaped(Request(Gsd, UpdateDocs, "t", "s", [], ["docs/a.md"], [], true, ""))
    ensures Normalize(ExampleRequest(["docs/"]))
         == WellShaped(Request(Gsd, UpdateDocs, "t", "s", ["docs/"], ["docs/a.md"], [], true, ""))
  {
    TrimmedAlready("t");
    TrimmedAlready("s");
    TrimmedAlready("docs/a.md");
    TrimmedAlready("docs/");
    CleanOne("docs/a.md");
    CleanOne("docs/");
    assert CleanPaths([]) == [];
    hide Trim, CleanPaths;
  }

  /** For one: the same request under another allowed list, which has the same id, is refused and stores nothing. */
  lemma OtherBoundsConflict(idOf: Identity -> WorkId, now: int)
    ensures var first := Transition(idOf, map[], map[], IntakeOp(ExampleRequest([]), false, None, 0, now));
            var second := Transition(idOf, first.0, first.1, IntakeOp(ExampleRequest(["docs/"]), false, None, 0, now));
            first.2.Taken? && second == (first.0, first.1, Failed(TaskIdConflict))
  {
    ExampleIsWellShaped();
    hide Normalize, Scope, Approval, ExampleRequest;
  }

  // ---------------------------------------------------------------- the store

  lemma ScopeNamesItsId(r: Request, idOf: Identity -> WorkId)
    ensures Scope(r, idOf).workId.Some? ==> Scope(r, idOf).workId.value == idOf(IdentityOf(r))
  {
    hide BlockersUpTo, TouchesHighRisk, DocsOrTestsOnly;
  }

  class Store {
    const idOf: Identity -> WorkId
    var tasks: Tasks
    var decisions: Decisions
    var index: Option<seq<IndexEntry>>
    ghost var run: seq<Event>

    /** The store is where some run of calls from the empty store leads. */
    ghost predicate Valid()
      reads this
    {
      IsRun(idOf, run) && StateAt(run, |run|) == Snapshot()
    }

    ghost function Snapshot(): State
      reads this
    {
      State(tasks, decisions, index)
    }

    constructor (idOf: Identity -> WorkId)
      ensures Valid() && Snapshot() == State(map[], map[], None) && this.idOf == idOf
    {
      this.idOf := idOf;
      tasks, decisions, index, run := map[], map[], None, [];
    }

    method RebuildAgentTaskIndex()
      modifies this`index
      ensures index.Some? && IsIndexOf(index.value, tasks)
    {
      var ids := SortedIds(tasks.Keys);
      var records: seq<IndexEntry> := [];
      for i := 0 to |ids|
        invariant |records| == i && forall k :: 0 <= k < i ==> ids[k] in tasks && records[k] == Project(tasks[ids[k]])
      {
        assert ids[i] in ids;
        records := records + [Project(tasks[ids[i]])];
      }
      assert IsProjection(records, ids, tasks);
      index := Some(records);
    }

    method PersistAgentTask(t: TaskRecord) returns (status: Option<TaskStatus>)
      modifies this`tasks, this`index
      ensures status == if t.workId !in old(tasks) then Some(Created)
                        else if SameDedupe(old(tasks)[t.workId], t) then Some(Exists) else None
      ensures tasks == if t.workId in old(tasks) then old(tasks) else old(tasks)[t.workId := t]
      ensures if status.None? then index == old(index) else index.Some? && IsIndexOf(index.value, tasks)
    {
      status := Some(Created);
      if t.workId in tasks {
        if !SameDedupe(tasks[t.workId], t) { return None; }
        status := Some(Exists);
      } else {
        tasks := tasks[t.workId := t];
      }
      RebuildAgentTaskIndex();
    }

    method BuildAgentTaskIntakePayload(raw: RawRequest, human: bool, approver: Option<string>, day: nat, now: int)
      returns (reply: Reply)
      requires Valid()
      modifies this
      ensures Valid()
      ensures Step(idOf, old(Snapshot()), IntakeOp(raw, human, approver, day, now), Snapshot(), reply)
    {
      hide Scope, Approval, Normalize, IsIndexOf, StateAt, IsRun, WithinBounds, Grantable;
      ghost var op := IntakeOp(raw, human, approver, day, now);
      var n := NormalizeAgentWorkRequest(raw);
      if n.BadShape? {
        reply := Failed(InvalidShape(n.error));
      } else {
        var scope := AssessAgentScope(n.request, idOf);
        var approval := ApproveAgentWork(scope, human, approver);
        ScopeNamesItsId(n.request, idOf);
        var id := if scope.workId.Some? then scope.workId.value else idOf(IdentityOf(n.request));
        var record := TaskRecord(id, n.request, scope, approval, day, now);
        assert record == TaskFor(idOf, n.request, human, approver, day, now);
        var status := PersistAgentTask(record);
        if status.None? {
          reply := Failed(TaskIdConflict);
        } else {
          var outcome := if scope.state == Blocked then IntakeBlocked
                         else if approval.approved then IntakeApproved else IntakeRejected;
          reply := Taken(outcome, status.value, record);
        }
      }
      assert Transition(idOf, old(tasks), old(decisions), op) == (tasks, decisions, reply);
      ghost var e := Event(op, reply, Snapshot());
      RunExtends(idOf, run, e);
      run := run + [e];
    }

    method PersistAgentPatchApproval(record: PatchRecord) returns (ok: bool)
      modifies this`decisions
      ensures ok <==> record.workId !in old(decisions)
      ensures decisions == if ok then old(decisions)[record.workId := record] else old(decisions)
    {
      if record.workId in decisions { return false; }
      decisions := decisions[record.workId := record];
      return true;
    }

    method BuildAgentTaskPatchApprovalPayload(id: WorkId, approver: Option<string>, reason: Option<string>, now: int)
      returns (reply: Reply)
      requires Valid()
      modifies this
      ensures Valid()
      ensures Step(idOf, old(Snapshot()), ApproveOp(id, approver, reason, now), Snapshot(), reply)
    {
      hide Scope, Approval, Normalize, IsIndexOf, StateAt, IsRun, Grantable, CleanName;
      if id !in tasks {
        reply := Failed(AgentTaskNotFound);
      } else {
        var t := tasks[id];
        var approval := ApproveAgentWork(t.scope, true, approver);
        if approver.None? {
          reply := Failed(ActorMustBeString);
        } else if Trim(approver.value) == "" {
          reply := Failed(ActorRequired);
        } else if t.workId != id {
          reply := Failed(TaskWorkIdMismatch);
        } else if !approval.approved || !approval.allowedForPatch {
          reply := Failed(ApprovalDecisionNotApproved);
        } else {
          var record := PatchRecord(id, true, Some(Trim(approver.value)), None, CleanName(reason), now,
                                    t.request.source, t.request.action, t.scope.risk, t.scope.state);
          var ok := PersistAgentPatchApproval(record);
          reply := if ok then DecisionRecorded(record) else Failed(DecisionAlreadyRecorded);
        }
      }
      ghost var e := Event(ApproveOp(id, approver, reason, now), reply, Snapshot());
      RunExtends(idOf, run, e);
      run := run + [e];
    }

    method BuildAgentTaskPatchRejectionPayload(id: WorkId, rejector: Option<string>, reason: Option<string>, now: int)
      returns (reply: Reply)
      requires Valid()
      modifies this
      ensures Valid()
      ensures Step(idOf, old(Snapshot()), RejectOp(id, rejector, reason, now), Snapshot(), reply)
    {
      hide Scope, Approval, Normalize, IsIndexOf, StateAt, IsRun, CleanName;
      if id !in tasks {
        reply := Failed(AgentTaskNotFound);
      } else if rejector.None? {
        reply := Failed(ActorMustBeString);
      } else if Trim(rejector.value) == "" {
        reply := Failed(ActorRequired);
      } else if tasks[id].workId != id {
        reply := Failed(TaskWorkIdMismatch);
      } else {
        var t := tasks[id];
        var record := PatchRecord(id, false, None, Some(Trim(rejector.value)), CleanName(reason), now,
                                  t.request.source, t.request.action, t.scope.risk, t.scope.state);
        var ok := PersistAgentPatchApproval(record);
        reply := if ok then DecisionRecorded(record) else Failed(DecisionAlreadyRecorded);
      }
      ghost var e := Event(RejectOp(id, rejector, reason, now), reply, Snapshot());
      RunExtends(idOf, run, e);
      run := run + [e];
    }

    /** Rebuilds the index even when it then refuses the limit. */
    method QueryAgentTasks(f: Filter, limit: Option<int>) returns (reply: Reply)
      requires Valid()
      modifies this
      ensures Valid()
      ensures Step(idOf, old(Snapshot()), QueryOp(f, limit), Snapshot(), reply)
    {
      hide IsIndexOf, StateAt, IsRun, Selects;
      RebuildAgentTaskIndex();
      var records: seq<IndexEntry> := [];
      ghost var at: seq<nat> := [];
      var entries := index.value;
      for i := 0 to |entries|
        invariant IsSelection(records, at, entries[..i], f)
        invariant index == Some(entries) && tasks == old(tasks) && decisions == old(decisions) && run == old(run)
        invariant IsIndexOf(entries, tasks)
      {
        SelectionGrows(records, at, entries, i, f);
        if Selects(f, entries[i]) {
          records := records + [entries[i]];
          at := at + [i];
        }
      }
      assert entries[..|entries|] == entries && IsSelection(records, at, entries, f);
      if limit.Some? && limit.value < 0 {
        reply := Failed(LimitMustBeNonNegative);
      } else if limit.Some? && limit.value < |records| {
        reply := Found(|entries|, records[..limit.value]);
      } else {
        reply := Found(|entries|, records);
      }
      assert Answers(reply, entries, f, limit);
      ghost var e := Event(QueryOp(f, limit), reply, Snapshot());
      RunExtends(idOf, run, e);
      run := run + [e];
    }
  }
}
