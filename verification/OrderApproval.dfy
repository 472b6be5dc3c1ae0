/**
 The order-approval protocol over the `order_approvals` table.

 A row is changed only by atomic transactions.  `Decide` says how a transaction
 answers and what it commits; `Apply` says which columns that commit rewrites.  The
 theorems speak about `Run(ops)`: the table and the history of its commits after any
 list of operations, by any actors, over any hashes, with any clocks.
 */
module OrderApproval {
  import opened Prelude

  type Hash = string

  datatype Status = Pending | Approved | Rejected | Expired | Used

  datatype Row = Row(
    status: Status,
    createdAt: real,
    expiresAt: real,
    approvedAt: Option<real>,
    usedAt: Option<real>,
    armedAt: Option<real>,
    armedExpiresAt: Option<real>,
    updatedAt: real)

  type Table = map<Hash, Row>

  datatype Expiry = After(ttl: int) | At(epoch: real)

  // A create call carries `None` as its status when the text names none of the five.
  datatype Op =
    | CreateOp(hash: Hash, status: Option<Status>, expiry: Expiry, now: real)
    | ApproveOp(hash: Hash, now: real)
    | RejectOp(hash: Hash, now: real)
    | ArmOp(hash: Hash, ttl: int, now: real)
    | ConsumeOp(hash: Hash, ttl: int, requireArmed: bool, now: real)
    | ApproveAndConsumeOp(hash: Hash, ttl: int, now: real)

  datatype Code =
    | HashMissing | StatusInvalid | TtlInvalid | ArmTtlInvalid
    | RowMissing | AlreadyUsed | IsUsed | IsPending | IsRejected | IsExpired
    | NotArmed | ArmExpired | RaceLost | StoreLocked | StoreError
    | Raised
    | CreatedAs(status: Status) | IntentApproved | IntentRejected | IntentArmed | ApprovedAndUsed

  datatype Reply = Reply(ok: bool, code: Code)

  function Refuse(code: Code): Reply { Reply(false, code) }

  // What one commit does to a row.
  datatype Kind =
    | Created(status: Status, expires: real)
    | SetApproved
    | SetRejected
    | SetExpired
    | Armed(ttl: int)
    | Disarmed
    | Consumed
    | ApprovedAndConsumed(expires: real)

  datatype Commit = Commit(hash: Hash, kind: Kind, now: real)

  datatype Decision = Decision(reply: Reply, kind: Option<Kind>)

  // ---------------------------------------------------------------- one transaction

  /** The checks made before the store is opened at all. */
  function Precheck(op: Op): Option<Code> {
    if op.hash == "" then Some(HashMissing)
    else match op
      case CreateOp(_, None, _, _) => Some(StatusInvalid)
      case ArmOp(_, ttl, _) => if ttl <= 0 then Some(ArmTtlInvalid) else None
      case ConsumeOp(_, ttl, _, _) => if ttl <= 0 then Some(TtlInvalid) else None
      case ApproveAndConsumeOp(_, ttl, _) => if ttl <= 0 then Some(TtlInvalid) else None
      case _ => None
  }

  function ExpiryEpoch(expiry: Expiry, now: real): real {
    match expiry
    case After(ttl) => now + MaxInt(ttl, 0) as real
    case At(epoch) => epoch
  }

  /** Why a row in this state can be neither armed nor consumed. */
  function NotApprovedCode(status: Status): Option<Code> {
    match status
    case Used => Some(IsUsed)
    case Pending => Some(IsPending)
    case Rejected => Some(IsRejected)
    case Expired => Some(IsExpired)
    case Approved => None
  }

  function Decide(row: Option<Row>, op: Op): Decision {
    if Precheck(op).Some? then Decision(Refuse(Precheck(op).value), None)
    else match op
      case CreateOp(_, status, expiry, now) =>
        if row.Some? && row.value.status.Used? then Decision(Refuse(AlreadyUsed), None)
        else Decision(Reply(true, CreatedAs(status.value)), Some(Created(status.value, ExpiryEpoch(expiry, now))))
      case ApproveOp(_, now) =>
        if row.None? then Decision(Refuse(RowMissing), None)
        else if row.value.status.Used? || row.value.status.Rejected? || row.value.status.Expired? then
          Decision(Refuse(NotApprovedCode(row.value.status).value), None)
        else if now > row.value.expiresAt then Decision(Refuse(IsExpired), Some(SetExpired))
        else Decision(Reply(true, IntentApproved), Some(SetApproved))
      case RejectOp(_, _) =>
        if row.None? then Decision(Refuse(RowMissing), None)
        else if row.value.status.Used? then Decision(Refuse(IsUsed), None)
        else Decision(Reply(true, IntentRejected), Some(SetRejected))
      case ArmOp(_, ttl, now) =>
        if row.None? then Decision(Refuse(RowMissing), None)
        else if NotApprovedCode(row.value.status).Some? then
          Decision(Refuse(NotApprovedCode(row.value.status).value), None)
        else if now > row.value.expiresAt then Decision(Refuse(IsExpired), Some(SetExpired))
        else Decision(Reply(true, IntentArmed), Some(Armed(ttl)))
      case ConsumeOp(_, _, requireArmed, now) =>
        if row.None? then Decision(Refuse(RowMissing), None)
        else if NotApprovedCode(row.value.status).Some? then
          Decision(Refuse(NotApprovedCode(row.value.status).value), None)
        else if now > row.value.expiresAt then Decision(Refuse(IsExpired), Some(SetExpired))
        else if requireArmed && row.value.armedExpiresAt.None? then Decision(Refuse(NotArmed), None)
        else if requireArmed && now > row.value.armedExpiresAt.value then
          Decision(Refuse(ArmExpired), Some(Disarmed))
        else Decision(Reply(true, ApprovedAndUsed), Some(Consumed))
      case ApproveAndConsumeOp(_, ttl, now) =>
        if row.Some? && row.value.status.Used? then Decision(Refuse(IsUsed), None)
        else Decision(Reply(true, ApprovedAndUsed), Some(ApprovedAndConsumed(now + ttl as real)))
  }

  /** The columns a commit rewrites; every other column is kept. */
  function Apply(row: Option<Row>, kind: Kind, now: real): Row
    requires row.Some? || kind.Created? || kind.ApprovedAndConsumed?
  {
    match kind
    case Created(status, expires) =>
      Row(status, now, expires, if status.Approved? then Some(now) else None, None, None, None, now)
    case SetApproved => row.value.(status := Approved, approvedAt := Some(now), updatedAt := now)
    case SetRejected => row.value.(status := Rejected, updatedAt := now)
    case SetExpired => row.value.(status := Expired, updatedAt := now)
    case Armed(ttl) =>
      row.value.(armedAt := Some(now),
                 armedExpiresAt := Some(MinReal(now + ttl as real, row.value.expiresAt)),
                 updatedAt := now)
    case Disarmed => row.value.(armedAt := None, armedExpiresAt := None, updatedAt := now)
    case Consumed =>
      row.value.(status := Used, usedAt := Some(now), armedAt := None, armedExpiresAt := None, updatedAt := now)
    case ApprovedAndConsumed(expires) =>
      Row(Used, now, expires, if row.Some? then row.value.approvedAt else None, Some(now), None, None, now)
  }

  function RowAt(t: Table, h: Hash): Option<Row> { if h in t then Some(t[h]) else None }

  datatype Outcome = Outcome(rows: Table, reply: Reply, commit: Option<Commit>)

  function Transition(t: Table, op: Op): Outcome {
    var row := RowAt(t, op.hash);
    var d := Decide(row, op);
    if d.kind.None? then Outcome(t, d.reply, None)
    else Outcome(t[op.hash := Apply(row, d.kind.value, op.now)], d.reply, Some(Commit(op.hash, d.kind.value, op.now)))
  }

  // ---------------------------------------------------------------- whole runs

  datatype State = State(rows: Table, history: seq<Commit>)

  function StepState(s: State, op: Op): State {
    var out := Transition(s.rows, op);
    State(out.rows, if out.commit.Some? then s.history + [out.commit.value] else s.history)
  }

  function RunFrom(s: State, ops: seq<Op>): State {
    if ops == [] then s else StepState(RunFrom(s, ops[..|ops| - 1]), ops[|ops| - 1])
  }

  /** The table and the history of commits after the operations, in order, from an empty store. */
  function Run(ops: seq<Op>): State { RunFrom(State(map[], []), ops) }

  /** The column groups a commit may rewrite. */
  datatype Column = StatusCol | ExpiryCol | ApprovedCol | UsedCol | ArmCol | UpdatedCol

  predicate Touches(kind: Kind, col: Column) {
    match col
    case StatusCol => !kind.Armed? && !kind.Disarmed?
    case ExpiryCol => kind.Created? || kind.ApprovedAndConsumed?
    case ApprovedCol => kind.Created? || kind.SetApproved?
    case UsedCol => kind.Created? || kind.Consumed? || kind.ApprovedAndConsumed?
    case ArmCol => !kind.SetApproved? && !kind.SetRejected? && !kind.SetExpired?
    case UpdatedCol => true
  }

  /** The latest commit about `h` that rewrites the column. */
  function Latest(history: seq<Commit>, h: Hash, col: Column): (e: Option<Commit>)
    ensures e.Some? ==> e.value.hash == h && Touches(e.value.kind, col)
  {
    if history == [] then None
    else
      var last := history[|history| - 1];
      if last.hash == h && Touches(last.kind, col) then Some(last) else Latest(history[..|history| - 1], h, col)
  }

  /** `history[k]` rewrites the column and nothing after it does. */
  ghost predicate IsLatest(history: seq<Commit>, h: Hash, col: Column, k: nat) {
    && k < |history| && history[k].hash == h && Touches(history[k].kind, col)
    && forall j :: k < j < |history| ==> !(history[j].hash == h && Touches(history[j].kind, col))
  }

  lemma {:induction false} LatestIsLatest(history: seq<Commit>, h: Hash, col: Column, k: nat)
    requires k < |history| && history[k].hash == h && Touches(history[k].kind, col)
    requires forall j :: k < j < |history| ==> !(history[j].hash == h && Touches(history[j].kind, col))
    ensures Latest(history, h, col) == Some(history[k])
  {
    if k < |history| - 1 {
      LatestIsLatest(history[..|history| - 1], h, col, k);
    }
  }

  /** `Latest` is `None` only when no commit rewrites the column. */
  lemma {:induction false} LatestExists(history: seq<Commit>, h: Hash, col: Column) returns (k: nat)
    requires Latest(history, h, col).Some?
    ensures IsLatest(history, h, col, k) && Latest(history, h, col) == Some(history[k])
  {
    var last := history[|history| - 1];
    if last.hash == h && Touches(last.kind, col) {
      k := |history| - 1;
    } else {
      k := LatestExists(history[..|history| - 1], h, col);
    }
  }

  function StatusWritten(kind: Kind): Status
    requires Touches(kind, StatusCol)
  {
    match kind
    case Created(status, _) => status
    case SetApproved => Approved
    case SetRejected => Rejected
    case SetExpired => Expired
    case _ => Used
  }

  function ApprovalWritten(e: Commit): Option<real>
    requires Touches(e.kind, ApprovedCol)
  {
    if e.kind.SetApproved? || e.kind.status.Approved? then Some(e.now) else None
  }

  function ArmedUntil(arming: Commit, creation: Commit): real
    requires arming.kind.Armed? && Touches(creation.kind, ExpiryCol)
  {
    MinReal(arming.now + arming.kind.ttl as real, creation.kind.expires)
  }

  /** Reading a row back from the history alone: each column is what its latest commit wrote. */
  predicate Recorded(row: Row, history: seq<Commit>, h: Hash) {
    var st := Latest(history, h, StatusCol);
    var ex := Latest(history, h, ExpiryCol);
    var ap := Latest(history, h, ApprovedCol);
    var us := Latest(history, h, UsedCol);
    var ar := Latest(history, h, ArmCol);
    var up := Latest(history, h, UpdatedCol);
    && st.Some? && ex.Some? && us.Some? && ar.Some? && up.Some?
    && row.status == StatusWritten(st.value.kind)
    && row.createdAt == ex.value.now
    && row.expiresAt == ex.value.kind.expires
    && row.approvedAt == (if ap.Some? then ApprovalWritten(ap.value) else None)
    && row.usedAt == (if us.value.kind.Created? then None else Some(us.value.now))
    && row.armedAt == (if ar.value.kind.Armed? then Some(ar.value.now) else None)
    && row.armedExpiresAt == (if ar.value.kind.Armed? then Some(ArmedUntil(ar.value, ex.value)) else None)
    && row.updatedAt == up.value.now
  }

  /** `h` has a row exactly when the history mentions it, and then the row reads back from the history. */
  predicate Agrees(row: Option<Row>, history: seq<Commit>, h: Hash) {
    if row.Some? then Recorded(row.value, history, h)
    else forall col :: Latest(history, h, col) == None
  }

  lemma LatestAppend(history: seq<Commit>, e: Commit, h: Hash, col: Column)
    ensures Latest(history + [e], h, col)
         == if e.hash == h && Touches(e.kind, col) then Some(e) else Latest(history, h, col)
  {
    assert (history + [e])[..|history|] == history;
  }

  lemma AgreesAfterCommit(row: Option<Row>, history: seq<Commit>, e: Commit, h: Hash)
    requires Agrees(row, history, h)
    requires e.hash == h ==> row.Some? || e.kind.Created? || e.kind.ApprovedAndConsumed?
    ensures Agrees(if e.hash == h then Some(Apply(row, e.kind, e.now)) else row, history + [e], h)
  {
    LatestAppend(history, e, h, StatusCol);
    LatestAppend(history, e, h, ExpiryCol);
    LatestAppend(history, e, h, ApprovedCol);
    LatestAppend(history, e, h, UsedCol);
    LatestAppend(history, e, h, ArmCol);
    LatestAppend(history, e, h, UpdatedCol);
  }

  lemma {:induction false} TableAgreesWithHistory(ops: seq<Op>, h: Hash)
    ensures Agrees(RowAt(Run(ops).rows, h), Run(ops).history, h)
  {
    if ops != [] {
      var before := Run(ops[..|ops| - 1]);
      TableAgreesWithHistory(ops[..|ops| - 1], h);
      var out := Transition(before.rows, ops[|ops| - 1]);
      if out.commit.Some? {
        AgreesAfterCommit(RowAt(before.rows, h), before.history, out.commit.value, h);
      }
    }
  }

  // ---------------------------------------------------------------- safety over whole runs

  /** What the i-th operation of a run answered. */
  function ReplyAt(ops: seq<Op>, i: nat): Reply
    requires i < |ops|
  {
    Transition(Run(ops[..i]).rows, ops[i]).reply
  }

  lemma RunStep(ops: seq<Op>, i: nat)
    requires i < |ops|
    ensures Run(ops[..i + 1]).rows == Transition(Run(ops[..i]).rows, ops[i]).rows
  {
    assert ops[..i + 1][..i] == ops[..i];
  }

  predicate IsUsedRow(t: Table, h: Hash) { h in t && t[h].status.Used? }

  /** No operation touches a USED row, and none about its hash succeeds. */
  lemma UsedAbsorbs(t: Table, op: Op, h: Hash)
    requires IsUsedRow(t, h)
    ensures IsUsedRow(Transition(t, op).rows, h) && Transition(t, op).rows[h] == t[h]
    ensures op.hash == h ==> !Transition(t, op).reply.ok && Transition(t, op).rows == t
  {
  }

  lemma ConsumptionUses(t: Table, op: Op)
    requires Transition(t, op).reply.code == ApprovedAndUsed
    ensures IsUsedRow(Transition(t, op).rows, op.hash)
  {
  }

  /** USED absorbs over whole runs: the row is frozen, whatever anybody does. */
  lemma {:induction false} UsedIsForever(ops: seq<Op>, i: nat, j: nat, h: Hash)
    requires i <= j <= |ops|
    requires IsUsedRow(Run(ops[..i]).rows, h)
    ensures IsUsedRow(Run(ops[..j]).rows, h) && Run(ops[..j]).rows[h] == Run(ops[..i]).rows[h]
  {
    if i < j {
      UsedIsForever(ops, i, j - 1, h);
      UsedAbsorbs(Run(ops[..j - 1]).rows, ops[j - 1], h);
      RunStep(ops, j - 1);
    }
  }

  /** Once a hash is consumed no later call about it succeeds; in particular no second consumption. */
  lemma ConsumedAtMostOnce(ops: seq<Op>, i: nat, j: nat)
    requires i < j < |ops| && ops[i].hash == ops[j].hash
    requires ReplyAt(ops, i).code == ApprovedAndUsed
    ensures !ReplyAt(ops, j).ok
  {
    RunStep(ops, i);
    ConsumptionUses(Run(ops[..i]).rows, ops[i]);
    UsedIsForever(ops, i + 1, j, ops[i].hash);
    UsedAbsorbs(Run(ops[..j]).rows, ops[j], ops[i].hash);
  }

  /** A commit after which only a new creation makes the hash approvable again. */
  predicate Kills(kind: Kind) {
    || kind.SetRejected? || kind.SetExpired? || kind.Consumed? || kind.ApprovedAndConsumed?
    || (kind.Created? && kind.status in {Rejected, Expired, Used})
  }

  predicate Revives(history: seq<Commit>, h: Hash, i: nat, k: nat)
    requires i < k < |history|
  {
    history[i].hash == history[k].hash == h && Kills(history[i].kind) && history[k].kind.SetApproved?
  }

  ghost predicate CreatedBetween(history: seq<Commit>, h: Hash, i: nat, k: nat)
    requires i < k < |history|
  {
    exists j :: i < j < k && history[j].hash == h && history[j].kind.Created?
  }

  /** No approval brings back what was rejected, expired or consumed: a creation stands between. */
  ghost predicate NoRevival(history: seq<Commit>, h: Hash) {
    forall i, k :: 0 <= i < k < |history| && Revives(history, h, i, k) ==> CreatedBetween(history, h, i, k)
  }

  /** The status an approval meets was written by a creation or an approval, as the last word on it. */
  lemma ApprovedStatusIsLive(row: Option<Row>, history: seq<Commit>, h: Hash) returns (k: nat)
    requires Agrees(row, history, h) && row.Some? && (row.value.status.Pending? || row.value.status.Approved?)
    ensures IsLatest(history, h, StatusCol, k) && !Kills(history[k].kind)
  {
    k := LatestExists(history, h, StatusCol);
  }

  lemma NoRevivalStep(row: Option<Row>, history: seq<Commit>, h: Hash, c: Commit)
    requires Agrees(row, history, h) && NoRevival(history, h)
    requires c.hash == h && c.kind.SetApproved? ==>
             row.Some? && (row.value.status.Pending? || row.value.status.Approved?)
    ensures NoRevival(history + [c], h)
  {
    var longer := history + [c];
    forall i, k | 0 <= i < k < |longer| && Revives(longer, h, i, k)
      ensures CreatedBetween(longer, h, i, k)
    {
      assert longer[i] == history[i];
      if k < |history| {
        assert longer[k] == history[k];
        assert Revives(history, h, i, k) && CreatedBetween(history, h, i, k);
        var j :| i < j < k && history[j].hash == h && history[j].kind.Created?;
        assert longer[j] == history[j];
      } else {
        hide Agrees;
        var m := ApprovedStatusIsLive(row, history, h);
        assert Touches(history[i].kind, StatusCol) && i < m;
        if history[m].kind.Created? {
          assert longer[m] == history[m];
        } else {
          assert Revives(history, h, i, m) && CreatedBetween(history, h, i, m);
          var j :| i < j < m && history[j].hash == h && history[j].kind.Created?;
          assert longer[j] == history[j];
        }
      }
    }
  }

  /** In every run, whatever was rejected, expired or consumed must be created anew before it is approved. */
  lemma {:induction false} RunsNeverRevive(ops: seq<Op>, h: Hash)
    ensures NoRevival(Run(ops).history, h)
  {
    if ops != [] {
      var before := Run(ops[..|ops| - 1]);
      RunsNeverRevive(ops[..|ops| - 1], h);
      TableAgreesWithHistory(ops[..|ops| - 1], h);
      var out := Transition(before.rows, ops[|ops| - 1]);
      if out.commit.Some? {
        hide Agrees, NoRevival;
        NoRevivalStep(RowAt(before.rows, h), before.history, h, out.commit.value);
      }
    }
  }

  /** From the creation `c` on, `h` was only approved, armed or disarmed. */
  ghost predicate OnlyApprovedSince(history: seq<Commit>, h: Hash, c: nat) {
    forall j :: c < j < |history| && history[j].hash == h ==>
      history[j].kind.SetApproved? || history[j].kind.Armed? || history[j].kind.Disarmed?
  }

  /**
   `c` created `h` as pending or approved until some time after `now`, and `h` has only been
   approved or armed since.
   */
  ghost predicate LiveCreation(history: seq<Commit>, h: Hash, c: nat, now: real) {
    && c < |history| && history[c].hash == h && history[c].kind.Created? && !Kills(history[c].kind)
    && now <= history[c].kind.expires && OnlyApprovedSince(history, h, c)
  }

  /** The creation approved `h`, or something after it did. */
  ghost predicate ApprovedSince(history: seq<Commit>, h: Hash, c: nat)
    requires c < |history|
  {
    || (history[c].kind.Created? && history[c].kind.status == Approved)
    || exists k :: c < k < |history| && history[k].hash == h && history[k].kind.SetApproved?
  }

  /** The whole history since the latest creation of `h` says that it may be consumed at `now`. */
  ghost predicate Authorised(history: seq<Commit>, h: Hash, requireArmed: bool, now: real) {
    exists c: nat ::
      && LiveCreation(history, h, c, now) && ApprovedSince(history, h, c)
      && (requireArmed ==> exists a: nat :: IsLatest(history, h, ArmCol, a) && c < a && ArmedAt(history[a], now))
  }

  predicate ArmedAt(e: Commit, now: real) {
    e.kind.Armed? && now <= e.now + e.kind.ttl as real
  }

  /** Whether the stored row lets a consumption through. */
  predicate Consumable(row: Option<Row>, requireArmed: bool, now: real) {
    && row.Some? && row.value.status.Approved? && now <= row.value.expiresAt
    && (requireArmed ==> row.value.armedExpiresAt.Some? && now <= row.value.armedExpiresAt.value)
  }

  lemma ConsumeDecision(t: Table, h: Hash, ttl: int, requireArmed: bool, now: real)
    ensures Transition(t, ConsumeOp(h, ttl, requireArmed, now)).reply.ok
        <==> h != "" && ttl > 0 && Consumable(RowAt(t, h), requireArmed, now)
  {
  }

  lemma KillerNeedsCreation(history: seq<Commit>, h: Hash, j: nat, k: nat) returns (m: nat)
    requires j < k < |history| && NoRevival(history, h) && Revives(history, h, j, k)
    ensures j < m < k && history[m].hash == h && Touches(history[m].kind, ExpiryCol)
  {
    assert CreatedBetween(history, h, j, k);
    m :| j < m < k && history[m].hash == h && history[m].kind.Created?;
  }

  /** While the status is pending or approved, nothing since the latest creation did anything else to it. */
  lemma LiveHistoryIsClean(history: seq<Commit>, h: Hash, c: nat, k: nat)
    requires NoRevival(history, h)
    requires IsLatest(history, h, ExpiryCol, c) && IsLatest(history, h, StatusCol, k) && !Kills(history[k].kind)
    ensures history[c].kind.Created? && !Kills(history[c].kind) && OnlyApprovedSince(history, h, c)
    ensures StatusWritten(history[k].kind) == Approved <==> ApprovedSince(history, h, c)
  {
    hide NoRevival;
    forall j | c <= j < |history| && history[j].hash == h
      ensures !Kills(history[j].kind)
    {
      if Kills(history[j].kind) {
        var _ := KillerNeedsCreation(history, h, j, k);
      }
    }
  }

  lemma ConsumableIsAuthorised(row: Option<Row>, history: seq<Commit>, h: Hash, requireArmed: bool, now: real)
    requires Agrees(row, history, h) && NoRevival(history, h) && Consumable(row, requireArmed, now)
    ensures Authorised(history, h, requireArmed, now)
  {
    hide NoRevival;
    var c := LatestExists(history, h, ExpiryCol);
    var k := LatestExists(history, h, StatusCol);
    LiveHistoryIsClean(history, h, c, k);
    if requireArmed {
      var a := LatestExists(history, h, ArmCol);
      assert ArmedAt(history[a], now);
    }
  }

  /**
   The creation that a live history rests on is the latest, and the last word on the status
   is as the history says.
   */
  lemma LiveCreationIsLatest(history: seq<Commit>, h: Hash, c: nat, now: real) returns (k: nat)
    requires LiveCreation(history, h, c, now)
    ensures IsLatest(history, h, ExpiryCol, c) && IsLatest(history, h, StatusCol, k) && !Kills(history[k].kind)
    ensures StatusWritten(history[k].kind) == Approved <==> ApprovedSince(history, h, c)
  {
    k := c;
    for j := c + 1 to |history|
      invariant c <= k < j && history[k].hash == h && Touches(history[k].kind, StatusCol)
      invariant k == c || history[k].kind.SetApproved?
      invariant forall i :: k < i < j ==> !(history[i].hash == h && Touches(history[i].kind, StatusCol))
    {
      if history[j].hash == h && history[j].kind.SetApproved? { k := j; }
    }
  }

  lemma AuthorisedIsConsumable(row: Option<Row>, history: seq<Commit>, h: Hash, requireArmed: bool, now: real)
    requires Agrees(row, history, h) && Authorised(history, h, requireArmed, now)
    ensures Consumable(row, requireArmed, now)
  {
    var c: nat :|
      && LiveCreation(history, h, c, now) && ApprovedSince(history, h, c)
      && (requireArmed ==> exists a: nat :: IsLatest(history, h, ArmCol, a) && c < a && ArmedAt(history[a], now));
    var k := LiveCreationIsLatest(history, h, c, now);
    LatestIsLatest(history, h, ExpiryCol, c);
    LatestIsLatest(history, h, StatusCol, k);
    if requireArmed {
      var a: nat :| IsLatest(history, h, ArmCol, a) && c < a && ArmedAt(history[a], now);
      LatestIsLatest(history, h, ArmCol, a);
    }
  }

  /**
   After any run, a consumption at `now` succeeds exactly when the history holds a creation
   that has not expired, after which nothing rejected, expired, consumed or created the hash
   again, and which approved it or was followed by an approval; and, if arming is required,
   when the latest arming event is an arm after that creation whose window still holds.
   */
  lemma ConsumeSucceedsIff(ops: seq<Op>, h: Hash, ttl: int, requireArmed: bool, now: real)
    ensures Transition(Run(ops).rows, ConsumeOp(h, ttl, requireArmed, now)).reply.ok
        <==> h != "" && ttl > 0 && Authorised(Run(ops).history, h, requireArmed, now)
  {
    var row, history := RowAt(Run(ops).rows, h), Run(ops).history;
    TableAgreesWithHistory(ops, h);
    RunsNeverRevive(ops, h);
    ConsumeDecision(Run(ops).rows, h, ttl, requireArmed, now);
    hide Agrees, NoRevival;
    if Consumable(row, requireArmed, now) {
      ConsumableIsAuthorised(row, history, h, requireArmed, now);
    } else if Authorised(history, h, requireArmed, now) {
      AuthorisedIsConsumable(row, history, h, requireArmed, now);
    }
  }

  /** Arming succeeds exactly when an unarmed consumption would: nothing can be armed that could not be consumed. */
  lemma ArmSucceedsIff(ops: seq<Op>, h: Hash, ttl: int, now: real)
    ensures Transition(Run(ops).rows, ArmOp(h, ttl, now)).reply.ok
        <==> h != "" && ttl > 0 && Authorised(Run(ops).history, h, false, now)
  {
    hide Authorised, Run;
    ConsumeSucceedsIff(ops, h, 1, false, now);
    assert Transition(Run(ops).rows, ArmOp(h, ttl, now)).reply.ok
        <==> h != "" && ttl > 0 && Transition(Run(ops).rows, ConsumeOp(h, 1, false, now)).reply.ok;
  }

  /** Approving succeeds exactly when some creation as pending or approved still holds and nothing ended it since. */
  lemma ApproveSucceedsIff(ops: seq<Op>, h: Hash, now: real)
    ensures Transition(Run(ops).rows, ApproveOp(h, now)).reply.ok
        <==> h != "" && exists c: nat :: LiveCreation(Run(ops).history, h, c, now)
  {
    TableAgreesWithHistory(ops, h);
    RunsNeverRevive(ops, h);
    var row, history := RowAt(Run(ops).rows, h), Run(ops).history;
    hide Run, NoRevival;
    if row.Some? && row.value.status in {Pending, Approved} && now <= row.value.expiresAt {
      var c := LatestExists(history, h, ExpiryCol);
      var k := LatestExists(history, h, StatusCol);
      LiveHistoryIsClean(history, h, c, k);
      assert LiveCreation(history, h, c, now);
    }
    if c: nat :| LiveCreation(history, h, c, now) {
      var k := LiveCreationIsLatest(history, h, c, now);
      LatestIsLatest(history, h, ExpiryCol, c);
      LatestIsLatest(history, h, StatusCol, k);
    }
  }

  /** What every stored row satisfies. */
  predicate WellKept(row: Row) {
    && (row.armedAt.Some? <==> row.armedExpiresAt.Some?)
    && (row.armedExpiresAt.Some? ==> row.armedExpiresAt.value <= row.expiresAt)
    && (row.status.Pending? || row.status.Used? ==> row.armedExpiresAt.None?)
    && (row.usedAt.Some? ==> row.status.Used?)
    && (row.status.Approved? ==> row.approvedAt.Some?)
  }

  predicate AllWellKept(t: Table) { forall h :: h in t ==> WellKept(t[h]) }

  lemma TransitionKeepsRows(t: Table, op: Op)
    requires AllWellKept(t)
    ensures AllWellKept(Transition(t, op).rows)
  {
    var d := Decide(RowAt(t, op.hash), op);
    if d.kind.Some? {
      assert WellKept(Apply(RowAt(t, op.hash), d.kind.value, op.now));
    }
  }

  /** In every reachable table no arming outlives its approval and PENDING or USED rows are never armed. */
  lemma {:induction false} ReachableRowsAreWellKept(ops: seq<Op>)
    ensures AllWellKept(Run(ops).rows)
  {
    if ops != [] {
      ReachableRowsAreWellKept(ops[..|ops| - 1]);
      TransitionKeepsRows(Run(ops[..|ops| - 1]).rows, ops[|ops| - 1]);
    }
  }

  // ---------------------------------------------------------------- runs compose

  lemma {:induction false} RunFromAppend(s: State, a: seq<Op>, b: seq<Op>)
    ensures RunFrom(s, a + b) == RunFrom(RunFrom(s, a), b)
  {
    if b == [] {
      assert a + b == a;
    } else {
      assert (a + b)[..|a + b| - 1] == a + b[..|b| - 1];
      RunFromAppend(s, a, b[..|b| - 1]);
    }
  }

  lemma RunSnoc(ops: seq<Op>, op: Op)
    ensures Run(ops + [op]) == StepState(Run(ops), op)
  {
    assert (ops + [op])[..|ops|] == ops;
  }
}
