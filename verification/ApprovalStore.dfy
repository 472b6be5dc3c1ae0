/**
 The approval store: each method works on its table in place and is proved to be one atomic
 transition of `OrderApproval`, however often it had to retry and whatever other connections
 committed while it slept.
 */
module ApprovalStore {
  import opened Prelude
  import opened OrderApproval

  /** What can befall one attempt before its COMMIT: nothing, a locked database, another error. */
  datatype Fault = NoFault | LockedFault | OtherFault

  function LockedPrefix(faults: seq<Fault>): (k: nat)
    ensures k <= |faults|
    ensures forall i :: 0 <= i < k ==> faults[i] == LockedFault
    ensures k < |faults| ==> faults[k] != LockedFault
  {
    if faults == [] || faults[0] != LockedFault then 0 else 1 + LockedPrefix(faults[1..])
  }

  function Flatten(others: seq<seq<Op>>): seq<Op> {
    if others == [] then [] else Flatten(others[..|others| - 1]) + others[|others| - 1]
  }

  /**
   A call whose attempts meet `faults`, while other connections commit `others[k]` during
   the sleep after attempt `k`: it is refused before touching the store, or it takes
   effect as exactly one transition right after what the others did, or not at all.
   */
  ghost predicate Retried(before: State, after: State, op: Op, reply: Reply, faults: seq<Fault>, others: seq<seq<Op>>)
    requires |others| == |faults|
  {
    var k := LockedPrefix(faults);
    var seen := RunFrom(before, Flatten(others[..k]));
    if Precheck(op).Some? then reply == Refuse(Precheck(op).value) && after == before
    else if k == |faults| then reply == Refuse(StoreLocked) && after == seen
    else if faults[k] == OtherFault then reply == Refuse(StoreError) && after == seen
    else after == StepState(seen, op) && reply == Transition(seen.rows, op).reply
  }

  lemma {:induction false} FlattenFirst(others: seq<seq<Op>>)
    requires others != []
    ensures Flatten(others) == others[0] + Flatten(others[1..])
  {
    var n, rest := |others| - 1, others[1..];
    if n == 0 {
      assert rest == [] && others[..0] == [];
    } else {
      var front := others[..n];
      FlattenFirst(front);
      assert rest[..n - 1] == front[1..];
      assert Flatten(rest) == Flatten(front[1..]) + others[n];
      Reassociated(others[0], Flatten(front[1..]), others[n]);
    }
  }

  lemma Reassociated<T>(a: seq<T>, b: seq<T>, c: seq<T>)
    ensures (a + b) + c == a + (b + c)
  {
  }

  /**
   What a call that passes its prechecks does, attempt by attempt: without a fault it takes
   effect, another error ends it without one, and a lock lets the others work and tries again.
   */
  lemma RetriedStepwise(before: State, after: State, op: Op, reply: Reply, faults: seq<Fault>, others: seq<seq<Op>>)
    requires |others| == |faults| && Precheck(op).None?
    ensures Retried(before, after, op, reply, faults, others) <==>
              if faults == [] then reply == Refuse(StoreLocked) && after == before
              else match faults[0]
                case NoFault => after == StepState(before, op) && reply == Transition(before.rows, op).reply
                case OtherFault => reply == Refuse(StoreError) && after == before
                case LockedFault => Retried(RunFrom(before, others[0]), after, op, reply, faults[1..], others[1..])
  {
    hide StepState, Transition, Precheck, RunFrom, Flatten;
    if faults != [] && faults[0] == LockedFault {
      var k := LockedPrefix(faults);
      var next := others[..k];
      assert next[1..] == others[1..][..k - 1];
      FlattenFirst(next);
      RunFromAppend(before, others[0], Flatten(next[1..]));
    } else {
      assert others[..0] == [];
      NothingFlattened(before);
    }
  }

  lemma NothingFlattened(s: State)
    ensures RunFrom(s, Flatten([])) == s
  {
  }

  class Store {
    var rows: Table
    ghost var history: seq<Commit>
    ghost var ops: seq<Op>

    /** The store is where some run of operations from the empty table leads. */
    ghost predicate Valid()
      reads this
    {
      Snapshot() == Run(ops)
    }

    ghost function Snapshot(): State
      reads this
    {
      State(rows, history)
    }

    constructor ()
      ensures Valid() && rows == map[] && history == []
    {
      rows, history, ops := map[], [], [];
    }

    /** Other connections run to completion. */
    method Interfere(more: seq<Op>)
      requires Valid()
      modifies this
      ensures Valid() && ops == old(ops) + more && Snapshot() == RunFrom(old(Snapshot()), more)
    {
      RunFromAppend(State(map[], []), ops, more);
      ghost var after := RunFrom(Snapshot(), more);
      for i := 0 to |more|
        invariant rows == RunFrom(old(Snapshot()), more[..i]).rows && history == old(history) && ops == old(ops)
      {
        assert more[..i + 1][..i] == more[..i];
        rows := Transition(rows, more[i]).rows;
      }
      assert more[..|more|] == more;
      history, ops := after.history, ops + more;
    }

    method CreateOrderApproval(hash: Hash, status: Option<Status>, expiry: Expiry, now: real) returns (reply: Reply)
      requires Valid()
      modifies this
      ensures Valid()
      ensures Snapshot() == StepState(old(Snapshot()), CreateOp(hash, status, expiry, now))
      ensures reply == Transition(old(rows), CreateOp(hash, status, expiry, now)).reply
    {
      hide Run, RunFrom;
      ghost var op := CreateOp(hash, status, expiry, now);
      RunSnoc(ops, op);
      ops := ops + [op];
      if hash == "" { return Refuse(HashMissing); }
      if status.None? { return Refuse(StatusInvalid); }
      var expiresAt;
      match expiry {
        case After(ttl) => expiresAt := now + MaxInt(ttl, 0) as real;
        case At(epoch) => expiresAt := epoch;
      }
      var approvedAt := if status.value == Approved then Some(now) else None;
      if hash in rows && rows[hash].status == Used { return Refuse(AlreadyUsed); }
      rows := rows[hash := Row(status.value, now, expiresAt, approvedAt, None, None, None, now)];
      history := history + [Commit(hash, Created(status.value, expiresAt), now)];
      return Reply(true, CreatedAs(status.value));
    }

    method CreateProposal(hash: Hash, expiresAt: real, now: real) returns (reply: Reply)
      requires Valid()
      modifies this
      ensures Valid()
      ensures reply.ok <==> hash != "" && !IsUsedRow(old(rows), hash)
      ensures reply.ok ==> rows == old(rows)[hash := Row(Pending, now, expiresAt, None, None, None, None, now)]
      ensures !reply.ok ==> Snapshot() == old(Snapshot())
    {
      if hash == "" { return Refuse(HashMissing); }
      reply := CreateOrderApproval(hash, Some(Pending), At(expiresAt), now);
    }

    method ApproveIntent(hash: Hash, now: real, fault: Fault) returns (reply: Reply)
      requires Valid()
      modifies this
      ensures Valid()
      ensures hash != "" && fault != NoFault ==> reply == Refuse(Raised) && Snapshot() == old(Snapshot())
      ensures hash == "" || fault == NoFault ==>
                && Snapshot() == StepState(old(Snapshot()), ApproveOp(hash, now))
                && reply == Transition(old(rows), ApproveOp(hash, now)).reply
    {
      hide Run, RunFrom;
      if hash != "" && fault != NoFault { return Refuse(Raised); }
      ghost var op := ApproveOp(hash, now);
      RunSnoc(ops, op);
      ops := ops + [op];
      if hash == "" { return Refuse(HashMissing); }
      if hash !in rows { return Refuse(RowMissing); }
      var row := rows[hash];
      if row.status == Used { return Refuse(IsUsed); }
      if row.status == Rejected { return Refuse(IsRejected); }
      if row.status == Expired { return Refuse(IsExpired); }
      if now > row.expiresAt {
        rows := rows[hash := row.(status := Expired, updatedAt := now)];
        history := history + [Commit(hash, SetExpired, now)];
        return Refuse(IsExpired);
      }
      if rows[hash].status == Pending || rows[hash].status == Approved {
        rows := rows[hash := row.(status := Approved, approvedAt := Some(now), updatedAt := now)];
      }
      history := history + [Commit(hash, SetApproved, now)];
      return Reply(true, IntentApproved);
    }

    method RejectIntent(hash: Hash, now: real, fault: Fault) returns (reply: Reply)
      requires Valid()
      modifies this
      ensures Valid()
      ensures hash != "" && fault != NoFault ==> reply == Refuse(Raised) && Snapshot() == old(Snapshot())
      ensures hash == "" || fault == NoFault ==>
                && Snapshot() == StepState(old(Snapshot()), RejectOp(hash, now))
                && reply == Transition(old(rows), RejectOp(hash, now)).reply
    {
      hide Run, RunFrom;
      if hash != "" && fault != NoFault { return Refuse(Raised); }
      ghost var op := RejectOp(hash, now);
      RunSnoc(ops, op);
      ops := ops + [op];
      if hash == "" { return Refuse(HashMissing); }
      if hash !in rows { return Refuse(RowMissing); }
      var row := rows[hash];
      if row.status == Used { return Refuse(IsUsed); }
      rows := rows[hash := row.(status := Rejected, updatedAt := now)];
      history := history + [Commit(hash, SetRejected, now)];
      return Reply(true, IntentRejected);
    }

    /** One BEGIN IMMEDIATE transaction of arming: read, decide, conditional UPDATE, row count. */
    method TryArm(hash: Hash, ttl: int, now: real) returns (reply: Reply)
      requires Valid() && hash != "" && ttl > 0
      modifies this
      ensures Valid()
      ensures Snapshot() == StepState(old(Snapshot()), ArmOp(hash, ttl, now))
      ensures reply == Transition(old(rows), ArmOp(hash, ttl, now)).reply && reply.code != RaceLost
      ensures reply.ok <==> hash in old(rows) && old(rows)[hash].status == Approved && now <= old(rows)[hash].expiresAt
      ensures reply.ok ==> var row := old(rows)[hash];
                rows == old(rows)[hash := row.(armedAt := Some(now), updatedAt := now,
                                               armedExpiresAt := Some(if row.expiresAt < now + ttl as real
                                                                      then row.expiresAt else now + ttl as real))]
    {
      hide Run, RunFrom;
      ghost var op := ArmOp(hash, ttl, now);
      RunSnoc(ops, op);
      ops := ops + [op];
      if hash !in rows { return Refuse(RowMissing); }
      var row := rows[hash];
      if row.status == Used { return Refuse(IsUsed); }
      if row.status == Pending { return Refuse(IsPending); }
      if row.status == Rejected { return Refuse(IsRejected); }
      if row.status == Expired { return Refuse(IsExpired); }
      if now > row.expiresAt {
        rows := rows[hash := row.(status := Expired, updatedAt := now)];
        history := history + [Commit(hash, SetExpired, now)];
        return Refuse(IsExpired);
      }
      var armedExpires := MinReal(now + ttl as real, row.expiresAt);
      var rowCount := 0;
      if rows[hash].status == Approved && rows[hash].expiresAt >= now {
        rows := rows[hash := row.(armedAt := Some(now), armedExpiresAt := Some(armedExpires), updatedAt := now)];
        rowCount := 1;
      }
      if rowCount != 1 { return Refuse(RaceLost); }
      history := history + [Commit(hash, Armed(ttl), now)];
      return Reply(true, IntentArmed);
    }

    method ArmOrderIntent(hash: Hash, ttl: int, now: real, faults: seq<Fault>, others: seq<seq<Op>>)
      returns (reply: Reply)
      requires Valid() && |others| == |faults|
      modifies this
      ensures Valid()
      ensures Retried(old(Snapshot()), Snapshot(), ArmOp(hash, ttl, now), reply, faults, others)
      ensures reply.ok ==>
                && ttl > 0 && hash in rows && rows[hash].status == Approved && now <= rows[hash].expiresAt
                && rows[hash].armedExpiresAt == Some(if rows[hash].expiresAt < now + ttl as real
                                                     then rows[hash].expiresAt else now + ttl as real)
      ensures reply.code != RaceLost
    {
      if hash == "" { return Refuse(HashMissing); }
      if ttl <= 0 { return Refuse(ArmTtlInvalid); }
      for attempt := 0 to |faults|
        invariant Valid()
        invariant attempt <= LockedPrefix(faults)
        invariant Snapshot() == RunFrom(old(Snapshot()), Flatten(others[..attempt]))
      {
        match faults[attempt] {
          case OtherFault => return Refuse(StoreError);
          case NoFault => reply := TryArm(hash, ttl, now); return;
          case LockedFault => Sleep(others, attempt, old(Snapshot()));
        }
      }
      reply := Refuse(StoreLocked);
    }

    /** The pause after a locked attempt: whoever held the lock gets on with its work. */
    method Sleep(others: seq<seq<Op>>, attempt: nat, ghost start: State)
      requires Valid() && attempt < |others|
      requires Snapshot() == RunFrom(start, Flatten(others[..attempt]))
      modifies this
      ensures Valid() && Snapshot() == RunFrom(start, Flatten(others[..attempt + 1]))
    {
      assert others[..attempt + 1][..attempt] == others[..attempt];
      RunFromAppend(start, Flatten(others[..attempt]), others[attempt]);
      Interfere(others[attempt]);
    }

    method TryConsume(hash: Hash, ttl: int, requireArmed: bool, now: real) returns (reply: Reply)
      requires Valid() && hash != "" && ttl > 0
      modifies this
      ensures Valid()
      ensures Snapshot() == StepState(old(Snapshot()), ConsumeOp(hash, ttl, requireArmed, now))
      ensures reply == Transition(old(rows), ConsumeOp(hash, ttl, requireArmed, now)).reply && reply.code != RaceLost
      ensures reply.ok <==>
                && hash in old(rows) && old(rows)[hash].status == Approved && now <= old(rows)[hash].expiresAt
                && (requireArmed ==> old(rows)[hash].armedExpiresAt.Some?
                                     && now <= old(rows)[hash].armedExpiresAt.value)
      ensures reply.ok ==>
                rows == old(rows)[hash := old(rows)[hash].(status := Used, usedAt := Some(now), updatedAt := now,
                                                           armedAt := None, armedExpiresAt := None)]
    {
      hide Run, RunFrom;
      ghost var op := ConsumeOp(hash, ttl, requireArmed, now);
      RunSnoc(ops, op);
      ops := ops + [op];
      if hash !in rows { return Refuse(RowMissing); }
      var row := rows[hash];
      if row.status == Used { return Refuse(IsUsed); }
      if row.status == Pending { return Refuse(IsPending); }
      if row.status == Rejected { return Refuse(IsRejected); }
      if row.status == Expired { return Refuse(IsExpired); }
      if now > row.expiresAt {
        rows := rows[hash := row.(status := Expired, updatedAt := now)];
        history := history + [Commit(hash, SetExpired, now)];
        return Refuse(IsExpired);
      }
      if requireArmed {
        if row.armedExpiresAt == None { return Refuse(NotArmed); }
        if now > row.armedExpiresAt.value {
          rows := rows[hash := row.(armedAt := None, armedExpiresAt := None, updatedAt := now)];
          history := history + [Commit(hash, Disarmed, now)];
          return Refuse(ArmExpired);
        }
      }
      var rowCount := 0;
      if rows[hash].status == Approved && rows[hash].expiresAt >= now
         && (requireArmed ==> rows[hash].armedExpiresAt.Some? && rows[hash].armedExpiresAt.value >= now)
      {
        rows := rows[hash := row.(status := Used, usedAt := Some(now), armedAt := None,
                                  armedExpiresAt := None, updatedAt := now)];
        rowCount := 1;
      }
      if rowCount != 1 { return Refuse(RaceLost); }
      history := history + [Commit(hash, Consumed, now)];
      return Reply(true, ApprovedAndUsed);
    }

    method ConsumeValidApproval(hash: Hash, ttl: int, requireArmed: bool, now: real, faults: seq<Fault>,
                                others: seq<seq<Op>>)
      returns (reply: Reply)
      requires Valid() && |others| == |faults|
      modifies this
      ensures Valid()
      ensures Retried(old(Snapshot()), Snapshot(), ConsumeOp(hash, ttl, requireArmed, now), reply, faults, others)
      ensures reply.ok ==> ttl > 0 && hash in rows && rows[hash].status == Used && rows[hash].usedAt == Some(now)
      ensures reply.code != RaceLost
    {
      if hash == "" { return Refuse(HashMissing); }
      if ttl <= 0 { return Refuse(TtlInvalid); }
      for attempt := 0 to |faults|
        invariant Valid()
        invariant attempt <= LockedPrefix(faults)
        invariant Snapshot() == RunFrom(old(Snapshot()), Flatten(others[..attempt]))
      {
        match faults[attempt] {
          case OtherFault => return Refuse(StoreError);
          case NoFault => reply := TryConsume(hash, ttl, requireArmed, now); return;
          case LockedFault => Sleep(others, attempt, old(Snapshot()));
        }
      }
      reply := Refuse(StoreLocked);
    }

    /** One transaction with two writes: upsert as APPROVED, then the conditional UPDATE to USED. */
    method TryApproveAndConsume(hash: Hash, ttl: int, now: real) returns (reply: Reply)
      requires Valid() && hash != "" && ttl > 0
      modifies this
      ensures Valid()
      ensures Snapshot() == StepState(old(Snapshot()), ApproveAndConsumeOp(hash, ttl, now))
      ensures reply == Transition(old(rows), ApproveAndConsumeOp(hash, ttl, now)).reply && reply.code != RaceLost
    {
      hide Run, RunFrom;
      ghost var op := ApproveAndConsumeOp(hash, ttl, now);
      RunSnoc(ops, op);
      ops := ops + [op];
      var expiresAt := now + ttl as real;
      if hash in rows && rows[hash].status == Used { return Refuse(IsUsed); }
      var txn := Row(Approved, now, expiresAt, None, None, None, None, now);
      if hash in rows {
        txn := txn.(approvedAt := rows[hash].approvedAt);
      }
      var rowCount := 0;
      if txn.status == Approved && txn.expiresAt >= now {
        txn := txn.(status := Used, usedAt := Some(now), armedAt := None, armedExpiresAt := None, updatedAt := now);
        rowCount := 1;
      }
      if rowCount != 1 { return Refuse(RaceLost); }
      rows := rows[hash := txn];
      history := history + [Commit(hash, ApprovedAndConsumed(expiresAt), now)];
      return Reply(true, ApprovedAndUsed);
    }

    method ApproveAndConsumeOrderIntent(hash: Hash, ttl: int, now: real, faults: seq<Fault>, others: seq<seq<Op>>)
      returns (reply: Reply)
      requires Valid() && |others| == |faults|
      modifies this
      ensures Valid()
      ensures Retried(old(Snapshot()), Snapshot(), ApproveAndConsumeOp(hash, ttl, now), reply, faults, others)
      ensures reply.code != RaceLost
    {
      if hash == "" { return Refuse(HashMissing); }
      if ttl <= 0 { return Refuse(TtlInvalid); }
      for attempt := 0 to |faults|
        invariant Valid()
        invariant attempt <= LockedPrefix(faults)
        invariant Snapshot() == RunFrom(old(Snapshot()), Flatten(others[..attempt]))
      {
        match faults[attempt] {
          case OtherFault => return Refuse(StoreError);
          case NoFault => reply := TryApproveAndConsume(hash, ttl, now); return;
          case LockedFault => Sleep(others, attempt, old(Snapshot()));
        }
      }
      reply := Refuse(StoreLocked);
    }
  }
}
