/**
 The approval protocol in terms of its calls alone: what was asked, when, and what was
 answered.  Whether a call succeeds is told from the calls before it, without reading the
 table or the history of commits.
 */
module ApprovalCalls {
  import opened Prelude
  import opened OrderApproval

  /** The call is about `h` and succeeds. */
  predicate Succeeds(ops: seq<Op>, i: nat, h: Hash)
    requires i < |ops|
  {
    ops[i].hash == h && ReplyAt(ops, i).ok
  }

  /** Until when a creation is good, counted from its own clock. */
  function GoodUntil(op: Op): real
    requires op.CreateOp?
  {
    match op.expiry
    case After(ttl) => if ttl > 0 then op.now + ttl as real else op.now
    case At(epoch) => epoch
  }

  /** After the call the hash is rejected, expired, used, or created anew. */
  predicate EndsLife(ops: seq<Op>, i: nat, h: Hash)
    requires i < |ops|
  {
    && ops[i].hash == h
    && if ReplyAt(ops, i).ok then !ops[i].ApproveOp? && !ops[i].ArmOp? else ReplyAt(ops, i).code == IsExpired
  }

  predicate Opens(ops: seq<Op>, c: nat, h: Hash)
    requires c < |ops|
  {
    Succeeds(ops, c, h) && ops[c].CreateOp? && (ops[c].status == Some(Pending) || ops[c].status == Some(Approved))
  }

  /** The call at `c` created `h` as pending or approved, and no later call ended that. */
  ghost predicate Stands(ops: seq<Op>, c: nat, h: Hash): (stands: bool)
    ensures stands ==> c < |ops| && ops[c].CreateOp?
  {
    c < |ops| && Opens(ops, c, h) && forall j :: c < j < |ops| ==> !EndsLife(ops, j, h)
  }

  predicate Approves(ops: seq<Op>, k: nat, h: Hash)
    requires k < |ops|
  {
    ops[k].ApproveOp? && Succeeds(ops, k, h)
  }

  ghost predicate WasApproved(ops: seq<Op>, c: nat, h: Hash)
    requires c < |ops|
  {
    (ops[c].CreateOp? && ops[c].status == Some(Approved)) || exists k :: c < k < |ops| && Approves(ops, k, h)
  }

  /** The call changes whether the hash is armed: it arms it, or finds that the arming has run out. */
  predicate ChangesArming(ops: seq<Op>, i: nat, h: Hash)
    requires i < |ops|
  {
    ops[i].hash == h && if ReplyAt(ops, i).ok then ops[i].ArmOp? else ReplyAt(ops, i).code == ArmExpired
  }

  /** The last change to the arming of `h` is the arm at `a`. */
  ghost predicate LastArm(ops: seq<Op>, a: nat, h: Hash): (last: bool)
    ensures last ==> a < |ops| && ops[a].ArmOp?
  {
    && a < |ops| && ops[a].ArmOp? && Succeeds(ops, a, h)
    && forall j :: a < j < |ops| ==> !ChangesArming(ops, j, h)
  }

  /** The calls so far allow `h` to be consumed at `now`. */
  ghost predicate Allowed(ops: seq<Op>, h: Hash, requireArmed: bool, now: real) {
    exists c: nat ::
      && Stands(ops, c, h) && now <= GoodUntil(ops[c]) && WasApproved(ops, c, h)
      && (requireArmed ==>
            exists a: nat :: c < a && LastArm(ops, a, h) && now <= ops[a].now + ops[a].ttl as real)
  }

  predicate Spends(ops: seq<Op>, i: nat, h: Hash)
    requires i < |ops|
  {
    && Succeeds(ops, i, h)
    && (ops[i].ConsumeOp? || ops[i].ApproveAndConsumeOp? || (ops[i].CreateOp? && ops[i].status == Some(Used)))
  }

  /** Some call used the hash up. */
  ghost predicate Spent(ops: seq<Op>, h: Hash) { exists i :: 0 <= i < |ops| && Spends(ops, i, h) }

  predicate Stores(ops: seq<Op>, i: nat, h: Hash)
    requires i < |ops|
  {
    Succeeds(ops, i, h) && (ops[i].CreateOp? || ops[i].ApproveAndConsumeOp?)
  }

  ghost predicate Known(ops: seq<Op>, h: Hash) { exists i :: 0 <= i < |ops| && Stores(ops, i, h) }

  // ---------------------------------------------------------------- one call

  /** What a successful call leaves in the row of its hash. */
  lemma RowAfterSuccess(t: Table, op: Op)
    requires Transition(t, op).reply.ok
    ensures op.hash != "" && op.hash in Transition(t, op).rows
    ensures var h, row := op.hash, Transition(t, op).rows[op.hash];
            match op
            case CreateOp(_, status, _, now) =>
              && (h in t ==> t[h].status != Used) && status.Some?
              && row == Row(status.value, now, GoodUntil(op), if status == Some(Approved) then Some(now) else None,
                            None, None, None, now)
            case ApproveOp(_, now) =>
              && h in t && t[h].status in {Pending, Approved} && now <= t[h].expiresAt
              && row == t[h].(status := Approved, approvedAt := Some(now), updatedAt := now)
            case RejectOp(_, now) =>
              h in t && t[h].status != Used && row == t[h].(status := Rejected, updatedAt := now)
            case ArmOp(_, ttl, now) =>
              && ttl > 0 && h in t && t[h].status == Approved && now <= t[h].expiresAt
              && row.armedExpiresAt == Some(MinReal(now + ttl as real, t[h].expiresAt))
              && row == t[h].(armedAt := Some(now), armedExpiresAt := row.armedExpiresAt, updatedAt := now)
            case ConsumeOp(_, ttl, armed, now) =>
              && ttl > 0 && h in t && t[h].status == Approved && now <= t[h].expiresAt
              && (armed ==> t[h].armedExpiresAt.Some? && now <= t[h].armedExpiresAt.value)
              && row == t[h].(status := Used, usedAt := Some(now), armedAt := None, armedExpiresAt := None,
                              updatedAt := now)
            case ApproveAndConsumeOp(_, ttl, now) =>
              && ttl > 0 && (h in t ==> t[h].status != Used)
              && row == Row(Used, now, now + ttl as real, if h in t then t[h].approvedAt else None, Some(now),
                            None, None, now)
  {
  }

  /** Why a call is refused. */
  lemma RefusedBecause(t: Table, op: Op)
    requires !Transition(t, op).reply.ok
    ensures var h, code := op.hash, Transition(t, op).reply.code;
            && (code == HashMissing <==> h == "")
            && (code == StatusInvalid <==> h != "" && op.CreateOp? && op.status.None?)
            && (code == ArmTtlInvalid <==> h != "" && op.ArmOp? && op.ttl <= 0)
            && (code == TtlInvalid <==> h != "" && (op.ConsumeOp? || op.ApproveAndConsumeOp?) && op.ttl <= 0)
            && (code in {AlreadyUsed, IsUsed} ==>
                  h in t && t[h].status == Used && (code == AlreadyUsed <==> op.CreateOp?))
            && (code == RowMissing ==> h !in t)
            && (code == IsPending ==> h in t && t[h].status == Pending)
            && (code == IsRejected ==> h in t && t[h].status == Rejected)
            && (code == NotArmed ==> op.ConsumeOp? && op.requireArmed && h in t && t[h].armedExpiresAt.None?)
            && code in {HashMissing, StatusInvalid, ArmTtlInvalid, TtlInvalid, AlreadyUsed, IsUsed, RowMissing,
                        IsPending, IsRejected, IsExpired, NotArmed, ArmExpired}
  {
    hide Apply;
    assert Transition(t, op).reply == Decide(RowAt(t, op.hash), op).reply;
    hide Transition;
  }

  /** What a successful call answers. */
  lemma AnswerOfSuccess(t: Table, op: Op)
    requires Transition(t, op).reply.ok
    ensures Transition(t, op).reply.code
         == match op
            case CreateOp(_, status, _, _) => CreatedAs(if status.Some? then status.value else Pending)
            case ApproveOp(_, _) => IntentApproved
            case RejectOp(_, _) => IntentRejected
            case ArmOp(_, _, _) => IntentArmed
            case _ => ApprovedAndUsed
  {
    hide Apply;
  }

  /** What a refusal leaves behind: at most an expiry or a disarming. */
  lemma RowAfterRefusal(t: Table, op: Op)
    requires !Transition(t, op).reply.ok
    ensures var h, code, after := op.hash, Transition(t, op).reply.code, Transition(t, op).rows;
            && (code == IsExpired ==>
                  && h in t && (t[h].status == Expired || op.now > t[h].expiresAt) && t[h].status != Used
                  && h in after
                  && after == t[h := if t[h].status == Expired then t[h]
                                     else t[h].(status := Expired, updatedAt := op.now)])
            && (code == ArmExpired ==>
                  && op.ConsumeOp? && op.requireArmed && h in t && t[h].status == Approved
                  && t[h].armedExpiresAt.Some? && op.now > t[h].armedExpiresAt.value
                  && h in after
                  && after == t[h := t[h].(armedAt := None, armedExpiresAt := None, updatedAt := op.now)])
            && (code !in {IsExpired, ArmExpired} ==> after == t)
  {
    if op.hash in t { assert t[op.hash := t[op.hash]] == t; }
  }

  lemma OtherRowsStay(t: Table, op: Op, h: Hash)
    requires h != op.hash
    ensures RowAt(Transition(t, op).rows, h) == RowAt(t, h)
  {
  }

  // ---------------------------------------------------------------- one call more

  lemma RepliesOfPrefix(ops: seq<Op>, n: nat, i: nat)
    requires i < n <= |ops|
    ensures ReplyAt(ops[..n], i) == ReplyAt(ops, i)
  {
    assert ops[..n][..i] == ops[..i];
  }

  lemma StandsAfter(pre: seq<Op>, op: Op, c: nat, h: Hash)
    ensures var ops := pre + [op];
            Stands(ops, c, h) <==> if c == |pre| then Opens(ops, c, h)
                                   else Stands(pre, c, h) && !EndsLife(ops, |pre|, h)
  {
    var ops := pre + [op];
    assert ops[..|pre|] == pre;
    forall i | 0 <= i < |pre|
      ensures ReplyAt(ops, i) == ReplyAt(pre, i)
    {
      RepliesOfPrefix(ops, |pre|, i);
    }
    hide ReplyAt;
    if c < |pre| {
      if Stands(ops, c, h) {
        assert !EndsLife(ops, |pre|, h);
        forall j | c < j < |pre|
          ensures !EndsLife(pre, j, h)
        {
          assert !EndsLife(ops, j, h);
        }
      }
      if Stands(pre, c, h) && !EndsLife(ops, |pre|, h) {
        forall j | c < j < |ops|
          ensures !EndsLife(ops, j, h)
        {
          assert j < |pre| ==> !EndsLife(pre, j, h);
        }
      }
    }
  }

  lemma WasApprovedAfter(pre: seq<Op>, op: Op, c: nat, h: Hash)
    requires c < |pre|
    ensures var ops := pre + [op];
            WasApproved(ops, c, h) <==> WasApproved(pre, c, h) || Approves(ops, |pre|, h)
  {
    var ops := pre + [op];
    assert ops[..|pre|] == pre;
    forall i | 0 <= i < |pre|
      ensures Approves(ops, i, h) <==> Approves(pre, i, h)
    {
      RepliesOfPrefix(ops, |pre|, i);
    }
    hide Approves;
  }

  lemma LastArmAfter(pre: seq<Op>, op: Op, a: nat, h: Hash)
    ensures var ops := pre + [op];
            LastArm(ops, a, h) <==> if a == |pre| then op.ArmOp? && Succeeds(ops, a, h)
                                    else LastArm(pre, a, h) && !ChangesArming(ops, |pre|, h)
  {
    var ops := pre + [op];
    assert ops[..|pre|] == pre;
    forall i | 0 <= i < |pre|
      ensures ReplyAt(ops, i) == ReplyAt(pre, i)
    {
      RepliesOfPrefix(ops, |pre|, i);
    }
    hide ReplyAt;
    if a < |pre| {
      if LastArm(ops, a, h) {
        assert !ChangesArming(ops, |pre|, h);
        forall j | a < j < |pre|
          ensures !ChangesArming(pre, j, h)
        {
          assert !ChangesArming(ops, j, h);
        }
      }
      if LastArm(pre, a, h) && !ChangesArming(ops, |pre|, h) {
        forall j | a < j < |ops|
          ensures !ChangesArming(ops, j, h)
        {
          assert j < |pre| ==> !ChangesArming(pre, j, h);
        }
      }
    }
  }

  lemma SpentAfter(pre: seq<Op>, op: Op, h: Hash)
    ensures var ops := pre + [op];
            && (Spent(ops, h) <==> Spent(pre, h) || Spends(ops, |pre|, h))
            && (Known(ops, h) <==> Known(pre, h) || Stores(ops, |pre|, h))
  {
    var ops := pre + [op];
    assert ops[..|pre|] == pre;
    forall i | 0 <= i < |pre|
      ensures (Spends(ops, i, h) <==> Spends(pre, i, h)) && (Stores(ops, i, h) <==> Stores(pre, i, h))
    {
      RepliesOfPrefix(ops, |pre|, i);
    }
    hide Spends, Stores;
  }

  // ---------------------------------------------------------------- what a row stands for

  /** The row of a creation that stands: when it runs out, whether it is approved, how it is armed. */
  ghost predicate Reflects(row: Row, ops: seq<Op>, c: nat, h: Hash)
    requires c < |ops| && ops[c].CreateOp?
  {
    && row.expiresAt == GoodUntil(ops[c])
    && row.status == (if WasApproved(ops, c, h) then Approved else Pending)
    && ReflectsArming(row, ops, c, h)
  }

  ghost predicate ReflectsArming(row: Row, ops: seq<Op>, c: nat, h: Hash) {
    && (row.armedExpiresAt.Some? ==> exists a: nat :: c < a && LastArm(ops, a, h))
    && (forall a: nat :: c < a && LastArm(ops, a, h) ==>
          row.armedExpiresAt == Some(MinReal(ops[a].now + ops[a].ttl as real, row.expiresAt)))
  }

  ghost predicate Mirrors(row: Option<Row>, ops: seq<Op>, h: Hash) {
    && (row.Some? <==> Known(ops, h))
    && (row.Some? && row.value.status == Used <==> Spent(ops, h))
    && (row.Some? && row.value.status in {Pending, Approved} ==> exists c: nat :: Stands(ops, c, h))
    && (forall c: nat :: Stands(ops, c, h) ==> row.Some? && Reflects(row.value, ops, c, h))
  }

  lemma ReplyOfLast(pre: seq<Op>, op: Op)
    ensures ReplyAt(pre + [op], |pre|) == Transition(Run(pre).rows, op).reply
    ensures Run(pre + [op]).rows == Transition(Run(pre).rows, op).rows
  {
    assert (pre + [op])[..|pre|] == pre;
  }

  /** What a call that does not end the life of `h` does to its row. */
  predicate Follows(row: Row, after: Row, ops: seq<Op>, n: nat, h: Hash)
    requires n < |ops|
  {
    && after.expiresAt == row.expiresAt
    && after.status == (if Approves(ops, n, h) then Approved else row.status)
    && after.armedExpiresAt == (if !ChangesArming(ops, n, h) then row.armedExpiresAt
                                else if ops[n].ArmOp? && ReplyAt(ops, n).ok
                                then Some(MinReal(ops[n].now + ops[n].ttl as real, row.expiresAt)) else None)
  }

  lemma ReflectsAfter(row: Row, after: Row, pre: seq<Op>, op: Op, c: nat, h: Hash)
    requires c < |pre| && pre[c].CreateOp? && Reflects(row, pre, c, h) && Follows(row, after, pre + [op], |pre|, h)
    requires row.status in {Pending, Approved}
    ensures Reflects(after, pre + [op], c, h)
  {
    hide WasApproved, LastArm, ChangesArming, Approves, ReplyAt;
    WasApprovedAfter(pre, op, c, h);
    ReflectsArmingAfter(row, after, pre, op, c, h);
    hide ReflectsArming;
  }

  lemma ReflectsArmingAfter(row: Row, after: Row, pre: seq<Op>, op: Op, c: nat, h: Hash)
    requires c < |pre| && ReflectsArming(row, pre, c, h) && Follows(row, after, pre + [op], |pre|, h)
    ensures ReflectsArming(after, pre + [op], c, h)
  {
    hide LastArm, ChangesArming, Approves, ReplyAt;
    var ops, n := pre + [op], |pre|;
    if ChangesArming(ops, n, h) {
      ArmedNow(pre, op, h);
      if after.armedExpiresAt.Some? { assert LastArm(ops, n, h); }
    } else {
      ArmedAsBefore(pre, op, h);
      forall a: nat | c < a && LastArm(ops, a, h)
        ensures after.armedExpiresAt == Some(MinReal(ops[a].now + ops[a].ttl as real, after.expiresAt))
      {
        assert LastArm(pre, a, h) && ops[a] == pre[a];
      }
      if after.armedExpiresAt.Some? {
        var a: nat :| c < a && LastArm(pre, a, h);
        assert LastArm(ops, a, h);
      }
    }
  }

  lemma ArmedAsBefore(pre: seq<Op>, op: Op, h: Hash)
    requires !ChangesArming(pre + [op], |pre|, h)
    ensures forall a: nat :: LastArm(pre + [op], a, h) <==> LastArm(pre, a, h)
    ensures forall a: nat :: LastArm(pre, a, h) ==> (pre + [op])[a] == pre[a]
  {
    forall a: nat
      ensures LastArm(pre + [op], a, h) <==> LastArm(pre, a, h)
    {
      LastArmAfter(pre, op, a, h);
    }
    hide LastArm, ChangesArming;
  }

  /** A call that changes the arming either is the last arm from now on, or leaves none. */
  lemma ArmedNow(pre: seq<Op>, op: Op, h: Hash)
    requires ChangesArming(pre + [op], |pre|, h)
    ensures forall a: nat ::
              LastArm(pre + [op], a, h) <==> a == |pre| && op.ArmOp? && ReplyAt(pre + [op], |pre|).ok
  {
    forall a: nat
      ensures LastArm(pre + [op], a, h) <==> a == |pre| && op.ArmOp? && ReplyAt(pre + [op], |pre|).ok
    {
      LastArmAfter(pre, op, a, h);
      hide LastArm, ReplyAt;
    }
  }

  lemma FollowsCall(pre: seq<Op>, op: Op, h: Hash)
    requires h in Run(pre).rows && Run(pre).rows[h].status in {Pending, Approved}
    requires !EndsLife(pre + [op], |pre|, h)
    ensures h in Run(pre + [op]).rows && Run(pre + [op]).rows[h].status in {Pending, Approved}
    ensures Follows(Run(pre).rows[h], Run(pre + [op]).rows[h], pre + [op], |pre|, h)
  {
    var t := Run(pre).rows;
    ReplyOfLast(pre, op);
    hide Run, ReplyAt;
    if op.hash != h {
      OtherRowsStay(t, op, h);
    } else if Transition(t, op).reply.ok {
      RowAfterSuccess(t, op);
    } else {
      RowAfterRefusal(t, op);
    }
    hide Transition;
  }

  lemma RowOpened(pre: seq<Op>, op: Op, h: Hash)
    requires Opens(pre + [op], |pre|, h)
    ensures h in Run(pre + [op]).rows && Reflects(Run(pre + [op]).rows[h], pre + [op], |pre|, h)
  {
    ReplyOfLast(pre, op);
    RowAfterSuccess(Run(pre).rows, op);
    hide Run, Transition, ReplyAt;
  }

  /** A live row was live before, or has just been created so. */
  lemma LiveBefore(pre: seq<Op>, op: Op, h: Hash)
    requires h in Run(pre + [op]).rows && Run(pre + [op]).rows[h].status in {Pending, Approved}
    ensures Opens(pre + [op], |pre|, h)
         || (h in Run(pre).rows && Run(pre).rows[h].status in {Pending, Approved} && !EndsLife(pre + [op], |pre|, h))
  {
    var t := Run(pre).rows;
    ReplyOfLast(pre, op);
    hide Run, ReplyAt;
    if op.hash != h {
      OtherRowsStay(t, op, h);
    } else if Transition(t, op).reply.ok {
      RowAfterSuccess(t, op);
    } else {
      RowAfterRefusal(t, op);
    }
    hide Transition;
  }

  lemma UseAndStorage(pre: seq<Op>, op: Op, h: Hash)
    ensures var row, after := RowAt(Run(pre).rows, h), RowAt(Run(pre + [op]).rows, h);
            && (after.Some? <==> row.Some? || Stores(pre + [op], |pre|, h))
            && (after.Some? && after.value.status == Used <==>
                  (row.Some? && row.value.status == Used) || Spends(pre + [op], |pre|, h))
  {
    var t := Run(pre).rows;
    ReplyOfLast(pre, op);
    hide Run, ReplyAt;
    if op.hash != h {
      OtherRowsStay(t, op, h);
    } else if Transition(t, op).reply.ok {
      RowAfterSuccess(t, op);
    } else {
      RowAfterRefusal(t, op);
    }
    hide Transition;
  }

  /** After every run a row says what the calls about its hash amount to. */
  lemma {:induction false} RowsMirrorCalls(ops: seq<Op>, h: Hash)
    ensures Mirrors(RowAt(Run(ops).rows, h), ops, h)
  {
    if ops != [] {
      var pre, op := ops[..|ops| - 1], ops[|ops| - 1];
      assert ops == pre + [op];
      RowsMirrorCalls(pre, h);
      MirrorsAfter(pre, op, h);
    }
  }

  lemma MirrorsAfter(pre: seq<Op>, op: Op, h: Hash)
    requires Mirrors(RowAt(Run(pre).rows, h), pre, h)
    ensures Mirrors(RowAt(Run(pre + [op]).rows, h), pre + [op], h)
  {
    var ops, n := pre + [op], |pre|;
    var row, after := RowAt(Run(pre).rows, h), RowAt(Run(ops).rows, h);
    hide Run, ReplyAt, Reflects, Follows, Opens, EndsLife, Stands, Known, Spent, Spends, Stores;
    SpentAfter(pre, op, h);
    UseAndStorage(pre, op, h);
    forall c: nat | Stands(ops, c, h)
      ensures after.Some? && c < |ops| && ops[c].CreateOp? && Reflects(after.value, ops, c, h)
    {
      StandingIsReflected(pre, op, c, h);
    }
    if after.Some? && after.value.status in {Pending, Approved} {
      LiveBefore(pre, op, h);
      if Opens(ops, n, h) {
        StandsAfter(pre, op, n, h);
      } else {
        var c: nat :| Stands(pre, c, h);
        StandsAfter(pre, op, c, h);
      }
    }
  }

  lemma StandingIsReflected(pre: seq<Op>, op: Op, c: nat, h: Hash)
    requires Mirrors(RowAt(Run(pre).rows, h), pre, h) && Stands(pre + [op], c, h)
    ensures h in Run(pre + [op]).rows && c <= |pre| && (pre + [op])[c].CreateOp?
    ensures Reflects(Run(pre + [op]).rows[h], pre + [op], c, h)
  {
    var ops, n := pre + [op], |pre|;
    StandsAfter(pre, op, c, h);
    hide Run, ReplyAt, Stands, Opens, EndsLife, WasApproved, LastArm;
    if c == n {
      RowOpened(pre, op, h);
    } else {
      assert Stands(pre, c, h);
      var row := Run(pre).rows[h];
      FollowsCall(pre, op, h);
      ReflectsAfter(row, Run(ops).rows[h], pre, op, c, h);
    }
  }

  // ---------------------------------------------------------------- when each call succeeds

  /** Whether any call succeeds after a run, in terms of the calls of the run alone. */
  ghost predicate ShouldSucceed(ops: seq<Op>, op: Op) {
    && op.hash != ""
    && match op
       case CreateOp(h, status, _, _) => status.Some? && !Spent(ops, h)
       case ApproveOp(h, now) => exists c: nat :: Stands(ops, c, h) && now <= GoodUntil(ops[c])
       case RejectOp(h, _) => Known(ops, h) && !Spent(ops, h)
       case ArmOp(h, ttl, now) => ttl > 0 && Allowed(ops, h, false, now)
       case ConsumeOp(h, ttl, requireArmed, now) => ttl > 0 && Allowed(ops, h, requireArmed, now)
       case ApproveAndConsumeOp(h, ttl, _) => ttl > 0 && !Spent(ops, h)
  }

  /** What the row must be for a call to succeed. */
  lemma SuccessByRow(t: Table, op: Op)
    ensures Transition(t, op).reply.ok <==>
              && op.hash != ""
              && match op
                 case CreateOp(h, status, _, _) => status.Some? && !(h in t && t[h].status == Used)
                 case ApproveOp(h, now) => h in t && t[h].status in {Pending, Approved} && now <= t[h].expiresAt
                 case RejectOp(h, _) => h in t && t[h].status != Used
                 case ArmOp(h, ttl, now) => ttl > 0 && Consumable(RowAt(t, h), false, now)
                 case ConsumeOp(h, ttl, requireArmed, now) => ttl > 0 && Consumable(RowAt(t, h), requireArmed, now)
                 case ApproveAndConsumeOp(h, ttl, _) => ttl > 0 && !(h in t && t[h].status == Used)
  {
  }

  lemma ConsumableIffAllowed(row: Option<Row>, ops: seq<Op>, h: Hash, requireArmed: bool, now: real)
    requires Mirrors(row, ops, h)
    ensures Consumable(row, requireArmed, now) <==> Allowed(ops, h, requireArmed, now)
  {
    hide Stands, WasApproved, LastArm;
    if Consumable(row, requireArmed, now) {
      var c: nat :| Stands(ops, c, h);
      assert Reflects(row.value, ops, c, h);
      if requireArmed {
        var a: nat :| c < a && LastArm(ops, a, h);
      }
    }
    if Allowed(ops, h, requireArmed, now) {
      var c: nat :|
        && Stands(ops, c, h) && now <= GoodUntil(ops[c]) && WasApproved(ops, c, h)
        && (requireArmed ==>
              exists a: nat :: c < a && LastArm(ops, a, h) && now <= ops[a].now + ops[a].ttl as real);
      assert Reflects(row.value, ops, c, h);
    }
  }

  /** After any run, exactly the calls that should succeed do. */
  lemma SucceedsIff(ops: seq<Op>, op: Op)
    ensures Transition(Run(ops).rows, op).reply.ok <==> ShouldSucceed(ops, op)
  {
    var t, h := Run(ops).rows, op.hash;
    RowsMirrorCalls(ops, h);
    SuccessByRow(t, op);
    hide Run, Transition, Stands, Known, Spent, Allowed;
    match op
    case ApproveOp(_, now) =>
      if h in t && t[h].status in {Pending, Approved} {
        var c: nat :| Stands(ops, c, h);
        assert Reflects(t[h], ops, c, h);
      }
      if c: nat :| Stands(ops, c, h) && now <= GoodUntil(ops[c]) {
        assert Reflects(t[h], ops, c, h);
      }
    case ArmOp(_, _, now) => ConsumableIffAllowed(RowAt(t, h), ops, h, false, now);
    case ConsumeOp(_, _, requireArmed, now) => ConsumableIffAllowed(RowAt(t, h), ops, h, requireArmed, now);
    case _ =>
  }

  // ---------------------------------------------------------------- the arming window

  /** The arm at `i` is followed by nothing about `h`: the creation it rests on stands, and it is the last arm. */
  lemma {:induction false} QuietSince(ops: seq<Op>, i: nat, h: Hash) returns (c: nat)
    requires i < |ops| && ops[i].ArmOp? && Succeeds(ops, i, h)
    requires forall j :: i < j < |ops| ==> ops[j].hash != h
    ensures c < i && Stands(ops, c, h) && WasApproved(ops, c, h) && LastArm(ops, i, h)
  {
    var n := |ops| - 1;
    var pre, op := ops[..n], ops[n];
    assert ops == pre + [op];
    if i == n {
      hide Run, Stands, WasApproved, LastArm;
      SucceedsIff(pre, op);
      ReplyOfLast(pre, op);
      c :| Stands(pre, c, h) && WasApproved(pre, c, h);
      ArmEndsNothing(pre, op, h);
    } else {
      RepliesOfPrefix(ops, n, i);
      c := QuietSince(pre, i, h);
    }
    hide Stands, WasApproved, LastArm, ReplyAt;
    StandsAfter(pre, op, c, h);
    WasApprovedAfter(pre, op, c, h);
    LastArmAfter(pre, op, i, h);
  }

  /** A successful arm ends nothing. */
  lemma ArmEndsNothing(pre: seq<Op>, op: Op, h: Hash)
    requires op.ArmOp? && ReplyAt(pre + [op], |pre|).ok
    ensures !EndsLife(pre + [op], |pre|, h)
  {
  }

  /**
   An arm that nothing about its hash follows lets through exactly the consumptions within
   the time it was given and within the time the creation was given.
   */
  lemma ArmedWindow(ops: seq<Op>, i: nat, ttl: int, now: real) returns (c: nat)
    requires i < |ops| && ops[i].ArmOp? && ReplyAt(ops, i).ok && ttl > 0
    requires forall j :: i < j < |ops| ==> ops[j].hash != ops[i].hash
    ensures c < i && Stands(ops, c, ops[i].hash)
    ensures Transition(Run(ops).rows, ConsumeOp(ops[i].hash, ttl, true, now)).reply.ok
        <==> now <= ops[i].now + ops[i].ttl as real && now <= GoodUntil(ops[c])
  {
    var h := ops[i].hash;
    SucceedsIff(ops[..i], ops[i]);
    c := QuietSince(ops, i, h);
    var consume := ConsumeOp(h, ttl, true, now);
    SucceedsIff(ops, consume);
    RowsMirrorCalls(ops, h);
    hide Run, Transition, WasApproved, ReplyAt;
    OnlyOneStands(ops, c, h);
    LastArmIsOne(ops, i, h);
    hide Stands, LastArm, Mirrors;
  }

  lemma OnlyOneStands(ops: seq<Op>, c: nat, h: Hash)
    requires Stands(ops, c, h)
    ensures forall d: nat :: Stands(ops, d, h) ==> d == c
  {
    hide ReplyAt;
    forall d: nat | Stands(ops, d, h)
      ensures d == c
    {
      assert Opens(ops, d, h) && Opens(ops, c, h);
      assert EndsLife(ops, d, h) && EndsLife(ops, c, h);
    }
  }

  lemma LastArmIsOne(ops: seq<Op>, a: nat, h: Hash)
    requires LastArm(ops, a, h)
    ensures forall b: nat :: LastArm(ops, b, h) ==> b == a
  {
    hide ReplyAt;
    forall b: nat | LastArm(ops, b, h)
      ensures b == a
    {
      assert ChangesArming(ops, a, h) && ChangesArming(ops, b, h);
    }
  }
}
