/**
 Creation as it really runs: it reads the status, and only later, without a lock, it writes
 the row.  The other operations are atomic.  `OrderApproval` takes creation as one step;
 here is exactly what that leaves out.
 */
module RacingCreates {
  import opened Prelude
  import opened OrderApproval

  datatype Event = Atomic(op: Op) | ReadForCreate(call: nat, op: Op) | WriteCreate(call: nat)

  /** The table, and the creations that have read and not yet written. */
  datatype Racing = Racing(rows: Table, open: map<nat, Op>)

  function CreatedKind(op: Op): Kind
    requires op.CreateOp? && op.status.Some?
  {
    Created(op.status.value, ExpiryEpoch(op.expiry, op.now))
  }

  predicate MayCreate(rows: Table, op: Op) {
    op.CreateOp? && op.status.Some? && op.hash != "" && !IsUsedRow(rows, op.hash)
  }

  predicate OpenWell(s: Racing) { forall c :: c in s.open ==> s.open[c].CreateOp? && s.open[c].status.Some? }

  function Step(s: Racing, e: Event): (after: Racing)
    requires OpenWell(s)
    ensures OpenWell(after)
  {
    match e
    case Atomic(op) => s.(rows := Transition(s.rows, op).rows)
    case ReadForCreate(call, op) =>
      if call !in s.open && MayCreate(s.rows, op) then s.(open := s.open[call := op]) else s
    case WriteCreate(call) =>
      if call !in s.open then s
      else
        var op := s.open[call];
        Racing(s.rows[op.hash := Apply(RowAt(s.rows, op.hash), CreatedKind(op), op.now)], s.open - {call})
  }

  function After(events: seq<Event>): (s: Racing)
    ensures OpenWell(s)
  {
    if events == [] then Racing(map[], map[]) else Step(After(events[..|events| - 1]), events[|events| - 1])
  }

  lemma AfterStep(events: seq<Event>, i: nat)
    requires i < |events|
    ensures After(events[..i + 1]) == Step(After(events[..i]), events[i])
  {
    assert events[..i + 1][..i] == events[..i];
  }

  // ---------------------------------------------------------------- what the one-step view keeps

  /** A read followed at once by its write is the one-step creation. */
  lemma ReadThenWriteIsAtomic(s: Racing, call: nat, op: Op)
    requires OpenWell(s) && call !in s.open && op.CreateOp?
    ensures Step(Step(s, ReadForCreate(call, op)), WriteCreate(call)) == s.(rows := Transition(s.rows, op).rows)
  {
    if MayCreate(s.rows, op) {
      assert s.open[call := op] - {call} == s.open;
    }
  }

  function Atomics(ops: seq<Op>): (events: seq<Event>)
    ensures |events| == |ops| && forall i :: 0 <= i < |ops| ==> events[i] == Atomic(ops[i])
  {
    seq(|ops|, i requires 0 <= i < |ops| => Atomic(ops[i]))
  }

  /** Runs in which every creation is one step are the runs of `OrderApproval`. */
  lemma {:induction false} AtomicRunsAreRuns(ops: seq<Op>)
    ensures After(Atomics(ops)) == Racing(Run(ops).rows, map[])
  {
    if ops != [] {
      AtomicRunsAreRuns(ops[..|ops| - 1]);
      assert Atomics(ops)[..|ops| - 1] == Atomics(ops[..|ops| - 1]);
    }
  }

  // ---------------------------------------------------------------- when USED survives

  /** The event writes USED into the row of `h`: a consumption, or a creation as USED. */
  predicate WritesUsed(s: Racing, e: Event, h: Hash)
    requires OpenWell(s)
  {
    match e
    case Atomic(op) =>
      var out := Transition(s.rows, op);
      out.commit.Some? && out.commit.value.hash == h && IsUsedRow(out.rows, h)
    case ReadForCreate(_, _) => false
    case WriteCreate(call) => call in s.open && s.open[call].hash == h && s.open[call].status == Some(Used)
  }

  predicate WritesUsedAt(events: seq<Event>, i: nat, h: Hash)
    requires i < |events|
  {
    WritesUsed(After(events[..i]), events[i], h)
  }

  /** The creation that writes the row of `h` at `w` had read it before event `i`. */
  predicate Straddles(events: seq<Event>, i: nat, w: nat, h: Hash)
    requires i < w < |events|
  {
    var read, written := After(events[..i]).open, After(events[..w]).open;
    && events[w].WriteCreate? && events[w].call in written && written[events[w].call].hash == h
    && events[w].call in read && read[events[w].call] == written[events[w].call]
  }

  lemma StaysNotUsed(s: Racing, e: Event, h: Hash)
    requires OpenWell(s) && !IsUsedRow(s.rows, h) && !WritesUsed(s, e, h)
    ensures !IsUsedRow(Step(s, e).rows, h)
  {
  }

  lemma StaysUsed(s: Racing, e: Event, h: Hash)
    requires OpenWell(s) && IsUsedRow(s.rows, h)
    ensures IsUsedRow(Step(s, e).rows, h)
         || (e.WriteCreate? && e.call in s.open && s.open[e.call].hash == h && s.open[e.call].status != Some(Used))
    ensures IsUsedRow(Step(s, e).rows, h) ==>
              forall c :: c in Step(s, e).open && Step(s, e).open[c].hash == h ==>
                            c in s.open && s.open[c] == Step(s, e).open[c]
  {
  }

  lemma UsedAfterWriting(s: Racing, e: Event, h: Hash)
    requires OpenWell(s) && WritesUsed(s, e, h)
    ensures IsUsedRow(Step(s, e).rows, h)
    ensures forall c :: c in Step(s, e).open ==> c in s.open && s.open[c] == Step(s, e).open[c]
  {
  }

  /** The creations of `h` that are open now were open then, as they are. */
  predicate OpenThen(then_: map<nat, Op>, now: map<nat, Op>, h: Hash) {
    forall c :: c in now && now[c].hash == h ==> c in then_ && then_[c] == now[c]
  }

  lemma UsedOneFurther(then_: map<nat, Op>, s: Racing, e: Event, h: Hash)
    requires OpenWell(s) && IsUsedRow(s.rows, h) && OpenThen(then_, s.open, h)
    requires e.WriteCreate? && e.call in s.open && s.open[e.call].hash == h ==>
               !(e.call in then_ && then_[e.call] == s.open[e.call])
    ensures IsUsedRow(Step(s, e).rows, h) && OpenThen(then_, Step(s, e).open, h)
  {
    hide Step;
    StaysUsed(s, e, h);
  }

  lemma UsedOverEvent(events: seq<Event>, i: nat, w: nat, h: Hash)
    requires i < w < |events| && !Straddles(events, i, w, h) && IsUsedRow(After(events[..w]).rows, h)
    requires OpenThen(After(events[..i]).open, After(events[..w]).open, h)
    ensures IsUsedRow(Step(After(events[..w]), events[w]).rows, h)
    ensures OpenThen(After(events[..i]).open, Step(After(events[..w]), events[w]).open, h)
  {
    hide After, Step, OpenThen;
    UsedOneFurther(After(events[..i]).open, After(events[..w]), events[w], h);
  }

  /** Until a straddling creation writes, the row stays USED and no creation of `h` opens. */
  lemma {:induction false} UsedUntilStraddled(events: seq<Event>, i: nat, j: nat, h: Hash)
    requires i < j <= |events| && WritesUsedAt(events, i, h)
    requires forall w :: i < w < j ==> !Straddles(events, i, w, h)
    ensures IsUsedRow(After(events[..j]).rows, h)
    ensures OpenThen(After(events[..i]).open, After(events[..j]).open, h)
    decreases j
  {
    hide After, Step, WritesUsed, Straddles;
    AfterStep(events, j - 1);
    if j == i + 1 {
      UsedAfterWriting(After(events[..i]), events[i], h);
    } else {
      hide OpenThen, WritesUsedAt;
      UsedUntilStraddled(events, i, j - 1, h);
      UsedOverEvent(events, i, j - 1, h);
    }
  }

  lemma {:induction false} NotUsedUntilWritten(events: seq<Event>, w: nat, j: nat, h: Hash)
    requires w <= j <= |events| && !IsUsedRow(After(events[..w]).rows, h)
    requires forall k :: w <= k < j ==> !WritesUsedAt(events, k, h)
    ensures !IsUsedRow(After(events[..j]).rows, h)
    decreases j
  {
    if w < j {
      NotUsedUntilWritten(events, w, j - 1, h);
      AfterStep(events, j - 1);
      assert !WritesUsedAt(events, j - 1, h);
      StaysNotUsed(After(events[..j - 1]), events[j - 1], h);
    }
  }

  /** After the last event that wrote USED, the row is still USED exactly when no creation straddles that event. */
  lemma UsedSurvivesIff(events: seq<Event>, i: nat, h: Hash)
    requires i < |events| && WritesUsedAt(events, i, h)
    requires forall k :: i < k < |events| ==> !WritesUsedAt(events, k, h)
    ensures IsUsedRow(After(events).rows, h) <==> forall w :: i < w < |events| ==> !Straddles(events, i, w, h)
  {
    assert events[..|events|] == events;
    if w :| i < w < |events| && Straddles(events, i, w, h) {
      AfterStep(events, w);
      assert !WritesUsedAt(events, w, h);
      NotUsedUntilWritten(events, w + 1, |events|, h);
    } else {
      UsedUntilStraddled(events, i, |events|, h);
    }
  }

  lemma NotUsedIsConsumable(rows: Table, h: Hash, ttl: int, now: real)
    requires h != "" && ttl > 0
    ensures Transition(rows, ApproveAndConsumeOp(h, ttl, now)).reply.ok <==> !IsUsedRow(rows, h)
  {
  }

  /** So a consumed hash can be consumed again exactly when a creation had read it before and wrote it after. */
  lemma ConsumableAgainIff(events: seq<Event>, i: nat, h: Hash, ttl: int, now: real)
    requires h != "" && ttl > 0 && i < |events| && WritesUsedAt(events, i, h)
    requires forall k :: i < k < |events| ==> !WritesUsedAt(events, k, h)
    ensures Transition(After(events).rows, ApproveAndConsumeOp(h, ttl, now)).reply.ok
        <==> exists w :: i < w < |events| && Straddles(events, i, w, h)
  {
    hide After, Straddles, WritesUsedAt;
    UsedSurvivesIff(events, i, h);
    NotUsedIsConsumable(After(events).rows, h, ttl, now);
    hide Transition;
  }

  predicate ConsumesAt(events: seq<Event>, i: nat, h: Hash)
    requires i < |events|
  {
    && events[i].Atomic? && events[i].op.hash == h
    && Transition(After(events[..i]).rows, events[i].op).reply.code == ApprovedAndUsed
  }

  lemma LastUsedWrite(events: seq<Event>, i: nat, j: nat, h: Hash) returns (k: nat)
    requires i < j <= |events| && WritesUsedAt(events, i, h)
    ensures i <= k < j && WritesUsedAt(events, k, h) && forall m :: k < m < j ==> !WritesUsedAt(events, m, h)
  {
    hide WritesUsedAt;
    k := i;
    for m := i + 1 to j
      invariant i <= k < m && WritesUsedAt(events, k, h) && forall n :: k < n < m ==> !WritesUsedAt(events, n, h)
    {
      if WritesUsedAt(events, m, h) { k := m; }
    }
  }

  /** A consumption finds a row that is not USED and writes USED. */
  lemma ConsumptionMeets(events: seq<Event>, i: nat, h: Hash)
    requires i < |events| && ConsumesAt(events, i, h)
    ensures !IsUsedRow(After(events[..i]).rows, h) && WritesUsedAt(events, i, h)
  {
    hide After;
  }

  /** Two consumptions of one hash mean that a creation straddled the first, or a later write of USED. */
  lemma TwiceConsumedIsStraddled(events: seq<Event>, i: nat, j: nat, h: Hash) returns (k: nat, w: nat)
    requires i < j < |events| && ConsumesAt(events, i, h) && ConsumesAt(events, j, h)
    ensures i <= k < w < j && WritesUsedAt(events, k, h) && Straddles(events, k, w, h)
  {
    ConsumptionMeets(events, i, h);
    ConsumptionMeets(events, j, h);
    hide ConsumesAt, WritesUsedAt, Straddles, After;
    k := LastUsedWrite(events, i, j, h);
    if forall w :: k < w < j ==> !Straddles(events, k, w, h) {
      UsedUntilStraddled(events, k, j, h);
      assert false;
    } else {
      w :| k < w < j && Straddles(events, k, w, h);
    }
  }

  /** Such a run: read, approve and consume elsewhere, write, consume again. */
  lemma DoubleConsumption(h: Hash)
    requires h != ""
    ensures var create := CreateOp(h, Some(Approved), At(10.0), 0.0);
            var first, second := ApproveAndConsumeOp(h, 1, 0.0), ConsumeOp(h, 1, false, 0.0);
            var events := [ReadForCreate(0, create), Atomic(first), WriteCreate(0), Atomic(second)];
            ConsumesAt(events, 1, h) && ConsumesAt(events, 3, h)
  {
    var create := CreateOp(h, Some(Approved), At(10.0), 0.0);
    var first, second := ApproveAndConsumeOp(h, 1, 0.0), ConsumeOp(h, 1, false, 0.0);
    var events := [ReadForCreate(0, create), Atomic(first), WriteCreate(0), Atomic(second)];
    assert events[..0] == [];
    AfterStep(events, 0);
    AfterStep(events, 1);
    AfterStep(events, 2);
  }
}
