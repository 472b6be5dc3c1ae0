/**
 Appending to the audit log as it really runs: it reads the tail of the file and seals its
 event, and only later, without a lock, it writes the line.  `AuditLog` takes an append as
 one step; here is exactly what that leaves out.
 */
module RacingAppends {
  import opened Prelude
  import opened AuditLog
  import opened AuditLogTheorems

  datatype Move = ReadTailFor(call: nat, payload: Event) | WriteLine(call: nat)

  /** The line an append is going to write, and the number of lines when it read the tail. */
  datatype Pending = Pending(line: Event, saw: nat)

  /** The events in the file, the number of lines that each one's writer saw, and the appends still to write. */
  datatype Racing = Racing(log: seq<Event>, saw: seq<nat>, open: map<nat, Pending>)

  function Step(c: Codec, s: Racing, m: Move): Racing {
    match m
    case ReadTailFor(call, payload) =>
      if call in s.open then s
      else s.(open := s.open[call := Pending(Seal(c, payload, ReadTail(c, FileOf(c, s.log))), |s.log|)])
    case WriteLine(call) =>
      if call !in s.open then s
      else Racing(s.log + [s.open[call].line], s.saw + [s.open[call].saw], s.open - {call})
  }

  function After(c: Codec, moves: seq<Move>): Racing {
    if moves == [] then Racing([], [], map[])
    else Step(c, After(c, moves[..|moves| - 1]), moves[|moves| - 1])
  }

  // ---------------------------------------------------------------- what the one-step view keeps

  /** A read followed at once by its write is the one-step append. */
  lemma ReadThenWriteIsAppend(c: Codec, s: Racing, call: nat, payload: Event)
    requires call !in s.open
    ensures Step(c, Step(c, s, ReadTailFor(call, payload)), WriteLine(call))
         == s.(log := s.log + [Seal(c, payload, ReadTail(c, FileOf(c, s.log)))], saw := s.saw + [|s.log|])
  {
    var read := Step(c, s, ReadTailFor(call, payload));
    assert read.open - {call} == s.open;
  }

  /** Each append read and written before the next one starts. */
  function InTurn(payloads: seq<Event>): seq<Move> {
    if payloads == [] then []
    else InTurn(payloads[..|payloads| - 1]) + [ReadTailFor(0, payloads[|payloads| - 1])] + [WriteLine(0)]
  }

  lemma AfterStep(c: Codec, moves: seq<Move>, m: Move)
    ensures After(c, moves + [m]) == Step(c, After(c, moves), m)
  {
    assert (moves + [m])[..|moves|] == moves;
  }

  /** Appends that take turns leave the log of `Appended`. */
  lemma {:induction false} InTurnIsAppended(c: Codec, payloads: seq<Event>)
    ensures After(c, InTurn(payloads)).log == Appended(c, payloads) && After(c, InTurn(payloads)).open == map[]
  {
    if payloads != [] {
      var before, last := InTurn(payloads[..|payloads| - 1]), payloads[|payloads| - 1];
      InTurnIsAppended(c, payloads[..|payloads| - 1]);
      AfterStep(c, before, ReadTailFor(0, last));
      AfterStep(c, before + [ReadTailFor(0, last)], WriteLine(0));
      ReadThenWriteIsAppend(c, After(c, before), 0, last);
      hide After, Step, Seal, ReadTail, FileOf;
    }
  }

  // ---------------------------------------------------------------- what every line was sealed against

  /** The line is sealed against the first `saw` lines of the log. */
  predicate SealedAgainst(c: Codec, log: seq<Event>, p: Pending) {
    p.saw <= |log| && Linked(c, p.line, ReadTail(c, FileOf(c, log[..p.saw])))
  }

  ghost predicate WellSealed(c: Codec, s: Racing) {
    && |s.saw| == |s.log|
    && (forall j :: 0 <= j < |s.log| ==> s.saw[j] <= j && SealedAgainst(c, s.log, Pending(s.log[j], s.saw[j])))
    && (forall call :: call in s.open ==> SealedAgainst(c, s.log, s.open[call]))
  }

  lemma StaysSealed(c: Codec, log: seq<Event>, more: Event, p: Pending)
    requires SealedAgainst(c, log, p)
    ensures SealedAgainst(c, log + [more], p)
  {
    assert (log + [more])[..p.saw] == log[..p.saw];
  }

  lemma JustSealed(c: Codec, log: seq<Event>, payload: Event)
    ensures SealedAgainst(c, log, Pending(Seal(c, payload, ReadTail(c, FileOf(c, log))), |log|))
  {
    hide Seal, Linked, ReadTail, FileOf;
    SealLinks(c, payload, ReadTail(c, FileOf(c, log)));
    assert log[..|log|] == log;
  }

  lemma WriteKeepsSealed(c: Codec, s: Racing, p: Pending)
    requires WellSealed(c, s) && SealedAgainst(c, s.log, p)
    ensures WellSealed(c, s.(log := s.log + [p.line], saw := s.saw + [p.saw]))
  {
    hide Linked, ReadTail, FileOf;
    assert p.saw <= |s.log|;
    hide SealedAgainst;
    forall q | SealedAgainst(c, s.log, q)
      ensures SealedAgainst(c, s.log + [p.line], q)
    {
      StaysSealed(c, s.log, p.line, q);
    }
    assert p == Pending(p.line, p.saw);
  }

  lemma StepKeepsSealed(c: Codec, s: Racing, m: Move)
    requires WellSealed(c, s)
    ensures WellSealed(c, Step(c, s, m))
  {
    hide SealedAgainst, ReadTail, FileOf, Seal;
    match m
    case ReadTailFor(call, payload) => JustSealed(c, s.log, payload);
    case WriteLine(call) =>
      if call in s.open { WriteKeepsSealed(c, s, s.open[call]); }
  }

  lemma {:induction false} RunsAreWellSealed(c: Codec, moves: seq<Move>)
    ensures WellSealed(c, After(c, moves))
  {
    if moves != [] {
      RunsAreWellSealed(c, moves[..|moves| - 1]);
      StepKeepsSealed(c, After(c, moves[..|moves| - 1]), moves[|moves| - 1]);
    }
  }

  // ---------------------------------------------------------------- when the log verifies

  /** Line `j` comes after line `k`, and its writer had read the tail before `k` was written. */
  predicate Straddles(s: Racing, k: nat, j: nat)
    requires |s.saw| == |s.log| && j < |s.log|
  {
    s.saw[j] <= k < j
  }

  ghost predicate NoneStraddles(s: Racing)
    requires |s.saw| == |s.log|
  {
    forall k, j :: 0 <= k < j < |s.log| ==> !Straddles(s, k, j)
  }

  /** Two events of the log whose hashed texts differ although their hashes agree. */
  ghost predicate OwnCollision(c: Codec, es: seq<Event>) {
    exists i, j :: 0 <= i < |es| && 0 <= j < |es| && Collide(c, es[i], es[j])
  }

  lemma ChainPrefix(c: Codec, es: seq<Event>, n: nat)
    requires n <= |es| && Chain(c, es, GENESIS)
    ensures Chain(c, es[..n], GENESIS) && HashBefore(es[..n], n, GENESIS) == HashBefore(es, n, GENESIS)
  {
    forall i | 0 <= i < n
      ensures LinkAt(c, es[..n], GENESIS, i)
    {
      assert LinkAt(c, es, GENESIS, i);
    }
  }

  lemma HashesAreNotGenesis(c: Codec)
    requires HashesAreFresh(c)
    ensures forall e :: !HashesToGenesis(c, e)
  {
  }

  /** No two places of a chain have the same hash before them, unless two of its events collide. */
  lemma HashesBeforeDiffer(c: Codec, es: seq<Event>, i: nat, j: nat)
    requires Lawful(c) && i < j <= |es| && Chain(c, es, GENESIS)
    requires HashBefore(es, i, GENESIS) == HashBefore(es, j, GENESIS)
    ensures OwnCollision(c, es)
  {
    hide Chain, Collide, LinkAt, HashBefore, HashesToGenesis;
    ChainPrefix(c, es, i);
    ChainPrefix(c, es, j);
    SameHeadSameChain(c, es[..i], es[..j]);
    HashesAreNotGenesis(c);
    hide Lawful;
    var k, l :| 0 <= k < i && 0 <= l < j && Collide(c, es[..i][k], es[..j][l]);
    assert Collide(c, es[k], es[l]);
  }

  lemma SealedHashIsFresh(c: Codec, log: seq<Event>, p: Pending)
    requires HashesAreFresh(c) && SealedAgainst(c, log, p)
    ensures HashOf(p.line) != "" && HashOf(p.line) != GENESIS
  {
    hide ReadTail, FileOf;
  }

  /** What the writer of a line read, when every line names its hash. */
  lemma WriterRead(c: Codec, s: Racing, j: nat)
    requires Lawful(c) && TailsDoNotDecode(c) && WellSealed(c, s) && j < |s.log|
    ensures var saw := s.saw[j];
            Linked(c, s.log[j], if saw == 0 || !FitsTail(c, s.log[saw - 1]) then GENESIS else HashOf(s.log[saw - 1]))
    ensures HashOf(s.log[j]) != "" && HashOf(s.log[j]) != GENESIS
  {
    hide ReadTail, FileOf, FitsTail, Linked, HashOf, TailsDoNotDecode;
    var saw := s.saw[j];
    assert SealedAgainst(c, s.log, Pending(s.log[j], saw));
    SealedHashIsFresh(c, s.log, Pending(s.log[j], saw));
    if saw > 0 {
      assert SealedAgainst(c, s.log, Pending(s.log[saw - 1], s.saw[saw - 1]));
      SealedHashIsFresh(c, s.log, Pending(s.log[saw - 1], s.saw[saw - 1]));
      assert s.log[..saw][saw - 1] == s.log[saw - 1];
    }
    TailReadIs(c, s.log[..saw]);
  }

  /** A line links to the one before it exactly when that one fits the window and the writer had seen it. */
  lemma RacedLinkIff(c: Codec, s: Racing, j: nat)
    requires Lawful(c) && TailsDoNotDecode(c) && WellSealed(c, s) && j < |s.log|
    ensures s.saw[j] == j ==> (LinkAt(c, s.log, GENESIS, j) <==> j == 0 || FitsTail(c, s.log[j - 1]))
    ensures s.saw[j] < j && LinkAt(c, s.log, GENESIS, j) ==>
              HashBefore(s.log, s.saw[j], GENESIS) == HashBefore(s.log, j, GENESIS)
  {
    WriterRead(c, s, j);
    if j > 0 { WriterRead(c, s, j - 1); }
    hide WellSealed, FitsTail, Lawful, TailsDoNotDecode;
  }

  /** One straddling append breaks the chain, unless two events of the log collide. */
  lemma StraddleBreaksChain(c: Codec, s: Racing, j: nat)
    requires Lawful(c) && TailsDoNotDecode(c) && WellSealed(c, s) && j < |s.log|
    requires s.saw[j] < j && Chain(c, s.log, GENESIS)
    ensures OwnCollision(c, s.log)
  {
    hide LinkAt, HashBefore, OwnCollision, TailsDoNotDecode, Lawful, SealedAgainst;
    RacedLinkIff(c, s, j);
    HashesBeforeDiffer(c, s.log, s.saw[j], j);
  }

  lemma InTurnOrStraddling(s: Racing)
    requires |s.saw| == |s.log| && forall j :: 0 <= j < |s.log| ==> s.saw[j] <= j
    ensures NoneStraddles(s) <==> forall j :: 0 <= j < |s.log| ==> s.saw[j] == j
  {
    if NoneStraddles(s) {
      forall j | 0 <= j < |s.log|
        ensures s.saw[j] == j
      {
        assert s.saw[j] < j ==> Straddles(s, s.saw[j], j);
      }
    }
  }

  lemma ChainIff(c: Codec, s: Racing)
    requires Lawful(c) && TailsDoNotDecode(c) && WellSealed(c, s)
    ensures AllButLastFit(c, s.log) && NoneStraddles(s) ==> Chain(c, s.log, GENESIS)
    ensures Chain(c, s.log, GENESIS) ==> (AllButLastFit(c, s.log) && NoneStraddles(s)) || OwnCollision(c, s.log)
  {
    hide LinkAt, FitsTail, OwnCollision, TailsDoNotDecode, Lawful, SealedAgainst, HashBefore, NoneStraddles;
    InTurnOrStraddling(s);
    if j :| 0 <= j < |s.log| && s.saw[j] != j {
      if Chain(c, s.log, GENESIS) { StraddleBreaksChain(c, s, j); }
    } else {
      forall j | 0 <= j < |s.log|
        ensures LinkAt(c, s.log, GENESIS, j) <==> j == 0 || FitsTail(c, s.log[j - 1])
      {
        RacedLinkIff(c, s, j);
      }
      if Chain(c, s.log, GENESIS) {
        forall i | 0 <= i < |s.log| - 1
          ensures FitsTail(c, s.log[i])
        {
          assert LinkAt(c, s.log, GENESIS, i + 1);
        }
      }
    }
  }

  /**
   A log written by racing appends verifies exactly when every line but the last fits the
   window and no append straddles a line, unless two events of the log itself collide.
   */
  lemma RacedVerifiesIff(c: Codec, moves: seq<Move>)
    requires Lawful(c) && TailsDoNotDecode(c) && After(c, moves).log != []
    ensures var s := After(c, moves);
            && |s.saw| == |s.log|
            && (AllButLastFit(c, s.log) && NoneStraddles(s) ==>
                  Verify(c, FileOf(c, s.log)) == Verified(HashOf(s.log[|s.log| - 1]), |s.log|))
            && (Verify(c, FileOf(c, s.log)).Verified? ==>
                  (AllButLastFit(c, s.log) && NoneStraddles(s)) || OwnCollision(c, s.log))
  {
    hide After, Verify, FileOf, HashOf, Chain, SealedAgainst, TailsDoNotDecode, OwnCollision;
    hide AllButLastFit, NoneStraddles;
    RunsAreWellSealed(c, moves);
    ChainIff(c, After(c, moves));
    WrittenVerifiesIff(c, After(c, moves).log);
  }

  lemma ForkedLog(c: Codec, p: Event, q: Event)
    ensures After(c, [ReadTailFor(0, p), ReadTailFor(1, q), WriteLine(0), WriteLine(1)]).log
         == [Seal(c, p, GENESIS), Seal(c, q, GENESIS)]
  {
    assert ReadTail(c, FileOf(c, [])) == GENESIS && After(c, []) == Racing([], [], map[]);
    hide ReadTail, FileOf, Seal, After;
    var both := [ReadTailFor(0, p), ReadTailFor(1, q)];
    AfterStep(c, [], both[0]);
    AfterStep(c, [both[0]], both[1]);
    AfterStep(c, both, WriteLine(0));
    AfterStep(c, both + [WriteLine(0)], WriteLine(1));
    assert [] + [both[0]] == [both[0]] && [both[0]] + [both[1]] == both;
    assert both + [WriteLine(0)] + [WriteLine(1)]
        == [ReadTailFor(0, p), ReadTailFor(1, q), WriteLine(0), WriteLine(1)];
  }

  /** Two appends that read before either writes: the log they leave does not verify. */
  lemma ForkedAppends(c: Codec, p: Event, q: Event)
    requires Lawful(c)
    ensures var s := After(c, [ReadTailFor(0, p), ReadTailFor(1, q), WriteLine(0), WriteLine(1)]);
            |s.log| == 2 && !Verify(c, FileOf(c, s.log)).Verified?
  {
    var a, b := Seal(c, p, GENESIS), Seal(c, q, GENESIS);
    ForkedLog(c, p, q);
    SealLinks(c, p, GENESIS);
    SealLinks(c, q, GENESIS);
    hide After, Verify, FileOf, Seal;
    WrittenVerifiesIff(c, [a, b]);
    assert !LinkAt(c, [a, b], GENESIS, 1);
  }
}
