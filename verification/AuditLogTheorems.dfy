/** Tamper evidence of verified logs, and exactly when a log built by appends verifies. */
module AuditLogTheorems {
  import opened Prelude
  import opened Text
  import opened AuditLog

  // ---------------------------------------------------------------- verified logs are chains

  /** The event on a line, when the line is a JSON object. */
  function DecodeLine(c: Codec, line: string): Option<Event> {
    match c.decode(Trim(line)) case Object(e) => Some(e) case _ => None
  }

  /** The events a scan reads: every non-blank line, decoded. */
  function EventsIn(c: Codec, lines: seq<string>): seq<Event> {
    if lines == [] then []
    else if Trim(lines[0]) == "" || DecodeLine(c, lines[0]).None? then EventsIn(c, lines[1..])
    else [DecodeLine(c, lines[0]).value] + EventsIn(c, lines[1..])
  }

  ghost predicate AllDecode(c: Codec, lines: seq<string>) {
    forall i :: 0 <= i < |lines| && Trim(lines[i]) != "" ==> DecodeLine(c, lines[i]).Some?
  }

  function HashOf(e: Event): string { if "event_hash" in e then e["event_hash"] else "" }

  /** The hash the i-th event must link to; for `i == |es|`, the head of the chain. */
  function HashBefore(es: seq<Event>, i: nat, start: string): string
    requires i <= |es|
  {
    if i == 0 then start else HashOf(es[i - 1])
  }

  predicate Linked(c: Codec, e: Event, prev: string) {
    "prev_hash" in e && "event_hash" in e && e["prev_hash"] == prev && e["event_hash"] == ComputeHash(c, e)
  }

  predicate LinkAt(c: Codec, es: seq<Event>, start: string, i: nat)
    requires i < |es|
  {
    Linked(c, es[i], HashBefore(es, i, start))
  }

  ghost predicate Chain(c: Codec, es: seq<Event>, start: string) {
    forall i :: 0 <= i < |es| ==> LinkAt(c, es, start, i)
  }

  lemma LinkShift(c: Codec, e: Event, es: seq<Event>, start: string, i: nat)
    requires "event_hash" in e && i < |es|
    ensures LinkAt(c, [e] + es, start, i + 1) <==> LinkAt(c, es, e["event_hash"], i)
  {
  }

  lemma ChainTail(c: Codec, e: Event, es: seq<Event>, start: string)
    requires "event_hash" in e
    ensures Chain(c, [e] + es, start) <==> Linked(c, e, start) && Chain(c, es, e["event_hash"])
  {
    var all := [e] + es;
    assert LinkAt(c, all, start, 0) <==> Linked(c, e, start);
    forall i | 0 <= i < |es| ensures LinkAt(c, all, start, i + 1) <==> LinkAt(c, es, e["event_hash"], i) {
      LinkShift(c, e, es, start, i);
    }
    if Linked(c, e, start) && Chain(c, es, e["event_hash"]) {
      forall i | 0 <= i < |all| ensures LinkAt(c, all, start, i) {
        if i > 0 {
          assert LinkAt(c, es, e["event_hash"], i - 1);
        }
      }
    }
    if Chain(c, all, start) {
      forall i | 0 <= i < |es| ensures LinkAt(c, es, e["event_hash"], i) {
        assert LinkAt(c, all, start, i + 1);
      }
    }
  }

  lemma ChainFront(c: Codec, es: seq<Event>, start: string)
    requires Chain(c, es, start) && es != []
    ensures Chain(c, es[..|es| - 1], start) && LinkAt(c, es, start, |es| - 1)
    ensures HashBefore(es[..|es| - 1], |es| - 1, start) == HashBefore(es, |es| - 1, start)
  {
    var front := es[..|es| - 1];
    forall i | 0 <= i < |front| ensures LinkAt(c, front, start, i) {
      assert LinkAt(c, es, start, i);
    }
  }

  /** A scan verifies exactly the chains, and reports their head and length. */
  lemma {:induction false} ScanVerifiesIff(c: Codec, lines: seq<string>, prev: string, count: nat)
    ensures Scan(c, lines, prev, count).Verified? <==> AllDecode(c, lines) && Chain(c, EventsIn(c, lines), prev)
    ensures var es := EventsIn(c, lines);
            Scan(c, lines, prev, count).Verified? ==>
                Scan(c, lines, prev, count) == Verified(HashBefore(es, |es|, prev), count + |es|)
  {
    if lines != [] {
      var rest := lines[1..];
      assert AllDecode(c, lines) <==>
             AllDecode(c, rest) && (Trim(lines[0]) != "" ==> DecodeLine(c, lines[0]).Some?) by {
        assert forall i :: 0 < i < |lines| ==> lines[i] == rest[i - 1];
      }
      if Trim(lines[0]) == "" {
        ScanVerifiesIff(c, rest, prev, count);
      } else if DecodeLine(c, lines[0]).Some? {
        var e := DecodeLine(c, lines[0]).value;
        if "event_hash" in e {
          ScanVerifiesIff(c, rest, e["event_hash"], count + 1);
          ChainTail(c, e, EventsIn(c, rest), prev);
        } else {
          assert !LinkAt(c, EventsIn(c, lines), prev, 0);
        }
      }
    }
  }

  // ---------------------------------------------------------------- tamper evidence

  /** Two events whose texts, less their own hashes, differ and yet have the same SHA. */
  predicate Collide(c: Codec, a: Event, b: Event) {
    var x, y := c.encode(a - {"event_hash"}), c.encode(b - {"event_hash"});
    x != y && c.sha(x) == c.sha(y)
  }

  predicate HashesToGenesis(c: Codec, e: Event) { c.sha(c.encode(e - {"event_hash"})) == GENESIS }

  /** The two chains themselves exhibit a collision, or an event that hashes to the word for the empty chain. */
  ghost predicate Forged(c: Codec, as_: seq<Event>, bs: seq<Event>) {
    || (exists i, j :: 0 <= i < |as_| && 0 <= j < |bs| && Collide(c, as_[i], bs[j]))
    || (exists i :: 0 <= i < |as_| && HashesToGenesis(c, as_[i]))
    || (exists j :: 0 <= j < |bs| && HashesToGenesis(c, bs[j]))
  }

  lemma SameHashSameEvent(c: Codec, a: Event, b: Event)
    requires RoundTrips(c)
    requires "event_hash" in a && "event_hash" in b && a["event_hash"] == b["event_hash"]
    requires a["event_hash"] == c.sha(c.encode(a - {"event_hash"}))
    requires b["event_hash"] == c.sha(c.encode(b - {"event_hash"}))
    ensures a == b || Collide(c, a, b)
  {
    var x, y := a - {"event_hash"}, b - {"event_hash"};
    if c.encode(x) == c.encode(y) {
      assert c.decode(c.encode(x)) == Object(x) && c.decode(c.encode(y)) == Object(y);
      assert x == y;
      forall k ensures k in a <==> k in b {
        assert k != "event_hash" ==> (k in a <==> k in x) && (k in b <==> k in y);
      }
      forall k | k in a ensures a[k] == b[k] {
        assert k != "event_hash" ==> x[k] == a[k] && y[k] == b[k];
      }
    }
  }

  lemma ForgedPrefix(c: Codec, as_: seq<Event>, bs: seq<Event>, n: nat, m: nat)
    requires n <= |as_| && m <= |bs| && Forged(c, as_[..n], bs[..m])
    ensures Forged(c, as_, bs)
  {
    hide HashesToGenesis, Collide;
    var front, back := as_[..n], bs[..m];
    if i, j :| 0 <= i < n && 0 <= j < m && Collide(c, front[i], back[j]) {
      assert Collide(c, as_[i], bs[j]);
    } else if i :| 0 <= i < n && HashesToGenesis(c, front[i]) {
      assert HashesToGenesis(c, as_[i]);
    } else {
      var j :| 0 <= j < m && HashesToGenesis(c, back[j]);
      assert HashesToGenesis(c, bs[j]);
    }
  }

  lemma {:induction false} SameHeadSameChain(c: Codec, as_: seq<Event>, bs: seq<Event>)
    requires RoundTrips(c)
    requires Chain(c, as_, GENESIS) && Chain(c, bs, GENESIS)
    requires HashBefore(as_, |as_|, GENESIS) == HashBefore(bs, |bs|, GENESIS)
    ensures as_ == bs || Forged(c, as_, bs)
  {
    hide Chain;
    var n, m := |as_| - 1, |bs| - 1;
    if as_ != [] { ChainFront(c, as_, GENESIS); }
    if bs != [] { ChainFront(c, bs, GENESIS); }
    if as_ != [] && bs != [] {
      SameHashSameEvent(c, as_[n], bs[m]);
      if as_[n] == bs[m] {
        SameHeadSameChain(c, as_[..n], bs[..m]);
        if as_[..n] == bs[..m] {
          assert as_ == as_[..n] + [as_[n]] && bs == bs[..m] + [bs[m]];
        } else {
          ForgedPrefix(c, as_, bs, n, m);
        }
      }
    } else if as_ != [] {
      assert HashesToGenesis(c, as_[n]);
    } else if bs != [] {
      assert HashesToGenesis(c, bs[m]);
    }
  }

  /**
   Whatever is changed in one event of a verified log, short of its own hash, and whatever
   else is changed besides: the log no longer verifies, or the change is a SHA collision.
   */
  lemma TamperingShows(c: Codec, fileA: Option<string>, fileB: Option<string>, i: nat)
    requires RoundTrips(c) && fileA.Some? && fileB.Some? && Verify(c, fileA).Verified?
    requires var as_, bs := EventsIn(c, Lines(fileA.value)), EventsIn(c, Lines(fileB.value));
             && i < |as_| && i < |bs| && as_[i] != bs[i]
             && "event_hash" in as_[i] && "event_hash" in bs[i] && as_[i]["event_hash"] == bs[i]["event_hash"]
    ensures var as_, bs := EventsIn(c, Lines(fileA.value)), EventsIn(c, Lines(fileB.value));
            !Verify(c, fileB).Verified? || Collide(c, as_[i], bs[i])
  {
    var linesA, linesB := Lines(fileA.value), Lines(fileB.value);
    var as_, bs := EventsIn(c, linesA), EventsIn(c, linesB);
    ScanVerifiesIff(c, linesA, GENESIS, 0);
    ScanVerifiesIff(c, linesB, GENESIS, 0);
    hide Scan, EventsIn, AllDecode, Lines;
    if Verify(c, fileB).Verified? {
      assert LinkAt(c, as_, GENESIS, i) && LinkAt(c, bs, GENESIS, i);
      SameHashSameEvent(c, as_[i], bs[i]);
    }
  }

  /** For one: rewriting, adding or dropping a field other than the hash. */
  lemma RewrittenFieldShows(c: Codec, fileA: Option<string>, fileB: Option<string>, i: nat, key: string, value: string)
    requires RoundTrips(c) && fileA.Some? && fileB.Some? && Verify(c, fileA).Verified? && key != "event_hash"
    requires var as_ := EventsIn(c, Lines(fileA.value));
             && i < |as_| && (key !in as_[i] || as_[i][key] != value)
             && EventsIn(c, Lines(fileB.value)) == as_[i := as_[i][key := value]]
    ensures var e := EventsIn(c, Lines(fileA.value))[i];
            !Verify(c, fileB).Verified? || Collide(c, e, e[key := value])
  {
    var as_ := EventsIn(c, Lines(fileA.value));
    ScanVerifiesIff(c, Lines(fileA.value), GENESIS, 0);
    hide Scan, EventsIn, AllDecode, Lines;
    assert LinkAt(c, as_, GENESIS, i);
    assert as_[i][key := value] != as_[i] by { assert key in as_[i][key := value]; }
    TamperingShows(c, fileA, fileB, i);
  }

  // ---------------------------------------------------------------- what each verdict says

  /** What is wrong with a line, when the hash before it is `prev`. */
  predicate Faulty(c: Codec, line: string, prev: string, v: Verdict) {
    match c.decode(line)
    case NotJson => v.Broken? && v.why == InvalidJson
    case NotObject(raises) => if raises then v.Raised? else v.Broken? && v.why == MissingHashFields
    case Object(e) =>
      && v.Broken?
      && (v.why == MissingHashFields <==> "prev_hash" !in e || "event_hash" !in e)
      && (v.why != MissingHashFields ==>
            && (v.why == PrevHashMismatch <==> e["prev_hash"] != prev)
            && (v.why == EventHashMismatch <==>
                  e["prev_hash"] == prev && e["event_hash"] != c.sha(c.encode(e - {"event_hash"})))
            && v.why in {PrevHashMismatch, EventHashMismatch})
  }

  /** The scan stops at the line `i`: before it everything is chained, and it is counted. */
  ghost predicate StopsAt(c: Codec, lines: seq<string>, prev: string, count: nat, i: nat, v: Verdict)
    requires i < |lines|
  {
    var before := EventsIn(c, lines[..i]);
    && AllDecode(c, lines[..i]) && Chain(c, before, prev)
    && Trim(lines[i]) != "" && !v.Verified? && v.count == count + |before|
    && Faulty(c, Trim(lines[i]), HashBefore(before, |before|, prev), v)
  }

  /** A scan that does not verify stops at the first faulty line, and says what is wrong with it. */
  lemma {:induction false} ScanStops(c: Codec, lines: seq<string>, prev: string, count: nat) returns (i: nat)
    requires !Scan(c, lines, prev, count).Verified?
    ensures i < |lines| && StopsAt(c, lines, prev, count, i, Scan(c, lines, prev, count))
  {
    var v := Scan(c, lines, prev, count);
    var line, rest := Trim(lines[0]), lines[1..];
    if line == "" {
      i := ScanStops(c, rest, prev, count);
      StopsLater(c, lines, prev, count, i, v, prev, count);
      i := i + 1;
    } else if DecodeLine(c, lines[0]).Some? && Linked(c, DecodeLine(c, lines[0]).value, prev) {
      var e := DecodeLine(c, lines[0]).value;
      i := ScanStops(c, rest, e["event_hash"], count + 1);
      StopsLater(c, lines, prev, count, i, v, e["event_hash"], count + 1);
      i := i + 1;
    } else {
      i := 0;
      assert lines[..0] == [];
    }
  }

  /** A line that is blank or linked moves the stop one line further. */
  lemma StopsLater(c: Codec, lines: seq<string>, prev: string, count: nat, i: nat, v: Verdict, next: string, n: nat)
    requires i + 1 < |lines| && StopsAt(c, lines[1..], next, n, i, v)
    requires if Trim(lines[0]) == "" then next == prev && n == count
             else DecodeLine(c, lines[0]).Some? && Linked(c, DecodeLine(c, lines[0]).value, prev)
                  && next == HashOf(DecodeLine(c, lines[0]).value) && n == count + 1
    ensures StopsAt(c, lines, prev, count, i + 1, v)
  {
    var front := lines[..i + 1];
    assert front[1..] == lines[1..][..i] && front[0] == lines[0];
    assert forall j :: 0 < j < |front| ==> front[j] == front[1..][j - 1];
    hide Faulty, Linked;
    if Trim(lines[0]) != "" {
      var e, es := DecodeLine(c, lines[0]).value, EventsIn(c, front[1..]);
      HashIsNamed(c, e, prev);
      ChainTail(c, e, es, prev);
      assert EventsIn(c, front) == [e] + es;
      assert HashBefore([e] + es, |[e] + es|, prev) == HashBefore(es, |es|, next);
    }
  }

  lemma HashIsNamed(c: Codec, e: Event, prev: string)
    requires Linked(c, e, prev)
    ensures "event_hash" in e && HashOf(e) == e["event_hash"]
  {
  }

  /**
   Two logs that both verify with the same head hold the same events in the same order, or
   else two of their own events collide, or one of them hashes to the word GENESIS.
   */
  lemma SameHeadSameLog(c: Codec, fileA: Option<string>, fileB: Option<string>)
    requires RoundTrips(c)
    requires Verify(c, fileA).Verified? && Verify(c, fileB).Verified?
    requires Verify(c, fileA).head == Verify(c, fileB).head
    ensures var as_, bs := EventsIn(c, Lines(fileA.value)), EventsIn(c, Lines(fileB.value));
            Forged(c, as_, bs) || (as_ == bs && Verify(c, fileA) == Verify(c, fileB))
  {
    ScanVerifiesIff(c, Lines(fileA.value), GENESIS, 0);
    ScanVerifiesIff(c, Lines(fileB.value), GENESIS, 0);
    SameHeadSameChain(c, EventsIn(c, Lines(fileA.value)), EventsIn(c, Lines(fileB.value)));
  }

  // ---------------------------------------------------------------- text of an appended log

  /** The file after appending the events, one per line. */
  function Render(c: Codec, es: seq<Event>): string {
    if es == [] then "" else Render(c, es[..|es| - 1]) + c.encode(es[|es| - 1]) + "\n"
  }

  lemma LinesStep(ch: char, s: string)
    ensures IsBreak(ch) ==> Lines([ch] + s) == [""] + Lines(s)
    ensures !IsBreak(ch) ==> Lines([ch] + s) == [[ch] + Lines(s)[0]] + Lines(s)[1..]
  {
    assert ([ch] + s)[1..] == s;
  }

  /** The lines of a text are what stands between its line feeds and carriage returns. */
  lemma {:induction false} LinesHoldNoBreaks(s: string)
    ensures forall line :: line in Lines(s) ==> '\n' !in line && '\r' !in line
    ensures '\n' !in s && '\r' !in s ==> Lines(s) == [s]
  {
    if s != "" {
      LinesHoldNoBreaks(s[1..]);
      assert s == [s[0]] + s[1..];
      assert Lines(s[1..])[0] in Lines(s[1..]);
    }
  }

  lemma {:induction false} LinesConcat(a: string, b: string)
    ensures Lines(a + "\n" + b) == Lines(a) + Lines(b)
  {
    hide Lines;
    if a == "" {
      assert Lines("") == [""] by { LinesOfEmpty(); }
      LinesStep('\n', b);
      assert a + "\n" + b == ['\n'] + b;
    } else {
      var rest := a[1..] + "\n" + b;
      assert a + "\n" + b == [a[0]] + rest && a == [a[0]] + a[1..];
      LinesConcat(a[1..], b);
      LinesStep(a[0], rest);
      LinesStep(a[0], a[1..]);
      var pieces := Lines(a[1..]);
      assert (pieces + Lines(b))[0] == pieces[0] && (pieces + Lines(b))[1..] == pieces[1..] + Lines(b);
    }
  }

  lemma {:induction false} LinesOfOne(a: string)
    requires forall i :: 0 <= i < |a| ==> !IsBreak(a[i])
    ensures Lines(a) == [a]
  {
    if a != "" {
      LinesOfOne(a[1..]);
      assert [a[0]] + a[1..] == a;
    }
  }

  function Encoded(c: Codec, es: seq<Event>): seq<string> {
    seq(|es|, i requires 0 <= i < |es| => c.encode(es[i]))
  }

  /** Writing one more line onto a text that ends its last line adds one piece. */
  lemma {:induction false} LinesAppendLine(t: string, xs: seq<string>, line: string)
    requires Lines(t) == xs + [""] && forall i :: 0 <= i < |line| ==> !IsBreak(line[i])
    ensures Lines(t + line + "\n") == xs + [line] + [""]
  {
    hide Lines, IsBreak;
    LinesOfEmpty();
    if t == "" {
      assert |xs + [""]| == 1 && xs == [];
      LinesOfOne(line);
      LinesConcat(line, "");
      assert t + line + "\n" == line + "\n" + "";
    } else {
      var rest, pieces := t[1..] + line + "\n", Lines(t[1..]);
      assert t == [t[0]] + t[1..] && t + line + "\n" == [t[0]] + rest;
      LinesStep(t[0], t[1..]);
      LinesStep(t[0], rest);
      assert |Lines(t)| == |xs| + 1 && Lines(t)[|xs|] == "";
      assert xs != [] by { assert IsBreak(t[0]) || Lines(t)[0] != ""; }
      assert (xs + [""])[0] == xs[0] && (xs + [""])[1..] == xs[1..] + [""];
      var ys := if IsBreak(t[0]) then xs[1..] else [pieces[0]] + xs[1..];
      assert pieces == ys + [""];
      LinesAppendLine(t[1..], ys, line);
      var longer := ys + [line] + [""];
      assert !IsBreak(t[0]) ==> longer[0] == pieces[0] && longer[1..] == xs[1..] + [line] + [""];
      assert xs == [xs[0]] + xs[1..];
    }
  }

  lemma {:induction false} LinesOfRender(c: Codec, es: seq<Event>)
    requires WritesCleanLines(c)
    ensures Lines(Render(c, es)) == Encoded(c, es) + [""]
  {
    if es != [] {
      var pre, e := es[..|es| - 1], es[|es| - 1];
      LinesOfRender(c, pre);
      assert CleanLine(c.encode(e));
      LinesAppendLine(Render(c, pre), Encoded(c, pre), c.encode(e));
      assert Encoded(c, es) == Encoded(c, pre) + [c.encode(e)];
    }
  }

  lemma RenderEndsWithBreak(c: Codec, es: seq<Event>)
    requires es != []
    ensures Render(c, es) != "" && Render(c, es)[|Render(c, es)| - 1] == '\n'
  {
  }

  // ---------------------------------------------------------------- the bounded tail read

  predicate FitsTail(c: Codec, e: Event) { |c.encode(e)| + 1 <= 16384 }

  /** A line that the search for the last hash passes over. */
  predicate PassedOver(c: Codec, line: string) {
    line == "" || c.decode(line).NotJson?
    || (c.decode(line).Object? && var e := c.decode(line).event; "event_hash" !in e || e["event_hash"] == "")
  }

  /** The search goes back to the last line it does not pass over, and takes what that line has to say. */
  lemma {:induction false} LastHashIs(c: Codec, lines: seq<string>, i: nat)
    requires i < |lines| && !PassedOver(c, lines[i]) && forall j :: i < j < |lines| ==> PassedOver(c, lines[j])
    ensures LastHash(c, lines)
         == match c.decode(lines[i]) { case Object(e) => e["event_hash"] case _ => "GENESIS" }
  {
    if i < |lines| - 1 {
      LastHashIs(c, lines[..|lines| - 1], i);
    }
  }

  lemma {:induction false} NoHashNamed(c: Codec, lines: seq<string>)
    requires forall j :: 0 <= j < |lines| ==> PassedOver(c, lines[j])
    ensures LastHash(c, lines) == "GENESIS"
  {
    if lines != [] {
      NoHashNamed(c, lines[..|lines| - 1]);
    }
  }

  lemma LastHashSkipsBlank(c: Codec, lines: seq<string>)
    ensures LastHash(c, lines + [""]) == LastHash(c, lines)
  {
    assert (lines + [""])[..|lines|] == lines;
  }

  lemma LastHashAtEnd(c: Codec, lines: seq<string>, e: Event)
    requires RoundTrips(c) && WritesCleanLines(c) && HashOf(e) != ""
    ensures LastHash(c, lines + [c.encode(e)]) == HashOf(e)
  {
    assert CleanLine(c.encode(e)) && c.decode(c.encode(e)) == Object(e);
  }

  /** The pieces of a window that ends with a whole line: whatever stands before it, then the line. */
  lemma LinesOfWindow(window: string, line: string) returns (before: seq<string>)
    requires window == "" || window[|window| - 1] == '\n'
    requires forall i :: 0 <= i < |line| ==> !IsBreak(line[i])
    ensures Lines(window + (line + "\n")) == before + [line] + [""]
  {
    hide Lines, IsBreak;
    LinesOfOne(line);
    LinesConcat(line, "");
    LinesOfEmpty();
    assert line + "\n" + "" == line + "\n";
    if window == "" {
      before := [];
      assert window + (line + "\n") == line + "\n" && [] + [line] == [line];
    } else {
      var body := window[..|window| - 1];
      before := Lines(body);
      assert window + (line + "\n") == body + "\n" + (line + "\n");
      LinesConcat(body, line + "\n");
      assert before + [line] + [""] == before + ([line] + [""]);
    }
  }

  lemma DropFromConcat(a: string, b: string, k: nat)
    requires k <= |a|
    ensures (a + b)[k..] == a[k..] + b
  {
  }

  /** What the window holds when the last line fits in it. */
  lemma WindowOf(c: Codec, es: seq<Event>) returns (window: string)
    requires es != [] && FitsTail(c, es[|es| - 1])
    ensures Tail(Render(c, es)) == window + (c.encode(es[|es| - 1]) + "\n")
    ensures window == "" || window[|window| - 1] == '\n'
  {
    var pre, line, content := Render(c, es[..|es| - 1]), c.encode(es[|es| - 1]), Render(c, es);
    assert content == pre + line + "\n";
    if pre != "" { RenderEndsWithBreak(c, es[..|es| - 1]); }
    hide Render;
    var k := |content| - MinInt(|content|, TAIL_BYTES);
    window := pre[k..];
    assert content == pre + (line + "\n");
    DropFromConcat(pre, line + "\n", k);
    assert window != "" ==> window[|window| - 1] == pre[|pre| - 1];
  }

  /** When the last line fits, the bounded read finds exactly its hash, wherever the window starts. */
  lemma TailReadFits(c: Codec, es: seq<Event>)
    requires RoundTrips(c) && WritesCleanLines(c)
    requires es != [] && FitsTail(c, es[|es| - 1]) && HashOf(es[|es| - 1]) != ""
    ensures LastHash(c, Lines(Tail(Render(c, es)))) == HashOf(es[|es| - 1])
  {
    hide Lines, Render, LastHash, Tail;
    var e := es[|es| - 1];
    var window := WindowOf(c, es);
    assert CleanLine(c.encode(e));
    var before := LinesOfWindow(window, c.encode(e));
    LastHashAtEnd(c, before, e);
    LastHashSkipsBlank(c, before + [c.encode(e)]);
  }

  /** When it does not fit, the window holds only a tail of that line and the read starts over. */
  lemma TailReadOverflows(c: Codec, es: seq<Event>)
    requires WritesCleanLines(c) && TailsDoNotDecode(c)
    requires es != [] && !FitsTail(c, es[|es| - 1])
    ensures LastHash(c, Lines(Tail(Render(c, es)))) == GENESIS
  {
    var pre, line := Render(c, es[..|es| - 1]), c.encode(es[|es| - 1]);
    var content := Render(c, es);
    assert content == pre + line + "\n";
    var k := |line| + 1 - TAIL_BYTES;
    var part := line[k..];
    assert Tail(content) == part + "\n" + "";
    LinesOfOne(part) by { assert CleanLine(line); }
    LinesConcat(part, "");
    assert c.decode(part) == NotJson;
    LastHashSkipsBlank(c, [part]);
    assert [part][..0] == [];
  }

  // ---------------------------------------------------------------- logs built by appends

  /** The file and its events after appending the payloads, in order, to a missing file. */
  function Appended(c: Codec, payloads: seq<Event>): (es: seq<Event>)
    ensures |es| == |payloads|
  {
    if payloads == [] then []
    else
      var before := Appended(c, payloads[..|payloads| - 1]);
      before + [Seal(c, payloads[|payloads| - 1], ReadTail(c, FileOf(c, before)))]
  }

  function FileOf(c: Codec, es: seq<Event>): Option<string> { if es == [] then None else Some(Render(c, es)) }

  /** `Appended` is what repeated `AppendEvent` calls leave in the file. */
  lemma AppendedFile(c: Codec, payloads: seq<Event>, payload: Event)
    ensures var es := Appended(c, payloads);
            var sealed := Seal(c, payload, ReadTail(c, FileOf(c, es)));
            && Appended(c, payloads + [payload]) == es + [sealed]
            && FileOf(c, es + [sealed])
               == Some((if FileOf(c, es).Some? then FileOf(c, es).value else "") + c.encode(sealed) + "\n")
  {
    assert (payloads + [payload])[..|payloads|] == payloads;
    var es := Appended(c, payloads);
    var sealed := Seal(c, payload, ReadTail(c, FileOf(c, es)));
    assert (es + [sealed])[..|es|] == es;
  }

  lemma SealLinks(c: Codec, e: Event, prev: string)
    ensures Linked(c, Seal(c, e, prev), prev)
  {
    var linked := e["prev_hash" := prev];
    assert Seal(c, e, prev) - {"event_hash"} == linked - {"event_hash"};
  }

  /** What the line of an append holds: the caller's fields, the defaults of those it lacks, and the two hashes. */
  lemma SealedHolds(c: Codec, event: Event, s: Stamp, prev: string)
    ensures var sealed := Seal(c, Stamped(event, s), prev);
            && sealed.Keys == event.Keys + {"ts_epoch", "ts_ist", "desk_id", "prev_hash", "event_hash"}
            && (forall k :: k in event && k != "prev_hash" && k != "event_hash" ==> sealed[k] == event[k])
            && ("ts_epoch" !in event ==> sealed["ts_epoch"] == s.tsEpoch)
            && ("ts_ist" !in event ==> sealed["ts_ist"] == s.tsIst)
            && ("desk_id" !in event ==> sealed["desk_id"] == s.deskId)
            && sealed["prev_hash"] == prev
            && sealed["event_hash"] == c.sha(c.encode(sealed - {"event_hash"}))
  {
    SealLinks(c, Stamped(event, s), prev);
  }

  lemma {:induction false} AppendedLinks(c: Codec, payloads: seq<Event>, i: nat)
    requires i < |payloads|
    ensures var es := Appended(c, payloads);
            Linked(c, es[i], ReadTail(c, FileOf(c, es[..i])))
  {
    var n := |payloads| - 1;
    var es := Appended(c, payloads);
    assert es[..n] == Appended(c, payloads[..n]);
    if i == n {
      SealLinks(c, payloads[n], ReadTail(c, FileOf(c, es[..n])));
    } else {
      AppendedLinks(c, payloads[..n], i);
      assert es[..n][..i] == es[..i];
    }
  }

  lemma {:induction false} EventsOfEncoded(c: Codec, es: seq<Event>)
    requires RoundTrips(c) && WritesCleanLines(c)
    ensures EventsIn(c, Encoded(c, es) + [""]) == es && AllDecode(c, Encoded(c, es) + [""])
  {
    var lines := Encoded(c, es) + [""];
    if es != [] {
      assert lines[1..] == Encoded(c, es[1..]) + [""];
      EventsOfEncoded(c, es[1..]);
      TrimClean(c, es[0]);
      forall i | 0 <= i < |lines| && Trim(lines[i]) != "" ensures DecodeLine(c, lines[i]).Some? {
        if i > 0 {
          assert lines[i] == lines[1..][i - 1];
        }
      }
    }
  }

  lemma TrimClean(c: Codec, e: Event)
    requires RoundTrips(c) && WritesCleanLines(c)
    ensures Trim(c.encode(e)) == c.encode(e) != "" && DecodeLine(c, c.encode(e)) == Some(e)
  {
    assert CleanLine(c.encode(e));
  }

  /** Every line but the last leaves room for the tail read of the next append. */
  ghost predicate AllButLastFit(c: Codec, es: seq<Event>) {
    forall i :: 0 <= i < |es| - 1 ==> FitsTail(c, es[i])
  }

  /** What the next append reads from a log whose last line names its hash. */
  lemma TailReadIs(c: Codec, es: seq<Event>)
    requires Lawful(c) && TailsDoNotDecode(c)
    requires es != [] ==> HashOf(es[|es| - 1]) != ""
    ensures ReadTail(c, FileOf(c, es))
         == if es == [] || !FitsTail(c, es[|es| - 1]) then GENESIS else HashOf(es[|es| - 1])
  {
    hide Lines, Render, LastHash, Tail;
    if es != [] {
      if FitsTail(c, es[|es| - 1]) {
        TailReadFits(c, es);
      } else {
        TailReadOverflows(c, es);
      }
    }
  }

  /** An appended event links to its predecessor exactly when that one fitted the tail window. */
  lemma AppendedLinkIff(c: Codec, payloads: seq<Event>, i: nat)
    requires Lawful(c) && TailsDoNotDecode(c) && i < |payloads|
    ensures LinkAt(c, Appended(c, payloads), GENESIS, i) <==> i == 0 || FitsTail(c, Appended(c, payloads)[i - 1])
  {
    var es := Appended(c, payloads);
    AppendedLinks(c, payloads, i);
    if i > 0 {
      AppendedLinks(c, payloads, i - 1);
      assert es[..i][i - 1] == es[i - 1];
    }
    hide Appended, FileOf, FitsTail, ReadTail;
    TailReadIs(c, es[..i]);
  }

  /** A written log verifies exactly when its events form a chain. */
  lemma WrittenVerifiesIff(c: Codec, es: seq<Event>)
    requires RoundTrips(c) && WritesCleanLines(c) && es != []
    ensures Verify(c, FileOf(c, es)).Verified? <==> Chain(c, es, GENESIS)
    ensures Chain(c, es, GENESIS) ==> Verify(c, FileOf(c, es)) == Verified(HashOf(es[|es| - 1]), |es|)
  {
    LinesOfRender(c, es);
    EventsOfEncoded(c, es);
    hide Lines, Render, Scan, EventsIn, AllDecode, Encoded, Chain;
    ScanVerifiesIff(c, Lines(Render(c, es)), GENESIS, 0);
  }

  /**
   A log written by appends alone verifies exactly when every line but the last is, with
   its newline, at most 16384 bytes; it then reports the number of appends and the last
   hash returned.
   */
  lemma AppendedVerifiesIff(c: Codec, payloads: seq<Event>)
    requires Lawful(c) && TailsDoNotDecode(c) && payloads != []
    ensures var es := Appended(c, payloads);
            && (Verify(c, FileOf(c, es)).Verified? <==> AllButLastFit(c, es))
            && (AllButLastFit(c, es) ==> Verify(c, FileOf(c, es)) == Verified(HashOf(es[|es| - 1]), |payloads|))
  {
    var es := Appended(c, payloads);
    hide Verify, FileOf, Appended, FitsTail, LinkAt, HashOf, TailsDoNotDecode;
    WrittenVerifiesIff(c, es);
    hide Lawful;
    if AllButLastFit(c, es) {
      forall i | 0 <= i < |es| ensures LinkAt(c, es, GENESIS, i) {
        AppendedLinkIff(c, payloads, i);
      }
    } else {
      var i :| 0 <= i < |es| - 1 && !FitsTail(c, es[i]);
      AppendedLinkIff(c, payloads, i + 1);
    }
  }

  /** The text of an object is at least as long as each of its values. */
  ghost predicate KeepsValues(c: Codec) { forall e: Event, k: string :: k in e ==> |c.encode(e)| >= |e[k]| }

  function LongNote(): (s: string)
    ensures |s| == TAIL_BYTES
  {
    seq(TAIL_BYTES, i => 'x')
  }

  /** One note of 16384 characters, and the next append starts a new chain: the log no longer verifies. */
  lemma OverlongNoteBreaksTheLog(c: Codec)
    requires Lawful(c) && TailsDoNotDecode(c) && KeepsValues(c)
    ensures !Verify(c, FileOf(c, Appended(c, [map["note" := LongNote()], map[]]))).Verified?
  {
    var first: Event := map["note" := LongNote()];
    var payloads := [first, map[]];
    var es := Appended(c, payloads);
    assert payloads[..1] == [first] && [first][..0] == [];
    assert es[0] == Appended(c, [first])[0];
    SealKeepsNote(c, first, ReadTail(c, FileOf(c, [])));
    hide Verify, Appended, LongNote;
    AppendedVerifiesIff(c, payloads);
    assert !FitsTail(c, es[0]);
  }

  lemma SealKeepsNote(c: Codec, e: Event, prev: string)
    requires "note" in e && KeepsValues(c)
    ensures |c.encode(Seal(c, e, prev))| >= |e["note"]|
  {
    assert Seal(c, e, prev)["note"] == e["note"];
  }
}
