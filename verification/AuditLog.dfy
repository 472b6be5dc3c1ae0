/**
 The hash-chained audit log: appended through a bounded read of its tail, checked by a
 full scan.  JSON and SHA-256 (FIPS 180-4, section 6.2) come in as a `Codec` about which
 each theorem assumes only the laws it names.
 */
module AuditLog {
  import opened Prelude
  import opened Text

  const GENESIS := "GENESIS"
  const TAIL_BYTES: nat := 16384

  // A JSON object: its top-level keys and the text of their values.
  type Event = map<string, string>

  /** What a text decodes to; looking a key up in JSON that is not an object fails or finds nothing. */
  datatype Decoded = NotJson | NotObject(lookupRaises: bool) | Object(event: Event)

  datatype Codec = Codec(encode: Event -> string, decode: string -> Decoded, sha: string -> string)

  // ---------------------------------------------------------------- text

  predicate IsBreak(ch: char) { ch == '\n' || ch == '\r' }

  /** Splitting at every line break; the empty pieces are skipped by all readers. */
  function Lines(s: string): (r: seq<string>)
    ensures r != []
  {
    if s == "" then [""]
    else if IsBreak(s[0]) then [""] + Lines(s[1..])
    else var rest := Lines(s[1..]); [[s[0]] + rest[0]] + rest[1..]
  }

  /** One line of text with nothing to trim. */
  ghost predicate CleanLine(s: string) {
    s != "" && !IsSpace(s[0]) && !IsSpace(s[|s| - 1]) && forall i :: 0 <= i < |s| ==> !IsBreak(s[i])
  }

  // ---------------------------------------------------------------- laws of the codec

  ghost predicate RoundTrips(c: Codec) { forall e: Event :: c.decode(c.encode(e)) == Object(e) }

  ghost predicate WritesCleanLines(c: Codec) { forall e: Event :: CleanLine(c.encode(e)) }

  /** A hash is never empty and never the word that stands for the empty chain. */
  ghost predicate HashesAreFresh(c: Codec) { forall s: string :: c.sha(s) != "" && c.sha(s) != GENESIS }

  /** No proper tail of an encoded object is itself an object: its closing brace has no partner. */
  ghost predicate TailsDoNotDecode(c: Codec) {
    forall e: Event, k: nat :: 0 < k < |c.encode(e)| ==> c.decode(c.encode(e)[k..]) == NotJson
  }

  ghost predicate Lawful(c: Codec) { RoundTrips(c) && WritesCleanLines(c) && HashesAreFresh(c) }

  // ---------------------------------------------------------------- hashing and reading

  function ComputeHash(c: Codec, e: Event): string { c.sha(c.encode(e - {"event_hash"})) }

  function Tail(content: string): string { content[|content| - MinInt(|content|, TAIL_BYTES)..] }

  predicate NamesHash(e: Event) { "event_hash" in e && e["event_hash"] != "" }

  /** The hash of the last line that has one; JSON that is not an object ends the search. */
  function LastHash(c: Codec, lines: seq<string>): string {
    if lines == [] then GENESIS
    else
      var line, before := lines[|lines| - 1], lines[..|lines| - 1];
      if line == "" then LastHash(c, before)
      else
        match c.decode(line)
        case NotJson => LastHash(c, before)
        case NotObject(_) => GENESIS
        case Object(e) => if NamesHash(e) then e["event_hash"] else LastHash(c, before)
  }

  lemma BlankLineHasNoHash(c: Codec, lines: seq<string>)
    requires |lines| == 1 && lines[0] == ""
    ensures LastHash(c, lines) == GENESIS
  {
    assert lines[..0] == [];
  }

  lemma TailOfEmpty(content: string)
    requires content == ""
    ensures Tail(content) == "" && Lines(Tail(content)) == [""]
  {
    hide Lines;
    assert content[0..] == "";
    LinesOfEmpty();
  }

  lemma LinesOfEmpty()
    ensures Lines("") == [""]
  {
  }

  function ReadTail(c: Codec, file: Option<string>): string {
    if file.None? then GENESIS else LastHash(c, Lines(Tail(file.value)))
  }

  datatype Failure = MissingLog | InvalidJson | MissingHashFields | PrevHashMismatch | EventHashMismatch

  datatype Verdict = Verified(head: string, count: nat) | Broken(why: Failure, count: nat) | Raised(count: nat)

  function Scan(c: Codec, lines: seq<string>, prev: string, count: nat): Verdict {
    if lines == [] then Verified(prev, count)
    else
      var line := Trim(lines[0]);
      if line == "" then Scan(c, lines[1..], prev, count)
      else
        match c.decode(line)
        case NotJson => Broken(InvalidJson, count)
        case NotObject(raises) => if raises then Raised(count) else Broken(MissingHashFields, count)
        case Object(e) =>
          if "prev_hash" !in e || "event_hash" !in e then Broken(MissingHashFields, count)
          else if e["prev_hash"] != prev then Broken(PrevHashMismatch, count)
          else if ComputeHash(c, e) != e["event_hash"] then Broken(EventHashMismatch, count)
          else Scan(c, lines[1..], e["event_hash"], count + 1)
  }

  function Verify(c: Codec, file: Option<string>): Verdict {
    if file.None? then Broken(MissingLog, 0) else Scan(c, Lines(file.value), GENESIS, 0)
  }

  function SetDefault(e: Event, key: string, value: string): Event { if key in e then e else e[key := value] }

  /** The event as written: linked to the previous hash and stamped with its own. */
  function Seal(c: Codec, e: Event, prev: string): Event {
    var linked := e["prev_hash" := prev];
    linked["event_hash" := ComputeHash(c, linked)]
  }

  datatype Stamp = Stamp(tsEpoch: string, tsIst: string, deskId: string)

  function Stamped(e: Event, s: Stamp): Event {
    SetDefault(SetDefault(SetDefault(e, "ts_epoch", s.tsEpoch), "ts_ist", s.tsIst), "desk_id", s.deskId)
  }

  class Log {
    var file: Option<string>

    constructor ()
      ensures file == None
    {
      file := None;
    }

    method ReadLastHash(c: Codec) returns (hash: string)
      ensures hash == ReadTail(c, file)
    {
      if file.None? { return GENESIS; }
      hide Lines, Tail, LastHash;
      if |file.value| == 0 {
        TailOfEmpty(file.value);
        BlankLineHasNoHash(c, Lines(Tail(file.value)));
        return GENESIS;
      }
      var lines := Lines(Tail(file.value));
      hash := SearchBackwards(c, lines);
    }

    method SearchBackwards(c: Codec, lines: seq<string>) returns (hash: string)
      ensures hash == LastHash(c, lines)
    {
      var i := |lines|;
      assert lines[..i] == lines;
      while i > 0
        invariant 0 <= i <= |lines|
        invariant LastHash(c, lines) == LastHash(c, lines[..i])
      {
        i := i - 1;
        assert lines[..i + 1][..i] == lines[..i];
        if lines[i] != "" {
          var decoded := c.decode(lines[i]);
          if decoded.NotObject? { return GENESIS; }
          if decoded.Object? && "event_hash" in decoded.event && decoded.event["event_hash"] != "" {
            return decoded.event["event_hash"];
          }
        }
      }
      return GENESIS;
    }

    /** The caller's event is sealed in place; the sealed event is handed back. */
    method AppendEvent(c: Codec, event: Event, stamp: Stamp) returns (hash: string, sealed: Event)
      modifies this
      ensures sealed == Seal(c, Stamped(event, stamp), ReadTail(c, old(file)))
      ensures file == Some((if old(file).Some? then old(file).value else "") + c.encode(sealed) + "\n")
      ensures hash == sealed["event_hash"]
    {
      sealed := SetDefault(event, "ts_epoch", stamp.tsEpoch);
      sealed := SetDefault(sealed, "ts_ist", stamp.tsIst);
      sealed := SetDefault(sealed, "desk_id", stamp.deskId);
      var prev := ReadLastHash(c);
      sealed := sealed["prev_hash" := prev];
      sealed := sealed["event_hash" := ComputeHash(c, sealed)];
      var content := if file.Some? then file.value else "";
      file := Some(content + c.encode(sealed) + "\n");
      hash := sealed["event_hash"];
    }

    method VerifyChain(c: Codec) returns (v: Verdict)
      ensures v == Verify(c, file)
    {
      if file.None? { return Broken(MissingLog, 0); }
      var lines := Lines(file.value);
      var prev, count := GENESIS, 0;
      for i := 0 to |lines|
        invariant Scan(c, lines, GENESIS, 0) == Scan(c, lines[i..], prev, count)
      {
        assert lines[i..][0] == lines[i] && lines[i..][1..] == lines[i + 1..];
        var line := Trim(lines[i]);
        if line != "" {
          var decoded := c.decode(line);
          if decoded.NotJson? { return Broken(InvalidJson, count); }
          if decoded.NotObject? {
            if decoded.lookupRaises { return Raised(count); }
            return Broken(MissingHashFields, count);
          }
          var e := decoded.event;
          if "prev_hash" !in e || "event_hash" !in e { return Broken(MissingHashFields, count); }
          if e["prev_hash"] != prev { return Broken(PrevHashMismatch, count); }
          if ComputeHash(c, e) != e["event_hash"] { return Broken(EventHashMismatch, count); }
          prev, count := e["event_hash"], count + 1;
        }
      }
      return Verified(prev, count);
    }
  }
}
