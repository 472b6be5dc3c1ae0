/** Readiness of candidates' contracts, and the health panel over a batch of them. */
module ResolutionHealth {
  import opened Prelude
  import opened Text
  import opened BrokerResolver

  datatype Label = ExpiryLabel | StrikeLabel | OptionTypeLabel | ExchangeLabel

  datatype Code =
    | Mismatch(field: Label) | MissingField(name: string) | ResolutionCode(res: string) | OtherCode(text: string)

  datatype StrikeField = NoStrike | NotNumeric | Strike(value: real)

  /** A candidate's first present request fields; its blockers and warnings are trimmed and not empty. */
  datatype Candidate = Candidate(
    symbol: string, expiry: string, strike: StrikeField, optionType: string, exchange: string,
    blockers: set<Code>, warnings: set<string>)

  datatype ReadinessStatus =
    | ResolvedExact | ResolvedFallback
    | BlockedNotFound | BlockedCoverageFailed | BlockedInvalidRequest | BlockedMissingRequest

  datatype Readiness = Readiness(
    status: ReadinessStatus, resolved: bool, request: Option<Request>, resolution: Option<Resolution>,
    instrument: Option<Instrument>, token: Option<int>, fallbackUsed: bool, fallbackDistance: Option<real>,
    blockers: set<Code>, warnings: set<string>)

  function MissingFields(c: Candidate): set<Code> {
    (if Trim(c.expiry) == "" then {MissingField("expiry")} else {})
    + (if c.strike.NoStrike? then {MissingField("strike")} else {})
    + (if Trim(Upper(c.optionType)) == "" then {MissingField("option_type")} else {})
    + (if Trim(Upper(c.symbol)) == "" then {MissingField("symbol")} else {})
  }

  lemma NothingMissingIff(c: Candidate)
    ensures MissingFields(c) == {} <==>
              && Trim(c.expiry) != "" && !c.strike.NoStrike?
              && Trim(Upper(c.optionType)) != "" && Trim(Upper(c.symbol)) != ""
  {
    hide Trim, Upper;
    var missing := MissingFields(c);
    assert Trim(c.expiry) == "" ==> MissingField("expiry") in missing;
    assert c.strike.NoStrike? ==> MissingField("strike") in missing;
    assert Trim(Upper(c.optionType)) == "" ==> MissingField("option_type") in missing;
    assert Trim(Upper(c.symbol)) == "" ==> MissingField("symbol") in missing;
  }

  /** Each missing field is named, and nothing else. */
  lemma MissingFieldsAre(c: Candidate, code: Code)
    ensures code in MissingFields(c) <==>
              || (code == MissingField("expiry") && Trim(c.expiry) == "")
              || (code == MissingField("strike") && c.strike.NoStrike?)
              || (code == MissingField("option_type") && Trim(Upper(c.optionType)) == "")
              || (code == MissingField("symbol") && Trim(Upper(c.symbol)) == "")
  {
    hide Trim, Upper;
  }

  /** The request as it is recorded. */
  function Payload(c: Candidate): (r: Request)
    requires c.strike.Strike?
    ensures c.exchange != "" ==> r.exchange == Trim(Upper(c.exchange))
    ensures c.exchange == "" ==> r.exchange == "NFO"
  {
    DefaultExchangeIsNormal();
    Normal(Request(c.symbol, c.expiry, c.strike.value, c.optionType, OrElse(c.exchange, "NFO")))
  }

  /** The request as it is resolved: an exchange that trimming left blank gets the default as well. */
  function Asked(payload: Request): Request {
    payload.(exchange := OrElse(payload.exchange, "NFO"))
  }

  function RequestOf(c: Candidate): Request
    requires c.strike.Strike?
  {
    Asked(Payload(c))
  }

  /** What a candidate asks for: its fields trimmed, its names in capitals, and the default for a blank exchange. */
  lemma RequestIs(c: Candidate)
    requires c.strike.Strike?
    ensures var exchange := Trim(Upper(c.exchange));
            && RequestOf(c) == Request(Trim(Upper(c.symbol)), Trim(c.expiry), c.strike.value, Trim(Upper(c.optionType)),
                                       if exchange == "" then "NFO" else exchange)
            && Payload(c) == RequestOf(c).(exchange := if c.exchange == "" then "NFO" else exchange)
  {
    DefaultExchangeIsNormal();
    assert Trim(Upper("")) == "";
  }

  lemma RequestIsNormal(c: Candidate)
    requires c.strike.Strike?
    ensures Normal(RequestOf(c)) == RequestOf(c)
  {
    NormalTwice(Request(c.symbol, c.expiry, c.strike.value, c.optionType, OrElse(c.exchange, "NFO")));
    DefaultExchangeIsNormal();
  }

  lemma DefaultExchangeIsNormal()
    ensures Trim(Upper("NFO")) == "NFO"
  {
    assert Upper("NFO") == "NFO";
  }

  function StatusOf(res: Resolution): ReadinessStatus {
    match res
    case Exact(_) => ResolvedExact
    case Fallback(_, _) => ResolvedFallback
    case InvalidRequest => BlockedInvalidRequest
    case NotFound => BlockedNotFound
    case CoverageFailed => BlockedCoverageFailed
  }

  /** The candidate names a full request, and the instruments resolve it so. */
  predicate ComesOutAs(c: Candidate, rows: seq<Instrument>, limits: Limits, res: Resolution) {
    MissingFields(c) == {} && c.strike.Strike? && Resolves(rows, RequestOf(c), limits, res)
  }

  /** What every readiness record satisfies, whatever the candidate. */
  predicate Coherent(r: Readiness) {
    && (r.resolved <==> r.status in {ResolvedExact, ResolvedFallback})
    && (r.resolved <==> r.instrument.Some?)
    && (r.instrument.Some? ==> r.instrument.value.token == r.token && r.token.Some?)
    && (r.token.Some? ==> r.resolved)
    && (r.fallbackUsed <==> r.status == ResolvedFallback) && (r.fallbackDistance.Some? <==> r.fallbackUsed)
    && (r.resolved ==> r.request.Some? && r.resolution.Some?)
    && (r.resolution.Some? ==> r.status == StatusOf(r.resolution.value))
    && (!r.resolved ==> r.blockers != {})
  }

  function BlockerOf(res: Resolution): string {
    match res
    case CoverageFailed => "TOKEN_COVERAGE_BELOW_THRESHOLD"
    case InvalidRequest => "INVALID_OPTION_CONTRACT_REQUEST"
    case _ => "OPTION_TOKEN_NOT_FOUND"
  }

  function Record(c: Candidate, request: Request, rows: seq<Instrument>, res: Resolution): (r: Readiness)
    requires Resolved(res) ==> res.at < |rows| && rows[res.at].token.Some?
    ensures Coherent(r) && r.status == StatusOf(res) && (r.resolved <==> Resolved(res))
    ensures r.request == Some(request) && r.resolution == if res == CoverageFailed then None else Some(res)
    ensures r.resolved ==> r.instrument == Some(rows[res.at]) && r.blockers == c.blockers
    ensures r.warnings == {} <==> c.warnings == {} && !r.fallbackUsed
    ensures r.warnings == c.warnings + (if r.fallbackUsed then {"FALLBACK_CONTRACT_USED"} else {})
    ensures !Resolved(res) ==>
              && r.fallbackDistance.None?
              && r.blockers == match res
                               case CoverageFailed => {ResolutionCode("TOKEN_COVERAGE_BELOW_THRESHOLD")}
                               case InvalidRequest => c.blockers + {ResolutionCode("INVALID_OPTION_CONTRACT_REQUEST")}
                               case _ => c.blockers + {ResolutionCode("OPTION_TOKEN_NOT_FOUND")}
    ensures r.fallbackUsed ==> res.Fallback? && r.resolution == Some(res) && r.fallbackDistance == Some(res.distance)
  {
    match res
    case CoverageFailed =>
      Readiness(BlockedCoverageFailed, false, Some(request), None, None, None, false, None,
                {ResolutionCode(BlockerOf(res))}, c.warnings)
    case Exact(at) =>
      Readiness(StatusOf(res), true, Some(request), Some(res), Some(rows[at]), rows[at].token, false, None,
                c.blockers, c.warnings)
    case Fallback(at, distance) =>
      Readiness(StatusOf(res), true, Some(request), Some(res), Some(rows[at]), rows[at].token, true, Some(distance),
                c.blockers, c.warnings + {"FALLBACK_CONTRACT_USED"})
    case _ =>
      Readiness(StatusOf(res), false, Some(request), Some(res), None, None, false, None,
                c.blockers + {ResolutionCode(BlockerOf(res))}, c.warnings)
  }

  predicate FieldMissing(c: Candidate) {
    Trim(c.expiry) == "" || c.strike.NoStrike? || Trim(Upper(c.optionType)) == "" || Trim(Upper(c.symbol)) == ""
  }

  /** `None` is the error that a strike which is not a number raises; a missing field is reported first. */
  method BuildBrokerContractReadiness(c: Candidate, rows: seq<Instrument>, limits: Limits)
    returns (out: Option<Readiness>)
    ensures out.None? <==> !FieldMissing(c) && c.strike.NotNumeric?
    ensures out.Some? ==> var r := out.value;
              && Coherent(r) && (r.status == BlockedMissingRequest <==> FieldMissing(c))
              && (r.status != BlockedMissingRequest ==>
                    exists res :: ComesOutAs(c, rows, limits, res) && r.status == StatusOf(res))
              && (r.warnings == {} <==> c.warnings == {} && !r.fallbackUsed)
    ensures out.Some? && !out.value.resolved ==> var r := out.value;
              && r.token.None? && r.instrument.None? && r.fallbackDistance.None?
              && r.blockers == match r.status
                               case BlockedMissingRequest => MissingFields(c)
                               case BlockedCoverageFailed => {ResolutionCode("TOKEN_COVERAGE_BELOW_THRESHOLD")}
                               case BlockedInvalidRequest =>
                                 c.blockers + {ResolutionCode("INVALID_OPTION_CONTRACT_REQUEST")}
                               case _ => c.blockers + {ResolutionCode("OPTION_TOKEN_NOT_FOUND")}
    ensures out.Some? ==> var r := out.value;
              && r.warnings == c.warnings + (if r.fallbackUsed then {"FALLBACK_CONTRACT_USED"} else {})
              && (r.fallbackUsed ==> r.resolution.Some? && r.resolution.value.Fallback?
                                     && r.fallbackDistance == Some(r.resolution.value.distance))
    ensures out.Some? ==> var r := out.value;
              && r.request == (if r.status == BlockedMissingRequest then None else Some(Payload(c)))
              && (r.resolution.Some? <==> r.status != BlockedMissingRequest && r.status != BlockedCoverageFailed)
              && (r.resolution.Some? ==> ComesOutAs(c, rows, limits, r.resolution.value))
    ensures out.Some? && out.value.resolved ==> var r := out.value;
              && r.blockers == c.blockers
              && r.resolution.value.at < |rows| && r.instrument == Some(rows[r.resolution.value.at])
  {
    var missing := MissingFields(c);
    NothingMissingIff(c);
    if missing != {} {
      return Some(Readiness(BlockedMissingRequest, false, None, None, None, None, false, None, missing, c.warnings));
    }
    if c.strike.NotNumeric? { return None; }
    RequestIsNormal(c);
    var payload, request := Payload(c), RequestOf(c);
    hide Normal, MissingFields, FieldMissing, Resolves, RequestOf, Payload, Coherent, Record;
    var res := ResolveOptionContract(request, rows, limits);
    assert ComesOutAs(c, rows, limits, res);
    if Resolved(res) { ResolvedRowMatches(rows, request, limits, res); }
    out := Some(Record(c, payload, rows, res));
  }

  // ---------------------------------------------------------------- health rows

  datatype ResolutionSource =
    | ExactSource | FallbackSource | NotFoundSource
    | MissingRequestSource | CoverageFailedSource | InvalidRequestSource

  datatype Row = Row(resolved: bool, token: Option<int>, fallbackUsed: bool, source: ResolutionSource,
                     blockers: set<Code>, warnings: set<string>)

  function SourceOf(r: Readiness): ResolutionSource {
    var status := if r.resolution.Some? then StatusOf(r.resolution.value) else r.status;
    match status
    case ResolvedExact => ExactSource
    case _ =>
      if status == ResolvedFallback || r.fallbackUsed then FallbackSource
      else match status
        case BlockedNotFound => NotFoundSource
        case BlockedMissingRequest => MissingRequestSource
        case BlockedCoverageFailed => CoverageFailedSource
        case _ => InvalidRequestSource
  }

  predicate Differ(requested: string, resolved: string) { requested != "" && resolved != "" && requested != resolved }

  /** A date never equals the text of the request, not even its own. */
  predicate DifferListed(requested: string, listed: Listed) {
    match listed
    case AsText(text) => Differ(requested, text)
    case AsDate(_) => requested != ""
  }

  /** The type field that the comparison reads: one alias fewer than the resolution knows. */
  function ComparedType(row: Instrument): string { OrElse(row.instrumentType, row.optionType) }

  /** The request is normalised but the instrument's fields are compared as they were listed. */
  function MismatchBlockers(request: Request, row: Instrument, source: ResolutionSource): set<Code> {
    (if DifferListed(request.expiry, row.expiry) then {Mismatch(ExpiryLabel)} else {})
    + (if source != FallbackSource && row.strike.Some? && request.strike != row.strike.value
       then {Mismatch(StrikeLabel)} else {})
    + (if Differ(Upper(request.optionType), Upper(ComparedType(row))) then {Mismatch(OptionTypeLabel)} else {})
    + (if Differ(Upper(request.exchange), Upper(row.exchange)) then {Mismatch(ExchangeLabel)} else {})
  }

  /** Each mismatch is reported exactly when both sides give the field and it differs, capitals aside. */
  lemma MismatchIff(request: Request, row: Instrument, source: ResolutionSource, code: Code)
    ensures code in MismatchBlockers(request, row, source) <==>
              || (code == Mismatch(ExpiryLabel) && request.expiry != ""
                  && (row.expiry.AsDate? || (row.expiry.text != "" && row.expiry.text != request.expiry)))
              || (code == Mismatch(StrikeLabel) && source != FallbackSource && row.strike.Some?
                  && row.strike.value != request.strike)
              || (code == Mismatch(OptionTypeLabel)
                  && var listed := if row.instrumentType != "" then row.instrumentType else row.optionType;
                     Upper(request.optionType) != "" && Upper(listed) != ""
                     && Upper(request.optionType) != Upper(listed))
              || (code == Mismatch(ExchangeLabel) && Upper(request.exchange) != "" && Upper(row.exchange) != ""
                  && Upper(request.exchange) != Upper(row.exchange))
  {
    hide Upper;
  }

  /** The source of any record, and of a coherent one: the status that it was built with. */
  lemma SourceIs(r: Readiness)
    ensures SourceOf(r) == ExactSource
       <==> if r.resolution.Some? then r.resolution.value.Exact? else r.status == ResolvedExact
    ensures SourceOf(r) == FallbackSource
       <==> && (r.fallbackUsed
                || if r.resolution.Some? then r.resolution.value.Fallback? else r.status == ResolvedFallback)
            && !(if r.resolution.Some? then r.resolution.value.Exact? else r.status == ResolvedExact)
    ensures Coherent(r) ==>
            SourceOf(r) == match r.status
                           case ResolvedExact => ExactSource
                           case ResolvedFallback => FallbackSource
                           case BlockedNotFound => NotFoundSource
                           case BlockedMissingRequest => MissingRequestSource
                           case BlockedCoverageFailed => CoverageFailedSource
                           case BlockedInvalidRequest => InvalidRequestSource
  {
  }

  /** A row repeats its record, and adds the mismatches of the resolved instrument. */
  lemma RowIs(r: Readiness, code: Code)
    ensures var row := ToRow(r);
            && row.resolved == r.resolved && row.token == r.token && row.fallbackUsed == r.fallbackUsed
            && row.source == SourceOf(r) && row.warnings == r.warnings
            && (code in row.blockers <==>
                  || code in r.blockers
                  || (r.request.Some? && r.instrument.Some?
                      && code in MismatchBlockers(r.request.value, r.instrument.value, SourceOf(r))))
  {
    hide MismatchBlockers, SourceOf;
  }

  function ToRow(r: Readiness): (row: Row)
    ensures r.blockers <= row.blockers
    ensures r.instrument.Some? && r.request.Some? ==>
              MismatchBlockers(r.request.value, r.instrument.value, SourceOf(r)) <= row.blockers
  {
    var mismatches := if r.instrument.Some? && r.request.Some?
                      then MismatchBlockers(r.request.value, r.instrument.value, SourceOf(r)) else {};
    Row(r.resolved, r.token, r.fallbackUsed, SourceOf(r), r.blockers + mismatches, r.warnings)
  }

  predicate Mismatched(row: Row) { exists field :: Mismatch(field) in row.blockers }

  /** Listed text with nothing to trim around it. */
  predicate Tidy(s: string) { Trim(s) == s }

  lemma DiffersIffUntidy(trimmed: string, listed: string)
    requires trimmed == Trim(listed) && trimmed != ""
    ensures Differ(trimmed, listed) <==> !Tidy(listed)
  {
  }

  lemma ExchangeDiffersIff(payload: Request, row: Instrument)
    requires SameFamily(row, Asked(payload))
    ensures Differ(Upper(payload.exchange), Upper(row.exchange)) <==>
              payload.exchange != "" && row.exchange != "" && !Tidy(Upper(row.exchange))
  {
    var listed := OrElse(row.exchange, "NFO");
    assert Upper("") == "";
    if payload.exchange != "" {
      UpperOfTrimmed(listed);
      DiffersIffUntidy(payload.exchange, Upper(listed));
    }
  }

  lemma TypeDiffersIff(payload: Request, row: Instrument)
    requires Trim(Upper(TypeOf(row))) == payload.optionType && payload.optionType != ""
    ensures Differ(Upper(payload.optionType), Upper(ComparedType(row))) <==>
              ComparedType(row) != "" && !Tidy(Upper(ComparedType(row)))
  {
    assert Upper("") == "";
    UpperOfTrimmed(TypeOf(row));
    if ComparedType(row) != "" {
      assert ComparedType(row) == TypeOf(row);
      DiffersIffUntidy(payload.optionType, Upper(TypeOf(row)));
    }
  }

  lemma ExpiryDiffersIff(payload: Request, row: Instrument)
    requires Trim(ExpiryOf(row).text) == payload.expiry && payload.expiry != ""
    ensures DifferListed(payload.expiry, row.expiry)
        <==> row.expiry.AsDate? || (row.expiry.text != "" && !Tidy(row.expiry.text))
  {
    if row.expiry.AsText? && row.expiry.text != "" {
      DiffersIffUntidy(payload.expiry, row.expiry.text);
    }
  }

  /** A fallback may differ in its strike and in nothing else. */
  lemma MismatchesAre(payload: Request, row: Instrument, source: ResolutionSource)
    ensures MismatchBlockers(payload, row, source) == {} <==>
              && !DifferListed(payload.expiry, row.expiry)
              && !Differ(Upper(payload.optionType), Upper(ComparedType(row)))
              && !Differ(Upper(payload.exchange), Upper(row.exchange))
              && (source == FallbackSource || row.strike.None? || row.strike.value == payload.strike)
  {
    hide Differ, DifferListed, Upper;
    var found := MismatchBlockers(payload, row, source);
    assert Mismatch(ExpiryLabel) in found <==> DifferListed(payload.expiry, row.expiry);
    assert Mismatch(OptionTypeLabel) in found <==> Differ(Upper(payload.optionType), Upper(ComparedType(row)));
    assert Mismatch(ExchangeLabel) in found <==> Differ(Upper(payload.exchange), Upper(row.exchange));
    assert Mismatch(StrikeLabel) in found
      <==> source != FallbackSource && row.strike.Some? && row.strike.value != payload.strike;
  }

  /** No field that the comparison reads is a date or carries stray space. */
  predicate ListedTidily(row: Instrument) {
    && row.expiry.AsText? && (row.expiry.text == "" || Tidy(row.expiry.text))
    && (ComparedType(row) == "" || Tidy(Upper(ComparedType(row)))) && (row.exchange == "" || Tidy(Upper(row.exchange)))
  }

  /**
   An exact match is reported without a mismatch exactly when it was listed tidily, leaving
   aside the exchange of a request that has a blank one.
   */
  lemma ExactMismatchIffUntidy(payload: Request, row: Instrument)
    requires IsExact(row, Asked(payload)) && ValidRequest(payload)
    ensures MismatchBlockers(payload, row, ExactSource) == {}
       <==> ListedTidily(if payload.exchange == "" then row.(exchange := "") else row)
  {
    hide Upper, Trim, MismatchBlockers, Differ, DifferListed, Tidy;
    MismatchesAre(payload, row, ExactSource);
    ExchangeDiffersIff(payload, row);
    TypeDiffersIff(payload, row);
    ExpiryDiffersIff(payload, row);
  }

  function ExampleRequest(): Request { Request("NIFTY", "2024-01-25", 100.0, "CE", "NFO") }

  function ExampleInstrument(expiry: Listed): Instrument {
    Instrument("NIFTY", expiry, AsText(""), "CE", "", "", "NFO", Some(100.0), Some(1))
  }

  lemma ExampleFamily(expiry: Listed)
    requires Trim(expiry.text) == "2024-01-25"
    ensures IsExact(ExampleInstrument(expiry), Asked(ExampleRequest())) && ValidRequest(ExampleRequest())
  {
    assert expiry != AsText("") by { assert Trim("") == ""; }
    hide Trim;
    CapitalsStay("NIFTY");
    CapitalsStay("CE");
    CapitalsStay("NFO");
  }

  lemma CapitalsStay(s: string)
    requires s != "" && forall i :: 0 <= i < |s| ==> 'A' <= s[i] <= 'Z'
    ensures Trim(Upper(s)) == s
  {
    assert Upper(s) == s;
  }

  /**
   A date that prints as the requested expiry matches exactly, and is reported as a mismatch
   with no stray space anywhere.
   */
  lemma DatedExpiryIsFlagged()
    ensures IsExact(ExampleInstrument(AsDate("2024-01-25")), Asked(ExampleRequest()))
    ensures Mismatch(ExpiryLabel)
         in MismatchBlockers(ExampleRequest(), ExampleInstrument(AsDate("2024-01-25")), ExactSource)
  {
    assert Trim("2024-01-25") == "2024-01-25";
    ExampleFamily(AsDate("2024-01-25"));
    hide Trim, Upper, IsExact;
  }

  /** So is the same expiry with a space behind it. */
  lemma SpacedExpiryIsFlagged()
    ensures IsExact(ExampleInstrument(AsText("2024-01-25 ")), Asked(ExampleRequest()))
    ensures Mismatch(ExpiryLabel)
         in MismatchBlockers(ExampleRequest(), ExampleInstrument(AsText("2024-01-25 ")), ExactSource)
  {
    var plain, spaced := "2024-01-25", "2024-01-25 ";
    assert spaced[..|spaced| - 1] == plain && Trim(plain) == plain;
    assert Trim(spaced) == Trim(plain);
    ExampleFamily(AsText(spaced));
    hide Trim, Upper, IsExact;
    assert |plain| != |spaced|;
  }

  // ---------------------------------------------------------------- the summary

  datatype Summary = Summary(
    records: nat, resolved: nat, unresolved: int, exact: nat, fallback: nat,
    missingToken: nat, mismatched: nat, blocked: nat, warnings: nat)

  datatype Health = Healthy | DegradedFallback | BlockedUnresolved | Empty

  function Count(rows: seq<Row>, p: Row -> bool): nat {
    if rows == [] then 0 else Count(rows[..|rows| - 1], p) + if p(rows[|rows| - 1]) then 1 else 0
  }

  lemma {:induction false} CountIsZeroIff(rows: seq<Row>, p: Row -> bool)
    ensures Count(rows, p) == 0 <==> forall row :: row in rows ==> !p(row)
  {
    if rows != [] {
      CountIsZeroIff(rows[..|rows| - 1], p);
      assert rows == rows[..|rows| - 1] + [rows[|rows| - 1]];
    }
  }

  /** Two tests that never agree, and between them cover exactly a third, split its count. */
  lemma {:induction false} CountSplits(rows: seq<Row>, p: Row -> bool, q: Row -> bool, whole: Row -> bool)
    requires forall row :: row in rows ==> (whole(row) <==> p(row) || q(row)) && !(p(row) && q(row))
    ensures Count(rows, p) + Count(rows, q) == Count(rows, whole)
  {
    if rows != [] {
      CountSplits(rows[..|rows| - 1], p, q, whole);
      assert rows[|rows| - 1] in rows;
    }
  }

  predicate IsResolved(row: Row) { row.resolved }

  predicate IsExactRow(row: Row) { row.source == ExactSource }

  predicate LacksToken(row: Row) { row.token.None? }

  predicate IsFallback(row: Row) { row.fallbackUsed || row.source == FallbackSource }

  predicate IsBlocked(row: Row) { !row.resolved || row.blockers != {} }

  function WarningCount(rows: seq<Row>): nat {
    if rows == [] then 0 else WarningCount(rows[..|rows| - 1]) + |rows[|rows| - 1].warnings|
  }

  method CountRows(rows: seq<Row>, p: Row -> bool) returns (n: nat)
    ensures n == Count(rows, p)
  {
    n := 0;
    for i := 0 to |rows|
      invariant n == Count(rows[..i], p)
    {
      assert rows[..i + 1][..i] == rows[..i];
      if p(rows[i]) { n := n + 1; }
    }
    assert rows[..|rows|] == rows;
  }

  method CountWarnings(rows: seq<Row>) returns (n: nat)
    ensures n == WarningCount(rows)
  {
    n := 0;
    for i := 0 to |rows|
      invariant n == WarningCount(rows[..i])
    {
      assert rows[..i + 1][..i] == rows[..i];
      n := n + |rows[i].warnings|;
    }
    assert rows[..|rows|] == rows;
  }

  predicate Summarizes(s: Summary, rows: seq<Row>) {
    && s.records == |rows| && s.unresolved == |rows| - s.resolved
    && s.resolved == Count(rows, IsResolved)
    && s.exact == Count(rows, IsExactRow) && s.fallback == Count(rows, IsFallback)
    && s.missingToken == Count(rows, LacksToken) && s.mismatched == Count(rows, Mismatched)
    && s.blocked == Count(rows, IsBlocked) && s.warnings == WarningCount(rows)
  }

  method Summarize(rows: seq<Row>) returns (s: Summary)
    ensures Summarizes(s, rows)
  {
    var resolved := CountRows(rows, IsResolved);
    var fallback := CountRows(rows, IsFallback);
    var exact := CountRows(rows, IsExactRow);
    var missingToken := CountRows(rows, LacksToken);
    var mismatched := CountRows(rows, Mismatched);
    var blocked := CountRows(rows, IsBlocked);
    var warnings := CountWarnings(rows);
    s := Summary(|rows|, resolved, |rows| - resolved, exact, fallback, missingToken, mismatched, blocked, warnings);
  }

  function StatusFromSummary(s: Summary): Health {
    if s.records == 0 then Empty
    else if s.unresolved != 0 || s.missingToken != 0 || s.mismatched != 0 then BlockedUnresolved
    else if s.fallback != 0 || s.warnings != 0 then DegradedFallback
    else Healthy
  }

  lemma {:induction false} NoWarningsIff(rows: seq<Row>)
    ensures WarningCount(rows) == 0 <==> forall row :: row in rows ==> row.warnings == {}
  {
    if rows != [] {
      NoWarningsIff(rows[..|rows| - 1]);
      assert rows == rows[..|rows| - 1] + [rows[|rows| - 1]];
    }
  }

  function Rows(records: seq<Readiness>): (rows: seq<Row>)
    ensures |rows| == |records| && forall i :: 0 <= i < |records| ==> rows[i] == ToRow(records[i])
  {
    seq(|records|, i requires 0 <= i < |records| => ToRow(records[i]))
  }

  lemma {:induction false} CountOfAll(rows: seq<Row>, p: Row -> bool, not: Row -> bool)
    requires forall row :: row in rows ==> (not(row) <==> !p(row))
    ensures Count(rows, p) + Count(rows, not) == |rows|
  {
    if rows != [] {
      CountOfAll(rows[..|rows| - 1], p, not);
      assert rows[|rows| - 1] in rows;
    }
  }

  predicate CoherentRow(row: Row) {
    && (row.resolved <==> row.source == ExactSource || IsFallback(row))
    && !(row.source == ExactSource && IsFallback(row))
    && (row.token.None? <==> !row.resolved)
  }

  lemma RowsAreCoherent(records: seq<Readiness>)
    requires forall r :: r in records ==> Coherent(r)
    ensures forall row :: row in Rows(records) ==> CoherentRow(row)
  {
    forall i | 0 <= i < |records|
      ensures CoherentRow(ToRow(records[i]))
    {
      assert records[i] in records;
    }
  }

  predicate CleanRow(row: Row) { row.source == ExactSource && row.warnings == {} && !Mismatched(row) }

  predicate IsUnresolved(row: Row) { !row.resolved }

  predicate Healthful(row: Row) {
    row.resolved && row.token.Some? && !Mismatched(row) && !IsFallback(row) && row.warnings == {}
  }

  lemma SummaryAddsUp(rows: seq<Row>)
    requires forall row :: row in rows ==> CoherentRow(row)
    ensures Count(rows, IsExactRow) + Count(rows, IsFallback) == Count(rows, IsResolved)
    ensures Count(rows, LacksToken) == |rows| - Count(rows, IsResolved)
  {
    CountSplits(rows, IsExactRow, IsFallback, IsResolved);
    CountOfAll(rows, IsResolved, LacksToken);
  }

  /** A row more adds one to each count whose test it passes, and its warnings to their number. */
  lemma CountsAre(rows: seq<Row>, row: Row)
    ensures Count([], IsResolved) == Count([], IsExactRow) == Count([], IsFallback) == Count([], LacksToken)
         == Count([], Mismatched) == Count([], IsBlocked) == WarningCount([]) == 0
    ensures Count(rows + [row], IsResolved) == Count(rows, IsResolved) + if row.resolved then 1 else 0
    ensures Count(rows + [row], IsExactRow) == Count(rows, IsExactRow) + if row.source == ExactSource then 1 else 0
    ensures Count(rows + [row], IsFallback)
         == Count(rows, IsFallback) + if row.fallbackUsed || row.source == FallbackSource then 1 else 0
    ensures Count(rows + [row], LacksToken) == Count(rows, LacksToken) + if row.token.None? then 1 else 0
    ensures Count(rows + [row], Mismatched)
         == Count(rows, Mismatched) + if exists field :: Mismatch(field) in row.blockers then 1 else 0
    ensures Count(rows + [row], IsBlocked)
         == Count(rows, IsBlocked) + if !row.resolved || row.blockers != {} then 1 else 0
    ensures WarningCount(rows + [row]) == WarningCount(rows) + |row.warnings|
  {
    assert (rows + [row])[..|rows|] == rows;
  }

  lemma StatusMeans(rows: seq<Row>, s: Summary)
    requires Summarizes(s, rows)
    ensures StatusFromSummary(s) == Empty <==> rows == []
    ensures StatusFromSummary(s) == BlockedUnresolved
       <==> exists row :: row in rows && (!row.resolved || row.token.None? || Mismatched(row))
    ensures StatusFromSummary(s) == Healthy <==> rows != [] && forall row :: row in rows ==> Healthful(row)
    ensures s.blocked == 0 <==> forall row :: row in rows ==> row.resolved && row.blockers == {}
  {
    hide Mismatched, Count;
    CountOfAll(rows, IsResolved, IsUnresolved);
    CountIsZeroIff(rows, IsUnresolved);
    CountIsZeroIff(rows, LacksToken);
    CountIsZeroIff(rows, Mismatched);
    CountIsZeroIff(rows, IsFallback);
    CountIsZeroIff(rows, IsBlocked);
    NoWarningsIff(rows);
    assert rows != [] ==> rows[0] in rows;
  }

  /**
   Any records give the statuses their meaning; records that readiness built also add up,
   and a clean one is an exact match.
   */
  method BuildInstrumentResolutionHealthPanel(records: seq<Readiness>)
    returns (health: Health, s: Summary, rows: seq<Row>)
    ensures rows == Rows(records) && s.records == |records| && Summarizes(s, rows)
    ensures s.blocked == 0 <==> forall row :: row in rows ==> row.resolved && row.blockers == {}
    ensures health == Empty <==> records == []
    ensures health == BlockedUnresolved
        <==> exists row :: row in rows && (!row.resolved || row.token.None? || Mismatched(row))
    ensures health == Healthy <==> records != [] && forall row :: row in rows ==> Healthful(row)
    ensures (forall r :: r in records ==> Coherent(r)) ==>
              && s.exact + s.fallback == s.resolved && s.missingToken == s.unresolved == s.records - s.resolved
              && forall row :: row in rows ==> (Healthful(row) <==> CleanRow(row))
  {
    rows := Rows(records);
    s := Summarize(rows);
    StatusMeans(rows, s);
    health := StatusFromSummary(s);
    if forall r :: r in records ==> Coherent(r) {
      RowsAreCoherent(records);
      SummaryAddsUp(rows);
      hide Mismatched, ToRow, Coherent, StatusFromSummary, Count;
    }
  }
}
