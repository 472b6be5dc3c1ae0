/** Resolving an option contract: the exact strike if it is listed, else the nearest one within a limit. */
module BrokerResolver {
  import opened Prelude
  import opened Text

  /** A listed field: text, empty when it is missing, or a date or other object with the text it prints as. */
  datatype Listed = AsText(text: string) | AsDate(text: string)

  // Text fields are raw, and empty when missing; a missing or empty token or an unreadable strike is `None`.
  datatype Instrument = Instrument(
    symbol: string, expiry: Listed, expiryDate: Listed, instrumentType: string, optionType: string, plainType: string,
    exchange: string, strike: Option<real>, token: Option<int>)

  datatype Request = Request(symbol: string, expiry: string, strike: real, optionType: string, exchange: string)

  datatype Limits = Limits(allowFallback: bool, maxDistance: real, minCoverage: int)

  datatype Resolution = InvalidRequest | CoverageFailed | Exact(at: nat) | Fallback(at: nat, distance: real) | NotFound

  function Normal(r: Request): Request {
    Request(Trim(Upper(r.symbol)), Trim(r.expiry), r.strike, Trim(Upper(r.optionType)), Trim(Upper(r.exchange)))
  }

  lemma NormalTwice(r: Request)
    ensures Normal(Normal(r)) == Normal(r)
  {
    TrimUpperTwice(r.symbol);
    TrimTwice(r.expiry);
    TrimUpperTwice(r.optionType);
    TrimUpperTwice(r.exchange);
  }

  function OrElse(first: string, second: string): string { if first != "" then first else second }

  function ExpiryOf(row: Instrument): Listed { if row.expiry != AsText("") then row.expiry else row.expiryDate }

  function TypeOf(row: Instrument): string { OrElse(row.instrumentType, OrElse(row.optionType, row.plainType)) }

  predicate SameFamily(row: Instrument, r: Request) {
    && Trim(Upper(row.symbol)) == r.symbol && Trim(ExpiryOf(row).text) == r.expiry
    && Trim(Upper(TypeOf(row))) == r.optionType
    && Trim(Upper(OrElse(row.exchange, "NFO"))) == r.exchange
  }

  predicate Tradable(row: Instrument, r: Request) { SameFamily(row, r) && row.token.Some? }

  predicate IsExact(row: Instrument, r: Request) { Tradable(row, r) && row.strike == Some(r.strike) }

  function Distance(row: Instrument, r: Request): real
    requires row.strike.Some?
  {
    AbsReal(row.strike.value - r.strike)
  }

  predicate IsCandidate(row: Instrument, r: Request, max: real) {
    Tradable(row, r) && row.strike.Some? && Distance(row, r) <= max
  }

  predicate ValidRequest(r: Request) {
    r.symbol != "" && r.expiry != "" && r.optionType in {"CE", "PE"} && r.strike > 0.0
  }

  function Coverage(rows: seq<Instrument>, r: Request): nat {
    if rows == [] then 0
    else Coverage(rows[..|rows| - 1], r) + if Tradable(rows[|rows| - 1], r) then 1 else 0
  }

  // ---------------------------------------------------------------- what a resolution is

  predicate FirstExact(rows: seq<Instrument>, r: Request, at: nat) {
    at < |rows| && IsExact(rows[at], r) && forall j :: 0 <= j < at ==> !IsExact(rows[j], r)
  }

  /** The earliest of the candidates at the least distance. */
  predicate Nearest(rows: seq<Instrument>, r: Request, max: real, at: nat) {
    && at < |rows| && IsCandidate(rows[at], r, max)
    && forall j :: 0 <= j < |rows| && IsCandidate(rows[j], r, max) ==>
         Distance(rows[at], r) < Distance(rows[j], r) || (Distance(rows[at], r) == Distance(rows[j], r) && at <= j)
  }

  predicate AnyExact(rows: seq<Instrument>, r: Request) { exists row :: row in rows && IsExact(row, r) }

  predicate AnyCandidate(rows: seq<Instrument>, r: Request, max: real) {
    exists row :: row in rows && IsCandidate(row, r, max)
  }

  predicate Resolves(rows: seq<Instrument>, r: Request, limits: Limits, res: Resolution) {
    if !ValidRequest(r) then res == InvalidRequest
    else if Coverage(rows, r) < limits.minCoverage then res == CoverageFailed
    else if AnyExact(rows, r) then res.Exact? && FirstExact(rows, r, res.at)
    else if limits.allowFallback && AnyCandidate(rows, r, limits.maxDistance) then
      res.Fallback? && Nearest(rows, r, limits.maxDistance, res.at) && res.distance == Distance(rows[res.at], r) > 0.0
    else res == NotFound
  }

  // ---------------------------------------------------------------- the code

  method CoverageCount(rows: seq<Instrument>, request: Request) returns (count: nat)
    ensures count == Coverage(rows, Normal(request))
  {
    hide Tradable, Normal;
    var r := Normal(request);
    count := 0;
    for i := 0 to |rows|
      invariant count == Coverage(rows[..i], r)
    {
      assert rows[..i + 1][..i] == rows[..i];
      if Tradable(rows[i], r) { count := count + 1; }
    }
    assert rows[..|rows|] == rows;
  }

  method FindExact(rows: seq<Instrument>, request: Request) returns (found: Option<nat>)
    ensures found.Some? ==> FirstExact(rows, Normal(request), found.value)
    ensures found.None? ==> !AnyExact(rows, Normal(request))
  {
    hide Tradable, Normal;
    var r := Normal(request);
    for i := 0 to |rows|
      invariant forall j :: 0 <= j < i ==> !IsExact(rows[j], r)
    {
      if rows[i].strike.None? { continue; }
      if Tradable(rows[i], r) && rows[i].strike.value == r.strike { return Some(i); }
    }
    return None;
  }

  datatype Candidate = Candidate(distance: real, at: nat)

  predicate Before(a: Candidate, b: Candidate) { a.distance < b.distance || (a.distance == b.distance && a.at <= b.at) }

  predicate Sorted(s: seq<Candidate>) { forall i, j :: 0 <= i < j < |s| ==> Before(s[i], s[j]) }

  /** Stable insertion of a later row behind every row at no greater distance. */
  function InsertLater(s: seq<Candidate>, c: Candidate): (r: seq<Candidate>)
    ensures |r| == |s| + 1 && multiset(r) == multiset(s) + multiset{c}
  {
    if s == [] then [c]
    else if c.distance < s[0].distance then [c] + s
    else
      assert s == [s[0]] + s[1..];
      [s[0]] + InsertLater(s[1..], c)
  }

  lemma {:induction false} InsertLaterKeepsOrder(s: seq<Candidate>, c: Candidate)
    requires Sorted(s) && forall x :: x in s ==> x.at < c.at
    ensures Sorted(InsertLater(s, c))
  {
    if s != [] && !(c.distance < s[0].distance) {
      InsertLaterKeepsOrder(s[1..], c);
      var rest := InsertLater(s[1..], c);
      forall x | x in rest
        ensures Before(s[0], x)
      {
        assert x in multiset(rest);
        assert x in multiset(s[1..]) + multiset{c};
        assert x == c || x in s[1..];
      }
    }
  }

  method FindSafeFallback(rows: seq<Instrument>, request: Request, max: real) returns (found: Option<Candidate>)
    ensures found.Some? ==> Nearest(rows, Normal(request), max, found.value.at)
                            && found.value.distance == Distance(rows[found.value.at], Normal(request))
    ensures found.None? ==> !AnyCandidate(rows, Normal(request), max)
  {
    hide Tradable, Normal;
    var r := Normal(request);
    var candidates: seq<Candidate> := [];
    for i := 0 to |rows|
      invariant forall x :: x in candidates ==>
                x.at < i && IsCandidate(rows[x.at], r, max) && x.distance == Distance(rows[x.at], r)
      invariant forall j :: 0 <= j < i && IsCandidate(rows[j], r, max) ==>
                Candidate(Distance(rows[j], r), j) in candidates
      invariant forall k, l :: 0 <= k < l < |candidates| ==> candidates[k].at < candidates[l].at
    {
      if !Tradable(rows[i], r) || rows[i].strike.None? { continue; }
      var distance := Distance(rows[i], r);
      if distance <= max {
        candidates := candidates + [Candidate(distance, i)];
      }
    }
    if candidates == [] { return None; }
    var sorted := SortByDistance(candidates);
    var first := sorted[0];
    assert first in multiset(sorted);
    forall j | 0 <= j < |rows| && IsCandidate(rows[j], r, max)
      ensures Before(first, Candidate(Distance(rows[j], r), j))
    {
      assert Candidate(Distance(rows[j], r), j) in multiset(candidates);
      assert Candidate(Distance(rows[j], r), j) in sorted;
    }
    return Some(first);
  }

  /** The library's stable sort, as insertions from left to right. */
  method SortByDistance(candidates: seq<Candidate>) returns (sorted: seq<Candidate>)
    requires forall k, l :: 0 <= k < l < |candidates| ==> candidates[k].at < candidates[l].at
    ensures Sorted(sorted) && multiset(sorted) == multiset(candidates) && |sorted| == |candidates|
  {
    sorted := [];
    for i := 0 to |candidates|
      invariant Sorted(sorted) && multiset(sorted) == multiset(candidates[..i]) && |sorted| == i
    {
      forall x | x in sorted
        ensures x.at < candidates[i].at
      {
        assert x in multiset(candidates[..i]);
      }
      InsertLaterKeepsOrder(sorted, candidates[i]);
      sorted := InsertLater(sorted, candidates[i]);
      assert candidates[..i + 1] == candidates[..i] + [candidates[i]];
    }
    assert candidates[..|candidates|] == candidates;
  }

  method ResolveOptionContract(request: Request, rows: seq<Instrument>, limits: Limits) returns (res: Resolution)
    ensures Resolves(rows, Normal(request), limits, res)
  {
    var r := Normal(request);
    NormalTwice(request);
    hide Normal, Tradable;
    if !ValidRequest(r) { return InvalidRequest; }
    var coverage := CoverageCount(rows, r);
    if coverage < limits.minCoverage { return CoverageFailed; }
    var exact := FindExact(rows, r);
    if exact.Some? {
      assert rows[exact.value] in rows;
      return Exact(exact.value);
    }
    if limits.allowFallback {
      var fallback := FindSafeFallback(rows, r, limits.maxDistance);
      if fallback.Some? {
        assert rows[fallback.value.at] in rows;
        return Fallback(fallback.value.at, fallback.value.distance);
      }
    }
    return NotFound;
  }

  // ---------------------------------------------------------------- theorems

  /** A resolved contract is the one that was asked for, up to its strike, and can be traded. */
  lemma ResolvedRowMatches(rows: seq<Instrument>, r: Request, limits: Limits, res: Resolution)
    requires Resolves(rows, r, limits, res) && Resolved(res)
    ensures res.at < |rows| && rows[res.at].token.Some? && rows[res.at].strike.Some?
    ensures var row := rows[res.at];
            && Trim(Upper(row.symbol)) == r.symbol && Trim(ExpiryOf(row).text) == r.expiry
            && Trim(Upper(TypeOf(row))) == r.optionType
            && (row.exchange != "" ==> Trim(Upper(row.exchange)) == r.exchange)
            && Distance(row, r) == Miss(res)
  {
  }

  lemma ResolutionIsUnique(rows: seq<Instrument>, r: Request, limits: Limits, a: Resolution, b: Resolution)
    requires Resolves(rows, r, limits, a) && Resolves(rows, r, limits, b)
    ensures a == b
  {
    hide Tradable;
  }

  lemma {:induction false} CoverageOfConcat(a: seq<Instrument>, b: seq<Instrument>, r: Request)
    ensures Coverage(a + b, r) == Coverage(a, r) + Coverage(b, r)
  {
    hide Tradable;
    if b == [] {
      assert a + b == a;
    } else {
      CoverageOfConcat(a, b[..|b| - 1], r);
      assert (a + b)[..|a + b| - 1] == a + b[..|b| - 1];
    }
  }

  predicate Resolved(res: Resolution) { res.Exact? || res.Fallback? }

  /** How far from the requested strike a resolved contract is. */
  function Miss(res: Resolution): real { if res.Fallback? then res.distance else 0.0 }

  /** Listing more instruments, anywhere, never loses a contract and never moves it away. */
  lemma MoreInstrumentsNeverHurt(a: seq<Instrument>, extra: seq<Instrument>, b: seq<Instrument>, r: Request,
                                 limits: Limits, before: Resolution, after: Resolution)
    requires Resolves(a + b, r, limits, before) && Resolves(a + extra + b, r, limits, after) && Resolved(before)
    ensures Resolved(after) && Miss(after) <= Miss(before)
  {
    hide Tradable;
    CoverageOfConcat(a, b, r);
    CoverageOfConcat(a + extra, b, r);
    CoverageOfConcat(a, extra, r);
    var row := (a + b)[before.at];
    assert row in a + extra + b;
    if after.Fallback? && before.Fallback? {
      var j :| 0 <= j < |a + extra + b| && (a + extra + b)[j] == row;
    }
  }

  // ---------------------------------------------------------------- what the words mean

  /** A listed row one can trade: every field the request's after trimming and capitals, with a token. */
  lemma TradableIff(row: Instrument, r: Request)
    ensures Tradable(row, r) <==>
              && row.token.Some?
              && Trim(Upper(row.symbol)) == r.symbol
              && Trim((if row.expiry == AsText("") then row.expiryDate else row.expiry).text) == r.expiry
              && Trim(Upper(if row.instrumentType != "" then row.instrumentType
                            else if row.optionType != "" then row.optionType else row.plainType)) == r.optionType
              && Trim(Upper(if row.exchange == "" then "NFO" else row.exchange)) == r.exchange
  {
    hide Trim, Upper;
  }

  /** Coverage is the number of places that list a tradable row. */
  lemma {:induction false} CoverageIsCount(rows: seq<Instrument>, r: Request)
    ensures Coverage(rows, r) == |set i | 0 <= i < |rows| && Tradable(rows[i], r)|
  {
    hide Tradable;
    var here := set i | 0 <= i < |rows| && Tradable(rows[i], r);
    if rows == [] {
      assert here == {};
    } else {
      var n := |rows| - 1;
      var before := set i | 0 <= i < |rows[..n]| && Tradable(rows[..n][i], r);
      CoverageIsCount(rows[..n], r);
      assert forall i :: 0 <= i < n ==> rows[..n][i] == rows[i];
      assert here == before + if Tradable(rows[n], r) then {n} else {};
      assert n !in before;
    }
  }

  /** Why a request is not resolved, and what a resolved one got, in terms of the request as it came. */
  lemma ResolutionMeans(request: Request, rows: seq<Instrument>, limits: Limits, res: Resolution)
    requires Resolves(rows, Normal(request), limits, res)
    ensures res == InvalidRequest <==>
              || Trim(Upper(request.symbol)) == "" || Trim(request.expiry) == "" || request.strike <= 0.0
              || (Trim(Upper(request.optionType)) != "CE" && Trim(Upper(request.optionType)) != "PE")
    ensures res == CoverageFailed <==> res != InvalidRequest && Coverage(rows, Normal(request)) < limits.minCoverage
    ensures res.Exact? ==>
              && res.at < |rows| && Tradable(rows[res.at], Normal(request))
              && rows[res.at].strike == Some(request.strike)
    ensures res.Fallback? ==>
              && limits.allowFallback && res.at < |rows| && Tradable(rows[res.at], Normal(request))
              && rows[res.at].strike.Some?
              && res.distance == (if rows[res.at].strike.value > request.strike
                                  then rows[res.at].strike.value - request.strike
                                  else request.strike - rows[res.at].strike.value)
              && 0.0 < res.distance <= limits.maxDistance
    ensures res.Exact? ==>
              forall j :: 0 <= j < res.at && Tradable(rows[j], Normal(request)) ==>
                rows[j].strike != Some(request.strike)
    ensures res.Fallback? ==>
              forall j :: 0 <= j < |rows| && Tradable(rows[j], Normal(request)) && rows[j].strike.Some? ==>
                var miss := if rows[j].strike.value > request.strike then rows[j].strike.value - request.strike
                            else request.strike - rows[j].strike.value;
                res.distance <= miss && (j < res.at ==> res.distance < miss)
    ensures res.Fallback? || res == NotFound ==>
              forall row :: row in rows && Tradable(row, Normal(request)) ==> row.strike != Some(request.strike)
    ensures res == NotFound && limits.allowFallback ==>
              forall row :: row in rows && Tradable(row, Normal(request)) && row.strike.Some? ==>
                row.strike.value - request.strike > limits.maxDistance
                || request.strike - row.strike.value > limits.maxDistance
  {
    hide Trim, Upper, Coverage, Tradable;
  }
}
