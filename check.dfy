/** The visibility-check endpoint (`GET /api/check`).

    The handler asks a search engine, once per phrase of a fixed list and in
    that order, whether any organic result links to the target domain, stops
    at the first phrase that has such a result, and answers with a report
    `{found, foundQuery, checked, timestamp}`. Before scanning it rejects a
    request that is not a GET (405) and a missing API key (500); any error
    thrown while fetching or parsing a search response turns the whole answer
    into a 500.

    The network is a parameter: `search` gives, for each phrase, what fetching
    and parsing that phrase's search response yields. `Respond` and `Issued`
    are the specification of the handler's answer and of the searches it
    issues. `RunScan` is the handler's loop with its early exit, proved to
    agree with `ScanQueries` and `Fetches`; `Handler` holds the two gates,
    calls `RunScan` and builds the answer, and is proved to agree with
    `Respond` and `Issued`. */
module Check {
  import opened Wrappers

  /** The substring a result link must contain to count as a hit. */
  const Target: string := "gamelayer.io"

  /** The fixed, ordered list of phrases the handler searches for. */
  const Queries: seq<string> := [
    "gamification API",
    "gamification API platform",
    "gamification tools for developers",
    "gamification as a service",
    "missions and achievements API",
    "add gamification to app",
    "loyalty gamification platform"
  ]

  const MethodNotAllowed: string := "Method not allowed"
  const MissingKeyMessage: string := "Missing SERPAPI_KEY environment variable."
  const MonitoringFailed: string := "Monitoring failed"

  // ---------------------------------------------------------------------------
  // Upstream data
  // ---------------------------------------------------------------------------

  /** One entry of a response's `organic_results`; its `link` may be missing. */
  datatype OrganicResult = OrganicResult(link: Option<string>)

  /** The parsed body of one search response; `organic_results` may be missing. */
  datatype SearchData = SearchData(organicResults: Option<seq<OrganicResult>>)

  /** What fetching and parsing the response for one phrase gives: the parsed
      body, or the message of the error that was thrown. */
  datatype Fetch = Fetched(data: SearchData) | Threw(message: string)

  // ---------------------------------------------------------------------------
  // Response
  // ---------------------------------------------------------------------------

  /** One element of the report's `checked` list. */
  datatype CheckedEntry = CheckedEntry(query: string, found: bool)

  /** What the scan over the phrases produces: the report without its timestamp. */
  datatype Scan = Scan(found: bool, foundQuery: Option<string>, checked: seq<CheckedEntry>)

  /** The JSON report of a successful check; `foundQuery` is `null` when `None`. */
  datatype Payload = Payload(found: bool, foundQuery: Option<string>,
                             checked: seq<CheckedEntry>, timestamp: string)

  /** A response body: the report, or an error object with optional details. */
  datatype Body = Report(payload: Payload) | Error(error: string, details: Option<string>)

  datatype Response = Response(status: int, body: Body)

  // ---------------------------------------------------------------------------
  // The per-phrase hit test
  // ---------------------------------------------------------------------------

  /** `s.includes(sub)`: `sub` occurs in `s` at some offset. */
  predicate Contains(s: string, sub: string)
  {
    exists i :: 0 <= i <= |s| && sub <= s[i..]
  }

  /** `r.link || ""`: a missing link reads as the empty string. */
  function LinkOf(r: OrganicResult): string
  {
    r.link.GetOr("")
  }

  /** `data.organic_results || []`: missing results read as the empty list. */
  function ResultsOf(d: SearchData): seq<OrganicResult>
  {
    d.organicResults.GetOr([])
  }

  /** `results.some(r => (r.link || "").includes(sub))`, walked left to right. */
  predicate SomeLinkContains(results: seq<OrganicResult>, sub: string)
    decreases |results|
  {
    |results| > 0 && (Contains(LinkOf(results[0]), sub) || SomeLinkContains(results[1..], sub))
  }

  /** The `hit` of one search response. */
  predicate Hit(d: SearchData)
  {
    SomeLinkContains(ResultsOf(d), Target)
  }

  /** A string shorter than `sub` does not contain it; in particular the empty
      string stands in for a missing link and never contains the target. */
  lemma ShorterNeverContains(s: string, sub: string)
    requires |s| < |sub|
    ensures !Contains(s, sub)
  {
    forall i | 0 <= i <= |s|
      ensures !(sub <= s[i..])
    {
      assert |s[i..]| < |sub|;
    }
  }

  /** The left-to-right walk of `some` finds a match exactly when some result's
      link contains `sub`. */
  lemma {:induction false} SomeLinkContainsIff(results: seq<OrganicResult>, sub: string)
    ensures SomeLinkContains(results, sub) <==>
              exists i :: 0 <= i < |results| && Contains(LinkOf(results[i]), sub)
    decreases |results|
  {
    if |results| > 0 {
      var tail := results[1..];
      SomeLinkContainsIff(tail, sub);
      if SomeLinkContains(tail, sub) {
        var j :| 0 <= j < |tail| && Contains(LinkOf(tail[j]), sub);
        assert tail[j] == results[j + 1];
      }
      if exists i :: 0 <= i < |results| && Contains(LinkOf(results[i]), sub) {
        var i :| 0 <= i < |results| && Contains(LinkOf(results[i]), sub);
        if i > 0 {
          assert results[i] == tail[i - 1];
        }
      }
    }
  }

  /** A response is a hit exactly when one of its results links to the target;
      a result without a link never matches, and a response without
      `organic_results` is never a hit. */
  lemma HitMeaning(d: SearchData)
    ensures Hit(d) <==>
              exists i :: 0 <= i < |ResultsOf(d)| && Contains(LinkOf(ResultsOf(d)[i]), Target)
    ensures forall r: OrganicResult :: r.link.None? ==> !Contains(LinkOf(r), Target)
    ensures d.organicResults.None? ==> !Hit(d)
  {
    SomeLinkContainsIff(ResultsOf(d), Target);
    forall r: OrganicResult | r.link.None?
      ensures !Contains(LinkOf(r), Target)
    {
      ShorterNeverContains(LinkOf(r), Target);
    }
  }

  // ---------------------------------------------------------------------------
  // Specification of the scan
  // ---------------------------------------------------------------------------

  /** Phrase `q` was fetched and parsed and its response is not a hit. */
  predicate Miss(search: string -> Fetch, q: string)
  {
    search(q).Fetched? && !Hit(search(q).data)
  }

  /** Phrase `q` was fetched and parsed and its response is a hit. */
  predicate HitFor(search: string -> Fetch, q: string)
  {
    search(q).Fetched? && Hit(search(q).data)
  }

  /** Puts `prefix` in front of the `checked` list of a successful scan. */
  function Prepend(prefix: seq<CheckedEntry>, r: Result<Scan, string>): Result<Scan, string>
  {
    match r
    case Success(s) => Success(s.(checked := prefix + s.checked))
    case Failure(m) => Failure(m)
  }

  /** The scan over `queries`: the first phrase decides; a thrown error aborts
      the whole scan, a hit ends it, a miss is recorded and the scan goes on. */
  function ScanQueries(queries: seq<string>, search: string -> Fetch): Result<Scan, string>
    decreases |queries|
  {
    if queries == [] then Success(Scan(false, None, []))
    else
      var q := queries[0];
      match search(q)
      case Threw(m) => Failure(m)
      case Fetched(data) =>
        if Hit(data) then Success(Scan(true, Some(q), [CheckedEntry(q, true)]))
        else Prepend([CheckedEntry(q, false)], ScanQueries(queries[1..], search))
  }

  /** The phrases whose search the scan issues, in order: every phrase up to
      and including the first that is not a miss. */
  function Fetches(queries: seq<string>, search: string -> Fetch): seq<string>
    decreases |queries|
  {
    if queries == [] then []
    else if Miss(search, queries[0]) then [queries[0]] + Fetches(queries[1..], search)
    else [queries[0]]
  }

  /** `!apiKey`: the key is absent or empty. */
  predicate MissingKey(apiKey: Option<string>)
  {
    apiKey.None? || apiKey.value == ""
  }

  /** The handler's answer to a request with method `requestMethod`, given the
      configured key, the search outcomes and the current time. */
  function Respond(requestMethod: Option<string>, apiKey: Option<string>,
                   search: string -> Fetch, timestamp: string): Response
  {
    if requestMethod != Some("GET") then Response(405, Error(MethodNotAllowed, None))
    else if MissingKey(apiKey) then Response(500, Error(MissingKeyMessage, None))
    else
      match ScanQueries(Queries, search)
      case Failure(m) => Response(500, Error(MonitoringFailed, Some(m)))
      case Success(s) => Response(200, Report(Payload(s.found, s.foundQuery, s.checked, timestamp)))
  }

  /** The phrases the handler searches for while answering the request. */
  function Issued(requestMethod: Option<string>, apiKey: Option<string>,
                  search: string -> Fetch): seq<string>
  {
    if requestMethod != Some("GET") || MissingKey(apiKey) then [] else Fetches(Queries, search)
  }

  // ---------------------------------------------------------------------------
  // The handler
  // ---------------------------------------------------------------------------

  /** Associativity of `Prepend`, which the loop invariant of `RunScan` needs. */
  lemma PrependPrepend(a: seq<CheckedEntry>, b: seq<CheckedEntry>, r: Result<Scan, string>)
    ensures Prepend(a, Prepend(b, r)) == Prepend(a + b, r)
  {
    if r.Success? {
      assert a + (b + r.value.checked) == (a + b) + r.value.checked;
    }
  }

  /** The request handler. `fetched` lists the phrases it searched for, in the
      order it searched for them. An error thrown by the scan is caught here
      and answered with 500. */
  method Handler(requestMethod: Option<string>, apiKey: Option<string>,
                 search: string -> Fetch, timestamp: string)
    returns (resp: Response, fetched: seq<string>)
    ensures resp == Respond(requestMethod, apiKey, search, timestamp)
    ensures fetched == Issued(requestMethod, apiKey, search)
  {
    fetched := [];
    if requestMethod != Some("GET") {
      resp := Response(405, Error(MethodNotAllowed, None));
      return;
    }
    if MissingKey(apiKey) {
      resp := Response(500, Error(MissingKeyMessage, None));
      return;
    }
    var outcome;
    outcome, fetched := RunScan(Queries, search);
    match outcome
    case Failure(m) =>
      resp := Response(500, Error(MonitoringFailed, Some(m)));
    case Success(s) =>
      var payload := Payload(s.found, s.foundQuery, s.checked, timestamp);
      resp := Response(200, Report(payload));
  }

  /** The scan loop of the handler: searches the phrases in order, records each
      one, and stops at the first hit; an error thrown by a search ends the
      scan with that error's message. `fetched` lists the phrases searched for. */
  method RunScan(queries: seq<string>, search: string -> Fetch)
    returns (outcome: Result<Scan, string>, fetched: seq<string>)
    ensures outcome == ScanQueries(queries, search)
    ensures fetched == Fetches(queries, search)
  {
    fetched := [];
    var found := false;
    var foundQuery: Option<string> := None;
    var checked: seq<CheckedEntry> := [];

    var i := 0;
    assert queries[i..] == queries;
    if ScanQueries(queries, search).Success? {
      assert checked + ScanQueries(queries, search).value.checked == ScanQueries(queries, search).value.checked;
    }
    while i < |queries|
      invariant 0 <= i <= |queries|
      invariant !found && foundQuery == None
      invariant ScanQueries(queries, search) == Prepend(checked, ScanQueries(queries[i..], search))
      invariant Fetches(queries, search) == fetched + Fetches(queries[i..], search)
    {
      var q := queries[i];
      assert queries[i..][0] == q && queries[i..][1..] == queries[i + 1..];
      fetched := fetched + [q];
      var response := search(q);
      if response.Threw? {
        outcome := Failure(response.message);
        return;
      }
      var hit := SomeLinkContains(ResultsOf(response.data), Target);
      PrependPrepend(checked, [CheckedEntry(q, hit)], ScanQueries(queries[i + 1..], search));
      checked := checked + [CheckedEntry(q, hit)];
      if hit {
        found := true;
        foundQuery := Some(q);
        break;
      }
      i := i + 1;
    }
    if !found {
      assert queries[i..] == [];
      assert checked + [] == checked;
    }
    outcome := Success(Scan(found, foundQuery, checked));
  }

  // ---------------------------------------------------------------------------
  // Properties of the scan
  // ---------------------------------------------------------------------------

  /** `checked` follows the phrase list: it is no longer than the list and its
      i-th entry is for the i-th phrase. */
  lemma {:induction false} ScanIsPrefix(queries: seq<string>, search: string -> Fetch, s: Scan)
    requires ScanQueries(queries, search) == Success(s)
    ensures |s.checked| <= |queries|
    ensures forall i :: 0 <= i < |s.checked| ==> s.checked[i].query == queries[i]
    decreases |queries|
  {
    if queries != [] && Miss(search, queries[0]) {
      var rest := ScanQueries(queries[1..], search).value;
      ScanIsPrefix(queries[1..], search, rest);
      assert s.checked == [CheckedEntry(queries[0], false)] + rest.checked;
    }
  }

  /** Each entry records whether its phrase's response was a hit, and every
      recorded phrase was fetched and parsed without error. */
  lemma {:induction false} ScanEntriesFaithful(queries: seq<string>, search: string -> Fetch, s: Scan)
    requires ScanQueries(queries, search) == Success(s)
    ensures |s.checked| <= |queries|
    ensures forall i :: 0 <= i < |s.checked| ==>
              search(queries[i]).Fetched? && s.checked[i].found == Hit(search(queries[i]).data)
    decreases |queries|
  {
    if queries != [] && Miss(search, queries[0]) {
      var rest := ScanQueries(queries[1..], search).value;
      ScanEntriesFaithful(queries[1..], search, rest);
      assert s.checked == [CheckedEntry(queries[0], false)] + rest.checked;
      forall i | 1 <= i < |s.checked|
        ensures search(queries[i]).Fetched? && s.checked[i].found == Hit(search(queries[i]).data)
      {
        assert queries[i] == queries[1..][i - 1];
      }
    }
  }

  /** At most one entry is a hit, and only the last: every earlier entry is a miss. */
  lemma {:induction false} ScanHitOnlyLast(queries: seq<string>, search: string -> Fetch, s: Scan)
    requires ScanQueries(queries, search) == Success(s)
    ensures forall i :: 0 <= i < |s.checked| - 1 ==> !s.checked[i].found
    decreases |queries|
  {
    if queries != [] && Miss(search, queries[0]) {
      var rest := ScanQueries(queries[1..], search).value;
      ScanHitOnlyLast(queries[1..], search, rest);
      assert s.checked == [CheckedEntry(queries[0], false)] + rest.checked;
    }
  }

  /** `found`, `foundQuery` and the last entry agree: `found` holds exactly when
      `foundQuery` is set, exactly when the last entry is a hit, and then
      `foundQuery` is that entry's phrase. */
  lemma {:induction false} ScanAgreement(queries: seq<string>, search: string -> Fetch, s: Scan)
    requires ScanQueries(queries, search) == Success(s)
    ensures s.found <==> s.foundQuery.Some?
    ensures s.found <==> (|s.checked| > 0 && s.checked[|s.checked| - 1].found)
    ensures s.found ==> s.foundQuery == Some(s.checked[|s.checked| - 1].query)
    decreases |queries|
  {
    if queries != [] && Miss(search, queries[0]) {
      var rest := ScanQueries(queries[1..], search).value;
      ScanAgreement(queries[1..], search, rest);
      assert s.checked == [CheckedEntry(queries[0], false)] + rest.checked;
      if |rest.checked| > 0 {
        assert s.checked[|s.checked| - 1] == rest.checked[|rest.checked| - 1];
      }
    }
  }

  /** Without a hit the scan covered every phrase and recorded each as a miss. */
  lemma {:induction false} ScanExhaustiveWhenNotFound(queries: seq<string>, search: string -> Fetch, s: Scan)
    requires ScanQueries(queries, search) == Success(s)
    requires !s.found
    ensures |s.checked| == |queries|
    ensures forall i :: 0 <= i < |s.checked| ==> !s.checked[i].found
    decreases |queries|
  {
    if queries != [] && Miss(search, queries[0]) {
      var rest := ScanQueries(queries[1..], search).value;
      ScanExhaustiveWhenNotFound(queries[1..], search, rest);
      assert s.checked == [CheckedEntry(queries[0], false)] + rest.checked;
    }
  }

  /** The scan fails with message `m` exactly when some phrase's search threw
      `m` and every phrase before it was a miss. */
  lemma {:induction false} ScanFailsIff(queries: seq<string>, search: string -> Fetch, m: string)
    ensures ScanQueries(queries, search) == Failure(m) <==>
              exists k :: 0 <= k < |queries| && search(queries[k]) == Threw(m) &&
                          forall j :: 0 <= j < k ==> Miss(search, queries[j])
    decreases |queries|
  {
    if queries != [] {
      var tail := queries[1..];
      ScanFailsIff(tail, search, m);
      if Miss(search, queries[0]) {
        assert ScanQueries(queries, search).Failure? <==> ScanQueries(tail, search).Failure?;
        if ScanQueries(tail, search) == Failure(m) {
          var k :| 0 <= k < |tail| && search(tail[k]) == Threw(m) &&
                   forall j :: 0 <= j < k ==> Miss(search, tail[j]);
          assert queries[k + 1] == tail[k];
          forall j | 0 <= j < k + 1
            ensures Miss(search, queries[j])
          {
            if j > 0 { assert queries[j] == tail[j - 1]; }
          }
        }
        if exists k :: 0 <= k < |queries| && search(queries[k]) == Threw(m) &&
                       forall j :: 0 <= j < k ==> Miss(search, queries[j]) {
          var k :| 0 <= k < |queries| && search(queries[k]) == Threw(m) &&
                   forall j :: 0 <= j < k ==> Miss(search, queries[j]);
          assert k > 0;
          assert tail[k - 1] == queries[k];
          forall j | 0 <= j < k - 1
            ensures Miss(search, tail[j])
          {
            assert tail[j] == queries[j + 1];
          }
        }
      } else {
        if exists k :: 0 <= k < |queries| && search(queries[k]) == Threw(m) &&
                       forall j :: 0 <= j < k ==> Miss(search, queries[j]) {
          var k :| 0 <= k < |queries| && search(queries[k]) == Threw(m) &&
                   forall j :: 0 <= j < k ==> Miss(search, queries[j]);
          assert k == 0;
        }
      }
    }
  }

  /** The scan reports a hit exactly when some phrase's response is a hit and
      every phrase before it was a miss; `foundQuery` is then that first phrase. */
  lemma {:induction false} ScanFindsFirstHit(queries: seq<string>, search: string -> Fetch, k: nat)
    requires k < |queries|
    ensures (ScanQueries(queries, search).Success? && ScanQueries(queries, search).value.found &&
             ScanQueries(queries, search).value.foundQuery == Some(queries[k]) &&
             |ScanQueries(queries, search).value.checked| == k + 1)
            <==>
            (HitFor(search, queries[k]) && forall j :: 0 <= j < k ==> Miss(search, queries[j]))
    decreases |queries|
  {
    var tail := queries[1..];
    var r := ScanQueries(queries, search);
    if Miss(search, queries[0]) {
      if k == 0 {
        if r.Success? && r.value.found && |r.value.checked| == 1 {
          ScanAgreement(queries, search, r.value);
          ScanHitOnlyLast(queries, search, r.value);
          ScanEntriesFaithful(queries, search, r.value);
        }
      } else {
        ScanFindsFirstHit(tail, search, k - 1);
        assert tail[k - 1] == queries[k];
        var rt := ScanQueries(tail, search);
        assert r == Prepend([CheckedEntry(queries[0], false)], rt);
        assert (forall j :: 0 <= j < k ==> Miss(search, queries[j])) <==>
               (forall j :: 0 <= j < k - 1 ==> Miss(search, tail[j])) by {
          forall j | 0 <= j < k - 1 ensures tail[j] == queries[j + 1] { }
          if forall j :: 0 <= j < k - 1 ==> Miss(search, tail[j]) {
            forall j | 0 <= j < k ensures Miss(search, queries[j]) {
              if j > 0 { assert queries[j] == tail[j - 1]; }
            }
          }
        }
      }
    } else if k > 0 {
      assert !Miss(search, queries[0]);
      if r.Success? && r.value.found {
        ScanAgreement(queries, search, r.value);
      }
    }
  }

  /** The searches the scan issues: on success exactly the phrases it recorded;
      on failure the phrases up to and including the one whose search threw. */
  lemma {:induction false} ScanFetches(queries: seq<string>, search: string -> Fetch)
    ensures ScanQueries(queries, search).Success? ==>
              |ScanQueries(queries, search).value.checked| <= |queries| &&
              Fetches(queries, search) == queries[..|ScanQueries(queries, search).value.checked|]
    ensures ScanQueries(queries, search).Failure? ==>
              var f := Fetches(queries, search);
              0 < |f| <= |queries| && f == queries[..|f|] &&
              search(f[|f| - 1]) == Threw(ScanQueries(queries, search).error)
    decreases |queries|
  {
    if queries != [] && Miss(search, queries[0]) {
      var tail := queries[1..];
      ScanFetches(tail, search);
      var ft := Fetches(tail, search);
      assert Fetches(queries, search) == [queries[0]] + ft;
      if ScanQueries(tail, search).Success? {
        var n := |ScanQueries(tail, search).value.checked|;
        assert [queries[0]] + tail[..n] == queries[..n + 1];
      } else {
        assert [queries[0]] + tail[..|ft|] == queries[..|ft| + 1];
      }
    }
  }

  // ---------------------------------------------------------------------------
  // Properties of the handler's answer
  // ---------------------------------------------------------------------------

  /** A request that is not a GET gets 405 and triggers no search, whatever the
      key and the search outcomes. */
  lemma NonGetRejected(requestMethod: Option<string>, apiKey: Option<string>,
                       search: string -> Fetch, timestamp: string)
    requires requestMethod != Some("GET")
    ensures Respond(requestMethod, apiKey, search, timestamp) == Response(405, Error(MethodNotAllowed, None))
    ensures Issued(requestMethod, apiKey, search) == []
  {
  }

  /** A GET without a usable key gets 500 with the missing-key message and
      triggers no search, whatever the search outcomes. */
  lemma MissingKeyRejected(apiKey: Option<string>, search: string -> Fetch, timestamp: string)
    requires apiKey == None || apiKey == Some("")
    ensures Respond(Some("GET"), apiKey, search, timestamp) == Response(500, Error(MissingKeyMessage, None))
    ensures Issued(Some("GET"), apiKey, search) == []
  {
  }

  /** When the search for some phrase throws before any hit, the answer is 500
      "Monitoring failed" with the error's message as details, and no partial
      report is returned. */
  lemma FailureReported(apiKey: Option<string>, search: string -> Fetch, timestamp: string, k: nat, m: string)
    requires !MissingKey(apiKey)
    requires k < |Queries| && search(Queries[k]) == Threw(m)
    requires forall j :: 0 <= j < k ==> Miss(search, Queries[j])
    ensures Respond(Some("GET"), apiKey, search, timestamp) == Response(500, Error(MonitoringFailed, Some(m)))
  {
    ScanFailsIff(Queries, search, m);
  }

  /** Every successful answer is a well-formed report over the fixed phrase list. */
  lemma ReportWellFormed(requestMethod: Option<string>, apiKey: Option<string>,
                         search: string -> Fetch, timestamp: string)
    requires Respond(requestMethod, apiKey, search, timestamp).status == 200
    ensures var body := Respond(requestMethod, apiKey, search, timestamp).body;
            body.Report? &&
            var p := body.payload;
            var c := p.checked;
            p.timestamp == timestamp &&
            |c| <= |Queries| && (forall i :: 0 <= i < |c| ==> c[i].query == Queries[i]) &&
            (forall i :: 0 <= i < |c| - 1 ==> !c[i].found) &&
            (p.found <==> p.foundQuery.Some?) &&
            (p.found <==> (|c| > 0 && c[|c| - 1].found)) &&
            (p.found ==> p.foundQuery == Some(c[|c| - 1].query)) &&
            (!p.found ==> |c| == |Queries| && forall i :: 0 <= i < |c| ==> !c[i].found)
  {
    var s := ScanQueries(Queries, search).value;
    ScanIsPrefix(Queries, search, s);
    ScanHitOnlyLast(Queries, search, s);
    ScanAgreement(Queries, search, s);
    if !s.found {
      ScanExhaustiveWhenNotFound(Queries, search, s);
    }
  }

  /** The handler answers 200 with a report, or 405 or 500 with an error object. */
  lemma StatusCodes(requestMethod: Option<string>, apiKey: Option<string>,
                    search: string -> Fetch, timestamp: string)
    ensures var r := Respond(requestMethod, apiKey, search, timestamp);
            (r.status == 200 && r.body.Report?) ||
            (r.status == 405 && r.body == Error(MethodNotAllowed, None)) ||
            (r.status == 500 && r.body.Error?)
  {
  }
}
