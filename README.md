# gl-ai-check: the visibility-check endpoint, modelled in Dafny

The repository is a small dashboard. Its one piece of logic is the endpoint
`GET /api/check`. It searches a fixed, ordered list of seven phrases with a
third-party search API, one phrase at a time, and asks whether any organic
result links to a URL containing `gamelayer.io`. It stops at the first
phrase with such a result. It answers with a report
`{found, foundQuery, checked, timestamp}`. Before the scan it answers 405 to
a request that is not a GET. It answers 500 when the `SERPAPI_KEY` key is
absent or empty. An error thrown while fetching or parsing a search response
also gives 500 ("Monitoring failed", with the error's message as details).

`check.dfy` (module `Check`) models that handler:

- The network is a parameter. `search: string -> Fetch` gives, for each
  phrase, either the parsed response (`Fetched`) or the message of the error
  thrown (`Threw`). Results and their `link` fields may be missing, as in the
  source.
- `Contains`, `SomeLinkContains` and `Hit` model the per-phrase test
  `results.some(r => (r.link || "").includes("gamelayer.io"))`.
- `ScanQueries` and `Fetches` are a recursive specification of the scan: what
  it reports, and which phrases it searches for. `Respond` and `Issued` build
  the whole answer and the whole list of searches from them.
- `RunScan` is the source's loop. It updates `found`, `foundQuery` and
  `checked` step by step, stops early with `break` on a hit, and returns
  early on a thrown error. It is proved equal to `ScanQueries`/`Fetches`.
- `Handler` holds the two gates, calls the scan, maps a failure to 500 and
  builds the payload. It is proved equal to `Respond`/`Issued`.
- The lemmas prove the properties the handler promises.

`wrappers.dfy` (module `Wrappers`) defines `Option` (JavaScript's missing
values) and `Result` (a value or a thrown error).

The handler has one mode: it stops at the first hit and records one boolean
per phrase; it computes no rank.

## Model

| member | source | states |
|---|---|---|
| Check.Handler | pages/api/check.ts:5-59 | the handler's response equals `Respond` and the phrases it searches for equal `Issued`: 405 for a non-GET request, 500 for a missing key, 500 "Monitoring failed" with the error message on a thrown search, otherwise 200 with the scan's report and the given timestamp |
| Check.RunScan | pages/api/check.ts:29-45 | the loop with early exit over the phrases returns exactly the recursive scan `ScanQueries` (a thrown error becomes `Failure` with its message) and searches exactly the phrases `Fetches` lists |
| Check.ShorterNeverContains | pages/api/check.ts:38 | a string shorter than the substring never contains it, so the empty string that stands in for a missing link never contains `gamelayer.io` |
| Check.SomeLinkContainsIff | pages/api/check.ts:38 | the left-to-right `some` over the results is true exactly when some result's link (missing read as "") contains the substring |
| Check.HitMeaning | pages/api/check.ts:37-38 | a response is a hit iff one of its results' links contains `gamelayer.io`; a result without a link never matches; a response without `organic_results` is not a hit |
| Check.ScanIsPrefix | pages/api/check.ts:31-39 | `checked` is no longer than the phrase list and its i-th entry is for the i-th phrase (an in-order prefix) |
| Check.ScanEntriesFaithful | pages/api/check.ts:35-39 | every recorded phrase was fetched and parsed without error, and its entry's `found` is exactly the hit test of its response |
| Check.ScanHitOnlyLast | pages/api/check.ts:39-44 | every entry except the last has `found == false`, so at most one entry is a hit and only the last can be |
| Check.ScanAgreement | pages/api/check.ts:29-44 | `found` holds iff `foundQuery` is set iff the last entry is a hit, and then `foundQuery` is the last entry's phrase |
| Check.ScanExhaustiveWhenNotFound | pages/api/check.ts:33-45 | when nothing was found, every phrase was scanned (`checked` has one entry per phrase) and every entry is a miss |
| Check.ScanFindsFirstHit | pages/api/check.ts:33-44 | the scan reports `found` with `foundQuery` equal to the k-th phrase and k+1 entries iff the k-th phrase's response is a hit and every earlier phrase was a miss |
| Check.ScanFailsIff | pages/api/check.ts:33-36 | the scan fails with message m iff some phrase's search threw m and every earlier phrase was a miss |
| Check.ScanFetches | pages/api/check.ts:33-45 | on success the phrases searched for are exactly the recorded ones, in order; on failure they are an in-order prefix of the list that ends with the phrase whose search threw |
| Check.NonGetRejected | pages/api/check.ts:9-11 | a non-GET request gets 405 "Method not allowed" and no phrase is searched for |
| Check.MissingKeyRejected | pages/api/check.ts:14-17 | a GET with no key or an empty key gets 500 "Missing SERPAPI_KEY environment variable." and no phrase is searched for |
| Check.FailureReported | pages/api/check.ts:56-58 | when a search throws m before any hit, the answer is 500 "Monitoring failed" with details m and carries no report |
| Check.ReportWellFormed | pages/api/check.ts:47-55 | every 200 answer is a report carrying the given timestamp whose `checked` is an in-order prefix of the seven phrases with a hit only in last position, whose `found` and `foundQuery` agree with the last entry, and which covers all seven phrases when nothing was found |
| Check.StatusCodes | pages/api/check.ts:9-58 | the answer is 200 with a report, 405 with the method error, or 500 with an error object |

## Left out

- Network access: `fetch`, `r.json()`, building the URL and `encodeURIComponent` (pages/api/check.ts:34-36). Each phrase's outcome is the input `search`, fixed for the configured key.
- The environment: reading `process.env.SERPAPI_KEY` (pages/api/check.ts:14). The key is an `Option<string>` parameter.
- The clock: `new Date().toISOString()` (pages/api/check.ts:47). The timestamp is an input string, copied into the report unchanged.
- The best-effort write of the report to `/tmp/last_check.json`, whose errors are swallowed (pages/api/check.ts:51-53). It is file I/O, and nothing in the response depends on it.
- Response bodies of other shapes: `search` describes only what JavaScript evaluates, not the raw JSON. The source throws on these bodies: unparsable JSON (pages/api/check.ts:36); a `null` body (pages/api/check.ts:37); a truthy `organic_results` that is not an array (pages/api/check.ts:38); and, when `some` reaches them before any match (pages/api/check.ts:38), a `null` or `undefined` entry, a string entry (its `link` is the `String.prototype.link` function, which has no `includes`), and a link that is `true`, a number, or an object without `includes`. Each of these is written as `Threw`. Every other body does not throw, and is written as the `Fetched` value with the same hit result. A falsy `organic_results` is `None`, a falsy link or a number or boolean entry is a result without a link, an array link is the link `gamelayer.io` when that string is one of its elements and a missing link otherwise, and entries after the first matching one, which `some` never reaches, are dropped.
- The front end, pages/index.tsx: UI rendering and its own `fetch` of the endpoint, with no logic of its own.
- Concurrency: none exists. Each search is awaited before the next one, and the model is sequential in the same way.
