# Redirect-chain health checker in Dafny

This project models the redirect-chain resolver of a URL health-check
service: the `HealthChecker` class of `src/server/routes/v1/check.post.ts`.
Given a URL, `check` works as follows:

1. It normalises the URL with `formatUrl`: it adds `http://` when there is no
   http or https scheme, and throws `Invalid URL format` unless `new URL`
   accepts the result.
2. It parses the URL with parse-url.
3. It sends one HEAD request.
4. It records the answer, with its headers lower-cased by
   `normalizeHeaders`, in the `urlInspectionResults` list of the root
   checker.
5. It builds one hop of the result.
6. When the status is a redirect (`isRedirect`: 300 to 399), it reads the raw
   `location` header and checks that location with a fresh `HealthChecker`.
   That child call reports to the same root. The parent then folds the
   child's result in after its own hop.

Every error raised inside the `try` is rethrown as `Health check failed`,
with the original error as its cause.

## How the model is built

- `wrappers.dfy` defines `Option` and `Result`.
- `model.dfy` defines the records of `src/server/models/model.ts`.
- `js_strings.dfy` defines the JavaScript string operations the checker
  uses:
  - ASCII `toLowerCase`;
  - the case-insensitive prefix test of `/^https?:\/\//i`;
  - `includes`;
  - `split(':')[0]`.
- `health_check.dfy` holds the checker itself.
  - The network becomes a script: one `Turn` per call of `check` that
    reaches the probe, in call order. A `Turn` holds the id
    `crypto.randomUUID` gave that call and the answer to its HEAD request.
    The answer is either a response (status, the entries of its headers
    object in that object's key order, body, latency) or a transport
    failure.
  - `new URL` and parse-url are abstract. They sit in a `UrlLibrary` value
    that holds a validity predicate and a parse function that may fail.
  - `Resolve` states, as a function, what a call of `check` returns or
    throws and which records it pushes.
  - `HealthChecker` is a class with a mutable `urlInspectionResults`
    sequence. Its `Check` method follows the source step by step: it pushes
    to the root, creates a fresh child checker and recurses. `Check` is
    proved to return what `Resolve` says and to append exactly
    `Resolve(...).inspected` to the root's list. It also leaves a non-root
    checker's own list unchanged.
- `chain_properties.dfy` proves what `Resolve` guarantees for every script:
  - the shape and hop order of resolved chains;
  - what the side list contains;
  - how errors are wrapped and which answer each one names;
  - that redirects are followed without any limit;
  - that only the root's request id survives.

The source's recursion has no bound, so an unbounded run of redirects would
never end. In the model the script is finite. When the chain still
redirects after the last answer, the outcome is `Pending`. This is only a
proof device. It is not a hop limit: `RedirectsAreFollowedWithoutLimit`
shows that every redirect supplied is followed.

Three facts about the code shape the model:

- `statusCode` and `message` of the result are never assigned, so every
  resolved chain carries status 0 and an empty message.
- There is no loop detection, no hop limit and no resolving of a relative
  `location` against the current URL: line 83 passes the raw `location` to
  the child's `check`, whose `formatUrl` treats it as a URL of its own.
- The records pushed before a failing hop stay in the root's list; nothing
  is rolled back when `check` throws.

## Model

| member | source | states |
|---|---|---|
| JsStrings.ToLower | src/server/routes/v1/check.post.ts:118 | `toLowerCase` on ASCII: each letter A-Z becomes its lower-case letter (`LowerChar`), and every other character is kept, so the length is unchanged. |
| JsStrings.StartsWithIgnoringCase | src/server/routes/v1/check.post.ts:103 | The anchored, case-insensitive match of a lower-case literal: the string begins with the prefix, its letters in any case. |
| JsStrings.Includes | src/server/routes/v1/check.post.ts:57 | `includes`: the part occurs somewhere in the string as a contiguous piece. |
| JsStrings.BeforeFirst | src/server/routes/v1/check.post.ts:66 | `split(sep)[0]`: the string up to its first separator, or the whole string when there is none. |
| JsStrings.ToLowerIdempotent | src/server/routes/v1/check.post.ts:118 | Lower-casing a header name twice gives the same key as lower-casing it once. |
| JsStrings.StartsWithIgnoringCaseLowers | src/server/routes/v1/check.post.ts:103 | The case-insensitive prefix test matches exactly when the lower-cased head of the string equals the lower-case prefix. |
| JsStrings.BeforeFirstSplits | src/server/routes/v1/check.post.ts:66 | `split(':')[0]` is a prefix of the host with no `:` in it. When it is shorter than the host, the host continues with `:`. |
| HealthCheck.IsRedirect | src/server/routes/v1/check.post.ts:98-100 | True exactly when 300 <= status < 400. |
| HealthCheck.HasHttpScheme | src/server/routes/v1/check.post.ts:103 | Whether `/^https?:\/\//i` matches: the string starts with `http://` or `https://`, its letters in any case. |
| HealthCheck.FormatUrl | src/server/routes/v1/check.post.ts:102-113 | The input, with `http://` in front when it lacks an http or https scheme, provided `new URL` accepts that string; otherwise the error `Invalid URL format`. |
| HealthCheck.PrefixedHasHttpScheme | src/server/routes/v1/check.post.ts:103-105 | After `http://` is prefixed, the scheme test always matches. |
| HealthCheck.FormatUrlOutcome | src/server/routes/v1/check.post.ts:102-113 | An input with an http or https scheme (any case) is returned unchanged exactly when `new URL` accepts it. Any other input is returned with `http://` in front exactly when `new URL` accepts that. Otherwise `formatUrl` throws `Invalid URL format`. Every accepted result is valid and has the scheme. |
| HealthCheck.FormatUrlIdempotent | src/server/routes/v1/check.post.ts:102-113 | Formatting a URL that formatting accepted gives the same URL back. |
| HealthCheck.Normalized | src/server/routes/v1/check.post.ts:115-121 | The dictionary from lower-cased header names to their values, a later entry overwriting an earlier one. |
| HealthCheck.NormalizeHeaders | src/server/routes/v1/check.post.ts:115-121 | The loop fills the dictionary that maps each lower-cased header name to its value. A later entry overwrites an earlier one. |
| HealthCheck.NormalizedKeys | src/server/routes/v1/check.post.ts:115-121 | A key is in the normalised headers exactly when some header name lower-cases to it. There are no other keys. |
| HealthCheck.NormalizedLastWins | src/server/routes/v1/check.post.ts:117-118 | Among names that collide after lower-casing, the value of the last entry is kept. |
| HealthCheck.NormalizedKeysAreLowerCase | src/server/routes/v1/check.post.ts:118 | Every key of the normalised headers is already lower-case. |
| HealthCheck.HeaderValue | src/server/routes/v1/check.post.ts:74 | The value of the raw header entry named exactly as asked, or nothing. |
| HealthCheck.HeaderValueFindsEntry | src/server/routes/v1/check.post.ts:74 | `headers['location']` gives the value of an entry named exactly `location`. It is absent exactly when no entry has that name. |
| HealthCheck.HeaderValueOfDistinct | src/server/routes/v1/check.post.ts:74 | In a headers object, whose entry names are distinct, looking up an entry's own name gives that entry's value. |
| HealthCheck.ShapeParsedUrl | src/server/routes/v1/check.post.ts:56-68 | The `parsedUrl` record of a hop, built from the formatted URL and parse-url's parts. |
| HealthCheck.ShapedParts | src/server/routes/v1/check.post.ts:56-68 | The parsedUrl record of a hop has these fields: `slashes` is whether the URL includes `://`; `auth` is `user:password`, `user` alone, or empty when there is no user; `host` is the parsed resource; `hostName` is the resource up to its first `:`; `userName` is the user. |
| HealthCheck.SchemedUrlHasSlashes | src/server/routes/v1/check.post.ts:57 | A URL that passes the scheme test includes `://`. |
| HealthCheck.RecordOf | src/server/routes/v1/check.post.ts:42-47 | The inspection record of an answer: its status, its normalised headers, its body and its latency. |
| HealthCheck.Message | src/server/routes/v1/check.post.ts:94 | The `message` of each error: `Health check failed` for a wrapped one, `Invalid URL format`, `Redirect location missing`, or the transport's or parse-url's own reason. |
| HealthCheck.Resolve | src/server/routes/v1/check.post.ts:16-31 | What `check(url)` ends with and the records it and its descendants push: the call's own formatting or parse error, unwrapped and with nothing pushed; `Pending` when no answer is left; otherwise `Attempt`. |
| HealthCheck.Attempt | src/server/routes/v1/check.post.ts:33-95 | The `try` of one call: a transport failure is wrapped; otherwise the answer's record is pushed, a non-redirect resolves to the one-hop chain, a redirect without a non-empty raw `location` throws a wrapped `Redirect location missing`, and a redirect with one continues through the child call on the rest of the answers. |
| HealthCheck.Followed | src/server/routes/v1/check.post.ts:83-95 | What a redirect hop makes of its child's outcome: a resolved child is folded in by `Accumulate`, a child's error is wrapped once more, and a waiting child leaves the hop waiting. |
| HealthCheck.Accumulate | src/server/routes/v1/check.post.ts:85-89 | The parent's response with one redirect more than the child's and the child's redirects, hops and URLs after the parent's own. |
| HealthCheck.HealthChecker.constructor | src/server/routes/v1/check.post.ts:8 | A new checker starts with an empty `urlInspectionResults` list. |
| HealthCheck.HealthChecker.Root | src/server/routes/v1/check.post.ts:31 | The checker that collects the records: the root checker passed to `check`, or this checker when none is passed. |
| HealthCheck.HealthChecker.Check | src/server/routes/v1/check.post.ts:16-96 | `check` returns or throws what `Resolve` says. The root's list (`rootChecker` or this checker) grows by exactly the records of the hops probed, even when the check throws. A non-root checker's own list does not change. |
| HealthCheck.HealthChecker.GetUrlInspectionResults | src/server/routes/v1/check.post.ts:123-125 | The getter returns the checker's current list of inspection records. |
| HealthCheck.Inspect | src/server/routes/v1/check.post.ts:31 | When `check` runs with no root, the checker collects its own chain's records. Its list afterwards is exactly the records `Resolve` names. |
| ChainProperties.CheckStep | src/server/routes/v1/check.post.ts:16-96 | One call, by its first answer. An input that fails to format or parse throws its own unwrapped error before any probe. A transport failure is wrapped and pushes nothing. A non-redirect resolves after pushing its record. A redirect without a usable location throws a wrapped `Redirect location missing` after pushing its record. A followed redirect pushes its record in front of the child's, fails exactly when the child fails (with the child's error wrapped once more), and resolves exactly when the child resolves. |
| ChainProperties.ResolvedStep | src/server/routes/v1/check.post.ts:71-92 | A resolved chain keeps the top-level call's id, the formatted input as `requestedUrl`, status 0 and an empty message. It is either the single non-redirect hop, or this redirect hop in front of the child's resolved chain, with one more redirect. |
| ChainProperties.ResolvedFirstHop | src/server/routes/v1/check.post.ts:50-70 | The first hop of a resolved chain carries the parsed parts of the formatted input. |
| ChainProperties.NonRedirectEndsChain | src/server/routes/v1/check.post.ts:73-92 | A first answer that is not a redirect gives zero redirects, no redirect records, one hop, a URL trail holding only the formatted input, and one pushed record. |
| ChainProperties.AccumulateKeepsShape | src/server/routes/v1/check.post.ts:85-89 | Folding a well-formed child chain in after one redirect hop gives a well-formed chain. |
| ChainProperties.ResolvedChainIsWellFormed | src/server/routes/v1/check.post.ts:20-92 | Every resolved chain has these properties: `\|redirects\| == numberOfRedirects`; `\|fullRedirectChains\| == \|redirectUrlChain\| == numberOfRedirects + 1`; `requestedUrl` comes first; `redirectUrlChain[i]` is hop `i`'s URL; every hop but the last is a redirect whose status its redirect record repeats; the last hop is not a redirect; status stays 0 and the message stays empty. |
| ChainProperties.ResolvedHopsAnswerScript | src/server/routes/v1/check.post.ts:23-55 | A resolved chain has one hop per answer it consumed, in order. Each hop carries its answer's status, the side list holds each answer's record in the same order, and the id is the top-level call's. |
| ChainProperties.ResolvedHopsReadLocations | src/server/routes/v1/check.post.ts:73-79 | The `redirectUri` of each redirect record is the non-empty raw `location` of that hop's answer. |
| ChainProperties.ResolvedHopsFormatLocations | src/server/routes/v1/check.post.ts:76-83 | The first URL of the trail is `formatUrl(input)`. The URL after each redirect is that redirect's raw location as `formatUrl` makes it. |
| ChainProperties.ResolvedHopsAreFormattedUrls | src/server/routes/v1/check.post.ts:50-68 | Every hop probed a URL that `new URL` accepts and that has an http or https scheme. Every hop carries parse-url's parts of that URL. |
| ChainProperties.ResolvedHopsHaveSlashes | src/server/routes/v1/check.post.ts:57 | The `slashes` flag of every hop of a resolved chain is true. |
| ChainProperties.InspectionsFollowScript | src/server/routes/v1/check.post.ts:31-48 | Whatever the outcome, the side list holds exactly one record per answered probe, in hop order. Nothing is removed when a later hop fails. A pending chain has a record for every answer. |
| ChainProperties.ThrownErrorDepth | src/server/routes/v1/check.post.ts:93-95 | A thrown error is wrapped once per hop recorded, plus once more when its innermost cause is a transport failure. |
| ChainProperties.ThrownErrorLocatesHop | src/server/routes/v1/check.post.ts:35-75 | A transport failure is the answer just after the last recorded one. A missing location belongs to the last recorded answer, which is a redirect the chain could not follow. |
| ChainProperties.OwnErrorsAreUnwrapped | src/server/routes/v1/check.post.ts:17-18 | An error escapes unwrapped exactly when the top-level input fails `formatUrl` or parse-url. It is then `Invalid URL format` or the parse error, and no record is pushed. |
| ChainProperties.ThrownMessage | src/server/routes/v1/check.post.ts:93-95 | A caller reads `Health check failed` from every error thrown after the input formatted and parsed. Otherwise it reads `Invalid URL format` or parse-url's own message. |
| ChainProperties.PendingOnlyIfEveryAnswerRedirects | src/server/routes/v1/check.post.ts:73-83 | A chain that is still running has followed a redirect with a usable location at every answer. |
| ChainProperties.RedirectsAreFollowedWithoutLimit | src/server/routes/v1/check.post.ts:82-83 | However many redirects arrive, each to a URL that formats and parses, `check` follows all of them and pushes a record for each. This includes a redirect back to the same URL: there is no hop limit and no loop detection. |
| ChainProperties.OnlyTheRootIdIsKept | src/server/routes/v1/check.post.ts:23 | The ids minted by child calls are discarded. The records, and the result apart from its id, depend only on the answers. With the same first id, the results are equal. |

## Left out

- The axios HEAD request, its 10-second timeout and the `Date.now` latency measurement are network I/O and a clock. The model takes them as the script: an answer carries its own latency, and a timeout arrives as a transport failure.
- `crypto.randomUUID` is randomness. Each call's id arrives in its `Turn`.
- `new URL` and parse-url are foreign libraries. They are abstract parameters, so the model assumes nothing about which strings they accept or what parts they return.
- The second `parseUrl` call on line 50 gets the same string as the first call on line 18, which has already succeeded. The model treats parse-url as deterministic and parses once.
- The `console.log` calls are side output only.
- `async`/`await`: each chain is strictly sequential, so the model is synchronous.
- The h3 route handler (lines 128-170) is transport glue: content-type and body checks, and rethrowing errors.
- The commented-out probe code after the route handler is not modelled.
- `src/server/services/HealthCheckService.ts` is not part of this model. It is a wrapper over an external probe library and is not used by the checker.
- The transport's own folding of repeated response headers is not modelled: Node's http module lower-cases names and combines or drops repeats before axios builds the headers object. A header list stands for that object's entries, whose names are pairwise distinct (`DistinctNames`). A list with a repeated name has no counterpart in the source.
- HealthCheck.NormalizeHeaders: header values are modelled as strings already, so `String(v)` is the identity.
- JsStrings.ToLower: lower-cases ASCII letters only. JavaScript's `toLowerCase` also maps non-ASCII letters.
- HealthCheck.HealthChecker.GetUrlInspectionResults: returns the list as a value. The source returns the array itself, so a caller could mutate the checker's list through it; that aliasing is not modelled.
- A chain that keeps redirecting past the last answer in the script ends as `Pending`. The source would keep probing for as long as the network kept redirecting.
