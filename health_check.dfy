/**
 * The redirect-chain resolver of src/server/routes/v1/check.post.ts: the
 * `HealthChecker` class, its helpers `isRedirect`, `formatUrl` and
 * `normalizeHeaders`, and its recursive `check`.
 *
 * What the checker gets from outside is made explicit:
 * - the network and the clock: one `Turn` per call of `check` that reaches
 *   the HEAD request, in call order, holding the id `crypto.randomUUID`
 *   returned to that call and the probe's answer (with its latency);
 * - the URL libraries: a `UrlLibrary` holding the verdict of `new URL(...)`
 *   and the result of `parse-url`, both left abstract.
 */
module HealthCheck {
  import opened Wrappers
  import opened JsStrings
  import opened Model

  // ---------------------------------------------------------------------
  // What the world supplies
  // ---------------------------------------------------------------------

  /** One entry of the headers object the transport delivers. */
  datatype Header = Header(name: string, value: string)

  /**
   * The entries of a JavaScript object have pairwise distinct names, so the
   * header list of a response, read as the object's entries in their own
   * order, satisfies this.
   */
  predicate DistinctNames(headers: seq<Header>) {
    forall i, j :: 0 <= i < j < |headers| ==> headers[i].name != headers[j].name
  }

  /**
   * The answer to one HEAD request: a response (any status, since the
   * transport is told never to throw on a status and never to follow a
   * redirect) or a transport failure such as a refused connection, a DNS
   * failure or the 10-second timeout. The headers are the entries of the
   * response's headers object, in that object's key order.
   */
  datatype ProbeReply =
    | Response(status: int, headers: seq<Header>, body: string, latencyMs: int)
    | Unreachable(reason: string)

  /** What one call of `check` receives from outside: its fresh id and its probe's answer. */
  datatype Turn = Turn(uuid: string, reply: ProbeReply)

  /** What parse-url yields for a URL it can parse. */
  datatype UrlParts = UrlParts(
    protocol: string,
    hash: string,
    query: map<string, string>,
    pathname: string,
    user: string,
    password: string,
    resource: string,
    port: string)

  /**
   * The two URL libraries: whether `new URL(u)` accepts `u`, and what
   * `parseUrl(u)` returns or the message it throws.
   */
  datatype UrlLibrary = UrlLibrary(
    isValidUrl: string -> bool,
    parseUrl: string -> Result<UrlParts, string>)

  /** The errors `check` can throw; `HealthCheckFailed` wraps its cause. */
  datatype Failure =
    | InvalidUrlFormat
    | UrlParseFailed(reason: string)
    | ProbeFailed(reason: string)
    | RedirectLocationMissing
    | HealthCheckFailed(cause: Failure)

  /** The `message` of each error. */
  function Message(e: Failure): string {
    match e
    case InvalidUrlFormat => "Invalid URL format"
    case UrlParseFailed(reason) => reason
    case ProbeFailed(reason) => reason
    case RedirectLocationMissing => "Redirect location missing"
    case HealthCheckFailed(_) => "Health check failed"
  }

  /**
   * How a call of `check` ends: it returns a response, it throws, or it is
   * still waiting on the network because the chain kept redirecting past
   * the last scripted answer.
   */
  datatype Outcome =
    | Resolved(response: GeneralCheckResponse)
    | Threw(error: Failure)
    | Pending

  // ---------------------------------------------------------------------
  // isRedirect and formatUrl
  // ---------------------------------------------------------------------

  /** `isRedirect`: a 3xx status. */
  predicate IsRedirect(statusCode: int) {
    300 <= statusCode < 400
  }

  /** Whether `/^https?:\/\//i` matches `url`. */
  predicate HasHttpScheme(url: string) {
    StartsWithIgnoringCase(url, "http://") || StartsWithIgnoringCase(url, "https://")
  }

  lemma PrefixedHasHttpScheme(url: string)
    ensures HasHttpScheme("http://" + url)
  {
    StartsWithOwnPrefix("http://", url);
  }

  /**
   * `formatUrl`: adds `http://` to a URL that has no http or https scheme,
   * then keeps the URL only if `new URL` accepts it.
   */
  function FormatUrl(url: string, isValidUrl: string -> bool): Result<string, Failure> {
    var candidate := if HasHttpScheme(url) then url else "http://" + url;
    if isValidUrl(candidate) then Ok(candidate) else Err(InvalidUrlFormat)
  }

  lemma FormatUrlOutcome(url: string, isValidUrl: string -> bool)
    ensures var r := FormatUrl(url, isValidUrl);
      && (r.Ok? ==> HasHttpScheme(r.value) && isValidUrl(r.value))
      && (HasHttpScheme(url) ==> (r.Ok? <==> isValidUrl(url)) && (r.Ok? ==> r.value == url))
      && (!HasHttpScheme(url) ==> (r.Ok? <==> isValidUrl("http://" + url)) && (r.Ok? ==> r.value == "http://" + url))
      && (r.Err? ==> r.error == InvalidUrlFormat)
  {
    PrefixedHasHttpScheme(url);
  }

  /** Formatting a URL that formatting accepted gives it back unchanged. */
  lemma FormatUrlIdempotent(url: string, isValidUrl: string -> bool)
    requires FormatUrl(url, isValidUrl).Ok?
    ensures FormatUrl(FormatUrl(url, isValidUrl).value, isValidUrl) == FormatUrl(url, isValidUrl)
  {
    FormatUrlOutcome(url, isValidUrl);
  }

  // ---------------------------------------------------------------------
  // normalizeHeaders
  // ---------------------------------------------------------------------

  /**
   * The dictionary `normalizeHeaders` builds from the first `|headers|`
   * entries: each name lower-cased, a later entry overwriting an earlier one.
   */
  function Normalized(headers: seq<Header>): map<string, string> {
    if headers == [] then map[]
    else
      var last := headers[|headers| - 1];
      Normalized(headers[..|headers| - 1])[ToLower(last.name) := last.value]
  }

  /** `normalizeHeaders`: fills a fresh dictionary entry by entry. */
  method NormalizeHeaders(headers: seq<Header>) returns (normalized: map<string, string>)
    ensures normalized == Normalized(headers)
  {
    normalized := map[];
    var i := 0;
    while i < |headers|
      invariant 0 <= i <= |headers|
      invariant normalized == Normalized(headers[..i])
    {
      assert headers[..i + 1][..i] == headers[..i];
      normalized := normalized[ToLower(headers[i].name) := headers[i].value];
      i := i + 1;
    }
    assert headers[..i] == headers;
  }

  lemma {:induction false} NormalizedKeys(headers: seq<Header>, key: string)
    ensures key in Normalized(headers) <==>
            exists i :: 0 <= i < |headers| && ToLower(headers[i].name) == key
  {
    if headers != [] {
      var front := headers[..|headers| - 1];
      NormalizedKeys(front, key);
      if key in Normalized(front) {
        var i :| 0 <= i < |front| && ToLower(front[i].name) == key;
        assert headers[i] == front[i];
      }
      if exists i :: 0 <= i < |headers| && ToLower(headers[i].name) == key {
        var i :| 0 <= i < |headers| && ToLower(headers[i].name) == key;
        if i < |front| {
          assert front[i] == headers[i];
        }
      }
    }
  }

  lemma {:induction false} NormalizedLastWins(headers: seq<Header>, i: nat)
    requires i < |headers|
    requires forall j :: i < j < |headers| ==> ToLower(headers[j].name) != ToLower(headers[i].name)
    ensures ToLower(headers[i].name) in Normalized(headers)
    ensures Normalized(headers)[ToLower(headers[i].name)] == headers[i].value
  {
    var front := headers[..|headers| - 1];
    if i < |front| {
      assert front[i] == headers[i];
      forall j | i < j < |front|
        ensures ToLower(front[j].name) != ToLower(front[i].name)
      {
        assert front[j] == headers[j];
      }
      NormalizedLastWins(front, i);
    }
  }

  lemma {:induction false} NormalizedKeysAreLowerCase(headers: seq<Header>, key: string)
    requires key in Normalized(headers)
    ensures ToLower(key) == key
  {
    NormalizedKeys(headers, key);
    var i :| 0 <= i < |headers| && ToLower(headers[i].name) == key;
    ToLowerIdempotent(headers[i].name);
  }

  // ---------------------------------------------------------------------
  // Reading the raw headers and shaping the parsed URL
  // ---------------------------------------------------------------------

  /**
   * `headers[name]` on the transport's own headers: the value of the entry
   * named exactly `name`, or nothing. An object has at most one such entry;
   * on a list with repeated names this takes the last.
   */
  function HeaderValue(headers: seq<Header>, name: string): Option<string> {
    if headers == [] then None
    else if headers[|headers| - 1].name == name then Some(headers[|headers| - 1].value)
    else HeaderValue(headers[..|headers| - 1], name)
  }

  lemma {:induction false} HeaderValueFindsEntry(headers: seq<Header>, name: string)
    ensures HeaderValue(headers, name).Some? ==>
            exists i :: 0 <= i < |headers| && headers[i] == Header(name, HeaderValue(headers, name).value)
    ensures HeaderValue(headers, name).None? <==> forall i :: 0 <= i < |headers| ==> headers[i].name != name
  {
    if headers != [] && headers[|headers| - 1].name != name {
      var front := headers[..|headers| - 1];
      HeaderValueFindsEntry(front, name);
      assert forall i :: 0 <= i < |front| ==> front[i] == headers[i];
    }
  }

  /** Looking up an entry's own name in a headers object gives that entry's value. */
  lemma {:induction false} HeaderValueOfDistinct(headers: seq<Header>, i: nat)
    requires DistinctNames(headers) && i < |headers|
    ensures HeaderValue(headers, headers[i].name) == Some(headers[i].value)
  {
    var last := |headers| - 1;
    if i < last {
      var front := headers[..last];
      assert headers[last].name != headers[i].name;
      assert front[i] == headers[i];
      forall a, b | 0 <= a < b < |front|
        ensures front[a].name != front[b].name
      {
        assert front[a] == headers[a] && front[b] == headers[b];
      }
      HeaderValueOfDistinct(front, i);
    }
  }

  /** The `parsedUrl` record a hop carries, shaped from parse-url's result. */
  function ShapeParsedUrl(formattedUrl: string, parts: UrlParts): ParsedUrl {
    ParsedUrl(
      slashes := Includes(formattedUrl, "://"),
      protocol := parts.protocol,
      hash := parts.hash,
      query := parts.query,
      pathName := parts.pathname,
      auth := if parts.user != "" then
                parts.user + (if parts.password != "" then ":" + parts.password else "")
              else "",
      host := parts.resource,
      port := parts.port,
      hostName := BeforeFirst(parts.resource, ':'),
      userName := parts.user)
  }

  lemma ShapedParts(formattedUrl: string, parts: UrlParts)
    ensures var p := ShapeParsedUrl(formattedUrl, parts);
      && (p.slashes <==> Includes(formattedUrl, "://"))
      && (p.auth == "" <==> parts.user == "")
      && (parts.user != "" && parts.password != "" ==> p.auth == parts.user + ":" + parts.password)
      && (parts.user != "" && parts.password == "" ==> p.auth == parts.user)
      && p.hostName <= p.host && ':' !in p.hostName
      && (|p.hostName| < |p.host| ==> p.host[|p.hostName|] == ':')
      && p.host == parts.resource && p.userName == parts.user
  {
    BeforeFirstSplits(parts.resource, ':');
  }

  /** A URL that starts with an http or https scheme contains `://`. */
  lemma SchemedUrlHasSlashes(url: string)
    requires HasHttpScheme(url)
    ensures Includes(url, "://")
  {
    var scheme := if StartsWithIgnoringCase(url, "http://") then "http://" else "https://";
    var k := |scheme| - 3;
    MatchedNonLetter(url, scheme, k);
    MatchedNonLetter(url, scheme, k + 1);
    MatchedNonLetter(url, scheme, k + 2);
    assert url[k..k + 3] == "://";
    IncludesAt(url, "://", k);
  }

  /**
   * Regrouping the root's list after a child call; as a lemma call it keeps
   * `Check`'s proof small.
   */
  lemma ConcatAssociates<T>(a: seq<T>, b: seq<T>, c: seq<T>)
    ensures a + b + c == a + (b + c)
  {
  }

  /** The inspection record of one answered probe. */
  function RecordOf(reply: ProbeReply): UrlInspectionResponse
    requires reply.Response?
  {
    UrlInspectionResponse(reply.status, Normalized(reply.headers), reply.body, reply.latencyMs)
  }

  // ---------------------------------------------------------------------
  // check, as a function of its inputs
  // ---------------------------------------------------------------------

  /** How one call of `check` ends, and the inspection records it and its descendants push to the root. */
  datatype Run = Run(outcome: Outcome, inspected: seq<UrlInspectionResponse>)

  /**
   * `check(url)` when its probes are answered by `script` in order. What
   * happens before the `try` (formatting and parsing `url`) throws this
   * call's own, unwrapped errors; the rest is `Attempt`.
   */
  function Resolve(url: string, script: seq<Turn>, lib: UrlLibrary): Run
    decreases |script|, 1
  {
    var formatting := FormatUrl(url, lib.isValidUrl);
    if formatting.Err? then Run(Threw(formatting.error), [])
    else
      var parsing := lib.parseUrl(formatting.value);
      if parsing.Err? then Run(Threw(UrlParseFailed(parsing.error)), [])
      else if script == [] then Run(Pending, [])
      else Attempt(formatting.value, parsing.value, script, lib)
  }

  /**
   * The `try` of `check` for the formatted URL and its parts: probe, record
   * the hop, and on a redirect follow the raw `location` through a child
   * call. The `catch` wraps every error raised here, the child's included.
   */
  function Attempt(formattedUrl: string, parts: UrlParts, script: seq<Turn>, lib: UrlLibrary): Run
    requires script != []
    decreases |script|, 0
  {
    var turn := script[0];
    if turn.reply.Unreachable? then
      Run(Threw(HealthCheckFailed(ProbeFailed(turn.reply.reason))), [])
    else
      var response := turn.reply;
      var hop := FullRedirect(response.status, formattedUrl, ShapeParsedUrl(formattedUrl, parts));
      var own := GeneralCheckResponse(turn.uuid, 0, "", formattedUrl, 0, [], [hop], [formattedUrl]);
      if !IsRedirect(response.status) then Run(Resolved(own), [RecordOf(response)])
      else
        var location := HeaderValue(response.headers, "location");
        if location.None? || location.value == "" then
          Run(Threw(HealthCheckFailed(RedirectLocationMissing)), [RecordOf(response)])
        else
          var child := Resolve(location.value, script[1..], lib);
          Run(Followed(own.(redirects := [Redirect(response.status, location.value)]), child.outcome),
              [RecordOf(response)] + child.inspected)
  }

  /**
   * What a redirect hop's call makes of its child's outcome: it folds the
   * child's response into its own, or wraps the child's error.
   */
  function Followed(own: GeneralCheckResponse, child: Outcome): Outcome {
    match child
    case Resolved(c) => Resolved(Accumulate(own, c))
    case Threw(e) => Threw(HealthCheckFailed(e))
    case Pending => Pending
  }

  /** Folds a child's response into its parent's: one more redirect, and the child's lists after the parent's. */
  function Accumulate(own: GeneralCheckResponse, child: GeneralCheckResponse): GeneralCheckResponse {
    own.(numberOfRedirects := child.numberOfRedirects + 1,
         redirects := own.redirects + child.redirects,
         fullRedirectChains := own.fullRedirectChains + child.fullRedirectChains,
         redirectUrlChain := own.redirectUrlChain + child.redirectUrlChain)
  }

  // ---------------------------------------------------------------------
  // The class
  // ---------------------------------------------------------------------

  class HealthChecker {
    /** The root checker's side list: one record per probed hop of its chain. */
    var urlInspectionResults: seq<UrlInspectionResponse>

    constructor ()
      ensures urlInspectionResults == []
    {
      urlInspectionResults := [];
    }

    /** `rootChecker || this`: the checker that collects the inspection records. */
    function Root(rootChecker: HealthChecker?): HealthChecker {
      if rootChecker == null then this else rootChecker
    }

    /**
     * `check(url, rootChecker)`. Only the root's side list changes, by the
     * records of every hop probed, even when the check then throws.
     */
    method Check(url: string, rootChecker: HealthChecker?, script: seq<Turn>, lib: UrlLibrary)
      returns (outcome: Outcome)
      modifies Root(rootChecker)
      decreases |script|
      ensures outcome == Resolve(url, script, lib).outcome
      ensures Root(rootChecker).urlInspectionResults
              == old(Root(rootChecker).urlInspectionResults) + Resolve(url, script, lib).inspected
      ensures rootChecker != null && rootChecker != this ==> urlInspectionResults == old(urlInspectionResults)
    {
      var formatting := FormatUrl(url, lib.isValidUrl);
      if formatting.Err? {
        return Threw(formatting.error);
      }
      var formattedUrl := formatting.value;
      var pUrl := lib.parseUrl(formattedUrl);
      if pUrl.Err? {
        return Threw(UrlParseFailed(pUrl.error));
      }
      if script == [] {
        return Pending;
      }
      var generalResponse := GeneralCheckResponse(script[0].uuid, 0, "", formattedUrl, 0, [], [], []);
      var root := Root(rootChecker);
      ghost var before := root.urlInspectionResults;
      assert Resolve(url, script, lib) == Attempt(formattedUrl, pUrl.value, script, lib);

      // The body of the `try`: every error raised here is wrapped.
      var response := script[0].reply;
      if response.Unreachable? {
        return Threw(HealthCheckFailed(ProbeFailed(response.reason)));
      }
      var headers := NormalizeHeaders(response.headers);
      assert headers == RecordOf(response).headers;
      var inspectionResponse := UrlInspectionResponse(response.status, headers, response.body, response.latencyMs);
      root.urlInspectionResults := root.urlInspectionResults + [inspectionResponse];
      var fullRedirect := FullRedirect(response.status, formattedUrl, ShapeParsedUrl(formattedUrl, pUrl.value));
      generalResponse := generalResponse.(fullRedirectChains := generalResponse.fullRedirectChains + [fullRedirect]);
      generalResponse := generalResponse.(redirectUrlChain := generalResponse.redirectUrlChain + [formattedUrl]);
      if IsRedirect(response.status) {
        var location := HeaderValue(response.headers, "location");
        if location.None? || location.value == "" {
          return Threw(HealthCheckFailed(RedirectLocationMissing));
        }
        generalResponse := generalResponse.(redirects := generalResponse.redirects + [Redirect(response.status, location.value)]);

        var redirectChecker := new HealthChecker();
        var redirectOutcome := redirectChecker.Check(location.value, root, script[1..], lib);
        ghost var child := Resolve(location.value, script[1..], lib);
        assert redirectChecker.urlInspectionResults == [];
        assert root.urlInspectionResults == before + [inspectionResponse] + child.inspected;
        ConcatAssociates(before, [inspectionResponse], child.inspected);
        ghost var own := GeneralCheckResponse(script[0].uuid, 0, "", formattedUrl, 0,
                                              [Redirect(response.status, location.value)], [fullRedirect], [formattedUrl]);
        assert generalResponse == own;
        assert Attempt(formattedUrl, pUrl.value, script, lib)
            == Run(Followed(own, redirectOutcome), [inspectionResponse] + child.inspected);
        assert root.urlInspectionResults == before + Resolve(url, script, lib).inspected;
        match redirectOutcome {
          case Threw(e) =>
            return Threw(HealthCheckFailed(e));
          case Pending =>
            return Pending;
          case Resolved(redirectResponse) =>
            generalResponse := Accumulate(generalResponse, redirectResponse);
        }
      }
      return Resolved(generalResponse);
    }

    /** `getUrlInspectionResults`. */
    function GetUrlInspectionResults(): (results: seq<UrlInspectionResponse>)
      reads this
      ensures results == urlInspectionResults
    {
      urlInspectionResults
    }
  }

  /**
   * A top-level check on a fresh checker, followed by reading its side list:
   * what a caller of `check(url)` observes.
   */
  method Inspect(url: string, script: seq<Turn>, lib: UrlLibrary)
    returns (outcome: Outcome, records: seq<UrlInspectionResponse>)
    ensures outcome == Resolve(url, script, lib).outcome
    ensures records == Resolve(url, script, lib).inspected
  {
    var checker := new HealthChecker();
    outcome := checker.Check(url, null, script, lib);
    records := checker.GetUrlInspectionResults();
  }
}
