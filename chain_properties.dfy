/**
 * What `check` guarantees about the chains it returns, the errors it throws
 * and the records it leaves in the root checker's side list, stated over
 * `Resolve` for every script of probe answers.
 */
module ChainProperties {
  import opened Wrappers
  import opened Model
  import opened HealthCheck

  // ---------------------------------------------------------------------
  // One call
  // ---------------------------------------------------------------------

  /** The raw `location` an answer carries, if it is a response at all. */
  function LocationOf(reply: ProbeReply): Option<string> {
    if reply.Response? then HeaderValue(reply.headers, "location") else None
  }

  /** An answer the chain follows: a redirect status with a non-empty raw `location`. */
  ghost predicate Redirects(turn: Turn) {
    && turn.reply.Response?
    && IsRedirect(turn.reply.status)
    && LocationOf(turn.reply).Some?
    && LocationOf(turn.reply).value != ""
  }

  /** A URL that `check` formats and parses without throwing. */
  ghost predicate Accepted(url: string, lib: UrlLibrary) {
    FormatUrl(url, lib.isValidUrl).Ok? && lib.parseUrl(FormatUrl(url, lib.isValidUrl).value).Ok?
  }

  /**
   * What one call of `check` makes of its first answer. An input that does
   * not format or parse throws its own error before any probe; with no
   * answer left the call waits; a transport failure is wrapped and pushes
   * nothing; a non-redirect resolves and a redirect without a usable
   * location fails, both after pushing the answer's record; and a followed
   * redirect pushes its record in front of the child's and ends as the
   * child does, a child's error (its invalid URL included) wrapped once more.
   */
  lemma CheckStep(url: string, script: seq<Turn>, lib: UrlLibrary)
    ensures var run := Resolve(url, script, lib);
      !Accepted(url, lib) ==>
        && run.inspected == []
        && run.outcome.Threw?
        && (run.outcome.error == InvalidUrlFormat || run.outcome.error.UrlParseFailed?)
    ensures Accepted(url, lib) && script == [] ==> Resolve(url, script, lib) == Run(Pending, [])
    ensures Accepted(url, lib) && script != [] && script[0].reply.Unreachable? ==>
      Resolve(url, script, lib) == Run(Threw(HealthCheckFailed(ProbeFailed(script[0].reply.reason))), [])
    ensures Accepted(url, lib) && script != [] && script[0].reply.Response? && !Redirects(script[0]) ==>
      var run := Resolve(url, script, lib);
      && run.inspected == [RecordOf(script[0].reply)]
      && (IsRedirect(script[0].reply.status) ==> run.outcome == Threw(HealthCheckFailed(RedirectLocationMissing)))
      && (!IsRedirect(script[0].reply.status) ==> run.outcome.Resolved?)
    ensures Accepted(url, lib) && script != [] && Redirects(script[0]) ==>
      var run := Resolve(url, script, lib);
      var child := Resolve(LocationOf(script[0].reply).value, script[1..], lib);
      && run.inspected == [RecordOf(script[0].reply)] + child.inspected
      && (run.outcome.Threw? <==> child.outcome.Threw?)
      && (child.outcome.Threw? ==> run.outcome.error == HealthCheckFailed(child.outcome.error))
      && (run.outcome.Pending? <==> child.outcome.Pending?)
      && (run.outcome.Resolved? <==> child.outcome.Resolved?)
  {
  }

  /**
   * One hop of a resolved chain: the first answer is a response, and the
   * result is either that hop alone or that redirect hop in front of the
   * resolved chain of its location.
   */
  lemma ResolvedStep(url: string, script: seq<Turn>, lib: UrlLibrary)
    requires Resolve(url, script, lib).outcome.Resolved?
    ensures Accepted(url, lib) && script != [] && script[0].reply.Response?
    ensures var formatted := FormatUrl(url, lib.isValidUrl).value;
      var response := script[0].reply;
      var run := Resolve(url, script, lib);
      var r := run.outcome.response;
      && r.requestId == script[0].uuid
      && r.requestedUrl == formatted
      && r.statusCode == 0 && r.message == ""
      && |r.fullRedirectChains| >= 1
      && r.fullRedirectChains[0].url == formatted
      && r.fullRedirectChains[0].statusCode == response.status
      && (!IsRedirect(response.status) ==>
            && r.numberOfRedirects == 0
            && r.redirects == []
            && |r.fullRedirectChains| == 1
            && r.redirectUrlChain == [formatted]
            && run.inspected == [RecordOf(response)])
      && (IsRedirect(response.status) ==>
            && Redirects(script[0])
            && var location := LocationOf(response).value;
               var child := Resolve(location, script[1..], lib);
               && child.outcome.Resolved?
               && var c := child.outcome.response;
               && r.numberOfRedirects == c.numberOfRedirects + 1
               && r.redirects == [Redirect(response.status, location)] + c.redirects
               && r.fullRedirectChains[1..] == c.fullRedirectChains
               && r.redirectUrlChain == [formatted] + c.redirectUrlChain
               && run.inspected == [RecordOf(response)] + child.inspected)
  {
  }

  /** The first hop of a resolved chain carries parse-url's parts of the formatted input. */
  lemma ResolvedFirstHop(url: string, script: seq<Turn>, lib: UrlLibrary)
    requires Resolve(url, script, lib).outcome.Resolved?
    ensures Accepted(url, lib)
    ensures var formatted := FormatUrl(url, lib.isValidUrl).value;
      var r := Resolve(url, script, lib).outcome.response;
      && |r.fullRedirectChains| >= 1
      && r.fullRedirectChains[0].parsedUrl == ShapeParsedUrl(formatted, lib.parseUrl(formatted).value)
  {
  }

  /** A first answer that is not a redirect ends the chain at one hop. */
  lemma NonRedirectEndsChain(url: string, script: seq<Turn>, lib: UrlLibrary)
    requires Accepted(url, lib) && script != [] && script[0].reply.Response?
    requires !IsRedirect(script[0].reply.status)
    ensures var run := Resolve(url, script, lib);
      && run.outcome.Resolved?
      && run.outcome.response.numberOfRedirects == 0
      && run.outcome.response.redirects == []
      && run.outcome.response.redirectUrlChain == [FormatUrl(url, lib.isValidUrl).value]
      && |run.outcome.response.fullRedirectChains| == 1
      && run.inspected == [RecordOf(script[0].reply)]
  {
  }

  // ---------------------------------------------------------------------
  // The shape of a resolved chain
  // ---------------------------------------------------------------------

  /**
   * A response whose lists describe one chain: one entry per hop in
   * `redirectUrlChain` and `fullRedirectChains`, one per redirect hop in
   * `redirects`, every hop but the last a redirect, the requested URL
   * first, and the overall status and message never set.
   */
  ghost predicate WellFormedChain(r: GeneralCheckResponse) {
    var n := r.numberOfRedirects;
    && n >= 0
    && |r.redirects| == n
    && |r.fullRedirectChains| == n + 1
    && |r.redirectUrlChain| == n + 1
    && r.requestedUrl == r.redirectUrlChain[0]
    && (forall i :: 0 <= i <= n ==> r.redirectUrlChain[i] == r.fullRedirectChains[i].url)
    && (forall i :: 0 <= i < n ==>
          IsRedirect(r.fullRedirectChains[i].statusCode) && r.redirects[i].statusCode == r.fullRedirectChains[i].statusCode)
    && !IsRedirect(r.fullRedirectChains[n].statusCode)
    && r.statusCode == 0 && r.message == ""
  }

  /** A parent's single redirect hop folded in front of a well-formed child chain gives a well-formed chain. */
  lemma AccumulateKeepsShape(own: GeneralCheckResponse, child: GeneralCheckResponse)
    requires |own.redirects| == 1 && |own.fullRedirectChains| == 1 && own.redirectUrlChain == [own.requestedUrl]
    requires own.fullRedirectChains[0].url == own.requestedUrl
    requires IsRedirect(own.fullRedirectChains[0].statusCode)
    requires own.redirects[0].statusCode == own.fullRedirectChains[0].statusCode
    requires own.statusCode == 0 && own.message == ""
    requires WellFormedChain(child)
    ensures WellFormedChain(Accumulate(own, child))
  {
    var r := Accumulate(own, child);
    var n := r.numberOfRedirects;
    forall i | 1 <= i <= n
      ensures r.redirectUrlChain[i] == child.redirectUrlChain[i - 1]
      ensures r.fullRedirectChains[i] == child.fullRedirectChains[i - 1]
    {
    }
    forall i | 1 <= i < n
      ensures r.redirects[i] == child.redirects[i - 1]
    {
    }
  }

  lemma {:induction false} ResolvedChainIsWellFormed(url: string, script: seq<Turn>, lib: UrlLibrary)
    ensures Resolve(url, script, lib).outcome.Resolved? ==> WellFormedChain(Resolve(url, script, lib).outcome.response)
    decreases |script|
  {
    var formatting := FormatUrl(url, lib.isValidUrl);
    if formatting.Ok? && lib.parseUrl(formatting.value).Ok? && script != [] {
      var response := script[0].reply;
      if response.Response? && IsRedirect(response.status) {
        var location := HeaderValue(response.headers, "location");
        if location.Some? && location.value != "" {
          var child := Resolve(location.value, script[1..], lib);
          ResolvedChainIsWellFormed(location.value, script[1..], lib);
          if child.outcome.Resolved? {
            var hop := FullRedirect(response.status, formatting.value,
                                    ShapeParsedUrl(formatting.value, lib.parseUrl(formatting.value).value));
            var own := GeneralCheckResponse(script[0].uuid, 0, "", formatting.value, 0,
                                            [Redirect(response.status, location.value)], [hop], [formatting.value]);
            AccumulateKeepsShape(own, child.outcome.response);
          }
        }
      }
    }
  }

  // ---------------------------------------------------------------------
  // Hops against the script
  // ---------------------------------------------------------------------

  /** `inspected` holds the records of the first answers of `script`, one per answer, in order. */
  ghost predicate RecordsFollow(inspected: seq<UrlInspectionResponse>, script: seq<Turn>) {
    && |inspected| <= |script|
    && forall i :: 0 <= i < |inspected| ==>
         script[i].reply.Response? && inspected[i] == RecordOf(script[i].reply)
  }

  /** Each hop of `hops` carries the status of the answer at its position in `script`. */
  ghost predicate StatusesFollow(hops: seq<FullRedirect>, script: seq<Turn>) {
    && |hops| <= |script|
    && forall i :: 0 <= i < |hops| ==>
         script[i].reply.Response? && hops[i].statusCode == script[i].reply.status
  }

  /** Recording the first answer in front of the records of the rest keeps the records in step with the script. */
  lemma PrependKeepsRecords(inspected: seq<UrlInspectionResponse>, rest: seq<UrlInspectionResponse>, script: seq<Turn>)
    requires script != [] && script[0].reply.Response?
    requires RecordsFollow(rest, script[1..])
    requires inspected == [RecordOf(script[0].reply)] + rest
    ensures RecordsFollow(inspected, script)
  {
    forall i | 1 <= i < |inspected|
      ensures script[i] == script[1..][i - 1]
      ensures inspected[i] == rest[i - 1]
    {
    }
  }

  /** A first hop with the first answer's status in front of hops in step with the rest stays in step. */
  lemma PrependKeepsStatuses(hops: seq<FullRedirect>, script: seq<Turn>)
    requires script != [] && script[0].reply.Response?
    requires hops != [] && hops[0].statusCode == script[0].reply.status
    requires StatusesFollow(hops[1..], script[1..])
    ensures StatusesFollow(hops, script)
  {
    forall i | 1 <= i < |hops|
      ensures script[i] == script[1..][i - 1]
      ensures hops[i] == hops[1..][i - 1]
    {
    }
  }

  /**
   * A resolved chain has one hop per probe answer it consumed, in order:
   * each hop's status is its answer's status, each pushed record is its
   * answer's record, and the id is the one minted by the top-level call.
   */
  lemma {:induction false} ResolvedHopsAnswerScript(url: string, script: seq<Turn>, lib: UrlLibrary)
    requires Resolve(url, script, lib).outcome.Resolved?
    ensures var run := Resolve(url, script, lib);
      var r := run.outcome.response;
      && r.requestId == script[0].uuid
      && 1 <= |r.fullRedirectChains| == |run.inspected|
      && StatusesFollow(r.fullRedirectChains, script)
      && RecordsFollow(run.inspected, script)
    decreases |script|
  {
    ResolvedStep(url, script, lib);
    var response := script[0].reply;
    var run := Resolve(url, script, lib);
    var r := run.outcome.response;
    if IsRedirect(response.status) {
      var location := LocationOf(response).value;
      var child := Resolve(location, script[1..], lib);
      ResolvedHopsAnswerScript(location, script[1..], lib);
      PrependKeepsRecords(run.inspected, child.inspected, script);
      PrependKeepsStatuses(r.fullRedirectChains, script);
    }
  }

  /** Each redirect of `redirects` is the non-empty raw `location` of the answer at its position in `script`. */
  ghost predicate LocationsFollow(redirects: seq<Redirect>, script: seq<Turn>) {
    && |redirects| <= |script|
    && forall i :: 0 <= i < |redirects| ==>
         LocationOf(script[i].reply) == Some(redirects[i].redirectUri) && redirects[i].redirectUri != ""
  }

  /** A redirect read from the first answer in front of redirects read from the rest keeps them in step. */
  lemma PrependKeepsLocations(redirects: seq<Redirect>, rest: seq<Redirect>, hop: Redirect, script: seq<Turn>)
    requires script != [] && LocationOf(script[0].reply) == Some(hop.redirectUri) && hop.redirectUri != ""
    requires LocationsFollow(rest, script[1..])
    requires redirects == [hop] + rest
    ensures LocationsFollow(redirects, script)
  {
    forall i | 1 <= i < |redirects|
      ensures script[i] == script[1..][i - 1]
      ensures redirects[i] == rest[i - 1]
    {
    }
  }

  /**
   * Each redirect hop of a resolved chain read a non-empty raw `location`
   * from its answer, and that location is the hop's `redirectUri`.
   */
  lemma {:induction false} ResolvedHopsReadLocations(url: string, script: seq<Turn>, lib: UrlLibrary)
    requires Resolve(url, script, lib).outcome.Resolved?
    ensures var r := Resolve(url, script, lib).outcome.response;
      |r.redirects| < |script| && LocationsFollow(r.redirects, script)
    decreases |script|
  {
    ResolvedStep(url, script, lib);
    var response := script[0].reply;
    var r := Resolve(url, script, lib).outcome.response;
    if IsRedirect(response.status) {
      var location := LocationOf(response).value;
      var child := Resolve(location, script[1..], lib);
      ResolvedHopsReadLocations(location, script[1..], lib);
      PrependKeepsLocations(r.redirects, child.outcome.response.redirects, Redirect(response.status, location), script);
    }
  }

  /** Each redirect of `r` leads, through `formatUrl`, to the next URL of its chain. */
  ghost predicate RedirectsFormatToChain(r: GeneralCheckResponse, lib: UrlLibrary) {
    && |r.redirects| < |r.redirectUrlChain|
    && forall i :: 0 <= i < |r.redirects| ==>
         FormatUrl(r.redirects[i].redirectUri, lib.isValidUrl) == Ok(r.redirectUrlChain[i + 1])
  }

  /** Putting a redirect hop whose location formats to the child's first URL in front keeps the chain linked. */
  lemma PrependKeepsRedirectsFormatted(r: GeneralCheckResponse, c: GeneralCheckResponse, hop: Redirect, first: string, lib: UrlLibrary)
    requires RedirectsFormatToChain(c, lib)
    requires FormatUrl(hop.redirectUri, lib.isValidUrl) == Ok(c.redirectUrlChain[0])
    requires r.redirects == [hop] + c.redirects && r.redirectUrlChain == [first] + c.redirectUrlChain
    ensures RedirectsFormatToChain(r, lib)
  {
    forall i | 1 <= i < |r.redirects|
      ensures r.redirects[i] == c.redirects[i - 1]
      ensures r.redirectUrlChain[i + 1] == c.redirectUrlChain[i]
    {
    }
  }

  /**
   * The first hop is the input as `formatUrl` makes it, and the hop after
   * each redirect is that redirect's location as `formatUrl` makes it.
   */
  lemma {:induction false} ResolvedHopsFormatLocations(url: string, script: seq<Turn>, lib: UrlLibrary)
    requires Resolve(url, script, lib).outcome.Resolved?
    ensures var r := Resolve(url, script, lib).outcome.response;
      && RedirectsFormatToChain(r, lib)
      && FormatUrl(url, lib.isValidUrl) == Ok(r.redirectUrlChain[0])
      && r.redirectUrlChain[0] == r.requestedUrl
    decreases |script|
  {
    ResolvedStep(url, script, lib);
    var response := script[0].reply;
    var r := Resolve(url, script, lib).outcome.response;
    if IsRedirect(response.status) {
      var location := LocationOf(response).value;
      var child := Resolve(location, script[1..], lib);
      ResolvedHopsFormatLocations(location, script[1..], lib);
      PrependKeepsRedirectsFormatted(r, child.outcome.response, Redirect(response.status, location), r.requestedUrl, lib);
    }
  }

  /** A hop probed a URL that `new URL` accepts, with an http or https scheme, and carries parse-url's parts of it. */
  ghost predicate FormattedHop(hop: FullRedirect, lib: UrlLibrary) {
    && lib.isValidUrl(hop.url)
    && HasHttpScheme(hop.url)
    && lib.parseUrl(hop.url).Ok?
    && hop.parsedUrl == ShapeParsedUrl(hop.url, lib.parseUrl(hop.url).value)
  }

  /**
   * Every hop of a resolved chain probed a URL that `new URL` accepts and
   * that has an http or https scheme, and carries parse-url's parts of it.
   */
  lemma {:induction false} ResolvedHopsAreFormattedUrls(url: string, script: seq<Turn>, lib: UrlLibrary)
    requires Resolve(url, script, lib).outcome.Resolved?
    ensures var r := Resolve(url, script, lib).outcome.response;
      forall i :: 0 <= i < |r.fullRedirectChains| ==> FormattedHop(r.fullRedirectChains[i], lib)
    decreases |script|
  {
    FormatUrlOutcome(url, lib.isValidUrl);
    ResolvedStep(url, script, lib);
    ResolvedFirstHop(url, script, lib);
    var response := script[0].reply;
    var hops := Resolve(url, script, lib).outcome.response.fullRedirectChains;
    assert FormattedHop(hops[0], lib);
    if IsRedirect(response.status) {
      var location := LocationOf(response).value;
      ResolvedHopsAreFormattedUrls(location, script[1..], lib);
      forall i | 1 <= i < |hops|
        ensures FormattedHop(hops[i], lib)
      {
        assert hops[i] == hops[1..][i - 1];
      }
    }
  }

  /** The `slashes` flag of every hop of a resolved chain is set. */
  lemma ResolvedHopsHaveSlashes(url: string, script: seq<Turn>, lib: UrlLibrary)
    requires Resolve(url, script, lib).outcome.Resolved?
    ensures var r := Resolve(url, script, lib).outcome.response;
      forall i :: 0 <= i < |r.fullRedirectChains| ==> r.fullRedirectChains[i].parsedUrl.slashes
  {
    ResolvedHopsAreFormattedUrls(url, script, lib);
    var r := Resolve(url, script, lib).outcome.response;
    forall i | 0 <= i < |r.fullRedirectChains|
      ensures r.fullRedirectChains[i].parsedUrl.slashes
    {
      var hop := r.fullRedirectChains[i];
      SchemedUrlHasSlashes(hop.url);
      ShapedParts(hop.url, lib.parseUrl(hop.url).value);
    }
  }

  // ---------------------------------------------------------------------
  // The side list
  // ---------------------------------------------------------------------

  /**
   * Whatever the outcome, the records pushed to the root are those of the
   * answered probes, one per probe, in hop order; nothing is taken back
   * when a later hop fails. A pending chain has used every answer.
   */
  lemma {:induction false} InspectionsFollowScript(url: string, script: seq<Turn>, lib: UrlLibrary)
    ensures var run := Resolve(url, script, lib);
      && RecordsFollow(run.inspected, script)
      && (run.outcome.Pending? ==> |run.inspected| == |script|)
    decreases |script|
  {
    CheckStep(url, script, lib);
    if Accepted(url, lib) && script != [] && Redirects(script[0]) {
      var location := LocationOf(script[0].reply).value;
      var child := Resolve(location, script[1..], lib);
      InspectionsFollowScript(location, script[1..], lib);
      PrependKeepsRecords(Resolve(url, script, lib).inspected, child.inspected, script);
    }
  }

  // ---------------------------------------------------------------------
  // Errors
  // ---------------------------------------------------------------------

  /** How many `Health check failed` layers wrap an error. */
  function Depth(e: Failure): nat {
    if e.HealthCheckFailed? then 1 + Depth(e.cause) else 0
  }

  /** The error under all the wrapping. */
  function Innermost(e: Failure): Failure {
    if e.HealthCheckFailed? then Innermost(e.cause) else e
  }

  /**
   * Every call above the failing one wraps the error once more, and the
   * failing call wraps it too when the failure is inside its `try`; the
   * records pushed are those of the hops before the failing one, and its
   * own when the failure is a missing location.
   */
  lemma {:induction false} ThrownErrorDepth(url: string, script: seq<Turn>, lib: UrlLibrary)
    requires Resolve(url, script, lib).outcome.Threw?
    ensures var run := Resolve(url, script, lib);
      var e := run.outcome.error;
      Depth(e) == |run.inspected| + (if Innermost(e).ProbeFailed? then 1 else 0)
    decreases |script|
  {
    CheckStep(url, script, lib);
    if Accepted(url, lib) && script != [] && Redirects(script[0]) {
      ThrownErrorDepth(LocationOf(script[0].reply).value, script[1..], lib);
    }
  }

  /**
   * The error `e`, thrown after `k` records were pushed, names the answer
   * that caused it: a transport failure is the answer after the last
   * record, a missing location is the last recorded answer, a redirect the
   * chain could not follow.
   */
  ghost predicate ErrorNamesAnswer(e: Failure, k: nat, script: seq<Turn>) {
    && (Innermost(e).ProbeFailed? ==> k < |script| && script[k].reply == Unreachable(Innermost(e).reason))
    && (Innermost(e) == RedirectLocationMissing ==>
          && 1 <= k <= |script|
          && script[k - 1].reply.Response?
          && IsRedirect(script[k - 1].reply.status)
          && !Redirects(script[k - 1]))
  }

  /** Wrapping a child's error after one more record keeps it naming the same answer. */
  lemma WrappingKeepsAnswerNamed(e: Failure, k: nat, script: seq<Turn>)
    requires script != [] && ErrorNamesAnswer(e, k, script[1..])
    ensures ErrorNamesAnswer(HealthCheckFailed(e), k + 1, script)
  {
    if Innermost(e).ProbeFailed? {
      assert script[1..][k] == script[k + 1];
    }
    if Innermost(e) == RedirectLocationMissing {
      assert script[1..][k - 1] == script[k];
    }
  }

  /** A thrown error names the answer that caused it. */
  lemma {:induction false} ThrownErrorLocatesHop(url: string, script: seq<Turn>, lib: UrlLibrary)
    requires Resolve(url, script, lib).outcome.Threw?
    ensures var run := Resolve(url, script, lib);
      ErrorNamesAnswer(run.outcome.error, |run.inspected|, script)
    decreases |script|
  {
    CheckStep(url, script, lib);
    if Accepted(url, lib) && script != [] && Redirects(script[0]) {
      var child := Resolve(LocationOf(script[0].reply).value, script[1..], lib);
      ThrownErrorLocatesHop(LocationOf(script[0].reply).value, script[1..], lib);
      WrappingKeepsAnswerNamed(child.outcome.error, |child.inspected|, script);
    }
  }

  /**
   * The only errors that leave `check` unwrapped are the top-level call's
   * own: its input failing `formatUrl` or parse-url, both before any probe.
   */
  lemma OwnErrorsAreUnwrapped(url: string, script: seq<Turn>, lib: UrlLibrary)
    ensures var run := Resolve(url, script, lib);
      var formatting := FormatUrl(url, lib.isValidUrl);
      && ((run.outcome.Threw? && !run.outcome.error.HealthCheckFailed?) <==>
            (formatting.Err? || lib.parseUrl(formatting.value).Err?))
      && (formatting.Err? ==> run == Run(Threw(InvalidUrlFormat), []))
      && (formatting.Ok? && lib.parseUrl(formatting.value).Err? ==>
            run == Run(Threw(UrlParseFailed(lib.parseUrl(formatting.value).error)), []))
  {
    FormatUrlOutcome(url, lib.isValidUrl);
  }

  /**
   * The `message` a caller of `check` reads: `Health check failed` whenever
   * the input formatted and parsed, otherwise the top-level call's own
   * `Invalid URL format` or parse error.
   */
  lemma ThrownMessage(url: string, script: seq<Turn>, lib: UrlLibrary)
    requires Resolve(url, script, lib).outcome.Threw?
    ensures var e := Resolve(url, script, lib).outcome.error;
      var formatting := FormatUrl(url, lib.isValidUrl);
      && (Accepted(url, lib) ==> e.HealthCheckFailed? && Message(e) == "Health check failed")
      && (formatting.Err? ==> Message(e) == "Invalid URL format")
      && (formatting.Ok? && lib.parseUrl(formatting.value).Err? ==>
            Message(e) == lib.parseUrl(formatting.value).error)
  {
    OwnErrorsAreUnwrapped(url, script, lib);
  }

  // ---------------------------------------------------------------------
  // No hop limit and no loop detection
  // ---------------------------------------------------------------------

  /** A chain still waiting on the network has followed a redirect at every answer. */
  lemma {:induction false} PendingOnlyIfEveryAnswerRedirects(url: string, script: seq<Turn>, lib: UrlLibrary)
    requires Resolve(url, script, lib).outcome.Pending?
    ensures forall i :: 0 <= i < |script| ==> Redirects(script[i])
    decreases |script|
  {
    CheckStep(url, script, lib);
    if script != [] {
      PendingOnlyIfEveryAnswerRedirects(LocationOf(script[0].reply).value, script[1..], lib);
      forall i | 1 <= i < |script|
        ensures Redirects(script[i])
      {
        assert script[1..][i - 1] == script[i];
      }
    }
  }

  /**
   * However many redirects arrive, each to a URL `check` accepts, the
   * check follows every one of them and pushes a record for each: a
   * redirect back to the same URL is followed like any other.
   */
  lemma {:induction false} RedirectsAreFollowedWithoutLimit(url: string, script: seq<Turn>, lib: UrlLibrary)
    requires Accepted(url, lib)
    requires forall i :: 0 <= i < |script| ==>
               Redirects(script[i]) && Accepted(LocationOf(script[i].reply).value, lib)
    ensures Resolve(url, script, lib).outcome.Pending?
    ensures |Resolve(url, script, lib).inspected| == |script|
    decreases |script|
  {
    CheckStep(url, script, lib);
    if script != [] {
      forall i | 0 <= i < |script| - 1
        ensures Redirects(script[1..][i])
        ensures Accepted(LocationOf(script[1..][i].reply).value, lib)
      {
        assert script[1..][i] == script[i + 1];
      }
      RedirectsAreFollowedWithoutLimit(LocationOf(script[0].reply).value, script[1..], lib);
    }
  }

  // ---------------------------------------------------------------------
  // Request ids
  // ---------------------------------------------------------------------

  /** An outcome with its request id blanked. */
  function WithoutId(o: Outcome): Outcome {
    if o.Resolved? then Resolved(o.response.(requestId := "")) else o
  }

  /** Two scripts whose probes answer alike, whatever ids they mint. */
  ghost predicate SameAnswers(s1: seq<Turn>, s2: seq<Turn>) {
    |s1| == |s2| && forall i :: 0 <= i < |s1| ==> s1[i].reply == s2[i].reply
  }

  /**
   * The ids minted by child calls are thrown away: the pushed records and
   * the result apart from its id depend only on the answers, and the
   * result's id is the top-level call's.
   */
  lemma {:induction false} OnlyTheRootIdIsKept(url: string, s1: seq<Turn>, s2: seq<Turn>, lib: UrlLibrary)
    requires SameAnswers(s1, s2)
    ensures Resolve(url, s1, lib).inspected == Resolve(url, s2, lib).inspected
    ensures WithoutId(Resolve(url, s1, lib).outcome) == WithoutId(Resolve(url, s2, lib).outcome)
    ensures s1 != [] && s1[0].uuid == s2[0].uuid ==> Resolve(url, s1, lib).outcome == Resolve(url, s2, lib).outcome
    decreases |s1|
  {
    var formatting := FormatUrl(url, lib.isValidUrl);
    if formatting.Ok? && lib.parseUrl(formatting.value).Ok? && s1 != [] && s1[0].reply.Response? {
      var response := s1[0].reply;
      assert s2[0].reply == response;
      var location := HeaderValue(response.headers, "location");
      if IsRedirect(response.status) && location.Some? && location.value != "" {
        assert SameAnswers(s1[1..], s2[1..]) by {
          forall i | 0 <= i < |s1| - 1
            ensures s1[1..][i].reply == s2[1..][i].reply
          {
            assert s1[1..][i] == s1[i + 1] && s2[1..][i] == s2[i + 1];
          }
        }
        OnlyTheRootIdIsKept(location.value, s1[1..], s2[1..], lib);
      }
    }
  }
}
