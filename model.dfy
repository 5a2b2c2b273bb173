/**
 * The records of src/server/models/model.ts. Every `number` is an `int`,
 * every `string` a `string`, every `Record<string, string>` a map and every
 * array a sequence.
 */
module Model {

  /** The structural parts of a probed URL, as shaped from parse-url's result. */
  datatype ParsedUrl = ParsedUrl(
    slashes: bool,
    protocol: string,
    hash: string,
    query: map<string, string>,
    pathName: string,
    auth: string,
    host: string,
    port: string,
    hostName: string,
    userName: string)

  /** One hop of a chain: its status, the URL probed and its parts. */
  datatype FullRedirect = FullRedirect(statusCode: int, url: string, parsedUrl: ParsedUrl)

  /** One redirect hop: its status and the `location` it answered with. */
  datatype Redirect = Redirect(statusCode: int, redirectUri: string)

  /** What one probe answered, kept in the root checker's side list. */
  datatype UrlInspectionResponse = UrlInspectionResponse(
    statusCode: int,
    headers: map<string, string>,
    body: string,
    latencyMs: int)

  /** The result of a whole check. */
  datatype GeneralCheckResponse = GeneralCheckResponse(
    requestId: string,
    statusCode: int,
    message: string,
    requestedUrl: string,
    numberOfRedirects: int,
    redirects: seq<Redirect>,
    fullRedirectChains: seq<FullRedirect>,
    redirectUrlChain: seq<string>)
}
