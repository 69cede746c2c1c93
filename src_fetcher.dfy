/** src/lib/image-fetcher.ts: validate the URL, then fetch it with fixed
    browser headers whose Referer and Origin are the image's own origin. */
module SrcFetcher {

  import opened Wrappers
  import opened Upstream
  import HttpHeaders

  /** The refusals of `new URL(imageUrl)` and of the scheme check, as this
      fetcher words them. */
  const URL_MESSAGES: UrlMessages := UrlMessages("Invalid image url", "Only http and https protocols are supported")

  /** The request `fetch` receives. */
  function BuildRequest(parsed: Url): (request: UpstreamRequest)
    ensures request.target == Direct(parsed.href)
    ensures HttpHeaders.Get(request.headers, "User-Agent") == Some(DEFAULT_USER_AGENT)
    ensures HttpHeaders.Get(request.headers, "Accept") == Some(ACCEPT_HEADER)
    ensures HttpHeaders.Get(request.headers, "Referer") == Some(parsed.origin)
    ensures HttpHeaders.Get(request.headers, "Origin") == Some(parsed.origin)
  {
    var headers := [
      ("User-Agent", DEFAULT_USER_AGENT),
      ("Accept", ACCEPT_HEADER),
      ("Referer", parsed.origin),
      ("Origin", parsed.origin)
    ];
    BrowserHeadersRead(headers);
    UpstreamRequest(Direct(parsed.href), headers)
  }

  /** `fetchRemoteImage(imageUrl)`, with `fetch` as a parameter: a rejected
      URL fails before `fetch`; otherwise the one request above is sent and
      its outcome received. */
  function FetchRemoteImage(imageUrl: string, parse: UrlParser, fetch: UpstreamRequest -> FetchOutcome)
    : (r: Result<RemoteImage, FetchError>)
    ensures ParseImageUrl(imageUrl, parse, URL_MESSAGES).Err? ==> r == Err(ParseImageUrl(imageUrl, parse, URL_MESSAGES).error)
    ensures ParseImageUrl(imageUrl, parse, URL_MESSAGES).Ok? ==>
      r == Receive(fetch(BuildRequest(ParseImageUrl(imageUrl, parse, URL_MESSAGES).value)))
  {
    match ParseImageUrl(imageUrl, parse, URL_MESSAGES)
    case Err(e) => Err(e)
    case Ok(parsed) => Receive(fetch(BuildRequest(parsed)))
  }

  /** A rejected URL never reaches `fetch`: the answer is the same whatever
      `fetch` would have done. */
  lemma RejectedBeforeFetch(imageUrl: string, parse: UrlParser, first: UpstreamRequest -> FetchOutcome, second: UpstreamRequest -> FetchOutcome)
    requires parse(imageUrl).None? || !IsHttpScheme(parse(imageUrl).value)
    ensures FetchRemoteImage(imageUrl, parse, first) == FetchRemoteImage(imageUrl, parse, second)
    ensures FetchRemoteImage(imageUrl, parse, first).Err? && FetchRemoteImage(imageUrl, parse, first).error.status.None?
  {
  }
}
