/** cloudflare/image-proxy/lib/image-fetcher.ts: validate the URL, resolve
    Referer and Origin from the rule table, and fetch through Cloudflare's
    cache with a per-status TTL table. The response itself is returned. */
module CloudflareFetcher {

  import opened Wrappers
  import opened Upstream
  import HttpHeaders
  import RefererRules

  /** The refusals of `new URL(imageUrl)` and of the scheme check, as this
      fetcher words them. */
  const URL_MESSAGES: UrlMessages := UrlMessages("Invalid image url", "Only http and https protocols are supported")

  /** One year, in seconds. */
  const CACHE_TTL_SECONDS: int := 60 * 60 * 24 * 365

  /** A `"low-high"` key of `cacheTtlByStatus`, with its TTL. */
  datatype TtlRange = TtlRange(low: int, high: int, ttl: int)

  const CACHE_TTL_BY_STATUS: seq<TtlRange> := [
    TtlRange(200, 299, CACHE_TTL_SECONDS),
    TtlRange(301, 308, CACHE_TTL_SECONDS),
    TtlRange(400, 599, 0)
  ]

  /** The `cf` options passed to `fetch`. */
  datatype CacheOptions = CacheOptions(cacheEverything: bool, cacheTtlByStatus: seq<TtlRange>)

  /** The TTL the table gives a status: the first range holding it. */
  function TtlFor(table: seq<TtlRange>, status: int): (r: Option<int>)
    ensures r.Some? <==> exists i :: 0 <= i < |table| && table[i].low <= status <= table[i].high
    ensures r.Some? ==> exists i :: 0 <= i < |table| && table[i].low <= status <= table[i].high && r.value == table[i].ttl
  {
    if table == [] then None
    else if table[0].low <= status <= table[0].high then Some(table[0].ttl)
    else TtlFor(table[1..], status)
  }

  /** Successes and redirects are cached for a year, client and server
      errors not at all, and every other status (100-199, 300, 309-399) is
      left to the cache's default. */
  lemma TtlTable(status: int)
    ensures CACHE_TTL_SECONDS == 31536000
    ensures (200 <= status <= 299 || 301 <= status <= 308) <==> TtlFor(CACHE_TTL_BY_STATUS, status) == Some(31536000)
    ensures 400 <= status <= 599 <==> TtlFor(CACHE_TTL_BY_STATUS, status) == Some(0)
    ensures TtlFor(CACHE_TTL_BY_STATUS, status).None? <==> !(200 <= status <= 299 || 301 <= status <= 308 || 400 <= status <= 599)
  {
    var table := CACHE_TTL_BY_STATUS;
    assert table[1..] == [TtlRange(301, 308, CACHE_TTL_SECONDS), TtlRange(400, 599, 0)];
    assert table[1..][1..] == [TtlRange(400, 599, 0)];
    assert table[1..][1..][1..] == [];
    assert TtlFor(table[1..][1..], status) == if 400 <= status <= 599 then Some(0) else None;
  }

  /** `buildUpstreamHeaders(parsed)`: the fixed User-Agent and Accept and the
      resolved Referer and Origin, set unconditionally. */
  function BuildUpstreamHeaders(parsed: Url, parse: UrlParser): (headers: HttpHeaders.HeaderList)
    ensures HttpHeaders.Get(headers, "User-Agent") == Some(DEFAULT_USER_AGENT)
    ensures HttpHeaders.Get(headers, "Accept") == Some(ACCEPT_HEADER)
    ensures HttpHeaders.Get(headers, "Referer") == Some(RefererRules.ResolveRefererFor(parsed, parse).referer)
    ensures HttpHeaders.Get(headers, "Origin") == Some(RefererRules.ResolveRefererFor(parsed, parse).origin)
  {
    var resolved := RefererRules.ResolveRefererFor(parsed, parse);
    var headers := [
      ("User-Agent", DEFAULT_USER_AGENT),
      ("Accept", ACCEPT_HEADER),
      ("Referer", resolved.referer),
      ("Origin", resolved.origin)
    ];
    BrowserHeadersRead(headers);
    headers
  }

  /** `fetchRemoteImage(imageUrl)`: the upstream response itself, once it
      is ok. */
  function FetchRemoteImage(imageUrl: string, parse: UrlParser, fetch: (UpstreamRequest, CacheOptions) -> FetchOutcome)
    : (r: Result<UpstreamResponse, FetchError>)
    ensures ParseImageUrl(imageUrl, parse, URL_MESSAGES).Err? ==> r == Err(ParseImageUrl(imageUrl, parse, URL_MESSAGES).error)
    ensures ParseImageUrl(imageUrl, parse, URL_MESSAGES).Ok? ==>
      var parsed := ParseImageUrl(imageUrl, parse, URL_MESSAGES).value;
      r == CheckResponse(fetch(
        UpstreamRequest(Direct(parsed.href), BuildUpstreamHeaders(parsed, parse)),
        CacheOptions(true, CACHE_TTL_BY_STATUS)))
  {
    match ParseImageUrl(imageUrl, parse, URL_MESSAGES)
    case Err(e) => Err(e)
    case Ok(parsed) =>
      CheckResponse(fetch(
        UpstreamRequest(Direct(parsed.href), BuildUpstreamHeaders(parsed, parse)),
        CacheOptions(true, CACHE_TTL_BY_STATUS)))
  }

  /** A Weibo image is fetched as if linked from weibo.com; with a parser
      that reads `https://weibo.com` as its own origin, both Referer and
      Origin are `https://weibo.com`. */
  lemma SinaImageUsesWeibo(parsed: Url, parse: UrlParser)
    requires parsed.href == "https://wx1.sinaimg.cn/x.jpg"
    requires parse("https://weibo.com").Some? && parse("https://weibo.com").value.origin == "https://weibo.com"
    ensures HttpHeaders.Get(BuildUpstreamHeaders(parsed, parse), "Referer") == Some("https://weibo.com")
    ensures HttpHeaders.Get(BuildUpstreamHeaders(parsed, parse), "Origin") == Some("https://weibo.com")
  {
    RefererRules.SinaExamples();
  }

  /** Without a matching rule, the image's own origin is sent as both
      Referer and Origin, even the opaque `"null"`: this fetcher does not
      check for it. */
  lemma UnmatchedSendsOwnOrigin(parsed: Url, parse: UrlParser)
    requires RefererRules.FindRule(parsed.href).None?
    ensures HttpHeaders.Get(BuildUpstreamHeaders(parsed, parse), "Referer") == Some(parsed.origin)
    ensures HttpHeaders.Get(BuildUpstreamHeaders(parsed, parse), "Origin") == Some(parsed.origin)
  {
  }
}
