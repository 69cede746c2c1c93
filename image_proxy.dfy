/** cloudflare/image-proxy/index.ts: the proxy's single route. It fetches
    the image named by the `url` query parameter and forwards the upstream
    response with its hop-by-hop headers dropped, a default Content-Type and
    a one-year Cache-Control. */
module ImageProxy {

  import opened Wrappers
  import opened Images
  import opened Upstream
  import HttpHeaders
  import Text
  import CloudflareFetcher

  /** The connection-level headers a proxy must not forward, lower-cased. */
  const HOP_BY_HOP_HEADERS: set<string> := {
    "connection", "keep-alive", "proxy-authenticate", "proxy-authorization",
    "te", "trailers", "transfer-encoding", "upgrade"
  }

  const DEFAULT_CONTENT_TYPE: string := "application/octet-stream"
  const FORWARD_CACHE_CONTROL: string := "public, max-age=31536000"

  predicate IsHopByHop(name: string) {
    Text.Lower(name) in HOP_BY_HOP_HEADERS
  }

  /** The upstream entries that survive the filter, in order; defined on
      prefixes, as the loop below visits them. */
  function Kept(upstream: HttpHeaders.HeaderList): (r: HttpHeaders.HeaderList)
    ensures |r| <= |upstream|
    ensures forall i :: 0 <= i < |r| ==> !IsHopByHop(r[i].0)
  {
    if upstream == [] then []
    else
      var last := upstream[|upstream| - 1];
      Kept(upstream[..|upstream| - 1]) + (if IsHopByHop(last.0) then [] else [last])
  }

  /** What `createForwardHeaders` builds from the upstream headers. */
  function ForwardHeaders(upstream: HttpHeaders.HeaderList): HttpHeaders.HeaderList {
    var kept := Kept(upstream);
    var typed := if HttpHeaders.Contains(kept, "Content-Type") then kept
                 else HttpHeaders.SetEntry(kept, "Content-Type", DEFAULT_CONTENT_TYPE);
    HttpHeaders.SetEntry(typed, "Cache-Control", FORWARD_CACHE_CONTROL)
  }

  /** `createForwardHeaders(upstream)`: `forEach` over the upstream headers,
      appending those that are not hop-by-hop, then the two `set` calls. */
  method CreateForwardHeaders(upstream: HttpHeaders.HeaderList) returns (headers: HttpHeaders.Headers)
    ensures fresh(headers)
    ensures headers.entries == ForwardHeaders(upstream)
  {
    headers := new HttpHeaders.Headers([]);
    var i := 0;
    while i < |upstream|
      invariant 0 <= i <= |upstream|
      invariant headers.entries == Kept(upstream[..i])
    {
      var (key, value) := upstream[i];
      assert upstream[..i + 1][..i] == upstream[..i];
      if !IsHopByHop(key) {
        headers.Append(key, value);
      }
      i := i + 1;
    }
    assert upstream[..i] == upstream;
    if !headers.Has("Content-Type") {
      headers.Set("Content-Type", DEFAULT_CONTENT_TYPE);
    }
    headers.Set("Cache-Control", FORWARD_CACHE_CONTROL);
  }

  /** Names equal ignoring case are both hop-by-hop or both not. */
  lemma HopByHopIgnoresCase(a: string, b: string)
    requires Text.EqualsIgnoreCase(a, b)
    ensures IsHopByHop(a) == IsHopByHop(b)
  {
  }

  /** The filter removes exactly the hop-by-hop names and keeps every other
      name's values, unchanged and in order. */
  lemma {:induction false} KeptValues(upstream: HttpHeaders.HeaderList, name: string)
    ensures HttpHeaders.Values(Kept(upstream), name) == if IsHopByHop(name) then [] else HttpHeaders.Values(upstream, name)
    decreases |upstream|
  {
    if upstream != [] {
      var init := upstream[..|upstream| - 1];
      var last := upstream[|upstream| - 1];
      KeptValues(init, name);
      assert upstream == init + [last];
      HttpHeaders.ValuesOfConcat(init, [last], name);
      HttpHeaders.ValuesOfConcat(Kept(init), if IsHopByHop(last.0) then [] else [last], name);
      if HttpHeaders.NameIs(last, name) {
        HopByHopIgnoresCase(last.0, name);
      }
    }
  }

  lemma ResponseNamesDistinct()
    ensures !Text.EqualsIgnoreCase("Cache-Control", "Content-Type")
    ensures !IsHopByHop("Content-Type") && !IsHopByHop("Cache-Control")
  {
    HttpHeaders.DiffersAt("Cache-Control", "Content-Type", 1);
    assert Text.Lower("Content-Type")[0] == 'c';
    assert Text.Lower("Content-Type")[1] == 'o';
    assert Text.Lower("Cache-Control")[1] == 'a';
  }

  /** No hop-by-hop header is forwarded, whatever its case upstream. */
  lemma NoHopByHopForwarded(upstream: HttpHeaders.HeaderList, name: string)
    requires IsHopByHop(name)
    ensures !HttpHeaders.Contains(ForwardHeaders(upstream), name)
  {
    ResponseNamesDistinct();
    KeptValues(upstream, name);
    var kept := Kept(upstream);
    assert !Text.EqualsIgnoreCase(name, "Content-Type") by {
      if Text.EqualsIgnoreCase(name, "Content-Type") {
        HopByHopIgnoresCase(name, "Content-Type");
      }
    }
    assert !Text.EqualsIgnoreCase(name, "Cache-Control") by {
      if Text.EqualsIgnoreCase(name, "Cache-Control") {
        HopByHopIgnoresCase(name, "Cache-Control");
      }
    }
    var typed := if HttpHeaders.Contains(kept, "Content-Type") then kept
                 else HttpHeaders.SetEntry(kept, "Content-Type", DEFAULT_CONTENT_TYPE);
    if !HttpHeaders.Contains(kept, "Content-Type") {
      HttpHeaders.SetKeepsOthers(kept, "Content-Type", DEFAULT_CONTENT_TYPE, name);
    }
    HttpHeaders.SetKeepsOthers(typed, "Cache-Control", FORWARD_CACHE_CONTROL, name);
  }

  /** Every other end-to-end header is forwarded with its values unchanged,
      in upstream order. */
  lemma OtherHeadersForwarded(upstream: HttpHeaders.HeaderList, name: string)
    requires !IsHopByHop(name)
    requires !Text.EqualsIgnoreCase(name, "Content-Type") && !Text.EqualsIgnoreCase(name, "Cache-Control")
    ensures HttpHeaders.Values(ForwardHeaders(upstream), name) == HttpHeaders.Values(upstream, name)
  {
    KeptValues(upstream, name);
    var kept := Kept(upstream);
    var typed := if HttpHeaders.Contains(kept, "Content-Type") then kept
                 else HttpHeaders.SetEntry(kept, "Content-Type", DEFAULT_CONTENT_TYPE);
    assert HttpHeaders.Values(typed, name) == HttpHeaders.Values(kept, name);
  }

  /** Content-Type is the upstream one when there is one, and
      `application/octet-stream` only when there is none. */
  lemma ContentTypeDefaultsOnlyWhenAbsent(upstream: HttpHeaders.HeaderList)
    ensures HttpHeaders.Contains(upstream, "Content-Type") ==>
      HttpHeaders.Get(ForwardHeaders(upstream), "Content-Type") == HttpHeaders.Get(upstream, "Content-Type")
    ensures !HttpHeaders.Contains(upstream, "Content-Type") ==>
      HttpHeaders.Get(ForwardHeaders(upstream), "Content-Type") == Some(DEFAULT_CONTENT_TYPE)
  {
    ResponseNamesDistinct();
    KeptValues(upstream, "Content-Type");
    var kept := Kept(upstream);
    var typed := if HttpHeaders.Contains(kept, "Content-Type") then kept
                 else HttpHeaders.SetEntry(kept, "Content-Type", DEFAULT_CONTENT_TYPE);
    HttpHeaders.SetKeepsOthers(typed, "Cache-Control", FORWARD_CACHE_CONTROL, "Content-Type");
    assert HttpHeaders.Get(typed, "Content-Type") == HttpHeaders.Get(ForwardHeaders(upstream), "Content-Type");
  }

  /** Cache-Control is always the proxy's own, replacing any upstream value. */
  lemma CacheControlAlwaysReplaced(upstream: HttpHeaders.HeaderList)
    ensures HttpHeaders.Values(ForwardHeaders(upstream), "Cache-Control") == [FORWARD_CACHE_CONTROL]
  {
  }

  /** What the route answers: a JSON error, or the forwarded upstream
      response. */
  datatype ProxyResponse =
    | JsonError(status: int, error: string)
    | Forwarded(status: int, statusText: string, headers: HttpHeaders.HeaderList, body: seq<Byte>)

  /** The answer to `GET /?url=...`. */
  function RouteResponse(url: Option<string>, parse: UrlParser, fetch: (UpstreamRequest, CloudflareFetcher.CacheOptions) -> FetchOutcome)
    : (r: ProxyResponse)
    ensures url.None? || url == Some("") ==> r == JsonError(400, "Missing url parameter")
    ensures url.Some? && url.value != "" ==>
      var fetched := CloudflareFetcher.FetchRemoteImage(url.value, parse, fetch);
      (fetched.Ok? ==> r == Forwarded(fetched.value.status, fetched.value.statusText,
                                      ForwardHeaders(fetched.value.headers), fetched.value.body)) &&
      (fetched.Err? && fetched.error.FetchImageError? ==>
        r == JsonError(fetched.error.status.GetOr(502), fetched.error.message)) &&
      (fetched.Err? && fetched.error.UnexpectedError? ==> r == JsonError(502, "Unexpected error fetching image"))
  {
    if url.None? || url.value == "" then JsonError(400, "Missing url parameter")
    else
      match CloudflareFetcher.FetchRemoteImage(url.value, parse, fetch)
      case Ok(upstream) => Forwarded(upstream.status, upstream.statusText, ForwardHeaders(upstream.headers), upstream.body)
      case Err(FetchImageError(message, status)) => JsonError(status.GetOr(502), message)
      case Err(UnexpectedError) => JsonError(502, "Unexpected error fetching image")
  }

  /** The route handler, step by step. */
  method HandleGet(url: Option<string>, parse: UrlParser, fetch: (UpstreamRequest, CloudflareFetcher.CacheOptions) -> FetchOutcome)
    returns (response: ProxyResponse)
    ensures response == RouteResponse(url, parse, fetch)
  {
    if url.None? || url.value == "" {
      return JsonError(400, "Missing url parameter");
    }
    var fetched := CloudflareFetcher.FetchRemoteImage(url.value, parse, fetch);
    if fetched.Err? {
      match fetched.error
      case FetchImageError(message, status) =>
        return JsonError(status.GetOr(502), message);
      case UnexpectedError =>
        return JsonError(502, "Unexpected error fetching image");
    }
    var upstream := fetched.value;
    var headers := CreateForwardHeaders(upstream.headers);
    response := Forwarded(upstream.status, upstream.statusText, headers.entries, upstream.body);
  }

  /** A missing `url` is answered without `fetch`: any two fetchers give the
      same 400. */
  lemma MissingUrlNeverFetches(parse: UrlParser, first: (UpstreamRequest, CloudflareFetcher.CacheOptions) -> FetchOutcome,
                               second: (UpstreamRequest, CloudflareFetcher.CacheOptions) -> FetchOutcome)
    ensures RouteResponse(None, parse, first) == RouteResponse(None, parse, second) == JsonError(400, "Missing url parameter")
    ensures RouteResponse(Some(""), parse, first) == RouteResponse(Some(""), parse, second)
  {
  }

  /** A non-ok upstream response becomes a JSON error with the upstream's own
      status, never a forwarded body. */
  lemma UpstreamFailureKeepsStatus(url: string, parse: UrlParser, fetch: (UpstreamRequest, CloudflareFetcher.CacheOptions) -> FetchOutcome)
    requires url != ""
    requires ParseImageUrl(url, parse, CloudflareFetcher.URL_MESSAGES).Ok?
    requires var parsed := ParseImageUrl(url, parse, CloudflareFetcher.URL_MESSAGES).value;
      var outcome := fetch(UpstreamRequest(Direct(parsed.href), CloudflareFetcher.BuildUpstreamHeaders(parsed, parse)),
                           CloudflareFetcher.CacheOptions(true, CloudflareFetcher.CACHE_TTL_BY_STATUS));
      outcome.Responded? && !IsOk(outcome.response)
    ensures var parsed := ParseImageUrl(url, parse, CloudflareFetcher.URL_MESSAGES).value;
      var outcome := fetch(UpstreamRequest(Direct(parsed.href), CloudflareFetcher.BuildUpstreamHeaders(parsed, parse)),
                           CloudflareFetcher.CacheOptions(true, CloudflareFetcher.CACHE_TTL_BY_STATUS));
      RouteResponse(Some(url), parse, fetch) ==
        JsonError(outcome.response.status, "Failed to fetch image: " + outcome.response.statusText)
  {
  }
}
