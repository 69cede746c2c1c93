/** What the three `image-fetcher.ts` files share: the parts of a parsed
    URL they read, the fixed browser headers, the outcome of `fetch`, and
    `FetchImageError`. The WHATWG URL parser and `fetch` are foreign; they
    enter the model as function parameters. */
module Upstream {

  import opened Wrappers
  import opened Images
  import HttpHeaders
  import Text

  /** The fields of a `URL` object the fetchers read. */
  datatype Url = Url(protocol: string, href: string, origin: string)

  /** `new URL(input)`: a URL, or `None` where the constructor throws. */
  type UrlParser = string -> Option<Url>

  const DEFAULT_USER_AGENT: string :=
    "Mozilla/5.0 (Windows NT 10.0; Win64; x64) AppleWebKit/537.36 (KHTML, like Gecko) Chrome/124.0.0.0 Safari/537.36"

  const ACCEPT_HEADER: string := "image/avif,image/webp,image/apng,image/*,*/*;q=0.8"

  predicate IsHttpScheme(url: Url) {
    url.protocol == "https:" || url.protocol == "http:"
  }

  /** `FetchImageError(message, status?)`, or any other thrown error. */
  datatype FetchError = FetchImageError(message: string, status: Option<int>) | UnexpectedError

  /** The two messages with which a fetcher refuses an image URL. */
  datatype UrlMessages = UrlMessages(invalid: string, unsupported: string)

  /** `new URL(imageUrl)` and the scheme check, both before any fetch: an
      unparsable URL and a scheme other than http or https are refused, with
      the fetcher's own message and no status. */
  function ParseImageUrl(imageUrl: string, parse: UrlParser, messages: UrlMessages): (r: Result<Url, FetchError>)
    ensures r.Ok? <==> parse(imageUrl).Some? && IsHttpScheme(parse(imageUrl).value)
    ensures r.Ok? ==> r.value == parse(imageUrl).value
    ensures parse(imageUrl).None? ==> r == Err(FetchImageError(messages.invalid, None))
    ensures parse(imageUrl).Some? && !IsHttpScheme(parse(imageUrl).value) ==>
      r == Err(FetchImageError(messages.unsupported, None))
  {
    match parse(imageUrl)
    case None => Err(FetchImageError(messages.invalid, None))
    case Some(parsed) =>
      if !IsHttpScheme(parsed) then Err(FetchImageError(messages.unsupported, None))
      else Ok(parsed)
  }

  /** Where the request goes: the image URL itself, or the configured proxy
      endpoint carrying the image URL in its `url` query parameter. */
  datatype RequestTarget = Direct(href: string) | ViaProxy(endpoint: Url, urlParam: string)

  datatype UpstreamRequest = UpstreamRequest(target: RequestTarget, headers: HttpHeaders.HeaderList)

  /** The final response after redirects have been followed. */
  datatype UpstreamResponse = UpstreamResponse(status: int, statusText: string, headers: HttpHeaders.HeaderList, body: seq<Byte>)

  /** `await fetch(...)`: a response, or a rejection (a network error). */
  datatype FetchOutcome = Responded(response: UpstreamResponse) | NetworkFailure

  /** `response.ok` */
  predicate IsOk(response: UpstreamResponse) {
    200 <= response.status <= 299
  }

  /** The four request header names are different names, whatever their
      case. */
  lemma RequestNamesDistinct()
    ensures forall i, j :: 0 <= i < |REQUEST_NAMES| && 0 <= j < |REQUEST_NAMES| && i != j ==>
      !Text.EqualsIgnoreCase(REQUEST_NAMES[i], REQUEST_NAMES[j])
  {
    forall i, j | 0 <= i < |REQUEST_NAMES| && 0 <= j < |REQUEST_NAMES| && i != j
      ensures !Text.EqualsIgnoreCase(REQUEST_NAMES[i], REQUEST_NAMES[j])
    {
      HttpHeaders.DiffersAt(REQUEST_NAMES[i], REQUEST_NAMES[j], 0);
    }
  }

  const REQUEST_NAMES: seq<string> := ["User-Agent", "Accept", "Referer", "Origin"]

  /** The four headers the src and Cloudflare fetchers send, in the order
      they are written in the `new Headers({...})` literal. */
  predicate BrowserHeaders(headers: HttpHeaders.HeaderList) {
    |headers| == 4 &&
    forall i :: 0 <= i < 4 ==> headers[i].0 == REQUEST_NAMES[i]
  }

  lemma BrowserHeadersRead(headers: HttpHeaders.HeaderList)
    requires BrowserHeaders(headers)
    ensures HttpHeaders.Get(headers, "User-Agent") == Some(headers[0].1)
    ensures HttpHeaders.Get(headers, "Accept") == Some(headers[1].1)
    ensures HttpHeaders.Get(headers, "Referer") == Some(headers[2].1)
    ensures HttpHeaders.Get(headers, "Origin") == Some(headers[3].1)
  {
    RequestNamesDistinct();
    forall i | 0 <= i < 4
      ensures HttpHeaders.Get(headers, REQUEST_NAMES[i]) == Some(headers[i].1)
    {
      HttpHeaders.GetUnique(headers, i, REQUEST_NAMES[i]);
    }
    assert REQUEST_NAMES[0] == "User-Agent" && REQUEST_NAMES[1] == "Accept";
    assert REQUEST_NAMES[2] == "Referer" && REQUEST_NAMES[3] == "Origin";
  }

  /** The fetched bytes and the declared content type. */
  datatype RemoteImage = RemoteImage(buffer: seq<Byte>, contentType: Option<string>)

  /** `if (!response.ok) throw new FetchImageError(...)`, the same in all
      three fetchers: a non-ok response fails with its own status; a
      rejected `fetch` is not a `FetchImageError`. */
  function CheckResponse(outcome: FetchOutcome): (r: Result<UpstreamResponse, FetchError>)
    ensures r.Ok? <==> outcome.Responded? && IsOk(outcome.response)
    ensures r.Ok? ==> r.value == outcome.response
    ensures outcome.Responded? && !IsOk(outcome.response) ==>
      r == Err(FetchImageError("Failed to fetch image: " + outcome.response.statusText, Some(outcome.response.status)))
    ensures outcome.NetworkFailure? ==> r == Err(UnexpectedError)
  {
    match outcome
    case NetworkFailure => Err(UnexpectedError)
    case Responded(response) =>
      if IsOk(response) then Ok(response)
      else Err(FetchImageError("Failed to fetch image: " + response.statusText, Some(response.status)))
  }

  /** `{ buffer: await response.arrayBuffer(), contentType: response.headers.get('content-type') }` */
  function ToRemoteImage(response: UpstreamResponse): (r: RemoteImage)
    ensures r.buffer == response.body
    ensures r.contentType == HttpHeaders.Get(response.headers, "content-type")
  {
    RemoteImage(response.body, HttpHeaders.Get(response.headers, "content-type"))
  }

  /** The end of every fetcher: a non-ok response or a rejected `fetch`
      fails, otherwise the body and the declared content type are kept. */
  function Receive(outcome: FetchOutcome): (r: Result<RemoteImage, FetchError>)
    ensures r.Ok? <==> outcome.Responded? && IsOk(outcome.response)
    ensures r.Ok? ==> (r.value.buffer == outcome.response.body &&
      r.value.contentType == HttpHeaders.Get(outcome.response.headers, "content-type"))
    ensures r.Err? ==> CheckResponse(outcome) == Err(r.error)
  {
    match CheckResponse(outcome)
    case Err(e) => Err(e)
    case Ok(response) => Ok(ToRemoteImage(response))
  }
}
