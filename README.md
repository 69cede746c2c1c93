# Cloudflare-jSquash image transformer, modelled in Dafny

This project models the core of an image-transformation service. There are
three deployments of it:

- **The worker** (`src/index.ts`) has two routes. `GET /?url=…&width=…&height=…`
  fetches a remote image and detects its format. It then decodes the image,
  resolves the target size, resizes the image and re-encodes it in its own
  format. `GET /meta/?url=…` fetches and decodes an image and answers its
  size and a base64 thumbhash. Each stage fails with its own HTTP status:
  400 for a missing url or no usable size, the fetcher's status or 502 for a
  failed fetch, 500 for codec set-up, 415 for an unknown format, 422 for a
  failed decode or resize, and 500 for a failed encode or thumbhash.
- **The Cloudflare image proxy** (`cloudflare/image-proxy`) fetches through
  Cloudflare's cache. It uses a per-status TTL table and a host-pattern table
  of spoofed Referer and Origin headers. It forwards the upstream response
  without hop-by-hop headers, with a default Content-Type and a one-year
  Cache-Control.
- **The Deno/Supabase variant** (`supabase/functions/image-transformer`) has
  the same pipeline. Its codecs are initialised per format. It can route
  requests through an `IMAGE_PROXY` endpoint, and it builds the request
  headers by conditional `set` calls. It installs an `ImageData` polyfill
  when the runtime has none.

Collaborators outside the core enter as function-typed parameters. These are
the WHATWG URL parser, `fetch`, the jSquash codecs, the resampler,
`rgbaToThumbHash`, codec initialisation and `Number(string)`. Each operation is
modelled once. Where two deployments share a definition line for line, one
Dafny definition serves both and the table cites both files. Examples are the
format sniffing, the crop decision, the referer table and the thumbnail
scaling.

Modules, one per core file plus shared value types:
`Wrappers`, `Text`, `Images`, `RealFacts` (arithmetic facts), `HttpHeaders`
(the Fetch `Headers` object), `Upstream` (what the three fetchers share),
`DetectFormat`, `Dimensions`, `ImageProcessor`, `ImageProcessorDeno`,
`SrcFetcher`, `RefererRules`, `CloudflareFetcher`, `SupabaseFetcher`,
`ImageProxy`, `Base64`, `Thumbhash`, `ThumbhashDeno`, `ImageDataPolyfill` and
`Transformer`.

Some code works by changing state step by step. It is written as imperative
Dafny, and each method is proved equal to a specification function whose
properties are proved as lemmas:

- the header `forEach` loop of the proxy (`ImageProxy.CreateForwardHeaders`)
- the chunked binary-string loop of `toBase64` (`Thumbhash.ToBase64`)
- the mutable `Headers` object (`HttpHeaders.Headers`)
- the Supabase fetcher's reassigned origin and conditional `set` calls
- the route handlers' early returns
- the polyfill's constructor and global installation

## Model

| member | source | states |
|---|---|---|
| Text.DecimalRoundTrip | src/index.ts:108 | `byteLength.toString()` is decimal digits that read back as the length |
| Text.DecimalString | src/index.ts:108 | the length is written as a non-empty string of decimal digits with no leading zero |
| HttpHeaders.Get | src/lib/image-fetcher.ts:49 | `headers.get(name)` is absent exactly when no entry has the name, ignoring case |
| HttpHeaders.SetEntry | supabase/functions/image-transformer/lib/image-fetcher.ts:115-124 | after `set`, the name holds exactly the new value, and every other name keeps all its values |
| HttpHeaders.SetKeepsOthers | supabase/functions/image-transformer/lib/image-fetcher.ts:115-124 | `set` of one name leaves every other name's value and presence unchanged |
| HttpHeaders.GetUnique | src/lib/image-fetcher.ts:32-37 | a name held by exactly one entry of a header literal reads back as that entry's value |
| HttpHeaders.Headers.constructor | src/index.ts:104-107 | `new Headers(init)` holds the initial pairs in order |
| HttpHeaders.Headers.Append | cloudflare/image-proxy/index.ts:24 | `append` adds one entry at the end and changes nothing else |
| HttpHeaders.Headers.Set | src/index.ts:108 | `set` changes the entries to the `SetEntry` of the old entries |
| Upstream.RequestNamesDistinct | src/lib/image-fetcher.ts:32-37 | User-Agent, Accept, Referer and Origin are four distinct names in any case |
| Upstream.BrowserHeadersRead | src/lib/image-fetcher.ts:32-37 | each of the four literal headers reads back as its own value |
| Upstream.CheckResponse | src/lib/image-fetcher.ts:44-46 | success iff a response with status 200-299; a non-ok response fails with its status and statusText; a rejected fetch is an unexpected error |
| Upstream.ToRemoteImage | src/lib/image-fetcher.ts:48-51 | the buffer is the body and the content type is the response's `content-type` header |
| Upstream.Receive | src/lib/image-fetcher.ts:44-51 | success iff the response is ok, with its body and content type; every failure is `CheckResponse`'s |
| Upstream.ParseImageUrl | src/lib/image-fetcher.ts:20-29 | accepted iff the URL parses with scheme http or https; each refusal carries the fetcher's own message and no status (the Cloudflare fetcher, cloudflare/image-proxy/lib/image-fetcher.ts:85-94, words them the same; the Supabase one, supabase/functions/image-transformer/lib/image-fetcher.ts:84-93, ends them with a full stop) |
| SrcFetcher.BuildRequest | src/lib/image-fetcher.ts:31-42 | the request goes to the URL itself; User-Agent and Accept are fixed; Referer and Origin are the image's own origin |
| SrcFetcher.FetchRemoteImage | src/lib/image-fetcher.ts:19-52 | a refused URL fails before fetching; otherwise the result is the received outcome of the one request built |
| SrcFetcher.RejectedBeforeFetch | src/lib/image-fetcher.ts:20-29 | for a refused URL the answer does not depend on `fetch` and carries no status |
| DetectFormat.FormatToContentType | src/lib/detect-format.ts:67-80 | each format's content type is a key of the MIME table that maps back to that format |
| DetectFormat.FormatToContentTypeInjective | src/lib/detect-format.ts:67-80 | distinct formats get distinct content types |
| DetectFormat.SniffFormat | src/lib/detect-format.ts:19-64 | JPEG iff the buffer starts FF D8 FF; PNG, WebP and AVIF only with their signatures; nothing for fewer than 3 bytes |
| DetectFormat.SignaturesDisjoint | src/lib/detect-format.ts:19-64 | PNG and WebP are reported exactly when their signatures are present; AVIF exactly when an `ftyp` box with brand avif, avis or av01 is present and the buffer does not also start FF D8 FF |
| DetectFormat.DetectImageFormat | src/lib/detect-format.ts:11-65 | a declared type that normalises to a table key decides the format; otherwise the result is the byte sniffing |
| DetectFormat.NormaliseStripsParameters | src/lib/detect-format.ts:13 | a declared type is compared lower-cased, without surrounding whitespace or `;` parameters |
| DetectFormat.DeclaredTypeWins | supabase/functions/image-transformer/lib/detect-format.ts:15-19 | a declared type naming a known MIME type wins over the bytes |
| DetectFormat.UnknownTypeFallsThrough | src/lib/detect-format.ts:12-19 | an absent, empty or unknown declared type falls through to the signatures |
| DetectFormat.ContentTypeRoundTrip | src/lib/detect-format.ts:67-80 | the content type emitted for a format is detected as that format, whatever the bytes |
| DetectFormat.PlainMimeNormalises | src/lib/detect-format.ts:13 | a lower-case type without whitespace or parameters normalises to itself |
| DetectFormat.AsWrittenAgreesOffPrototype | src/lib/detect-format.ts:14-15 | unless the type normalises to `constructor` or `__proto__`, the `in` lookup as written agrees with the corrected detection |
| DetectFormat.ReachableInheritedKeys | src/lib/detect-format.ts:12-13 | after lower-casing, the only `Object.prototype` names a declared type can spell are `constructor` and `__proto__` |
| DetectFormat.ConstructorContentTypeDefeatsSniffing | supabase/functions/image-transformer/lib/detect-format.ts:17-18 | a JPEG served as `constructor` gets the inherited member as written; the corrected detection says `jpeg` |
| Dimensions.Round | cloudflare/image-transformer/lib/dimensions.ts:11 | the result is at least 1 and is the nearest integer, halves rounded up, for values from 0.5 |
| Dimensions.ResolveDimensions | cloudflare/image-transformer/lib/dimensions.ts:13-47 | an error iff neither axis is a positive number; otherwise both sides are at least 1 |
| Dimensions.BothAxesIgnoreOriginal | cloudflare/image-transformer/lib/dimensions.ts:27-32 | with both axes requested, the original size plays no part and each side is its rounded request |
| Dimensions.WidthOnlyKeepsAspect | cloudflare/image-transformer/lib/dimensions.ts:34-41 | width only: the width is the rounded request, and the height is the rounding of width times the original height over the original width |
| Dimensions.HeightOnlyKeepsAspect | cloudflare/image-transformer/lib/dimensions.ts:43-46 | height only: the height is the rounded request, and the width is the rounding of height times the original aspect |
| Dimensions.Examples | cloudflare/image-transformer/lib/dimensions.ts:13-47 | a 100x50 original asked for width 200 gives 200x100; height 25 gives 50x25; 200x10 is taken verbatim; nothing requested is an error |
| ImageProcessor.ShouldCropToMatchAspect | src/lib/image-processor.ts:43-69 | no crop for a zero-height target; a crop only when the relative aspect difference exceeds 1% |
| ImageProcessor.ShouldCropMatchesIntegers | src/lib/image-processor.ts:47-69 | for a positive box, the decision is the integer cross-product test: a >1% difference and a crop band of at least one pixel |
| ImageProcessor.CropRealsMatch | supabase/functions/image-transformer/lib/image-processor.ts:24-53 | the quotient form of the decision equals its cross-multiplied form |
| ImageProcessor.CropExample | src/lib/image-processor.ts:43-69 | 1000x500 into a square is cropped; into 1000x500 or 200x101 it is not |
| ImageProcessor.ResizeOptionsFor | src/lib/image-processor.ts:80-82 | the options carry the target size, `contain` exactly when cropping, and `triangle` |
| ImageProcessor.ResizeImage | src/lib/image-processor.ts:71-83 | refused iff a side is not positive; the same size returns the image itself; otherwise the resampler's result on those options |
| ImageProcessor.SameSizeSkipsResample | src/lib/image-processor.ts:76-78 | asking for the image's own size returns it unchanged, whatever the resampler |
| ImageProcessor.DispatchIsPerFormat | src/lib/image-processor.ts:13-41 | replacing one format's codec changes the decode/encode dispatch of that format only |
| ImageProcessorDeno.GetCodecHandlers | supabase/functions/image-transformer/lib/image-processor.ts:8-22 | a codec is handed out iff its format initialised, and it is that format's codec |
| ImageProcessorDeno.DecodeImage | supabase/functions/image-transformer/lib/image-processor.ts:8-14 | when initialised, decoding agrees with the format's decoder; otherwise the initialisation error |
| ImageProcessorDeno.EncodeImage | supabase/functions/image-transformer/lib/image-processor.ts:16-22 | when initialised, encoding agrees with the format's encoder; otherwise the initialisation error |
| ImageProcessorDeno.ResizeImage | supabase/functions/image-transformer/lib/image-processor.ts:55-79 | the same refusal and same-size shortcut as the worker; readiness fails only a real resize |
| ImageProcessorDeno.SameSizeSkipsReadinessAndResample | supabase/functions/image-transformer/lib/image-processor.ts:64-66 | the same size returns the image whether or not the resizer is ready |
| ImageProcessorDeno.AgreesWithSrcWhenReady | supabase/functions/image-transformer/lib/image-processor.ts:55-79 | with the resizer ready, the Deno resize answers exactly as the worker's |
| RefererRules.RunEnd | cloudflare/image-proxy/lib/image-fetcher.ts:13 | the end of the longest run of class characters from a position |
| RefererRules.GreedyLabelIsExact | cloudflare/image-proxy/lib/image-fetcher.ts:13 | reading `\w+` greedily accepts exactly what the backtracking regex accepts before a dotted domain |
| RefererRules.FindIndex | cloudflare/image-proxy/lib/image-fetcher.ts:51 | the first rule whose pattern matches, with no earlier rule matching; none iff no rule matches |
| RefererRules.FindRule | supabase/functions/image-transformer/lib/image-fetcher.ts:12-38 | a rule is found iff some table row matches, and it is the first such row |
| RefererRules.OnlyPiokokForces | supabase/functions/image-transformer/lib/image-fetcher.ts:29-33 | a forced Origin comes only from the piokok rule |
| RefererRules.SinaExamples | cloudflare/image-proxy/lib/image-fetcher.ts:12-15 | a Sina image host matches the first rule; a dotted label does not |
| RefererRules.ResolveRefererFor | cloudflare/image-proxy/lib/image-fetcher.ts:49-64 | no rule: both are the image's origin; a rule: its referer, and the referer's parsed origin or else the referer itself |
| RefererRules.MatchedRefererIsOwnOrigin | cloudflare/image-proxy/lib/image-fetcher.ts:58-61 | for table referers that parse to themselves, Referer and Origin are equal, non-empty and not `null` |
| CloudflareFetcher.TtlFor | cloudflare/image-proxy/lib/image-fetcher.ts:66-71 | a TTL iff some range holds the status, and it is that range's TTL |
| CloudflareFetcher.TtlTable | cloudflare/image-proxy/lib/image-fetcher.ts:66-71 | 2xx and 301-308 are cached a year, 4xx-5xx for 0 s, all other statuses use the default |
| CloudflareFetcher.BuildUpstreamHeaders | cloudflare/image-proxy/lib/image-fetcher.ts:73-82 | User-Agent and Accept are fixed; Referer and Origin are the resolved pair, always sent |
| CloudflareFetcher.FetchRemoteImage | cloudflare/image-proxy/lib/image-fetcher.ts:84-111 | a refused URL fails before fetching; otherwise one cached request whose ok response is returned as is |
| CloudflareFetcher.SinaImageUsesWeibo | cloudflare/image-proxy/lib/image-fetcher.ts:12-15 | a Sina image is sent with Referer and Origin `https://weibo.com` |
| CloudflareFetcher.UnmatchedSendsOwnOrigin | cloudflare/image-proxy/lib/image-fetcher.ts:49-56 | without a rule the image's own origin is sent as both, even `null` |
| SupabaseFetcher.ProxyEndpoint | supabase/functions/image-transformer/lib/image-fetcher.ts:40-50 | an endpoint iff the variable is readable and not blank, trimmed |
| SupabaseFetcher.BuildRequestUrl | supabase/functions/image-transformer/lib/image-fetcher.ts:67-81 | no endpoint: the URL itself; an unparsable endpoint is an error; otherwise the endpoint carrying the URL |
| SupabaseFetcher.HeaderListForReads | supabase/functions/image-transformer/lib/image-fetcher.ts:110-125 | fixed User-Agent and Accept, exactly the Referer and Origin chosen, and no other name |
| SupabaseFetcher.PlanRequest | supabase/functions/image-transformer/lib/image-fetcher.ts:83-125 | URL and endpoint errors in order; otherwise the target and the four headers as the fetcher sets them |
| SupabaseFetcher.FetchRemoteImage | supabase/functions/image-transformer/lib/image-fetcher.ts:83-143 | the imperative fetcher answers the planned error, or the received outcome of the planned request |
| SupabaseFetcher.ProxiedSendsNoRefererOrOrigin | supabase/functions/image-transformer/lib/image-fetcher.ts:108-125 | through the proxy there is no Referer or Origin, and the image URL is the `url` parameter |
| SupabaseFetcher.NeverSendsNullOrigin | supabase/functions/image-transformer/lib/image-fetcher.ts:120-124 | the Origin sent is never `null` and never empty |
| SupabaseFetcher.NullOriginWithoutForceIsDropped | supabase/functions/image-transformer/lib/image-fetcher.ts:95-124 | an opaque origin without a forcing rule sends no Origin, but still the Referer |
| SupabaseFetcher.ForcedRuleSendsReferer | supabase/functions/image-transformer/lib/image-fetcher.ts:120-124 | a forcing rule sends its referer as Origin when the origin is opaque; without force, none |
| ImageProxy.Kept | cloudflare/image-proxy/index.ts:20-25 | no surviving entry is hop-by-hop |
| ImageProxy.KeptValues | cloudflare/image-proxy/index.ts:20-25 | the filter removes exactly the hop-by-hop names and keeps every other name's values in order |
| ImageProxy.CreateForwardHeaders | cloudflare/image-proxy/index.ts:18-33 | the loop builds a fresh `Headers` equal to `ForwardHeaders` of the upstream list |
| ImageProxy.HopByHopIgnoresCase | cloudflare/image-proxy/index.ts:21 | names equal ignoring case are both hop-by-hop or both not |
| ImageProxy.NoHopByHopForwarded | cloudflare/image-proxy/index.ts:7-33 | no hop-by-hop header is forwarded, whatever its case upstream |
| ImageProxy.OtherHeadersForwarded | cloudflare/image-proxy/index.ts:18-33 | every other end-to-end header is forwarded with its values unchanged |
| ImageProxy.ContentTypeDefaultsOnlyWhenAbsent | cloudflare/image-proxy/index.ts:27-29 | the upstream Content-Type is kept; `application/octet-stream` is used only when there is none |
| ImageProxy.CacheControlAlwaysReplaced | cloudflare/image-proxy/index.ts:31 | the only Cache-Control value is one year, public |
| ImageProxy.RouteResponse | cloudflare/image-proxy/index.ts:35-56 | a missing url is 400; an ok upstream is forwarded with its status and filtered headers; errors are answered with their status or 502 |
| ImageProxy.HandleGet | cloudflare/image-proxy/index.ts:35-56 | the handler answers `RouteResponse` |
| ImageProxy.MissingUrlNeverFetches | cloudflare/image-proxy/index.ts:36-39 | a missing or empty url is answered 400 whatever `fetch` would do |
| ImageProxy.UpstreamFailureKeepsStatus | cloudflare/image-proxy/index.ts:41-55 | a non-ok upstream response becomes a JSON error with the upstream status |
| Base64.DigitRoundTrip | cloudflare/lib/thumbhash.ts:13 | the 64 digits and their values form a bijection |
| Base64.Encode | cloudflare/lib/thumbhash.ts:13 | the output has 4 characters per started group of 3 bytes |
| Base64.DecodeEncode | cloudflare/lib/thumbhash.ts:13 | decoding the encoding gives the bytes back |
| Base64.EncodeAlphabet | cloudflare/lib/thumbhash.ts:13 | every output character is a base64 digit or `=` |
| Base64.RfcTestVectors | cloudflare/lib/thumbhash.ts:13 | the encoding of "", "f", …, "foobar" is that of RFC 4648, section 10 |
| Base64.Latin1 | cloudflare/lib/thumbhash.ts:11 | `String.fromCharCode` gives one character per byte, with that code |
| Base64.Btoa | cloudflare/lib/thumbhash.ts:13 | `btoa` succeeds iff every character code is below 256 |
| Base64.BtoaOfLatin1 | cloudflare/lib/thumbhash.ts:6-13 | `btoa` of a byte string is the base64 of its bytes |
| Thumbhash.ScaledSide | cloudflare/lib/thumbhash.ts:21-23 | a scaled side is 1 to 50, exactly 50 for the longest side, and the nearest integer to its exact value |
| Thumbhash.ScaleTargets | cloudflare/lib/thumbhash.ts:16-23 | no resize iff both sides are at most 50; targets are 1 to 50, with 50 on the longer side |
| Thumbhash.ScaleTargetsKeepAspect | supabase/functions/image-transformer/lib/thumbhash.ts:21-23 | each target is the nearest integer to its side times 50 over the longest side |
| Thumbhash.ScaleExamples | cloudflare/lib/thumbhash.ts:16-23 | 100x50 becomes 50x25; 3000x10 becomes 50x1; 50x50 is left alone |
| Thumbhash.ScaleDown | cloudflare/lib/thumbhash.ts:16-26 | the image itself when it fits; otherwise the stretch/triangle resize to the targets |
| Thumbhash.ToBase64 | cloudflare/lib/thumbhash.ts:6-14 | the chunked loop yields exactly the base64 encoding of the bytes |
| Thumbhash.GenerateThumbHash | cloudflare/lib/thumbhash.ts:28-32 | the method answers the hash of the scaled image, base64-encoded |
| Thumbhash.SmallImageHashedAsIs | cloudflare/lib/thumbhash.ts:17-19 | an image within 50x50 is hashed unresized, and the hash decodes back from the result |
| ThumbhashDeno.ScaleDown | supabase/functions/image-transformer/lib/thumbhash.ts:16-32 | fitting images need no readiness; otherwise a ready resizer's result, or failure |
| ThumbhashDeno.GenerateThumbHash | supabase/functions/image-transformer/lib/thumbhash.ts:34-43 | the method answers the Deno thumbhash specification |
| ThumbhashDeno.AgreesWhenReady | supabase/functions/image-transformer/lib/thumbhash.ts:16-43 | with the resizer ready, the Deno thumbhash equals the Cloudflare one |
| ThumbhashDeno.SmallImageNeedsNoReadiness | supabase/functions/image-transformer/lib/thumbhash.ts:17-19 | an image within 50x50 hashes the same whether or not the resizer is ready |
| ImageDataPolyfill.NumericForm | supabase/functions/image-transformer/lib/image-data-polyfill.ts:21-41 | accepted iff width and height are positive integers; the width is checked first |
| ImageDataPolyfill.DataForm | supabase/functions/image-transformer/lib/image-data-polyfill.ts:48-76 | an accepted buffer holds exactly width x height x 4 bytes of positive sides; a bad width is refused first |
| ImageDataPolyfill.QuotientIsInteger | supabase/functions/image-transformer/lib/image-data-polyfill.ts:57 | `length / (width*4)` is an integer iff the division leaves no remainder |
| ImageDataPolyfill.ImpliedHeight | supabase/functions/image-transformer/lib/image-data-polyfill.ts:57-71 | with no height, a buffer is accepted iff it holds a positive whole number of rows, which is the height |
| ImageDataPolyfill.ExplicitHeight | supabase/functions/image-transformer/lib/image-data-polyfill.ts:57-71 | with a height, accepted iff it is a positive integer and the length matches; a non-positive height is refused |
| ImageDataPolyfill.PolyfillImageData.constructor | supabase/functions/image-transformer/lib/image-data-polyfill.ts:36-39 | the fields are set from the checked arguments with colour space `srgb` |
| ImageDataPolyfill.Construct | supabase/functions/image-transformer/lib/image-data-polyfill.ts:16-77 | a non-array is a TypeError; numbers give a fresh zeroed buffer; an array is adopted; each check's error is thrown |
| ImageDataPolyfill.Installed | supabase/functions/image-transformer/lib/image-data-polyfill.ts:1-3 | afterwards `ImageData` is a function; an existing one is kept |
| ImageDataPolyfill.InstallIdempotent | supabase/functions/image-transformer/lib/image-data-polyfill.ts:80-84 | installing twice is installing once; a native constructor is never replaced |
| ImageDataPolyfill.GlobalScope.InstallPolyfill | supabase/functions/image-transformer/lib/image-data-polyfill.ts:80-84 | the global binding becomes `Installed` of the old one |
| Transformer.ParseDimensionParam | src/index.ts:14-23 | a number iff the parameter is present, non-empty, finite and positive |
| Transformer.ParsedParamIsRequested | src/index.ts:39-40 | a parsed parameter is exactly a requested axis for the resolver |
| Transformer.EnsureSupportedFormat | src/index.ts:25-31 | success iff a format is detected; otherwise the fixed message |
| Transformer.FetchFailure | src/index.ts:45-50 | a `FetchImageError` is answered with its status or 502; any other error with 502 |
| Transformer.FetchAndDecode | src/index.ts:42-73 | the fetch failure answer; else 500 when the codecs did not initialise, 415 when no format is detected, 422 when decoding fails, otherwise the format and the decoded image |
| Transformer.SuccessHeadersRead | src/index.ts:104-108 | the reply carries the format's MIME type, a one-hour Cache-Control and the body length |
| Transformer.Transform | src/index.ts:33-111 | a missing url is 400; a failing shared stage gives that stage's answer; then 400 without a usable axis, 422 when resizing fails, 500 when encoding fails, otherwise 200 with the encoded bytes and their success headers |
| Transformer.HandleTransform | src/index.ts:33-111 | the handler answers `Transform` |
| Transformer.Meta | src/index.ts:113-166 | a missing url is 400; a failing shared stage gives that stage's answer; 500 when the thumbhash fails; otherwise 200 with the decoded size, the generated thumbhash and a one-hour Cache-Control |
| Transformer.HandleMeta | src/index.ts:113-166 | the handler answers `Meta` |
| Transformer.FetchFailureIsTerminal | src/index.ts:42-51 | a failed fetch gets the same answer on both routes, before any codec work |
| Transformer.UndetectableFormatIs415 | src/index.ts:60-65 | an undetectable format is 415 on both routes |
| Transformer.NoDimensionsIs400 | src/index.ts:75-86 | no usable width or height is 400 |
| Transformer.SuccessIsLabelled | src/index.ts:104-110 | a success is 200 with the detected format's MIME type, the exact body length and the cache lifetime |
| Transformer.OwnSizeSkipsResample | src/index.ts:88-94 | asking for the decoded image's own size never consults the resampler |
| Transformer.CodecInitIs500 | src/index.ts:53-58 | codecs that fail to initialise give 500 on both routes, whatever the image |
| Transformer.DecodeFailureIs422 | src/index.ts:67-73 | a detected format whose decoder fails gives 422 on both routes |
| Transformer.ResizeFailureIs422 | src/index.ts:88-94 | a failed resize to the resolved target gives 422 |
| Transformer.EncodeFailureIs500 | src/index.ts:96-102 | a failed encode of the resized image gives 500 |
| Transformer.ThumbHashOutcome | src/index.ts:152-165 | a failed thumbhash gives 500 on `/meta/`; otherwise the reply carries that thumbhash beside the decoded size |

## Left out

- Floating point: dimensions, aspect ratios and scales are exact reals. IEEE rounding of `/` and `*` is not modelled. `Math.round` is `floor(x + 0.5)`.
- `Number(string)` is the parameter `toNumber`. Parsing of numeric strings is not part of this model.
- The WHATWG URL parser, `fetch`, the jSquash codecs and `@jsquash/resize` are parameters. So are `rgbaToThumbHash` and the outcomes of codec initialisation (`ensureCodecsInitialised`, per-format initialisation, `ensureResizeReady`). src/lib/codec-init.ts and supabase/functions/image-transformer/lib/codec-init.ts are not part of this model.
- `Text.Lower` folds ASCII letters only. Header names and the MIME types compared are ASCII; `toLowerCase` on other letters is not modelled.
- The proxy copies upstream headers in the list order given. The Fetch standard's sorting and combining of names during `forEach` is not modelled.
- SupabaseFetcher.BuildRequestUrl: the proxy URL's query-string serialisation is not modelled. The request records the endpoint and the `url` value.
- SupabaseFetcher.ProxyEndpoint: reading `Deno.env` is the parameter `env`; `None` stands for an unset or unreadable variable.
- Response bodies are byte sequences. Streaming, `statusText` defaults and Hono's JSON serialisation are not modelled. `console.error` logging is left out.
- ImageDataPolyfill.Construct: the size limit of a `Uint8ClampedArray` allocation is not modelled. A non-number height is passed as NaN, which takes the same branches.
- Transformer.Transform / Transformer.Meta: routed through the corrected detection `DetectFormat.DetectImageFormat`. A declared type that normalises to `constructor` or `__proto__` is sniffed here. As written, the inherited member fails decoding and the route answers 422 (see "## Findings" and `DetectFormat.DetectAsWritten`).
- src/index.ts imports ./lib/dimensions and ./lib/thumbhash, which are not part of this model. The worker is modelled with the cloudflare/image-transformer/lib/dimensions.ts and cloudflare/lib/thumbhash.ts definitions. cloudflare/image-transformer/lib/image-proxy-client.ts, src/bindings.ts and the Deno shims are not part of this model.
- `resolveDimensions` accepts a positive `Infinity` as a requested axis. `parseDimensionParam` never produces one, so axes are finite reals here.

## Findings

| source | as written | input that shows it | evidently intended | confidence | as-written member | corrected member |
|---|---|---|---|---|---|---|
| src/lib/detect-format.ts:14-15 (same at supabase/functions/image-transformer/lib/detect-format.ts:17-18) | `normalised in MIME_TO_FORMAT` also finds keys inherited from `Object.prototype`, and returns the inherited member instead of a format | a JPEG (FF D8 FF) served with `Content-Type: constructor` returns the `Object` constructor, so decoding throws and the route answers 422 | only the table's own keys are looked up, so the bytes are sniffed and `jpeg` is detected | not executed | DetectFormat.ConstructorContentTypeDefeatsSniffing | DetectFormat.DetectImageFormat |
