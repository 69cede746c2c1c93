/** src/index.ts: the two routes of the image transformer. `GET /` fetches
    an image, detects its format, decodes it, resolves the target size,
    resizes and re-encodes it; `GET /meta/` fetches and decodes an image and
    answers its size and thumbhash. Each stage's failure is answered at
    once with its own status. */
module Transformer {

  import opened Wrappers
  import opened Images
  import opened Upstream
  import HttpHeaders
  import Text
  import SrcFetcher
  import DetectFormat
  import Dimensions
  import ImageProcessor
  import Thumbhash

  /** `parseDimensionParam(value)`: the number a query parameter spells, when
      it is finite and positive. `toNumber` is ECMAScript's `Number(string)`. */
  function ParseDimensionParam(value: Option<string>, toNumber: string -> JsNumber): (r: Option<real>)
    ensures r.Some? <==> value.Some? && value.value != "" && toNumber(value.value).IsFinite() && toNumber(value.value).value > 0.0
    ensures r.Some? ==> r.value == toNumber(value.value).value
  {
    match value
    case None => None
    case Some(text) =>
      if text == "" then None
      else
        var parsed := toNumber(text);
        if !parsed.IsFinite() || parsed.value <= 0.0 then None else Some(parsed.value)
  }

  /** A parsed parameter is always a requested axis, and an absent one never
      is. */
  lemma ParsedParamIsRequested(value: Option<string>, toNumber: string -> JsNumber)
    ensures Dimensions.Requested(ParseDimensionParam(value, toNumber)) <==> ParseDimensionParam(value, toNumber).Some?
  {
  }

  const MISSING_URL: string := "Missing url parameter"
  const UNSUPPORTED_FORMAT: string := "Unsupported or unrecognised image format"
  const NEITHER_AXIS: string := "Either width or height must be provided and greater than zero"
  const CODECS_FAILED: string := "Failed to prepare image codecs"
  const DECODE_FAILED: string := "Failed to decode source image"
  const RESIZE_FAILED: string := "Unable to resize image with the given parameters"
  const ENCODE_FAILED: string := "Failed to encode resized image"
  const THUMBHASH_FAILED: string := "Unable to generate thumbhash"
  const TRANSFORM_CACHE_CONTROL: string := "public, max-age=3600"

  /** `ensureSupportedFormat(buffer, contentType)` */
  function EnsureSupportedFormat(buffer: seq<Byte>, contentType: Option<string>): (r: Result<DetectFormat.ImageFormat, string>)
    ensures r.Ok? <==> DetectFormat.DetectImageFormat(buffer, contentType).Some?
    ensures r.Ok? ==> r.value == DetectFormat.DetectImageFormat(buffer, contentType).value
    ensures r.Err? ==> r.error == UNSUPPORTED_FORMAT
  {
    match DetectFormat.DetectImageFormat(buffer, contentType)
    case None => Err(UNSUPPORTED_FORMAT)
    case Some(format) => Ok(format)
  }

  /** The query parameters a route reads. */
  datatype Query = Query(url: Option<string>, width: Option<string>, height: Option<string>)

  /** Everything outside the worker: the URL parser, `fetch`, whether the
      codec modules initialised, the codecs, the resampler, the thumbhash
      function and `Number(string)`. */
  datatype Environment = Environment(
    parse: UrlParser,
    fetch: UpstreamRequest -> FetchOutcome,
    codecsReady: bool,
    codecs: ImageProcessor.CodecSet,
    resample: Resampler,
    hasher: Thumbhash.ThumbHasher,
    toNumber: string -> JsNumber)

  /** A route's answer: a JSON error, the encoded image, or the metadata
      JSON. */
  datatype Reply =
    | JsonError(status: int, error: string)
    | ImageReply(status: int, headers: HttpHeaders.HeaderList, body: seq<Byte>)
    | MetaReply(status: int, width: int, height: int, thumbHash: string, cacheControl: string)

  /** The answer to a failed `fetchRemoteImage`. */
  function FetchFailure(error: FetchError): (r: Reply)
    ensures error.FetchImageError? ==> r == JsonError(error.status.GetOr(502), error.message)
    ensures error.UnexpectedError? ==> r == JsonError(502, "Unexpected error fetching image")
  {
    match error
    case FetchImageError(message, status) => JsonError(status.GetOr(502), message)
    case UnexpectedError => JsonError(502, "Unexpected error fetching image")
  }

  /** The stages both routes share: fetch, codec initialisation, format
      detection and decoding. */
  datatype Decoded = Decoded(format: DetectFormat.ImageFormat, image: Image)

  /** Fetch, then codec initialisation (500), format detection (415) and
      decoding (422), in that order; a fetch failure is answered as
      `FetchFailure` says. */
  function FetchAndDecode(url: string, env: Environment): (r: Result<Decoded, Reply>)
    ensures var fetched := SrcFetcher.FetchRemoteImage(url, env.parse, env.fetch);
      (fetched.Err? ==> r == Err(FetchFailure(fetched.error))) &&
      (fetched.Ok? && !env.codecsReady ==> r == Err(JsonError(500, CODECS_FAILED))) &&
      (fetched.Ok? && env.codecsReady ==>
        var detected := DetectFormat.DetectImageFormat(fetched.value.buffer, fetched.value.contentType);
        (detected.None? ==> r == Err(JsonError(415, UNSUPPORTED_FORMAT))) &&
        (detected.Some? ==>
          var decoded := ImageProcessor.DecodeImage(env.codecs, fetched.value.buffer, detected.value);
          (decoded.None? ==> r == Err(JsonError(422, DECODE_FAILED))) &&
          (decoded.Some? ==> r == Ok(Decoded(detected.value, decoded.value)))))
  {
    match SrcFetcher.FetchRemoteImage(url, env.parse, env.fetch)
    case Err(error) => Err(FetchFailure(error))
    case Ok(remote) =>
      if !env.codecsReady then Err(JsonError(500, CODECS_FAILED))
      else
        match EnsureSupportedFormat(remote.buffer, remote.contentType)
        case Err(message) => Err(JsonError(415, message))
        case Ok(format) =>
          match ImageProcessor.DecodeImage(env.codecs, remote.buffer, format)
          case None => Err(JsonError(422, DECODE_FAILED))
          case Some(image) => Ok(Decoded(format, image))
  }

  /** The target size `GET /` asks of a decoded image. */
  function TargetSize(query: Query, env: Environment, image: Image): Result<Dimensions.Dimensions, Dimensions.ResolveError> {
    Dimensions.ResolveDimensions(Dimensions.Dimensions(image.width, image.height),
      Dimensions.DimensionRequest(ParseDimensionParam(query.width, env.toNumber), ParseDimensionParam(query.height, env.toNumber)))
  }

  /** The headers of a transformed image. */
  function SuccessHeaders(format: DetectFormat.ImageFormat, length: nat): HttpHeaders.HeaderList {
    HttpHeaders.SetEntry(
      [("Content-Type", DetectFormat.FormatToContentType(format)), ("Cache-Control", TRANSFORM_CACHE_CONTROL)],
      "Content-Length", Text.DecimalString(length))
  }

  /** A transformed image is labelled with its format's MIME type, its exact
      byte length and a one-hour cache lifetime. */
  lemma SuccessHeadersRead(format: DetectFormat.ImageFormat, length: nat)
    ensures HttpHeaders.Get(SuccessHeaders(format, length), "Content-Type") == Some(DetectFormat.FormatToContentType(format))
    ensures HttpHeaders.Get(SuccessHeaders(format, length), "Cache-Control") == Some(TRANSFORM_CACHE_CONTROL)
    ensures HttpHeaders.Get(SuccessHeaders(format, length), "Content-Length") == Some(Text.DecimalString(length))
  {
    var base := [("Content-Type", DetectFormat.FormatToContentType(format)), ("Cache-Control", TRANSFORM_CACHE_CONTROL)];
    HttpHeaders.DiffersAt("Content-Type", "Cache-Control", 1);
    HttpHeaders.DiffersAt("Cache-Control", "Content-Type", 1);
    HttpHeaders.DiffersAt("Content-Type", "Content-Length", 8);
    HttpHeaders.DiffersAt("Cache-Control", "Content-Length", 1);
    HttpHeaders.GetUnique(base, 0, "Content-Type");
    HttpHeaders.GetUnique(base, 1, "Cache-Control");
    HttpHeaders.SetKeepsOthers(base, "Content-Length", Text.DecimalString(length), "Content-Type");
    HttpHeaders.SetKeepsOthers(base, "Content-Length", Text.DecimalString(length), "Cache-Control");
  }

  /** The answer to `GET /`: 400 without a url; the shared stages' answer
      when one fails; then 400 without a usable axis, 422 when resizing
      fails, 500 when encoding fails, and otherwise 200 with the encoded
      bytes. */
  function Transform(query: Query, env: Environment): (r: Reply)
    ensures query.url.None? || query.url == Some("") ==> r == JsonError(400, MISSING_URL)
    ensures query.url.Some? && query.url.value != "" && FetchAndDecode(query.url.value, env).Err? ==>
      r == FetchAndDecode(query.url.value, env).error
    ensures query.url.Some? && query.url.value != "" && FetchAndDecode(query.url.value, env).Ok? ==>
      var d := FetchAndDecode(query.url.value, env).value;
      var target := TargetSize(query, env, d.image);
      (target.Err? ==> r == JsonError(400, NEITHER_AXIS)) &&
      (target.Ok? ==>
        var resized := ImageProcessor.ResizeImage(d.image, target.value.width, target.value.height, env.resample);
        (resized.Err? ==> r == JsonError(422, RESIZE_FAILED)) &&
        (resized.Ok? ==>
          var encoded := ImageProcessor.EncodeImage(env.codecs, resized.value, d.format);
          (encoded.None? ==> r == JsonError(500, ENCODE_FAILED)) &&
          (encoded.Some? ==> r == ImageReply(200, SuccessHeaders(d.format, |encoded.value|), encoded.value))))
  {
    if query.url.None? || query.url.value == "" then JsonError(400, MISSING_URL)
    else
      match FetchAndDecode(query.url.value, env)
      case Err(reply) => reply
      case Ok(Decoded(format, decoded)) =>
        match TargetSize(query, env, decoded)
        case Err(_) => JsonError(400, NEITHER_AXIS)
        case Ok(target) =>
          match ImageProcessor.ResizeImage(decoded, target.width, target.height, env.resample)
          case Err(_) => JsonError(422, RESIZE_FAILED)
          case Ok(resized) =>
            match ImageProcessor.EncodeImage(env.codecs, resized, format)
            case None => JsonError(500, ENCODE_FAILED)
            case Some(encoded) => ImageReply(200, SuccessHeaders(format, |encoded|), encoded)
  }

  /** `GET /`, stage by stage, each stage's failure answered at once. */
  method HandleTransform(query: Query, env: Environment) returns (reply: Reply)
    ensures reply == Transform(query, env)
  {
    if query.url.None? || query.url.value == "" {
      return JsonError(400, MISSING_URL);
    }
    var url := query.url.value;
    var widthParam := ParseDimensionParam(query.width, env.toNumber);
    var heightParam := ParseDimensionParam(query.height, env.toNumber);

    var remote := SrcFetcher.FetchRemoteImage(url, env.parse, env.fetch);
    if remote.Err? {
      return FetchFailure(remote.error);
    }
    if !env.codecsReady {
      return JsonError(500, CODECS_FAILED);
    }
    var format := EnsureSupportedFormat(remote.value.buffer, remote.value.contentType);
    if format.Err? {
      return JsonError(415, format.error);
    }
    var decoded := ImageProcessor.DecodeImage(env.codecs, remote.value.buffer, format.value);
    if decoded.None? {
      return JsonError(422, DECODE_FAILED);
    }
    var original := Dimensions.Dimensions(decoded.value.width, decoded.value.height);
    var target := Dimensions.ResolveDimensions(original, Dimensions.DimensionRequest(widthParam, heightParam));
    if target.Err? {
      return JsonError(400, NEITHER_AXIS);
    }
    var resized := decoded.value;
    var resizedOrError := ImageProcessor.ResizeImage(decoded.value, target.value.width, target.value.height, env.resample);
    if resizedOrError.Err? {
      return JsonError(422, RESIZE_FAILED);
    }
    resized := resizedOrError.value;
    var encoded := ImageProcessor.EncodeImage(env.codecs, resized, format.value);
    if encoded.None? {
      return JsonError(500, ENCODE_FAILED);
    }
    var headers := new HttpHeaders.Headers([
      ("Content-Type", DetectFormat.FormatToContentType(format.value)),
      ("Cache-Control", TRANSFORM_CACHE_CONTROL)
    ]);
    headers.Set("Content-Length", Text.DecimalString(|encoded.value|));
    reply := ImageReply(200, headers.entries, encoded.value);
  }

  /** The answer to `GET /meta/`: 400 without a url; the shared stages'
      answer when one fails; 500 when the thumbhash fails; otherwise 200 with
      the decoded size and the thumbhash, cached for an hour. */
  function Meta(url: Option<string>, env: Environment): (r: Reply)
    ensures url.None? || url == Some("") ==> r == JsonError(400, MISSING_URL)
    ensures url.Some? && url.value != "" && FetchAndDecode(url.value, env).Err? ==>
      r == FetchAndDecode(url.value, env).error
    ensures url.Some? && url.value != "" && FetchAndDecode(url.value, env).Ok? ==>
      var image := FetchAndDecode(url.value, env).value.image;
      var thumbHash := Thumbhash.ThumbHash(image, env.resample, env.hasher);
      (thumbHash.None? ==> r == JsonError(500, THUMBHASH_FAILED)) &&
      (thumbHash.Some? ==> r == MetaReply(200, image.width, image.height, thumbHash.value, TRANSFORM_CACHE_CONTROL))
  {
    if url.None? || url.value == "" then JsonError(400, MISSING_URL)
    else
      match FetchAndDecode(url.value, env)
      case Err(reply) => reply
      case Ok(Decoded(_, decoded)) =>
        match Thumbhash.ThumbHash(decoded, env.resample, env.hasher)
        case None => JsonError(500, THUMBHASH_FAILED)
        case Some(thumbHash) => MetaReply(200, decoded.width, decoded.height, thumbHash, TRANSFORM_CACHE_CONTROL)
  }

  /** `GET /meta/`, stage by stage. */
  method HandleMeta(url: Option<string>, env: Environment) returns (reply: Reply)
    ensures reply == Meta(url, env)
  {
    if url.None? || url.value == "" {
      return JsonError(400, MISSING_URL);
    }
    var decoded := FetchAndDecode(url.value, env);
    if decoded.Err? {
      return decoded.error;
    }
    var thumbHash := Thumbhash.GenerateThumbHash(decoded.value.image, env.resample, env.hasher);
    if thumbHash.None? {
      return JsonError(500, THUMBHASH_FAILED);
    }
    reply := MetaReply(200, decoded.value.image.width, decoded.value.image.height, thumbHash.value, TRANSFORM_CACHE_CONTROL);
  }

  /** A fetch failure is answered with the `FetchImageError`'s status, or
      502, on both routes, before any codec work. */
  lemma FetchFailureIsTerminal(query: Query, env: Environment)
    requires query.url.Some? && query.url.value != ""
    requires SrcFetcher.FetchRemoteImage(query.url.value, env.parse, env.fetch).Err?
    ensures var error := SrcFetcher.FetchRemoteImage(query.url.value, env.parse, env.fetch).error;
      Transform(query, env) == Meta(query.url, env) ==
        if error.FetchImageError? then JsonError(error.status.GetOr(502), error.message)
        else JsonError(502, "Unexpected error fetching image")
  {
  }

  /** An image whose format cannot be detected is answered 415 whatever the
      codecs would have done. */
  lemma UndetectableFormatIs415(query: Query, env: Environment)
    requires query.url.Some? && query.url.value != "" && env.codecsReady
    requires SrcFetcher.FetchRemoteImage(query.url.value, env.parse, env.fetch).Ok?
    requires var remote := SrcFetcher.FetchRemoteImage(query.url.value, env.parse, env.fetch).value;
      DetectFormat.DetectImageFormat(remote.buffer, remote.contentType).None?
    ensures Transform(query, env) == JsonError(415, UNSUPPORTED_FORMAT)
    ensures Meta(query.url, env) == JsonError(415, UNSUPPORTED_FORMAT)
  {
  }

  /** A decoded image with neither a usable width nor a usable height is
      refused with 400 and never resized. */
  lemma NoDimensionsIs400(query: Query, env: Environment)
    requires query.url.Some? && query.url.value != ""
    requires FetchAndDecode(query.url.value, env).Ok?
    requires ParseDimensionParam(query.width, env.toNumber).None? && ParseDimensionParam(query.height, env.toNumber).None?
    ensures Transform(query, env) == JsonError(400, NEITHER_AXIS)
  {
  }

  /** A successful transform answers 200 with the encoder's bytes, labelled
      with the detected format's MIME type and their exact length. */
  lemma SuccessIsLabelled(query: Query, env: Environment)
    requires Transform(query, env).ImageReply?
    ensures var reply := Transform(query, env);
      var format := FetchAndDecode(query.url.value, env).value.format;
      reply.status == 200 &&
      HttpHeaders.Get(reply.headers, "Content-Type") == Some(DetectFormat.FormatToContentType(format)) &&
      HttpHeaders.Get(reply.headers, "Content-Length") == Some(Text.DecimalString(|reply.body|)) &&
      HttpHeaders.Get(reply.headers, "Cache-Control") == Some(TRANSFORM_CACHE_CONTROL)
  {
    var reply := Transform(query, env);
    SuccessHeadersRead(FetchAndDecode(query.url.value, env).value.format, |reply.body|);
  }

  /** Asking for the decoded image's own size re-encodes the decoded image
      itself: the resampler is never consulted. */
  lemma OwnSizeSkipsResample(query: Query, env: Environment, other: Resampler)
    requires query.url.Some? && query.url.value != ""
    requires FetchAndDecode(query.url.value, env).Ok?
    requires var image := FetchAndDecode(query.url.value, env).value.image;
      ParseDimensionParam(query.width, env.toNumber) == Some(image.width as real) &&
      ParseDimensionParam(query.height, env.toNumber) == Some(image.height as real)
    ensures Transform(query, env) == Transform(query, env.(resample := other))
  {
    var image := FetchAndDecode(query.url.value, env).value.image;
    assert Dimensions.MathRound(image.width as real) == image.width;
    assert Dimensions.MathRound(image.height as real) == image.height;
    assert FetchAndDecode(query.url.value, env.(resample := other)) == FetchAndDecode(query.url.value, env);
  }

  /** Codecs that fail to initialise are answered 500 on both routes, before
      the format is looked at. */
  lemma CodecInitIs500(query: Query, env: Environment)
    requires query.url.Some? && query.url.value != "" && !env.codecsReady
    requires SrcFetcher.FetchRemoteImage(query.url.value, env.parse, env.fetch).Ok?
    ensures Transform(query, env) == JsonError(500, CODECS_FAILED)
    ensures Meta(query.url, env) == JsonError(500, CODECS_FAILED)
  {
  }

  /** A detected format whose decoder fails is answered 422 on both routes. */
  lemma DecodeFailureIs422(query: Query, env: Environment)
    requires query.url.Some? && query.url.value != "" && env.codecsReady
    requires SrcFetcher.FetchRemoteImage(query.url.value, env.parse, env.fetch).Ok?
    requires var remote := SrcFetcher.FetchRemoteImage(query.url.value, env.parse, env.fetch).value;
      var detected := DetectFormat.DetectImageFormat(remote.buffer, remote.contentType);
      detected.Some? && ImageProcessor.DecodeImage(env.codecs, remote.buffer, detected.value).None?
    ensures Transform(query, env) == JsonError(422, DECODE_FAILED)
    ensures Meta(query.url, env) == JsonError(422, DECODE_FAILED)
  {
  }

  /** A resize that fails for the resolved target is answered 422. */
  lemma ResizeFailureIs422(query: Query, env: Environment)
    requires query.url.Some? && query.url.value != ""
    requires FetchAndDecode(query.url.value, env).Ok?
    requires var image := FetchAndDecode(query.url.value, env).value.image;
      var target := TargetSize(query, env, image);
      target.Ok? && ImageProcessor.ResizeImage(image, target.value.width, target.value.height, env.resample).Err?
    ensures Transform(query, env) == JsonError(422, RESIZE_FAILED)
  {
  }

  /** An encoder that fails on the resized image is answered 500. */
  lemma EncodeFailureIs500(query: Query, env: Environment)
    requires query.url.Some? && query.url.value != ""
    requires FetchAndDecode(query.url.value, env).Ok?
    requires var d := FetchAndDecode(query.url.value, env).value;
      var target := TargetSize(query, env, d.image);
      target.Ok? &&
      var resized := ImageProcessor.ResizeImage(d.image, target.value.width, target.value.height, env.resample);
      resized.Ok? && ImageProcessor.EncodeImage(env.codecs, resized.value, d.format).None?
    ensures Transform(query, env) == JsonError(500, ENCODE_FAILED)
  {
  }

  /** A thumbhash that cannot be generated is answered 500 by `GET /meta/`;
      one that can is the reply's `thumbHash`, beside the decoded size. */
  lemma ThumbHashOutcome(url: string, env: Environment)
    requires url != "" && FetchAndDecode(url, env).Ok?
    ensures var image := FetchAndDecode(url, env).value.image;
      match Thumbhash.ThumbHash(image, env.resample, env.hasher)
      case None => Meta(Some(url), env) == JsonError(500, THUMBHASH_FAILED)
      case Some(hash) => Meta(Some(url), env) == MetaReply(200, image.width, image.height, hash, TRANSFORM_CACHE_CONTROL)
  {
  }
}
