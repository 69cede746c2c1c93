/** Format sniffing (src/lib/detect-format.ts; the Deno copy in
    supabase/functions/image-transformer/lib/detect-format.ts has the same
    three definitions line for line): a declared content type wins when it
    names a known image type, otherwise the leading bytes are matched against
    the JPEG, PNG, WebP and AVIF signatures in that order. */
module DetectFormat {

  import opened Wrappers
  import opened Images
  import Text

  datatype ImageFormat = Jpeg | Png | Webp | Avif

  const MIME_TO_FORMAT: map<string, ImageFormat> := map[
    "image/jpeg" := Jpeg,
    "image/jpg" := Jpeg,
    "image/png" := Png,
    "image/webp" := Webp,
    "image/avif" := Avif
  ]

  /** `contentType.split(';')[0]?.trim().toLowerCase()` */
  function Normalise(contentType: string): string {
    Text.Lower(Text.Trim(Text.BeforeFirst(contentType, ';')))
  }

  /** Step one: the format a declared content type names, if any. A missing
      or empty content type is skipped (`if (contentType)`), and so is one
      that normalises to the empty string. */
  function DeclaredFormat(contentType: Option<string>): (r: Option<ImageFormat>)
    ensures r.Some? <==> contentType.Some? && Normalise(contentType.value) in MIME_TO_FORMAT
    ensures r.Some? ==> r.value == MIME_TO_FORMAT[Normalise(contentType.value)]
  {
    EmptyIsNoKey();
    if contentType.Some? && contentType.value != "" then
      var normalised := Normalise(contentType.value);
      if normalised != "" && normalised in MIME_TO_FORMAT then Some(MIME_TO_FORMAT[normalised]) else None
    else
      None
  }

  /** The empty string normalises to itself and is not a table key, so the
      two emptiness tests only skip work. */
  lemma EmptyIsNoKey()
    ensures Normalise("") == ""
    ensures "" !in MIME_TO_FORMAT
  {
    assert Text.BeforeFirst("", ';') == "";
    assert Text.Trim("") == "";
    assert MIME_TO_FORMAT.Keys == {"image/jpeg", "image/jpg", "image/png", "image/webp", "image/avif"};
  }

  /** The JPEG start-of-image marker FF D8 followed by the FF of the next
      marker (ITU-T T.81, Table B.1). */
  const JPEG_SOI: seq<Byte> := [0xFF, 0xD8, 0xFF]
  /** The PNG file signature (PNG specification, section 5.2). */
  const PNG_SIGNATURE: seq<Byte> := [0x89, 0x50, 0x4E, 0x47, 0x0D, 0x0A, 0x1A, 0x0A]
  /** RIFF header of a WebP file (RFC 9649, section 2.4): "RIFF", a size, "WEBP". */
  const RIFF: seq<Byte> := [0x52, 0x49, 0x46, 0x46]
  const WEBP: seq<Byte> := [0x57, 0x45, 0x42, 0x50]
  /** The ISO base media file type box ("ftyp") and the AVIF major brands. */
  const FTYP: seq<Byte> := [0x66, 0x74, 0x79, 0x70]
  const BRAND_AVIF: seq<Byte> := [0x61, 0x76, 0x69, 0x66]
  const BRAND_AVIS: seq<Byte> := [0x61, 0x76, 0x69, 0x73]
  const BRAND_AV01: seq<Byte> := [0x61, 0x76, 0x30, 0x31]

  predicate IsAvifBrand(brand: seq<Byte>) {
    brand == BRAND_AVIF || brand == BRAND_AVIS || brand == BRAND_AV01
  }

  /** Step two: the byte signatures, first match wins. Each check is a
      non-match, never an error, on a buffer too short for it. */
  function SniffFormat(buffer: seq<Byte>): (r: Option<ImageFormat>)
    ensures r == Some(Jpeg) <==>
      |buffer| >= 3 && buffer[0] == 0xFF && buffer[1] == 0xD8 && buffer[2] == 0xFF
    ensures r == Some(Png) ==>
      |buffer| >= 8 && forall i :: 0 <= i < 8 ==> buffer[i] == PNG_SIGNATURE[i]
    ensures r == Some(Webp) ==>
      |buffer| >= 12 && buffer[..4] == RIFF && buffer[8..12] == WEBP
    ensures r == Some(Avif) ==>
      |buffer| >= 12 && buffer[4..8] == FTYP && IsAvifBrand(buffer[8..12])
    ensures |buffer| < 3 ==> r == None
  {
    if |buffer| >= 3 && buffer[..3] == JPEG_SOI then
      Some(Jpeg)
    else if |buffer| >= 8 && buffer[..8] == PNG_SIGNATURE then
      Some(Png)
    else if |buffer| >= 12 && buffer[..4] == RIFF && buffer[8..12] == WEBP then
      Some(Webp)
    else if |buffer| >= 12 && buffer[4..8] == FTYP && IsAvifBrand(buffer[8..12]) then
      Some(Avif)
    else
      None
  }

  /** `detectImageFormat(buffer, contentType)`, with the table lookup
      restricted to the table's own entries (see `DetectAsWritten`). */
  function DetectImageFormat(buffer: seq<Byte>, contentType: Option<string>): (r: Option<ImageFormat>)
    ensures contentType.Some? && Normalise(contentType.value) in MIME_TO_FORMAT ==>
      r == Some(MIME_TO_FORMAT[Normalise(contentType.value)])
    ensures contentType.None? || Normalise(contentType.value) !in MIME_TO_FORMAT ==> r == SniffFormat(buffer)
  {
    match DeclaredFormat(contentType)
    case Some(format) => Some(format)
    case None => SniffFormat(buffer)
  }

  /** `formatToContentType`; its `default` branch cannot be reached with
      the closed enumeration. Every answer is a key of the table that maps
      back to the same format. */
  function FormatToContentType(format: ImageFormat): (r: string)
    ensures r in MIME_TO_FORMAT && MIME_TO_FORMAT[r] == format
  {
    match format
    case Jpeg => "image/jpeg"
    case Png => "image/png"
    case Webp => "image/webp"
    case Avif => "image/avif"
  }

  /** Distinct formats get distinct content types. */
  lemma FormatToContentTypeInjective(f: ImageFormat, g: ImageFormat)
    requires FormatToContentType(f) == FormatToContentType(g)
    ensures f == g
  {
  }

  // ---------------------------------------------------------------------
  // Normalisation of a declared content type

  lemma {:induction false} BeforeFirstStopsAtParameters(s: string, params: string, sep: char)
    requires sep !in s
    requires params == [] || params[0] == sep
    ensures Text.BeforeFirst(s + params, sep) == s
  {
    if s != [] {
      assert (s + params)[1..] == s[1..] + params;
      BeforeFirstStopsAtParameters(s[1..], params, sep);
    } else if params != [] {
      assert (s + params)[0] == sep;
    }
  }

  lemma {:induction false} TrimStartDropsLead(lead: string, rest: string)
    requires forall i :: 0 <= i < |lead| ==> Text.IsJsWhitespace(lead[i])
    requires rest != [] && !Text.IsJsWhitespace(rest[0])
    ensures Text.TrimStart(lead + rest) == rest
  {
    if lead != [] {
      assert (lead + rest)[1..] == lead[1..] + rest;
      TrimStartDropsLead(lead[1..], rest);
    } else {
      assert lead + rest == rest;
    }
  }

  lemma {:induction false} TrimEndDropsTrail(rest: string, trail: string)
    requires forall i :: 0 <= i < |trail| ==> Text.IsJsWhitespace(trail[i])
    requires rest != [] && !Text.IsJsWhitespace(rest[|rest| - 1])
    ensures Text.TrimEnd(rest + trail) == rest
  {
    if trail != [] {
      var shorter := trail[..|trail| - 1];
      assert (rest + trail)[..|rest + trail| - 1] == rest + shorter;
      TrimEndDropsTrail(rest, shorter);
    } else {
      assert rest + trail == rest;
    }
  }

  /** A declared type is matched case-insensitively, ignoring surrounding
      whitespace and any `;` parameters. */
  lemma NormaliseStripsParameters(lead: string, mime: string, trail: string, params: string)
    requires forall i :: 0 <= i < |lead| ==> Text.IsJsWhitespace(lead[i])
    requires forall i :: 0 <= i < |trail| ==> Text.IsJsWhitespace(trail[i])
    requires mime != [] && !Text.IsJsWhitespace(mime[0]) && !Text.IsJsWhitespace(mime[|mime| - 1])
    requires ';' !in lead + mime + trail
    requires params == [] || params[0] == ';'
    ensures Normalise(lead + mime + trail + params) == Text.Lower(mime)
  {
    assert lead + mime + trail + params == (lead + mime + trail) + params;
    BeforeFirstStopsAtParameters(lead + mime + trail, params, ';');
    assert lead + mime + trail == lead + (mime + trail);
    TrimStartDropsLead(lead, mime + trail);
    TrimEndDropsTrail(mime, trail);
  }

  lemma LowerOfLowercase(s: string)
    requires forall i :: 0 <= i < |s| ==> !('A' <= s[i] <= 'Z')
    ensures Text.Lower(s) == s
  {
  }

  /** A declared content type that normalises to a table key decides the
      format, whatever the bytes are. */
  lemma DeclaredTypeWins(buffer: seq<Byte>, lead: string, mime: string, trail: string, params: string)
    requires forall i :: 0 <= i < |lead| ==> Text.IsJsWhitespace(lead[i])
    requires forall i :: 0 <= i < |trail| ==> Text.IsJsWhitespace(trail[i])
    requires mime != [] && !Text.IsJsWhitespace(mime[0]) && !Text.IsJsWhitespace(mime[|mime| - 1])
    requires ';' !in lead + mime + trail
    requires params == [] || params[0] == ';'
    requires Text.Lower(mime) in MIME_TO_FORMAT
    ensures DetectImageFormat(buffer, Some(lead + mime + trail + params)) == Some(MIME_TO_FORMAT[Text.Lower(mime)])
  {
    NormaliseStripsParameters(lead, mime, trail, params);
  }

  /** An absent, empty or unknown declared type falls through to the
      signatures; detection never fails, it answers `None` at worst. */
  lemma UnknownTypeFallsThrough(buffer: seq<Byte>, contentType: Option<string>)
    requires contentType.None? || Normalise(contentType.value) !in MIME_TO_FORMAT
    ensures DetectImageFormat(buffer, contentType) == SniffFormat(buffer)
  {
  }

  /** Round trip: the content type emitted for a format is detected as that
      format, whatever the bytes. */
  lemma {:induction false} ContentTypeRoundTrip(format: ImageFormat, buffer: seq<Byte>)
    ensures DetectImageFormat(buffer, Some(FormatToContentType(format))) == Some(format)
  {
    var mime := FormatToContentType(format);
    PlainMimeNormalises(mime);
  }

  /** A lower-case type without whitespace or parameters normalises to itself. */
  lemma PlainMimeNormalises(mime: string)
    requires mime != []
    requires forall i :: 0 <= i < |mime| ==> 'a' <= mime[i] <= 'z' || mime[i] == '/' || '0' <= mime[i] <= '9'
    ensures Normalise(mime) == mime
  {
    LowerOfLowercase(mime);
    NormaliseStripsParameters("", mime, "", "");
    assert "" + mime + "" + "" == mime;
  }

  /** Each signature leads to its format. The PNG, WebP and AVIF signatures
      exclude one another, so between them the order decides nothing; an
      AVIF file whose `ftyp` box size happens to start with FF D8 FF is the
      one case the order settles, as JPEG. */
  lemma SignaturesDisjoint(buffer: seq<Byte>)
    ensures SniffFormat(buffer) == Some(Png) <==> |buffer| >= 8 && buffer[..8] == PNG_SIGNATURE
    ensures SniffFormat(buffer) == Some(Webp) <==> |buffer| >= 12 && buffer[..4] == RIFF && buffer[8..12] == WEBP
    ensures SniffFormat(buffer) == Some(Avif) <==>
      |buffer| >= 12 && buffer[4..8] == FTYP && IsAvifBrand(buffer[8..12]) && buffer[..3] != JPEG_SOI
  {
    if |buffer| >= 12 && buffer[4..8] == FTYP && IsAvifBrand(buffer[8..12]) {
      AvifExcludesPngAndWebp(buffer);
    }
    if |buffer| >= 8 && buffer[..8] == PNG_SIGNATURE {
      assert buffer[0] == PNG_SIGNATURE[0];
    }
    if |buffer| >= 12 && buffer[..4] == RIFF {
      assert buffer[0] == RIFF[0];
      if buffer[8..12] == WEBP {
        assert buffer[8] == WEBP[0] && buffer[8] == buffer[8..12][0];
      }
    }
  }

  /** An `ftyp` box with an AVIF brand is neither a PNG nor a WebP file. */
  lemma AvifExcludesPngAndWebp(buffer: seq<Byte>)
    requires |buffer| >= 12 && buffer[4..8] == FTYP && IsAvifBrand(buffer[8..12])
    ensures buffer[..8] != PNG_SIGNATURE
    ensures buffer[8..12] != WEBP
  {
    assert buffer[4] == buffer[4..8][0] == FTYP[0] != PNG_SIGNATURE[4];
    assert buffer[..8][4] == buffer[4];
    assert buffer[8..12][0] == 0x61 != WEBP[0];
  }

  // ---------------------------------------------------------------------
  // The table lookup as written

  /** Keys that the JavaScript `in` operator finds on any object literal,
      through `Object.prototype`. */
  const OBJECT_PROTOTYPE_KEYS: set<string> := {
    "constructor", "__proto__", "hasOwnProperty", "isPrototypeOf",
    "propertyIsEnumerable", "toString", "toLocaleString", "valueOf",
    "__defineGetter__", "__defineSetter__", "__lookupGetter__", "__lookupSetter__"
  }

  /** What `detectImageFormat` returns as written: a format, `null`, or the
      inherited `Object.prototype` member that `MIME_TO_FORMAT[normalised]`
      yields when `normalised in MIME_TO_FORMAT` holds by inheritance. */
  datatype Detected = Format(format: ImageFormat) | InheritedMember(name: string) | NoFormat

  function DetectAsWritten(buffer: seq<Byte>, contentType: Option<string>): Detected {
    if contentType.Some? && contentType.value != "" &&
       Normalise(contentType.value) != "" &&
       Normalise(contentType.value) !in MIME_TO_FORMAT &&
       Normalise(contentType.value) in OBJECT_PROTOTYPE_KEYS
    then
      InheritedMember(Normalise(contentType.value))
    else
      match DetectImageFormat(buffer, contentType)
      case Some(format) => Format(format)
      case None => NoFormat
  }

  /** Off the two prototype names a normalised type can spell, the code as
      written and the model agree. */
  lemma AsWrittenAgreesOffPrototype(buffer: seq<Byte>, contentType: Option<string>)
    requires contentType.None? ||
      (Normalise(contentType.value) != "constructor" && Normalise(contentType.value) != "__proto__")
    ensures DetectAsWritten(buffer, contentType) ==
      match DetectImageFormat(buffer, contentType)
      case Some(format) => Format(format)
      case None => NoFormat
  {
    if contentType.Some? {
      ReachableInheritedKeys(contentType.value);
    }
  }

  /** A normalised type is lower-case, so of the inherited names only
      `constructor` and `__proto__` can be looked up; the others all carry a
      capital letter. */
  lemma ReachableInheritedKeys(contentType: string)
    ensures Normalise(contentType) in OBJECT_PROTOTYPE_KEYS ==>
      Normalise(contentType) == "constructor" || Normalise(contentType) == "__proto__"
  {
    NormalisedHasNoCapital(contentType);
    LowerCaseInheritedKeys(Normalise(contentType));
  }

  lemma NormalisedHasNoCapital(contentType: string)
    ensures forall i :: 0 <= i < |Normalise(contentType)| ==> !('A' <= Normalise(contentType)[i] <= 'Z')
  {
  }

  lemma LowerCaseInheritedKeys(n: string)
    requires forall i :: 0 <= i < |n| ==> !('A' <= n[i] <= 'Z')
    ensures n in OBJECT_PROTOTYPE_KEYS ==> n == "constructor" || n == "__proto__"
  {
    HasCapital(n, "hasOwnProperty", 3);
    HasCapital(n, "isPrototypeOf", 2);
    HasCapital(n, "propertyIsEnumerable", 8);
    HasCapital(n, "toString", 2);
    HasCapital(n, "toLocaleString", 2);
    HasCapital(n, "valueOf", 5);
    HasCapital(n, "__defineGetter__", 8);
    HasCapital(n, "__defineSetter__", 8);
    HasCapital(n, "__lookupGetter__", 8);
    HasCapital(n, "__lookupSetter__", 8);
  }

  lemma HasCapital(n: string, name: string, k: nat)
    requires forall i :: 0 <= i < |n| ==> !('A' <= n[i] <= 'Z')
    requires k < |name| && 'A' <= name[k] <= 'Z'
    ensures n != name
  {
  }

  /** `constructor` is a lower-case name that normalises to itself, is not
      a key of the table, and is inherited by every object literal. */
  lemma ConstructorIsInheritedKey()
    ensures Normalise("constructor") == "constructor"
    ensures "constructor" !in MIME_TO_FORMAT
    ensures "constructor" in OBJECT_PROTOTYPE_KEYS
  {
    PlainMimeNormalises("constructor");
    ConstructorIsNoKey();
  }

  lemma ConstructorIsNoKey()
    ensures "constructor" !in MIME_TO_FORMAT
  {
    assert MIME_TO_FORMAT.Keys == {"image/jpeg", "image/jpg", "image/png", "image/webp", "image/avif"};
  }

  /** A JPEG served as `Content-Type: constructor` is answered with the
      inherited `Object` constructor instead of `jpeg`. */
  lemma {:induction false} ConstructorContentTypeDefeatsSniffing()
    ensures DetectAsWritten(JPEG_SOI, Some("constructor")) == InheritedMember("constructor")
    ensures DetectImageFormat(JPEG_SOI, Some("constructor")) == Some(Jpeg)
  {
    ConstructorIsInheritedKey();
    assert SniffFormat(JPEG_SOI) == Some(Jpeg);
  }
}
