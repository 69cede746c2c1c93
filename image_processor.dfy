/** The resize policy and codec dispatch of src/lib/image-processor.ts.
    `ShouldCropToMatchAspect` is the same text in the Deno variant
    (supabase/functions/image-transformer/lib/image-processor.ts), which
    `ImageProcessorDeno` models where it differs. */
module ImageProcessor {

  import opened Wrappers
  import opened Images
  import opened DetectFormat
  import RealFacts

  /** Aspect ratios closer than 1% (relative to the source's) count as equal. */
  const ASPECT_TOLERANCE: real := 0.01

  /** `width / height`; `None` stands for the non-finite quotient of a zero height. */
  function AspectRatio(width: int, height: int): Option<real> {
    if height == 0 then None else Some(width as real / height as real)
  }

  function Abs(x: real): real {
    if x < 0.0 then -x else x
  }

  /** `shouldCropToMatchAspect(source, targetWidth, targetHeight)`: crop to
      the target's aspect ratio (fit `'contain'`) when the ratios differ by
      more than the tolerance and the cropped band is at least one pixel. */
  function ShouldCropToMatchAspect(source: Image, targetWidth: int, targetHeight: int): (crop: bool)
    ensures targetHeight == 0 ==> !crop
    ensures crop ==> (targetHeight != 0 &&
      Abs(source.width as real / source.height as real - targetWidth as real / targetHeight as real)
        / (source.width as real / source.height as real) > ASPECT_TOLERANCE)
  {
    var sourceAspect := AspectRatio(source.width, source.height);
    var targetAspect := AspectRatio(targetWidth, targetHeight);
    if sourceAspect.None? || targetAspect.None? then
      false
    else
      CropFiniteAspects(source.width as real, source.height as real, sourceAspect.value, targetAspect.value)
  }

  /** The decision once both aspect ratios are finite. */
  function CropFiniteAspects(sourceWidth: real, sourceHeight: real, sourceAspect: real, targetAspect: real): bool
    requires sourceAspect > 0.0
  {
    var relativeDifference := Abs(sourceAspect - targetAspect) / sourceAspect;
    if relativeDifference <= ASPECT_TOLERANCE then
      false
    else if targetAspect > sourceAspect then
      var cropHeight := sourceWidth / targetAspect;
      cropHeight >= 1.0
    else
      var cropWidth := sourceHeight * targetAspect;
      cropWidth >= 1.0
  }

  function IntAbs(x: int): nat {
    if x < 0 then -x else x
  }

  /** The same decision in integers, for a positive target box: the
      cross-products of the two aspect ratios differ by more than 1%, and the
      side that the crop shortens keeps at least one pixel. */
  predicate CropInIntegers(sw: int, sh: int, tw: int, th: int) {
    CropCross(sw * th, tw * sh, sh * tw, tw, th)
  }

  /** The integer test on the cross-products `p = sw * th`, `q = tw * sh`
      and `r = sh * tw`. */
  predicate CropCross(p: int, q: int, r: int, tw: int, th: int) {
    100 * IntAbs(p - q) > p &&
    if q > p then p >= tw else r >= th
  }

  /** The same test on reals. */
  predicate CropCrossReal(p: real, q: real, r: real, tw: real, th: real) {
    100.0 * Abs(p - q) > p &&
    if q > p then p >= tw else r >= th
  }

  lemma {:induction false} ShouldCropMatchesIntegers(source: Image, tw: int, th: int)
    requires tw > 0 && th > 0
    ensures ShouldCropToMatchAspect(source, tw, th) <==> CropInIntegers(source.width, source.height, tw, th)
  {
    var SW, SH, TW, TH := source.width as real, source.height as real, tw as real, th as real;
    var sw, sh := source.width, source.height;
    RealFacts.CastProduct(sw, th);
    RealFacts.CastProduct(tw, sh);
    RealFacts.CastProduct(sh, tw);
    CropRealsMatch(SW, SH, TW, TH, (sw * th) as real, (tw * sh) as real, (sh * tw) as real);
    CastsMatch(sw * th, tw * sh, sh * tw, tw, th);
  }

  lemma CropRealsMatch(SW: real, SH: real, TW: real, TH: real, P: real, Q: real, R: real)
    requires SW > 0.0 && SH > 0.0 && TW > 0.0 && TH > 0.0
    requires P == SW * TH && Q == TW * SH && R == SH * TW
    ensures CropFiniteAspects(SW, SH, SW / SH, TW / TH) <==> CropCrossReal(P, Q, R, TW, TH)
  {
    var sa, ta := SW / SH, TW / TH;
    RatioDifference(SW, SH, TW, TH);
    ScaleComparison(Abs(SW * TH - TW * SH), SW * TH);
    RealFacts.CrossMultiply(TW, TH, SW, SH);
    RealFacts.DivideByRatio(SW, TW, TH);
    RealFacts.QuotientAtLeastOne(SW * TH, TW);
    RealFacts.MultiplyByRatio(SH, TW, TH);
    RealFacts.QuotientAtLeastOne(SH * TW, TH);
  }

  /** The cross-product test reads the same on the integers and on their
      casts to reals. */
  lemma CastsMatch(p: int, q: int, r: int, tw: int, th: int)
    ensures CropCrossReal(p as real, q as real, r as real, tw as real, th as real) <==> CropCross(p, q, r, tw, th)
  {
    assert IntAbs(p - q) as real == Abs(p as real - q as real);
  }

  lemma RatioDifference(a: real, b: real, c: real, e: real)
    requires a > 0.0 && b > 0.0 && c > 0.0 && e > 0.0
    ensures Abs(a / b - c / e) / (a / b) == Abs(a * e - c * b) / (a * e)
  {
    assert a / b - c / e == (a * e - c * b) / (b * e);
    assert Abs(a / b - c / e) == Abs(a * e - c * b) / (b * e);
    var x := Abs(a * e - c * b);
    assert (x / (b * e)) / (a / b) == x / (a * e) by {
      assert (x / (a * e)) * (a / b) == x / (b * e);
    }
  }

  lemma ScaleComparison(x: real, y: real)
    requires x >= 0.0 && y > 0.0
    ensures x / y <= ASPECT_TOLERANCE <==> !(100.0 * x > y)
  {
    assert (x / y) * y == x;
  }

  /** The worked example: a 2:1 source into a square box is cropped. */
  lemma CropExample(source: Image)
    requires source.width == 1000 && source.height == 500
    ensures ShouldCropToMatchAspect(source, 100, 100)
    ensures !ShouldCropToMatchAspect(source, 1000, 500)
    ensures !ShouldCropToMatchAspect(source, 200, 101)
  {
    ShouldCropMatchesIntegers(source, 100, 100);
    ShouldCropMatchesIntegers(source, 1000, 500);
    ShouldCropMatchesIntegers(source, 200, 101);
  }

  datatype ResizeError = NonPositiveTarget | ResampleFailed

  /** The options `resizeImage` hands to the resampler. */
  function ResizeOptionsFor(image: Image, width: int, height: int): (options: ResizeOptions)
    ensures options.width == width && options.height == height
    ensures options.fitMethod == Contain <==> ShouldCropToMatchAspect(image, width, height)
    ensures options.resampleMethod == Triangle
  {
    ResizeOptions(width, height, if ShouldCropToMatchAspect(image, width, height) then Contain else Stretch, Triangle)
  }

  /** `resizeImage(image, width, height)`: non-positive targets are refused,
      a target equal to the source returns the source itself, and anything
      else is whatever the resampler makes of `ResizeOptionsFor`. */
  function ResizeImage(image: Image, width: int, height: int, resample: Resampler): (r: Result<Image, ResizeError>)
    ensures r == Err(NonPositiveTarget) <==> width <= 0 || height <= 0
    ensures width > 0 && height > 0 && image.width == width && image.height == height ==> r == Ok(image)
    ensures width > 0 && height > 0 && (image.width != width || image.height != height) ==>
      r == match resample(image, ResizeOptionsFor(image, width, height))
           case Some(resized) => Ok(resized)
           case None => Err(ResampleFailed)
  {
    if width <= 0 || height <= 0 then
      Err(NonPositiveTarget)
    else if image.width == width && image.height == height then
      Ok(image)
    else
      match resample(image, ResizeOptionsFor(image, width, height))
      case Some(resized) => Ok(resized)
      case None => Err(ResampleFailed)
  }

  /** Requesting the source's own dimensions never reaches the resampler:
      any two resamplers give the same answer, the source unchanged. */
  lemma SameSizeSkipsResample(image: Image, first: Resampler, second: Resampler)
    ensures ResizeImage(image, image.width, image.height, first) == ResizeImage(image, image.width, image.height, second)
    ensures ResizeImage(image, image.width, image.height, first) == Ok(image)
  {
  }

  /** One codec: a decoder and an encoder, both foreign calls that may fail. */
  datatype Codec = Codec(decode: seq<Byte> -> Option<Image>, encode: Image -> Option<seq<Byte>>)

  /** The four codec packages, one per format. */
  datatype CodecSet = CodecSet(jpeg: Codec, png: Codec, webp: Codec, avif: Codec)

  /** The `switch (format)` of `decodeImage` and `encodeImage`: every format
      has its own codec, and the `default` branch cannot be reached. */
  function CodecFor(codecs: CodecSet, format: ImageFormat): Codec {
    match format
    case Jpeg => codecs.jpeg
    case Png => codecs.png
    case Webp => codecs.webp
    case Avif => codecs.avif
  }

  function DecodeImage(codecs: CodecSet, data: seq<Byte>, format: ImageFormat): Option<Image> {
    CodecFor(codecs, format).decode(data)
  }

  function EncodeImage(codecs: CodecSet, image: Image, format: ImageFormat): Option<seq<Byte>> {
    CodecFor(codecs, format).encode(image)
  }

  /** Replacing the codec of one format changes the dispatch for that format
      only. */
  lemma DispatchIsPerFormat(codecs: CodecSet, replaced: ImageFormat, codec: Codec, format: ImageFormat)
    ensures var updated := match replaced
      case Jpeg => codecs.(jpeg := codec)
      case Png => codecs.(png := codec)
      case Webp => codecs.(webp := codec)
      case Avif => codecs.(avif := codec);
      CodecFor(updated, format) == if format == replaced then codec else CodecFor(codecs, format)
  {
  }
}
