/** The Deno variant of the processor
    (supabase/functions/image-transformer/lib/image-processor.ts). It takes
    the crop decision from `ImageProcessor`, and differs in two ways: codecs
    are looked up per format after that format's one-time initialisation,
    and resizing first awaits `ensureResizeReady`. Both initialisations are
    foreign calls whose outcome is a parameter here. */
module ImageProcessorDeno {

  import opened Wrappers
  import opened Images
  import opened DetectFormat
  import ImageProcessor

  datatype CodecError = InitialisationFailed | CodecFailed

  /** `getCodecHandlers(format)`: the format's initialisation must succeed
      before its descriptor is handed out. */
  function GetCodecHandlers(codecs: ImageProcessor.CodecSet, initialised: ImageFormat -> bool, format: ImageFormat)
    : (r: Result<ImageProcessor.Codec, CodecError>)
    ensures r.Ok? <==> initialised(format)
    ensures r.Ok? ==> r.value == ImageProcessor.CodecFor(codecs, format)
  {
    if initialised(format) then Ok(ImageProcessor.CodecFor(codecs, format)) else Err(InitialisationFailed)
  }

  function DecodeImage(codecs: ImageProcessor.CodecSet, initialised: ImageFormat -> bool, data: seq<Byte>, format: ImageFormat)
    : (r: Result<Image, CodecError>)
    ensures initialised(format) ==>
      (r.Ok? <==> ImageProcessor.DecodeImage(codecs, data, format).Some?) &&
      (r.Ok? ==> Some(r.value) == ImageProcessor.DecodeImage(codecs, data, format))
    ensures !initialised(format) ==> r == Err(InitialisationFailed)
  {
    match GetCodecHandlers(codecs, initialised, format)
    case Err(e) => Err(e)
    case Ok(codec) =>
      match codec.decode(data)
      case Some(image) => Ok(image)
      case None => Err(CodecFailed)
  }

  function EncodeImage(codecs: ImageProcessor.CodecSet, initialised: ImageFormat -> bool, image: Image, format: ImageFormat)
    : (r: Result<seq<Byte>, CodecError>)
    ensures initialised(format) ==>
      (r.Ok? <==> ImageProcessor.EncodeImage(codecs, image, format).Some?) &&
      (r.Ok? ==> Some(r.value) == ImageProcessor.EncodeImage(codecs, image, format))
    ensures !initialised(format) ==> r == Err(InitialisationFailed)
  {
    match GetCodecHandlers(codecs, initialised, format)
    case Err(e) => Err(e)
    case Ok(codec) =>
      match codec.encode(image)
      case Some(bytes) => Ok(bytes)
      case None => Err(CodecFailed)
  }

  datatype ResizeError = NonPositiveTarget | ResizeNotReady | ResampleFailed

  /** `resizeImage(image, width, height)`: the same checks as the src
      variant, then `ensureResizeReady()` (whose outcome is `resizeReady`),
      then the resampler. */
  function ResizeImage(image: Image, width: int, height: int, resizeReady: bool, resample: Resampler)
    : (r: Result<Image, ResizeError>)
    ensures r == Err(NonPositiveTarget) <==> width <= 0 || height <= 0
    ensures width > 0 && height > 0 && image.width == width && image.height == height ==> r == Ok(image)
    ensures r == Err(ResizeNotReady) <==>
      width > 0 && height > 0 && (image.width != width || image.height != height) && !resizeReady
  {
    if width <= 0 || height <= 0 then
      Err(NonPositiveTarget)
    else if image.width == width && image.height == height then
      Ok(image)
    else
      var options := ImageProcessor.ResizeOptionsFor(image, width, height);
      if !resizeReady then
        Err(ResizeNotReady)
      else
        match resample(image, options)
        case Some(resized) => Ok(resized)
        case None => Err(ResampleFailed)
  }

  /** Same dimensions: neither the readiness step nor the resampler matters. */
  lemma SameSizeSkipsReadinessAndResample(image: Image, ready: bool, resample: Resampler)
    ensures ResizeImage(image, image.width, image.height, ready, resample) == Ok(image)
  {
  }

  /** Once the resizer is ready, the Deno variant answers exactly as the src
      variant: same refusals, same fit method, same resampler call. */
  lemma AgreesWithSrcWhenReady(image: Image, width: int, height: int, resample: Resampler)
    ensures var deno := ResizeImage(image, width, height, true, resample);
      var src := ImageProcessor.ResizeImage(image, width, height, resample);
      (deno.Ok? <==> src.Ok?) &&
      (deno.Ok? ==> deno.value == src.value) &&
      (deno == Err(NonPositiveTarget) <==> src == Err(ImageProcessor.NonPositiveTarget)) &&
      (deno == Err(ResampleFailed) <==> src == Err(ImageProcessor.ResampleFailed))
  {
  }
}
