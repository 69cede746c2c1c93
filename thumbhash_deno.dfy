/** supabase/functions/image-transformer/lib/thumbhash.ts: the same scaling
    and encoding as the Cloudflare variant, except that the resize codec
    must be made ready (`ensureResizeReady`) before it is used, and the hash
    reads the scaled image's bytes through a fresh `Uint8Array` view. */
module ThumbhashDeno {

  import opened Wrappers
  import opened Images
  import Base64
  import Thumbhash

  /** `scaleDown(image)`: no readiness is needed for an image that already
      fits; otherwise the resize codec must be ready and the foreign resize
      must succeed. */
  function ScaleDown(image: Image, resizeReady: bool, resample: Resampler): (r: Option<Image>)
    ensures Thumbhash.ScaleTargets(image.width, image.height).None? ==> r == Some(image)
    ensures Thumbhash.ScaleTargets(image.width, image.height).Some? && !resizeReady ==> r.None?
    ensures Thumbhash.ScaleTargets(image.width, image.height).Some? && resizeReady ==>
      var (tw, th) := Thumbhash.ScaleTargets(image.width, image.height).value;
      r == resample(image, ResizeOptions(tw, th, Stretch, Triangle))
  {
    match Thumbhash.ScaleTargets(image.width, image.height)
    case None => Some(image)
    case Some((tw, th)) =>
      if !resizeReady then None
      else resample(image, ResizeOptions(tw, th, Stretch, Triangle))
  }

  function ThumbHash(image: Image, resizeReady: bool, resample: Resampler, hasher: Thumbhash.ThumbHasher): Option<string> {
    match ScaleDown(image, resizeReady, resample)
    case None => None
    case Some(source) =>
      match hasher(source.width, source.height, source.data)
      case None => None
      case Some(hash) => Some(Base64.Encode(hash))
  }

  /** `generateThumbHash(image)` */
  method GenerateThumbHash(image: Image, resizeReady: bool, resample: Resampler, hasher: Thumbhash.ThumbHasher)
    returns (r: Option<string>)
    ensures r == ThumbHash(image, resizeReady, resample, hasher)
  {
    var source := ScaleDown(image, resizeReady, resample);
    if source.None? {
      return None;
    }
    var rgba := source.value.data;
    var hash := hasher(source.value.width, source.value.height, rgba);
    if hash.None? {
      return None;
    }
    var encoded := Thumbhash.ToBase64(hash.value);
    r := Some(encoded);
  }

  /** With the resize codec ready, this variant hashes exactly as the
      Cloudflare one does. */
  lemma AgreesWhenReady(image: Image, resample: Resampler, hasher: Thumbhash.ThumbHasher)
    ensures ThumbHash(image, true, resample, hasher) == Thumbhash.ThumbHash(image, resample, hasher)
  {
  }

  /** An image that fits within 50x50 never waits for the resize codec. */
  lemma SmallImageNeedsNoReadiness(image: Image, resample: Resampler, hasher: Thumbhash.ThumbHasher)
    requires image.width <= Thumbhash.MAX_THUMB_DIMENSION && image.height <= Thumbhash.MAX_THUMB_DIMENSION
    ensures ThumbHash(image, false, resample, hasher) == ThumbHash(image, true, resample, hasher)
  {
  }
}
