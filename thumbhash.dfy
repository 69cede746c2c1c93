/** cloudflare/lib/thumbhash.ts: scale an image down to fit 50x50, hash
    its pixels with `rgbaToThumbHash`, and base64 the hash. The
    scaling arithmetic and the chunked binary-string loop are the same in
    supabase/functions/image-transformer/lib/thumbhash.ts. */
module Thumbhash {

  import opened Wrappers
  import opened Images
  import Dimensions
  import RealFacts
  import Base64

  const MAX_THUMB_DIMENSION: int := 50

  /** The number of bytes turned into characters at a time. */
  const CHUNK_SIZE: int := 0x8000

  function Max(a: int, b: int): int {
    if a >= b then a else b
  }

  function Min(a: int, b: int): int {
    if a <= b then a else b
  }

  /** One side scaled by `longest / 50`: at least 1, at most 50, exactly 50
      for the longest side, and the nearest integer to `dim * 50 / longest`
      when that is at least one half. */
  lemma ScaledSide(dim: int, longest: int)
    requires 0 < dim <= longest && longest > MAX_THUMB_DIMENSION
    ensures var target := Dimensions.Round(dim as real / (longest as real / MAX_THUMB_DIMENSION as real));
      var exact := dim as real * MAX_THUMB_DIMENSION as real / longest as real;
      1 <= target <= MAX_THUMB_DIMENSION &&
      (dim == longest ==> target == MAX_THUMB_DIMENSION) &&
      (exact >= 0.5 ==> target as real - 0.5 <= exact < target as real + 0.5)
  {
    var exact := dim as real * 50.0 / longest as real;
    RealFacts.DivideByRatio(dim as real, longest as real, 50.0);
    assert exact <= 50.0 by {
      assert dim as real * 50.0 <= longest as real * 50.0;
      RealFacts.QuotientAtLeastOne(longest as real * 50.0, dim as real * 50.0);
    }
    if dim == longest {
      assert exact == 50.0;
      assert Dimensions.MathRound(50.0) == 50;
    }
  }

  /** The targets `scaleDown` resizes to, or none when the image already
      fits within 50x50. */
  function ScaleTargets(width: int, height: int): (r: Option<(int, int)>)
    requires width > 0 && height > 0
    ensures r.None? <==> width <= MAX_THUMB_DIMENSION && height <= MAX_THUMB_DIMENSION
    ensures r.Some? ==> 1 <= r.value.0 <= MAX_THUMB_DIMENSION && 1 <= r.value.1 <= MAX_THUMB_DIMENSION
    ensures r.Some? && width >= height ==> r.value.0 == MAX_THUMB_DIMENSION
    ensures r.Some? && height >= width ==> r.value.1 == MAX_THUMB_DIMENSION
  {
    if width <= MAX_THUMB_DIMENSION && height <= MAX_THUMB_DIMENSION then None
    else
      var longest := Max(width, height);
      var scale := longest as real / MAX_THUMB_DIMENSION as real;
      ScaledSide(width, longest);
      ScaledSide(height, longest);
      Some((Dimensions.Round(width as real / scale), Dimensions.Round(height as real / scale)))
  }

  /** Targets keep the aspect ratio up to rounding: each is the nearest
      integer to its side times `50 / longest` whenever that exceeds one
      half. */
  lemma ScaleTargetsKeepAspect(width: int, height: int)
    requires width > 0 && height > 0
    requires ScaleTargets(width, height).Some?
    ensures var longest := Max(width, height);
      var (tw, th) := ScaleTargets(width, height).value;
      var exactWidth := width as real * 50.0 / longest as real;
      var exactHeight := height as real * 50.0 / longest as real;
      (exactWidth >= 0.5 ==> tw as real - 0.5 <= exactWidth < tw as real + 0.5) &&
      (exactHeight >= 0.5 ==> th as real - 0.5 <= exactHeight < th as real + 0.5)
  {
    ScaledSide(width, Max(width, height));
    ScaledSide(height, Max(width, height));
  }

  /** A 2:1 image of 100x50 becomes 50x25; a sliver of 3000x10 keeps one
      row; a 50x50 image is left alone. */
  lemma ScaleExamples()
    ensures ScaleTargets(100, 50) == Some((50, 25))
    ensures ScaleTargets(3000, 10) == Some((50, 1))
    ensures ScaleTargets(50, 50) == None
  {
    assert Dimensions.MathRound(50.0) == 50;
    assert Dimensions.MathRound(25.0) == 25;
    assert 10.0 / (3000.0 / 50.0) == 1.0 / 6.0;
  }

  /** `scaleDown(image)`: the image itself when it fits, otherwise the
      foreign resize to the targets with `'stretch'` and `'triangle'`; none
      when the resize fails. */
  function ScaleDown(image: Image, resample: Resampler): (r: Option<Image>)
    ensures ScaleTargets(image.width, image.height).None? ==> r == Some(image)
    ensures ScaleTargets(image.width, image.height).Some? ==>
      var (tw, th) := ScaleTargets(image.width, image.height).value;
      r == resample(image, ResizeOptions(tw, th, Stretch, Triangle))
  {
    match ScaleTargets(image.width, image.height)
    case None => Some(image)
    case Some((tw, th)) => resample(image, ResizeOptions(tw, th, Stretch, Triangle))
  }

  /** `toBase64(bytes)`: the bytes are turned into a binary string one
      chunk of `0x8000` at a time, and the string is passed to `btoa`. */
  method ToBase64(bytes: seq<Byte>) returns (encoded: string)
    ensures encoded == Base64.Encode(bytes)
  {
    var binary := "";
    var offset := 0;
    while offset < |bytes|
      invariant 0 <= offset
      invariant binary == Base64.Latin1(bytes[..Min(offset, |bytes|)])
      decreases |bytes| - offset
    {
      var chunkEnd := Min(offset + CHUNK_SIZE, |bytes|);
      var chunk := bytes[offset..chunkEnd];
      Base64.Latin1OfConcat(bytes[..offset], chunk);
      assert bytes[..offset] + chunk == bytes[..chunkEnd];
      binary := binary + Base64.Latin1(chunk);
      offset := offset + CHUNK_SIZE;
    }
    assert bytes[..Min(offset, |bytes|)] == bytes;
    Base64.BtoaOfLatin1(bytes);
    encoded := Base64.Btoa(binary).value;
  }

  /** `rgbaToThumbHash(width, height, rgba)`, a foreign function; none where
      it throws. */
  type ThumbHasher = (int, int, seq<Byte>) -> Option<seq<Byte>>

  /** The thumbhash string of an image, or none when the resize or the
      hasher fails. */
  function ThumbHash(image: Image, resample: Resampler, hasher: ThumbHasher): Option<string> {
    match ScaleDown(image, resample)
    case None => None
    case Some(source) =>
      match hasher(source.width, source.height, source.data)
      case None => None
      case Some(hash) => Some(Base64.Encode(hash))
  }

  /** `generateThumbHash(image)` */
  method GenerateThumbHash(image: Image, resample: Resampler, hasher: ThumbHasher) returns (r: Option<string>)
    ensures r == ThumbHash(image, resample, hasher)
  {
    var source := ScaleDown(image, resample);
    if source.None? {
      return None;
    }
    var hash := hasher(source.value.width, source.value.height, source.value.data);
    if hash.None? {
      return None;
    }
    var encoded := ToBase64(hash.value);
    r := Some(encoded);
  }

  /** An image within 50x50 is hashed as it is, without any resize; the
      hash bytes can be read back from the result. */
  lemma SmallImageHashedAsIs(image: Image, resample: Resampler, hasher: ThumbHasher)
    requires image.width <= MAX_THUMB_DIMENSION && image.height <= MAX_THUMB_DIMENSION
    requires hasher(image.width, image.height, image.data).Some?
    ensures ThumbHash(image, resample, hasher).Some?
    ensures Base64.Decode(ThumbHash(image, resample, hasher).value) == hasher(image.width, image.height, image.data)
  {
    Base64.DecodeEncode(hasher(image.width, image.height, image.data).value);
  }
}
