/** Values shared by every stage of the pipeline: bytes, ECMAScript numbers,
    decoded images (`ImageData`) and the options passed to the resampler. */
module Images {

  import opened Wrappers

  type Byte = b: int | 0 <= b < 256

  /** An ECMAScript number: a finite value, NaN, or an infinity. */
  datatype JsNumber = Finite(value: real) | NaN | Infinity(negative: bool) {
    /** `Number.isInteger` */
    predicate IsInteger() {
      Finite? && value.Floor as real == value
    }
    /** `Number.isFinite` */
    predicate IsFinite() {
      Finite?
    }
    /** `x > 0` */
    predicate IsPositive() {
      (Finite? && value > 0.0) || (Infinity? && !negative)
    }
  }

  /** A decoded image: `width` x `height` pixels, row-major RGBA, one byte
      per channel. */
  datatype ImageData = ImageData(width: int, height: int, data: seq<Byte>)

  /** What every `ImageData` the codecs and the constructor hand out satisfies. */
  predicate WellFormed(image: ImageData) {
    image.width > 0 && image.height > 0 && |image.data| == image.width * image.height * 4
  }

  /** An `ImageData` as the codecs and the constructor hand it out: the
      constructor refuses anything else (see `ImageDataPolyfill`). */
  type Image = image: ImageData | WellFormed(image) witness ImageData(1, 1, [0, 0, 0, 0])

  /** `fitMethod` of the resampler: stretch to the box, or crop the source
      to the box's aspect ratio first (`'contain'`). */
  datatype FitMethod = Stretch | Contain

  datatype ResampleMethod = Triangle

  datatype ResizeOptions = ResizeOptions(width: int, height: int, fitMethod: FitMethod, resampleMethod: ResampleMethod)

  /** The resampler (`@jsquash/resize`), a foreign call: it yields an image
      or fails. */
  type Resampler = (Image, ResizeOptions) -> Option<Image>
}
