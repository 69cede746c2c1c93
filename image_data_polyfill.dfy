/** supabase/functions/image-transformer/lib/image-data-polyfill.ts: an
    `ImageData` class for runtimes without one, installed on the global
    object only when no `ImageData` function exists. Its constructor has a
    numeric form (`width, height`) that allocates zeroed pixels and a data
    form (`pixels, width, height?`) that adopts the given buffer. */
module ImageDataPolyfill {

  import opened Wrappers
  import opened Images

  datatype ImageDataError = RangeError(message: string) | TypeError(message: string)

  const WIDTH_NOT_POSITIVE_INTEGER: string := "ImageData width must be a positive integer."
  const HEIGHT_NOT_POSITIVE_INTEGER: string := "ImageData height must be a positive integer."
  const NOT_CLAMPED_ARRAY: string := "ImageData expected pixel data to be an Uint8ClampedArray."
  const HEIGHT_NOT_POSITIVE: string := "ImageData height must be greater than zero."
  const HEIGHT_NOT_INTEGER: string := "ImageData height must be an integer that matches the data length."
  const LENGTH_MISMATCH: string := "ImageData pixel data length does not align with width and height."

  /** The first constructor argument: a number, a `Uint8ClampedArray`, or
      any other value. */
  datatype FirstArgument = NumberArgument(number: JsNumber) | PixelArgument(pixels: array<Byte>) | OtherArgument

  /** `Number.isInteger(n) && n > 0` */
  predicate IsPositiveInteger(n: JsNumber) {
    n.IsInteger() && n.value > 0.0
  }

  /** The numeric form's checks: both arguments positive integers. A
      missing or non-number height is `None`. */
  function NumericForm(width: JsNumber, height: Option<JsNumber>): (r: Result<(int, int), ImageDataError>)
    ensures r.Ok? <==> IsPositiveInteger(width) && height.Some? && IsPositiveInteger(height.value)
    ensures r.Ok? ==> (r.value.0 > 0 && r.value.1 > 0 &&
      r.value.0 as real == width.value && r.value.1 as real == height.value.value)
    ensures !IsPositiveInteger(width) ==> r == Err(RangeError(WIDTH_NOT_POSITIVE_INTEGER))
    ensures IsPositiveInteger(width) && r.Err? ==> r == Err(RangeError(HEIGHT_NOT_POSITIVE_INTEGER))
  {
    if !IsPositiveInteger(width) then Err(RangeError(WIDTH_NOT_POSITIVE_INTEGER))
    else if height.None? || !IsPositiveInteger(height.value) then Err(RangeError(HEIGHT_NOT_POSITIVE_INTEGER))
    else Ok((width.value.Floor, height.value.value.Floor))
  }

  /** `height ?? data.length / (width * 4)`: an explicit height, or the one
      the buffer's length implies. A non-number height is passed as NaN,
      which the checks treat alike. */
  function ComputedHeight(length: nat, width: int, height: Option<JsNumber>): JsNumber
    requires width > 0
  {
    match height
    case Some(h) => h
    case None => Finite(length as real / (width * 4) as real)
  }

  /** The data form's checks, in the constructor's order, on the buffer's
      length. */
  function DataForm(length: nat, width: Option<JsNumber>, height: Option<JsNumber>): (r: Result<(int, int), ImageDataError>)
    ensures r.Ok? ==> r.value.0 > 0 && r.value.1 > 0 && length == r.value.0 * r.value.1 * 4
    ensures width.None? || !IsPositiveInteger(width.value) ==> r == Err(RangeError(WIDTH_NOT_POSITIVE_INTEGER))
  {
    if width.None? || !IsPositiveInteger(width.value) then Err(RangeError(WIDTH_NOT_POSITIVE_INTEGER))
    else
      var w := width.value.value.Floor;
      var computed := ComputedHeight(length, w, height);
      if !computed.IsFinite() || computed.value <= 0.0 then Err(RangeError(HEIGHT_NOT_POSITIVE))
      else if !computed.IsInteger() then Err(RangeError(HEIGHT_NOT_INTEGER))
      else if length != w * computed.value.Floor * 4 then Err(RangeError(LENGTH_MISMATCH))
      else Ok((w, computed.value.Floor))
  }

  /** A quotient of naturals is an integer exactly when the division leaves
      no remainder, and its floor is the integer quotient. */
  lemma QuotientIsInteger(length: nat, divisor: int)
    requires divisor > 0
    ensures (length as real / divisor as real).Floor == length / divisor
    ensures (length as real / divisor as real).Floor as real == length as real / divisor as real <==> length % divisor == 0
  {
    var q, m := length / divisor, length % divisor;
    var fraction := m as real / divisor as real;
    QuotientSplits(length, divisor);
    FractionBelowOne(m, divisor);
    assert length as real / divisor as real == q as real + fraction;
  }

  /** `length / divisor` over the reals is the integer quotient plus the
      remainder's fraction. */
  lemma QuotientSplits(length: nat, divisor: int)
    requires divisor > 0
    ensures length as real / divisor as real == (length / divisor) as real + (length % divisor) as real / divisor as real
  {
    var q, m, d := length / divisor, length % divisor, divisor as real;
    assert length as real == q as real * d + m as real;
    assert (q as real + m as real / d) * d == q as real * d + m as real;
  }

  /** A remainder's fraction lies in [0, 1) and is zero only for a zero
      remainder. */
  lemma FractionBelowOne(m: int, divisor: int)
    requires 0 <= m < divisor
    ensures 0.0 <= m as real / divisor as real < 1.0
    ensures m as real / divisor as real == 0.0 <==> m == 0
  {
    var f := m as real / divisor as real;
    assert f * divisor as real == m as real;
  }

  /** With the height left out, a buffer is accepted exactly when it holds
      a positive whole number of rows of `width` pixels, and the height is
      that number of rows. */
  lemma ImpliedHeight(length: nat, width: JsNumber)
    requires IsPositiveInteger(width)
    ensures var w := width.value.Floor;
      (DataForm(length, Some(width), None).Ok? <==> length > 0 && length % (w * 4) == 0) &&
      (DataForm(length, Some(width), None).Ok? ==> DataForm(length, Some(width), None).value == (w, length / (w * 4)))
  {
    var w := width.value.Floor;
    QuotientIsInteger(length, w * 4);
    var computed := length as real / (w * 4) as real;
    assert computed > 0.0 <==> length > 0;
    if length % (w * 4) == 0 {
      var rows := length / (w * 4);
      assert length == w * rows * 4;
    }
  }

  /** With an explicit height, a buffer is accepted exactly when both
      numbers are positive integers and the length is `width * height * 4`. */
  lemma ExplicitHeight(length: nat, width: JsNumber, height: JsNumber)
    requires IsPositiveInteger(width)
    ensures DataForm(length, Some(width), Some(height)).Ok? <==>
      IsPositiveInteger(height) && length == width.value.Floor * height.value.Floor * 4
    ensures !height.IsFinite() || !height.IsPositive() ==>
      DataForm(length, Some(width), Some(height)) == Err(RangeError(HEIGHT_NOT_POSITIVE))
  {
  }

  /** An `ImageData` made by the polyfill. Its fields never change after
      construction. */
  class PolyfillImageData {
    const data: array<Byte>
    const width: int
    const height: int
    const colorSpace: string

    /** What every constructed object satisfies. */
    predicate Valid() {
      width > 0 && height > 0 && data.Length == width * height * 4 && colorSpace == "srgb"
    }

    /** The field assignments that end both forms of the constructor,
        after their checks. */
    constructor (pixels: array<Byte>, width: int, height: int)
      requires width > 0 && height > 0 && pixels.Length == width * height * 4
      ensures this.data == pixels && this.width == width && this.height == height
      ensures Valid()
    {
      this.data := pixels;
      this.width := width;
      this.height := height;
      this.colorSpace := "srgb";
    }
  }

  /** `new PolyfillImageData(dataOrWidth, widthOrHeight, height)`: the object,
      or the error the constructor throws. The numeric form owns a fresh,
      zeroed buffer; the data form adopts the caller's buffer. */
  method Construct(dataOrWidth: FirstArgument, widthOrHeight: Option<JsNumber>, height: Option<JsNumber>)
    returns (r: Result<PolyfillImageData, ImageDataError>)
    ensures dataOrWidth.OtherArgument? ==> r == Err(TypeError(NOT_CLAMPED_ARRAY))
    ensures dataOrWidth.NumberArgument? ==>
      var checked := NumericForm(dataOrWidth.number, widthOrHeight);
      (checked.Err? ==> r == Err(checked.error)) &&
      (checked.Ok? ==> (r.Ok? && fresh(r.value) && fresh(r.value.data) && r.value.Valid() &&
        r.value.width == checked.value.0 && r.value.height == checked.value.1 &&
        forall i :: 0 <= i < r.value.data.Length ==> r.value.data[i] == 0))
    ensures dataOrWidth.PixelArgument? ==>
      var checked := DataForm(dataOrWidth.pixels.Length, widthOrHeight, height);
      (checked.Err? ==> r == Err(checked.error)) &&
      (checked.Ok? ==> (r.Ok? && fresh(r.value) && r.value.data == dataOrWidth.pixels && r.value.Valid() &&
        r.value.width == checked.value.0 && r.value.height == checked.value.1))
  {
    match dataOrWidth
    case NumberArgument(width) =>
      var checked := NumericForm(width, widthOrHeight);
      if checked.Err? {
        return Err(checked.error);
      }
      var (w, h) := checked.value;
      var pixels := new Byte[w * h * 4](_ => 0);
      var image := new PolyfillImageData(pixels, w, h);
      r := Ok(image);
    case PixelArgument(pixels) =>
      var checked := DataForm(pixels.Length, widthOrHeight, height);
      if checked.Err? {
        return Err(checked.error);
      }
      var (w, h) := checked.value;
      var image := new PolyfillImageData(pixels, w, h);
      r := Ok(image);
    case OtherArgument =>
      r := Err(TypeError(NOT_CLAMPED_ARRAY));
  }

  /** What `globalThis.ImageData` holds: nothing, some non-function value,
      the runtime's own constructor, or the polyfill. */
  datatype GlobalBinding = Absent | NonFunction | NativeConstructor | PolyfillConstructor {
    /** `typeof globalThis.ImageData === "function"` */
    predicate IsFunction() {
      NativeConstructor? || PolyfillConstructor?
    }
  }

  /** The binding after the module has run. */
  function Installed(binding: GlobalBinding): (r: GlobalBinding)
    ensures r.IsFunction()
    ensures binding.IsFunction() ==> r == binding
    ensures !binding.IsFunction() ==> r == PolyfillConstructor
  {
    if binding.IsFunction() then binding else PolyfillConstructor
  }

  /** Loading the module twice is loading it once, and a runtime's own
      `ImageData` is never replaced. */
  lemma InstallIdempotent(binding: GlobalBinding)
    ensures Installed(Installed(binding)) == Installed(binding)
    ensures binding == NativeConstructor ==> Installed(binding) == NativeConstructor
  {
  }

  /** The global object, as far as this module touches it. */
  class GlobalScope {
    var imageData: GlobalBinding

    constructor (imageData: GlobalBinding)
      ensures this.imageData == imageData
    {
      this.imageData := imageData;
    }

    /** The module body: test for a function, and define the property only
      when there is none. */
    method InstallPolyfill()
      modifies this
      ensures imageData == Installed(old(imageData))
    {
      var hasImageData := imageData.IsFunction();
      if !hasImageData {
        imageData := PolyfillConstructor;
      }
    }
  }
}
