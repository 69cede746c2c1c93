/** The dimension resolver (cloudflare/image-transformer/lib/dimensions.ts):
    turns a partial width/height request into concrete dimensions of at
    least one pixel, keeping the original aspect ratio when only one axis is
    requested. Arithmetic is over the reals. */
module Dimensions {

  import opened Wrappers
  import RealFacts

  datatype Dimensions = Dimensions(width: int, height: int)

  /** `{ width?, height? }`: an axis counts as requested when it is a number
      greater than zero. */
  datatype DimensionRequest = DimensionRequest(width: Option<real>, height: Option<real>)

  datatype ResolveError = NeitherAxisRequested

  predicate Requested(axis: Option<real>) {
    axis.Some? && axis.value > 0.0
  }

  /** `Math.round` is `floor(x + 0.5)`. */
  function MathRound(value: real): int {
    (value + 0.5).Floor
  }

  /** `round`: `Math.max(1, Math.round(value))`, the nearest integer, never
      below one. */
  function Round(value: real): (r: int)
    ensures r >= 1
    ensures value >= 0.5 ==> r as real - 0.5 <= value < r as real + 0.5
    ensures value < 1.5 ==> r == 1
  {
    var rounded := MathRound(value);
    if rounded < 1 then 1 else rounded
  }

  /** `resolveDimensions(original, request)`. The original dimensions are
      those of a decoded image, so both are positive. */
  function ResolveDimensions(original: Dimensions, request: DimensionRequest): (r: Result<Dimensions, ResolveError>)
    requires original.width > 0 && original.height > 0
    ensures r.Err? <==> !Requested(request.width) && !Requested(request.height)
    ensures r.Ok? ==> r.value.width >= 1 && r.value.height >= 1
  {
    var hasWidth := Requested(request.width);
    var hasHeight := Requested(request.height);
    if !hasWidth && !hasHeight then
      Err(NeitherAxisRequested)
    else if hasWidth && hasHeight then
      Ok(Dimensions(Round(request.width.value), Round(request.height.value)))
    else
      var aspect := original.width as real / original.height as real;
      if hasWidth then
        Ok(Dimensions(Round(request.width.value), Round(request.width.value / aspect)))
      else
        Ok(Dimensions(Round(request.height.value * aspect), Round(request.height.value)))
  }

  /** Both axes requested: each is rounded on its own and the original
      dimensions play no part. */
  lemma BothAxesIgnoreOriginal(a: Dimensions, b: Dimensions, request: DimensionRequest)
    requires a.width > 0 && a.height > 0 && b.width > 0 && b.height > 0
    requires Requested(request.width) && Requested(request.height)
    ensures ResolveDimensions(a, request) == ResolveDimensions(b, request)
    ensures ResolveDimensions(a, request) == Ok(Dimensions(Round(request.width.value), Round(request.height.value)))
  {
  }

  /** Width only: the width is the requested one rounded, and the height is
      the one that keeps `original.width : original.height`, rounded. */
  lemma WidthOnlyKeepsAspect(original: Dimensions, width: real, height: Option<real>)
    requires original.width > 0 && original.height > 0
    requires width > 0.0 && !Requested(height)
    ensures var r := ResolveDimensions(original, DimensionRequest(Some(width), height));
      var exact := width * original.height as real / original.width as real;
      r.Ok? && r.value.width == Round(width) && r.value.height == Round(exact) &&
      (width >= 0.5 ==> r.value.width as real - 0.5 <= width < r.value.width as real + 0.5) &&
      (exact >= 0.5 ==> r.value.height as real - 0.5 <= exact < r.value.height as real + 0.5)
  {
    RealFacts.DivideByRatio(width, original.width as real, original.height as real);
  }

  /** Height only: symmetric to `WidthOnlyKeepsAspect`. */
  lemma HeightOnlyKeepsAspect(original: Dimensions, width: Option<real>, height: real)
    requires original.width > 0 && original.height > 0
    requires height > 0.0 && !Requested(width)
    ensures var r := ResolveDimensions(original, DimensionRequest(width, Some(height)));
      var exact := height * original.width as real / original.height as real;
      r.Ok? && r.value.height == Round(height) && r.value.width == Round(exact) &&
      (height >= 0.5 ==> r.value.height as real - 0.5 <= height < r.value.height as real + 0.5) &&
      (exact >= 0.5 ==> r.value.width as real - 0.5 <= exact < r.value.width as real + 0.5)
  {
    RealFacts.MultiplyByRatio(height, original.width as real, original.height as real);
  }

  /** The worked examples: a 2:1 original asked for width 200 or height 25;
      and an explicit 200x10 box taken verbatim. */
  lemma Examples()
    ensures ResolveDimensions(Dimensions(100, 50), DimensionRequest(Some(200.0), None)) == Ok(Dimensions(200, 100))
    ensures ResolveDimensions(Dimensions(100, 50), DimensionRequest(None, Some(25.0))) == Ok(Dimensions(50, 25))
    ensures ResolveDimensions(Dimensions(100, 50), DimensionRequest(Some(200.0), Some(10.0))) == Ok(Dimensions(200, 10))
    ensures ResolveDimensions(Dimensions(100, 50), DimensionRequest(None, None)).Err?
  {
    assert MathRound(200.0) == 200;
    assert MathRound(100.0) == 100;
    assert MathRound(50.0) == 50;
    assert MathRound(25.0) == 25;
    assert MathRound(10.0) == 10;
  }
}
