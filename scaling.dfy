/** The output-size rule of `getScaledImage`: it pins the longer side of the
    source (the height when the sides are equal) to the target and truncates
    the other side to keep the aspect ratio. */
module Scaling {

  import opened Outcomes
  import opened Geometry

  /** The image `getScaledImage` draws: `source` resampled to `width` x `height`. */
  datatype Scaled = Scaled(source: Region, width: Pos, height: Pos)

  /** Java's `(int)` cast of a quotient: truncation toward zero. */
  function TruncDiv(a: int, b: Pos): (q: int)
    ensures a >= 0 ==> 0 <= q && q * b <= a < (q + 1) * b && (q > 0 <==> a >= b)
    ensures a < 0 ==> q <= 0 && -q * b <= -a < (-q + 1) * b
  {
    if a >= 0 then
      var q := a / b;
      DivBracket(a, b);
      QuotientPositive(q, a, b);
      q
    else
      DivBracket(-a, b);
      -((-a) / b)
  }

  /** Euclidean division of a natural number brackets it between multiples of `b`. */
  lemma DivBracket(a: nat, b: Pos)
    ensures 0 <= a / b && (a / b) * b <= a < (a / b + 1) * b
  {
  }

  /** A quotient bracketed by `q * b <= a < (q + 1) * b` is positive
      exactly when `a` reaches `b`. */
  lemma QuotientPositive(q: int, a: int, b: Pos)
    requires 0 <= q
    ensures q * b <= a < (q + 1) * b ==> (q > 0 <==> a >= b)
  {
  }

  /** A truncated share `q` of `side * small / big` with `small <= big`
      is no more than `side`. */
  lemma ShareAtMostSide(q: int, side: int, small: nat, big: Pos)
    requires small <= big
    ensures 0 <= side && q * big <= side * small ==> q <= side
  {
  }

  /** The `(width, height)` that `getScaledImage` computes for a source of
      `srcW` x `srcH` and a requested `width` x `height`: the pinned side is
      the request, the other side is the truncated exact share, never larger
      than the pinned side when the request is non-negative. */
  function ScaledSize(srcW: Pos, srcH: Pos, width: int, height: int): (r: (int, int))
    ensures srcW > srcH ==>
              r.0 == width &&
              (width >= 0 ==> 0 <= r.1 <= width && r.1 * srcW <= width * srcH < (r.1 + 1) * srcW &&
                              (r.1 > 0 <==> width * srcH >= srcW)) &&
              (width < 0 ==> r.1 <= 0)
    ensures srcW <= srcH ==>
              r.1 == height &&
              (height >= 0 ==> 0 <= r.0 <= height && r.0 * srcH <= height * srcW < (r.0 + 1) * srcH &&
                               (r.0 > 0 <==> height * srcW >= srcH)) &&
              (height < 0 ==> r.0 <= 0)
  {
    if srcW > srcH then
      var h := TruncDiv(width * srcH, srcW);
      ShareAtMostSide(h, width, srcH, srcW);
      (width, h)
    else
      var w := TruncDiv(height * srcW, srcH);
      ShareAtMostSide(w, height, srcW, srcH);
      (w, height)
  }

  /** The pixel count at which `new BufferedImage` gives up: the library's
      raster indexes its pixels with an `int` and refuses a `width * height`
      of `Integer.MAX_VALUE` or more. */
  const PixelLimit: int := 0x7fff_ffff

  /** `getScaledImage(src, width, height)`: the resized image, or the
      exception `new BufferedImage` raises for a side that is not positive
      or for more pixels than its raster can index. It succeeds exactly when
      the pinned side is positive, the truncated side is at least one pixel
      and the two sides multiply to less than `PixelLimit`. */
  function ScaleTo(src: Region, width: int, height: int): (r: Result<Scaled>)
    ensures r.Success? ==> r.value.source == src && r.value.width * r.value.height < PixelLimit
    ensures r.Failure? ==> r.error == IllegalSize
    ensures src.width > src.height ==>
              (r.Success? <==> width > 0 && width * src.height >= src.width &&
                               width * ScaledSize(src.width, src.height, width, height).1 < PixelLimit) &&
              (r.Success? ==> r.value.width == width)
    ensures src.width <= src.height ==>
              (r.Success? <==> height > 0 && height * src.width >= src.height &&
                               ScaledSize(src.width, src.height, width, height).0 * height < PixelLimit) &&
              (r.Success? ==> r.value.height == height)
  {
    var size := ScaledSize(src.width, src.height, width, height);
    if size.0 > 0 && size.1 > 0 && size.0 * size.1 < PixelLimit then Success(Scaled(src, size.0, size.1))
    else Failure(IllegalSize)
  }

  /** The scaled image keeps the source's orientation, and its sides are in
      the source's ratio up to less than one pixel of the truncated side. */
  lemma ScaleKeepsAspect(src: Region, width: int, height: int)
    ensures var r := ScaleTo(src, width, height);
            r.Success? ==>
              (src.width > src.height ==>
                 r.value.height <= r.value.width &&
                 r.value.height * src.width <= r.value.width * src.height < (r.value.height + 1) * src.width) &&
              (src.width <= src.height ==>
                 r.value.width <= r.value.height &&
                 r.value.width * src.height <= r.value.height * src.width < (r.value.width + 1) * src.height)
  {
  }

  /** With a square request of side `side`, the result fits inside it and
      its longer side is exactly `side`. */
  lemma SquareTargetFits(src: Region, side: int)
    ensures var r := ScaleTo(src, side, side);
            r.Success? ==>
              r.value.width <= side && r.value.height <= side &&
              (r.value.width == side || r.value.height == side)
  {
  }

  /** A request that is not square is not a bound: a 200 x 100 source asked
      for 150 x 50 comes out 150 x 75, taller than requested. */
  lemma WideSourceIgnoresRequestedHeight()
    ensures ScaleTo(Whole(Image(200, 100)), 150, 50) ==
            Success(Scaled(Whole(Image(200, 100)), 150, 75))
  {
  }

  /** A source much wider than the request has no whole pixel of height left:
      a 1000 x 5 source asked for 150 x 150 is refused. */
  lemma ThinSourceIsRefused()
    ensures ScaleTo(Whole(Image(1000, 5)), 150, 150) == Failure(IllegalSize)
  {
  }

  /** A target too large for an `int`-indexed raster: a 180 x 180 profile
      asked for 50000 x 50000 needs 2500000000 pixels, and `new BufferedImage`
      refuses it although both sides are positive. */
  lemma HugeTargetIsRefused()
    ensures ScaledSize(180, 180, 50000, 50000) == (50000, 50000)
    ensures ScaleTo(Whole(Image(180, 180)), 50000, 50000) == Failure(IllegalSize)
  {
  }
}
