/** Integer geometry shared by the face controller: rectangles, images known
    only by their size, sub-image regions, and Java's 32-bit `int` products. */
module Geometry {

  import opened Outcomes

  type Pos = x: int | x > 0 witness 1

  /** A detector rectangle: top-left corner and size, as the detection
      library reports it (nothing forces the size to be non-negative). */
  datatype Rect = Rect(x: int, y: int, width: int, height: int)

  /** A raster known by its dimensions; a Java image is never empty. */
  datatype Image = Image(width: Pos, height: Pos)

  /** A sub-image of `source`, given by its area in `source` coordinates. */
  datatype Region = Region(source: Image, x: int, y: int, width: Pos, height: Pos)
  {
    function Area(): Rect { Rect(x, y, width, height) }
  }

  /** A requested output size (`java.awt.Dimension`); any int is accepted. */
  datatype Dimension = Dimension(width: int, height: int)

  /** `r` lies inside `[0, width] x [0, height]` of `img`. */
  predicate Within(r: Rect, img: Image)
  {
    0 <= r.x && 0 <= r.y && 0 <= r.width && 0 <= r.height &&
    r.x + r.width <= img.width && r.y + r.height <= img.height
  }

  /** `inner` is covered by `outer`. */
  predicate Covers(outer: Rect, inner: Rect)
  {
    outer.x <= inner.x && outer.y <= inner.y &&
    inner.x + inner.width <= outer.x + outer.width &&
    inner.y + inner.height <= outer.y + outer.height
  }

  /** The image itself, seen as the region covering all of it. */
  function Whole(img: Image): (r: Region)
    ensures r.source == img && Within(r.Area(), img)
    ensures Covers(r.Area(), Rect(0, 0, img.width, img.height))
  {
    Region(img, 0, 0, img.width, img.height)
  }

  /** `getSubimage(x, y, w, h)`: the library returns the view of `img` over
      the area when the area lies inside the image and both sides are
      positive, and throws `RasterFormatException` otherwise. */
  function Subimage(img: Image, area: Rect): (r: Option<Region>)
    ensures r.Some? <==> Within(area, img) && area.width > 0 && area.height > 0
    ensures r.Some? ==> r.value.source == img && r.value.Area() == area
  {
    if Within(area, img) && area.width > 0 && area.height > 0
    then Some(Region(img, area.x, area.y, area.width, area.height))
    else None
  }

  const TwoTo31: int := 0x8000_0000
  const TwoTo32: int := 0x1_0000_0000

  /** Java `int` wrap-around: the 32-bit two's-complement value congruent to `x`. */
  function Wrap32(x: int): (r: int)
    ensures -TwoTo31 <= r < TwoTo31
    ensures (x - r) % TwoTo32 == 0
    ensures -TwoTo31 <= x < TwoTo31 ==> r == x
  {
    (x + TwoTo31) % TwoTo32 - TwoTo31
  }

  /** Java `a * b` on `int` operands. */
  function Mul32(a: int, b: int): int
  {
    Wrap32(a * b)
  }
}
