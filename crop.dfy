/** The crop geometry of `createCutFace`: the area test that keeps the whole
    image, the padding that shrinks one unit at a time until the padded face
    fits, and the sub-image that results. */
module Crop {

  import opened Outcomes
  import opened Geometry

  /** The face widened by `p` on every side passes all four bound checks of
      the shrink loop (the negation of its guard). */
  predicate Fits(face: Rect, img: Image, p: int)
  {
    !(face.x + face.width + p > img.width ||
      face.y + face.height + p > img.height ||
      face.x - p < 0 ||
      face.y - p < 0)
  }

  function Min(a: int, b: int): int
  {
    if a <= b then a else b
  }

  /** The padding the shrink loop stops at, in closed form: the largest value
      not above `start` that passes all four checks. */
  function FittedPadding(face: Rect, img: Image, start: int): (p: int)
    ensures p <= start && Fits(face, img, p)
    ensures forall q :: p < q <= start ==> !Fits(face, img, q)
  {
    Min(Min(Min(Min(start, face.x), face.y),
            img.width - face.x - face.width),
        img.height - face.y - face.height)
  }

  /** The decrementing search: start at `start` and take one off while the
      padded face leaves the image. On unbounded integers it stops for every
      face, since each of the four checks passes once the padding is small
      enough; `WrappedGuardNeverFails` shows that Java's `int` loop need not. */
  method PaddingFor(face: Rect, img: Image, start: int) returns (padding: int)
    ensures padding <= start && Fits(face, img, padding)
    ensures forall q :: padding < q <= start ==> !Fits(face, img, q)
    ensures padding == FittedPadding(face, img, start)
  {
    padding := start;
    while face.x + face.width + padding > img.width ||
          face.y + face.height + padding > img.height ||
          face.x - padding < 0 ||
          face.y - padding < 0
      invariant FittedPadding(face, img, start) <= padding <= start
      invariant forall q :: padding < q <= start ==> !Fits(face, img, q)
      decreases padding - FittedPadding(face, img, start)
    {
      padding := padding - 1;
    }
  }

  /** The face widened by `p` on all four sides. */
  function PaddedRect(face: Rect, p: int): Rect
  {
    Rect(face.x - p, face.y - p, face.width + 2 * p, face.height + 2 * p)
  }

  /** The area test `face.h * face.w * noCropMultiplier > orig.h * orig.w`,
      evaluated with Java's 32-bit `int` products. When none of the three
      products leaves the `int` range it is the exact test. */
  predicate NoCrop(orig: Image, face: Rect, noCropMultiplier: int)
    ensures 0 <= face.height * face.width < TwoTo31 &&
            -TwoTo31 <= face.height * face.width * noCropMultiplier < TwoTo31 &&
            orig.height * orig.width < TwoTo31 ==>
              (NoCrop(orig, face, noCropMultiplier) <==>
               face.width * face.height * noCropMultiplier > orig.width * orig.height)
  {
    Mul32(Mul32(face.height, face.width), noCropMultiplier) > Mul32(orig.height, orig.width)
  }

  /** The profile image `createCutFace` stores for a found face, or `None`
      where `getSubimage` throws. */
  function CutFace(orig: Image, face: Rect, noCropMultiplier: int, padding: int): (r: Option<Region>)
    ensures r.Some? ==> r.value.source == orig && Within(r.value.Area(), orig)
    ensures !NoCrop(orig, face, noCropMultiplier) ==>
              var p := FittedPadding(face, orig, padding);
              (r.None? <==> face.width + 2 * p <= 0 || face.height + 2 * p <= 0) &&
              (r.Some? ==> r.value.Area() == PaddedRect(face, p))
  {
    if NoCrop(orig, face, noCropMultiplier) then Some(Whole(orig))
    else Subimage(orig, PaddedRect(face, FittedPadding(face, orig, padding)))
  }

  /** No-crop rule: a face whose area times the multiplier exceeds the image
      area yields the whole image, with the image's own dimensions. */
  lemma NoCropKeepsWholeImage(orig: Image, face: Rect, noCropMultiplier: int, padding: int)
    requires NoCrop(orig, face, noCropMultiplier)
    ensures var r := CutFace(orig, face, noCropMultiplier, padding);
            r.Some? && r.value.source == orig && r.value.x == 0 && r.value.y == 0 &&
            r.value.width == orig.width && r.value.height == orig.height
  {
  }

  /** A face detected inside the image, with a non-negative padding setting
      and below the no-crop threshold, always gets a crop: the padded face,
      inside the image, around the face, with the setting kept whenever the
      fully padded face already fits. */
  lemma CropAroundFace(orig: Image, face: Rect, noCropMultiplier: int, padding: int)
    requires Within(face, orig) && face.width > 0 && face.height > 0
    requires padding >= 0
    requires !NoCrop(orig, face, noCropMultiplier)
    ensures var p := FittedPadding(face, orig, padding);
            var r := CutFace(orig, face, noCropMultiplier, padding);
            0 <= p <= padding && r.Some? &&
            r.value.Area() == PaddedRect(face, p) &&
            Within(r.value.Area(), orig) && Covers(r.value.Area(), face) &&
            (Within(PaddedRect(face, padding), orig) ==> p == padding)
  {
  }

  /** 1000x1000 image, face (400, 400, 100, 100), multiplier 3, padding 40:
      30000 is not above 1000000, the full padding fits, crop (360, 360, 180, 180). */
  lemma CentredFaceScenario()
    ensures CutFace(Image(1000, 1000), Rect(400, 400, 100, 100), 3, 40) ==
            Some(Region(Image(1000, 1000), 360, 360, 180, 180))
  {
  }

  /** Same image, face (10, 10, 50, 50): the padding shrinks to 10, the
      distance to the left and top edges, giving the crop (0, 0, 70, 70). */
  lemma EdgeFaceScenario()
    ensures CutFace(Image(1000, 1000), Rect(10, 10, 50, 50), 3, 40) ==
            Some(Region(Image(1000, 1000), 0, 0, 70, 70))
  {
  }

  /** A face of width zero touching the left edge lies inside the image, yet
      no padding is left to widen it, so `getSubimage` refuses the crop. */
  lemma ZeroWidthFaceAtEdgeIsRefused()
    ensures Within(Rect(0, 10, 0, 10), Image(100, 100))
    ensures CutFace(Image(100, 100), Rect(0, 10, 0, 10), 3, 40) == None
  {
  }

  /** A face reaching past the left edge is not inside the image, yet the
      padding turns negative and pulls the crop back in: face
      (-5, 100, 100, 100) in a 1000 x 1000 image gives (0, 105, 90, 90). */
  lemma FaceOutsideImageStillCropped()
    ensures !Within(Rect(-5, 100, 100, 100), Image(1000, 1000))
    ensures CutFace(Image(1000, 1000), Rect(-5, 100, 100, 100), 3, 40) ==
            Some(Region(Image(1000, 1000), 0, 105, 90, 90))
  {
  }

  /** The shrink loop's guard as Java evaluates it, each sum and difference
      wrapped to 32 bits. */
  predicate WrappedGuard(face: Rect, img: Image, p: int)
  {
    Wrap32(face.x + face.width + p) > img.width ||
    Wrap32(face.y + face.height + p) > img.height ||
    Wrap32(face.x - p) < 0 ||
    Wrap32(face.y - p) < 0
  }

  /** With `int` arithmetic the loop need not stop: for the face
      (Integer.MAX_VALUE, 0, 0, 0) in a 100 x 100 image the wrapped guard
      holds at every `int` padding, so `padding--` never reaches an exit. */
  lemma WrappedGuardNeverFails(p: int)
    requires -TwoTo31 <= p < TwoTo31
    ensures WrappedGuard(Rect(TwoTo31 - 1, 0, 0, 0), Image(100, 100), p)
  {
  }
}
