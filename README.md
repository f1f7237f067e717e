# FaceImage controller, modelled in Dafny

This project models the `FaceImage` controller of a face-cropping library.
The controller holds a photo and runs a face detector on it, keeping the
first rectangle the detector returns as "the face". From that face it builds
a padded "profile" crop on request, and from the crop a thumbnail scaled to a
target dimension. Both images are built lazily and cached. The crop and
detection settings each have a setter, and every setter raises the
"settings changed" flag.

Files and modules:

- `outcomes.dfy` (`Outcomes`): `Option` stands for a nullable reference.
  `Fault` lists the exceptions the controller can raise, and `Result` and
  `Outcome` say whether a call returned a value or threw.
- `geometry.dfy` (`Geometry`): rectangles, images known only by their size,
  sub-image regions in source coordinates, and Java's 32-bit `int` product.
- `detection.dfy` (`Detection`): the detector as an opaque function from
  (image, cascade, minimum scale, maximum scale) to an ordered candidate list
  or a failure.
- `crop.dfy` (`Crop`): the no-crop area test, the padding-shrink search and
  the crop it produces.
- `scaling.dfy` (`Scaling`): the output-size rule of `getScaledImage`.
- `face_image.dfy` (`FaceImageController`): the class `FaceImage`, with the
  source's fields and methods.
- `scenarios.dfy` (`FaceImageClients`): callers that use nothing but the
  class's contracts. Two of them prove that repeated getter calls agree. The
  other three replay concrete runs: a centred face with a later dimension
  change, a new photo with no face, and a new cascade that finds nothing.

What the model captures:

- **Detection outcome.** After `Update`, `foundFace` holds exactly when the
  detector returned a non-empty list, and `face` is that list's first
  element. When the list is empty, `face` is `None`. `SetHaarSource` detects
  again without resetting first, so an empty result clears the flag but
  keeps the old rectangle. A detector failure is reported as
  `DetectionFailed`, which stands for the source's `IOException`. After a
  failed `update`, `face` and `foundFace` are already reset. After a failed
  `setHaarSource`, both are unchanged.
- **Settings.** Each setter's `modifies` clause names only its own field and
  the flag. `Valid()` holds from `Create` onward, and it includes
  `changedSettings`: no method ever clears the flag.
- **Crop.** `PaddingFor` is the decrementing loop. It is proved to stop for
  every face, and its result is the largest padding no greater than the
  setting that passes all four bound checks. That value equals
  `min(padding, x, y, W - x - w, H - y - h)`. `CutFace` is the stored profile.
  It is the whole image when the area test fires. Otherwise it is the padded
  face, and it always lies inside the image. It fails, as `getSubimage`
  does, exactly when a padded side is not positive. That happens with a
  padding setting of at most `-min(w, h) / 2`, with some faces the detector
  placed outside the image (others, such as (-5, 100, 100, 100), still get
  a crop: `FaceOutsideImageStillCropped`), or with a face that has a zero side and touches an edge, so that
  no padding is left to widen it (`ZeroWidthFaceAtEdgeIsRefused`). A face
  inside the image with positive sides and a padding setting of at least
  zero always gets a crop (`CropAroundFace`, `FaceInsideAlwaysCropped`).
- **Area test.** The test is evaluated with wrapping 32-bit products, as
  Java's `int` multiplication does. `NoCrop`'s contract shows that this
  agrees with the exact test whenever no product leaves the `int` range.
- **Caches.** `getProfileFace` rebuilds when `(changedSettings || no profile)
  && foundFace`. Otherwise it returns the cached profile, which may be
  absent or belong to an earlier photo. `getScaledProfileFace` and
  `setDimension` build the thumbnail only while none is cached. Nothing ever
  clears the thumbnail, so a later `setDimension` is recorded but does not
  change it.
- **Output size.** The longer side of the source is pinned to the target;
  when the sides are equal, the height is pinned. The other side is the
  exact share truncated toward zero. `new BufferedImage` refuses a side that
  is not positive, and it refuses `width * height` of `Integer.MAX_VALUE` or
  more, because its raster indexes the pixels with an `int`. `ScaleTo` gives
  `IllegalSize` in exactly those cases: a 180 x 180 profile asked for
  50000 x 50000 is refused (`HugeTargetIsRefused`).

Behaviour of the code worth noting (the model follows the code, including
where the class's own comments promise otherwise):

- `update` does not clear the cached profile or thumbnail. It resets only
  the face, the flag and the dirty bit.
- `setHaarSource` does not touch `changedSettings`. The flag is already true
  by then.
- In the model, with unbounded integers, the padding loop needs no
  precondition to stop: as the padding decreases, all four checks
  eventually pass for any rectangle. In Java this holds for faces inside a
  photo, within the bounds given under "## Left out". It does not hold for
  every rectangle: with 32-bit arithmetic the guard for the face
  (`Integer.MAX_VALUE`, 0, 0, 0) in a 100 x 100 photo holds at every `int`
  padding (`WrappedGuardNeverFails`).
- The thumbnail need not fit inside a non-square target. A 200 x 100 source
  asked for 150 x 50 comes out 150 x 75 (`WideSourceIgnoresRequestedHeight`).
- The `@throws` comments of the constructor and of `update`
  (FaceImage.java:51, :60) promise an `IOException` when the photo contains
  no face. `findFace` only clears the flag in that case (:186-187), and the
  model raises `DetectionFailed` only for a detector failure.
- The comments "Return a square profile picture" (:81, :91) do not hold in
  general. The no-crop case returns the whole photo (:238-239), and a crop
  is square only when the detected face is.

## Model

| member | source | states |
|---|---|---|
| `FaceImageController.FaceImage.Init` | src/biz/stillhart/face/model/FaceImage.java:33-46 | every field starts at its initialiser: default cascade, scales 1 and 30, multiplier 3, padding 40, dimension 150 x 150, no profile and no thumbnail, no face, flags false; the photo field already holds the input photo, where Java's is null until the constructor's `update` sets it (nothing can observe the difference) |
| `FaceImageController.FaceImage.Create` | src/biz/stillhart/face/model/FaceImage.java:53-55 | construction throws exactly when detection of the photo with the defaults fails; otherwise the object is valid, holds the defaults and records the detection outcome |
| `FaceImageController.FaceImage.Update` | src/biz/stillhart/face/model/FaceImage.java:62-70 | after the reset and a new detection, `foundFace` holds exactly when the list is non-empty, `face` is its first element or `None`, the flag is set, and only face, flags and photo change |
| `FaceImageController.FaceImage.FindFace` | src/biz/stillhart/face/model/FaceImage.java:178-229 | a non-empty result sets the flag and keeps its first rectangle; an empty one clears the flag and keeps the rectangle; a failure changes nothing and reports `DetectionFailed` |
| `FaceImageController.FaceImage.FaceRect` | src/biz/stillhart/face/model/FaceImage.java:232-235 | whenever a face is reported found, a rectangle is present |
| `FaceImageController.FaceImage.SetMinScale` | src/biz/stillhart/face/model/FaceImage.java:113-116 | writes only the minimum scale and sets the changed flag |
| `FaceImageController.FaceImage.SetMaxScale` | src/biz/stillhart/face/model/FaceImage.java:123-126 | writes only the maximum scale and sets the changed flag |
| `FaceImageController.FaceImage.SetNoCropMultiplier` | src/biz/stillhart/face/model/FaceImage.java:133-136 | writes only the multiplier and sets the changed flag |
| `FaceImageController.FaceImage.SetAdditionPadding` | src/biz/stillhart/face/model/FaceImage.java:143-146 | writes only the padding and sets the changed flag |
| `FaceImageController.FaceImage.SetHaarSource` | src/biz/stillhart/face/model/FaceImage.java:172-175 | takes the cascade and detects at once without resetting: an empty result clears the flag but keeps the old rectangle |
| `FaceImageController.FaceImage.ProfileResult` | src/biz/stillhart/face/model/FaceImage.java:84-88 | with no face, the cached profile is returned unchanged; with a face, a successful result is a crop of the current photo inside it |
| `FaceImageController.FaceImage.FaceInsideAlwaysCropped` | src/biz/stillhart/face/model/FaceImage.java:237-262 | a found face inside the photo with positive sides and a padding setting of at least zero always yields a profile: `getSubimage` is never refused for it |
| `FaceImageController.FaceImage.GetProfileFace` | src/biz/stillhart/face/model/FaceImage.java:84-88 | returns `ProfileResult` of the state before the call and stores it on success, touching nothing else |
| `FaceImageController.FaceImage.CreateCutFace` | src/biz/stillhart/face/model/FaceImage.java:237-263 | stores `CutFace` of the photo, face and settings; when `getSubimage` throws it keeps the old profile and reports `RasterFormat` |
| `FaceImageController.FaceImage.UpdateScaledImage` | src/biz/stillhart/face/model/FaceImage.java:265-267 | fetches the profile as `getProfileFace` does and stores its scaled copy for the current dimension; a null profile gives `NullImage` |
| `FaceImageController.FaceImage.GetScaledProfileFace` | src/biz/stillhart/face/model/FaceImage.java:94-98 | a cached thumbnail is returned and nothing changes; otherwise it is built from the profile for the current dimension and cached on success |
| `FaceImageController.FaceImage.SetDimension` | src/biz/stillhart/face/model/FaceImage.java:153-166 | records the dimension; builds a thumbnail for it only when none is cached, and leaves an existing thumbnail and the profile untouched |
| `FaceImageClients.ProfileTwice` | src/biz/stillhart/face/model/FaceImage.java:84-88 | two profile requests with no change in between return the same result |
| `FaceImageClients.ScaledTwice` | src/biz/stillhart/face/model/FaceImage.java:94-98 | two thumbnail requests with no change in between return the same result, failures included |
| `Crop.FittedPadding` | src/biz/stillhart/face/model/FaceImage.java:247-252 | the closed form `min(padding, x, y, W - x - w, H - y - h)` is the largest value not above the setting that passes all four bound checks |
| `Crop.PaddingFor` | src/biz/stillhart/face/model/FaceImage.java:247-252 | the loop ends for every face, at a padding no greater than the start that passes the checks while every larger one up to the start fails, which is the closed form |
| `Crop.CutFace` | src/biz/stillhart/face/model/FaceImage.java:237-262 | a produced profile is a region of the photo lying inside it; below the threshold it is the face padded by the fitted padding, and it is refused exactly when a padded side is not positive |
| `Crop.NoCropKeepsWholeImage` | src/biz/stillhart/face/model/FaceImage.java:238-239 | when the area test fires, the profile is the whole photo with its own dimensions |
| `Crop.NoCrop` | src/biz/stillhart/face/model/FaceImage.java:238 | the area test with Java's wrapping `int` products; when no product leaves the `int` range it is exactly `w * h * multiplier > W * H` |
| `Geometry.Subimage` | src/biz/stillhart/face/model/FaceImage.java:261 | the library's rule for `getSubimage`: a region of the photo over exactly the requested area when it lies inside the photo (x, y >= 0, x + w <= W, y + h <= H) with w, h > 0; otherwise `RasterFormatException`, which every `RasterFormat` outcome rests on |
| `Crop.ZeroWidthFaceAtEdgeIsRefused` | src/biz/stillhart/face/model/FaceImage.java:247-261 | a width-0 face at the left edge of a 100 x 100 photo lies inside it, the padding shrinks to 0 and the crop is refused |
| `Crop.FaceOutsideImageStillCropped` | src/biz/stillhart/face/model/FaceImage.java:247-261 | a face at x = -5, outside a 1000 x 1000 photo, gets padding -5 and the crop (0, 105, 90, 90) |
| `Crop.CropAroundFace` | src/biz/stillhart/face/model/FaceImage.java:242-261 | a face inside the photo with non-negative padding gets a crop at padding between 0 and the setting, inside the photo and covering the face, and the full setting whenever it fits |
| `Crop.WrappedGuardNeverFails` | src/biz/stillhart/face/model/FaceImage.java:249-252 | the loop guard in Java's wrapped `int` arithmetic holds at every `int` padding for the face (`Integer.MAX_VALUE`, 0, 0, 0) in a 100 x 100 photo, so that loop never ends |
| `Crop.CentredFaceScenario` | src/biz/stillhart/face/model/FaceImage.java:237-262 | 1000 x 1000 photo, face (400, 400, 100, 100), padding 40: crop (360, 360, 180, 180) |
| `Crop.EdgeFaceScenario` | src/biz/stillhart/face/model/FaceImage.java:237-262 | 1000 x 1000 photo, face (10, 10, 50, 50), padding 40: padding shrinks to 10, crop (0, 0, 70, 70) |
| `Geometry.Whole` | src/biz/stillhart/face/model/FaceImage.java:239 | the whole image as a region lies inside the image and covers all of it |
| `Geometry.Wrap32` | src/biz/stillhart/face/model/FaceImage.java:238 | the result lies in the `int` range, is congruent to the exact value modulo 2^32, and equals it when that value is in range |
| `Scaling.TruncDiv` | src/biz/stillhart/face/model/FaceImage.java:273-276 | the `(int)` cast of a quotient: for a non-negative dividend, the number of whole `b` in it, positive exactly when the dividend reaches `b`; mirrored toward zero for negatives |
| `Scaling.ScaledSize` | src/biz/stillhart/face/model/FaceImage.java:270-277 | wider source: width is the target and height the truncated share with `h * srcW <= W * srcH < (h + 1) * srcW`, at most the width; otherwise the same with the roles swapped |
| `Scaling.ScaleTo` | src/biz/stillhart/face/model/FaceImage.java:269-285 | succeeds exactly when the pinned side is positive, the truncated share reaches one pixel and the two sides multiply to less than `Integer.MAX_VALUE`, giving the pinned side as requested; otherwise `IllegalSize` |
| `Scaling.ScaleKeepsAspect` | src/biz/stillhart/face/model/FaceImage.java:270-277 | the thumbnail keeps the source's orientation and its ratio to within less than one pixel of the truncated side |
| `Scaling.SquareTargetFits` | src/biz/stillhart/face/model/FaceImage.java:270-277 | with a square target the thumbnail fits inside it and its longer side equals the target |
| `Scaling.WideSourceIgnoresRequestedHeight` | src/biz/stillhart/face/model/FaceImage.java:270-277 | a 200 x 100 source asked for 150 x 50 becomes 150 x 75 |
| `Scaling.HugeTargetIsRefused` | src/biz/stillhart/face/model/FaceImage.java:270-279 | a 180 x 180 source asked for 50000 x 50000 keeps both sides at 50000, and the 2500000000 pixels are refused |
| `Scaling.ThinSourceIsRefused` | src/biz/stillhart/face/model/FaceImage.java:273-279 | a 1000 x 5 source asked for 150 x 150 has height 0 and is refused |

## Left out

- The detector's internals (grey conversion, the multi-scale Haar search, the jjil types) are not modelled. The detector is the `Detector` function the object is built with, and any exception it throws is the single `DetectorFailed` outcome.
- Reading the cascade from an `InputStream` is not modelled. The cascade is a value, so a second run on an already consumed stream behaves like the first.
- Pixel contents, bilinear resampling and the `TRANSLUCENT` pixel format are library rendering calls. They are not modelled: a thumbnail is its source region and its size.
- Scaling.ScaledSize: it uses exact integer truncation, while the source multiplies by a `double` ratio, which can differ by one pixel in rare cases.
- Only the area test models 32-bit wrap-around; coordinate and padding arithmetic is unbounded. For a face inside a photo whose sides are below 2^30, and a padding setting above `Integer.MIN_VALUE + max(x, y)`, the model still stops where Java does. The differences `x - padding` and `y - padding` stay inside `int`. A large setting such as `Integer.MAX_VALUE` makes Java's sum `x + w + padding` wrap negative, so that check passes wrongly. But while the padding exceeds `min(x, y)`, one of the differences is negative and keeps the loop running anyway. From then on every sum is at most `2x + w` or `2y + h`, which is inside `int`. With face (400, 400, 100, 100) in a 1000 x 1000 photo and `Integer.MAX_VALUE`, both stop at 400.
- Crop.PaddingFor: does not model the wrap-around of the padding loop (FaceImage.java:249-252) for a padding setting at most `Integer.MIN_VALUE + max(x, y)`. There the difference of the larger coordinate (`topX - padding` or `topY - padding`) wraps negative and `padding--` wraps to `Integer.MAX_VALUE`, so the loop runs on and stops at the closed form computed from `Integer.MAX_VALUE`. The model stops at the setting itself.
- Crop.CutFace: for the same padding settings (at most `Integer.MIN_VALUE + max(x, y)`), Java returns a crop, for example (0, 0, 900, 900) for face (400, 400, 100, 100) in a 1000 x 1000 photo at `Integer.MIN_VALUE`. The model reports `RasterFormat` instead.
- FaceImageController.FaceImage.SetDimension: does not model `setDimension(null)`. Java stores the null; when no thumbnail is cached, it first runs `getProfileFace` (FaceImage.java:266), which may store a new crop, and then throws a `NullPointerException` on `mDimension.width`; when one is cached, the exception comes at the next build. `Dimension` here has no null value.
- FaceImageController.FaceImage.SetDimension: does not model aliasing of the caller's `java.awt.Dimension`. Java keeps the caller's mutable object (FaceImage.java:154), so a later `d.width = ...` by the caller changes the size of the next build, for example after a first build failed with `NullImage`. The model copies the value when it is set.
- Crop.PaddingFor: does not model that Java's loop (FaceImage.java:249-252) can run forever. For the face (`Integer.MAX_VALUE`, 0, 0, 0) in a 100 x 100 photo, the wrapped guard holds at every `int` padding, so `padding--` cycles through the whole `int` range (`WrappedGuardNeverFails`). The model stops at `FittedPadding`, here `100 - Integer.MAX_VALUE`.
- Images are compared by size only. When the area test fires, the profile is the photo object itself; here it is the region covering the whole photo. Two photos of the same size cannot be told apart.
- A `null` photo passed to `update` is not modelled: `Image` has no null value.
- `getOriginalFace` and `foundFace` are plain reads of the fields `originalFace` and `foundFace`. The `setDimension(int, int)` overload is `SetDimension(Dimension(width, height))`.
- The commented-out de-duplication block inside `findFace` never runs.
- `src/jjil/algorithm/j2se/TriangleMap.java` is not part of this model. It is a floating-point affine mapping outside the controller.
- `src/biz/stillhart/face/FaceImageTest.java` is not part of this model. It only reads a file and prints the result.
- The model is single-threaded and sequential, as the controller is; concurrent use is not modelled.
