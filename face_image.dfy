/** The `FaceImage` controller: it keeps the source image, the outcome of the
    last detection run, the crop and detection settings, and two lazily built
    images, the profile crop and its scaled copy. */
module FaceImageController {

  import opened Outcomes
  import opened Geometry
  import opened Detection
  import opened Crop
  import opened Scaling

  class FaceImage {
    const detect: Detector

    var haarSource: CascadeSource
    var minScale: int
    var maxScale: int
    var noCropMultiplier: int
    var additionPadding: int
    var dimension: Dimension

    var originalFace: Image
    var profileFace: Option<Region>
    var profileFaceScaled: Option<Scaled>

    var face: Option<Rect>
    var foundFace: bool
    var changedSettings: bool

    /** Once built, the settings are marked changed for good, and a found
        face always has its rectangle. */
    ghost predicate Valid()
      reads this
    {
      changedSettings && (foundFace ==> face.Some?)
    }

    /** The field initialisers, before the first detection run. */
    constructor Init(detect: Detector, inputImage: Image)
      ensures this.detect == detect && originalFace == inputImage
      ensures haarSource == DefaultCascade && minScale == 1 && maxScale == 30
      ensures noCropMultiplier == 3 && additionPadding == 40
      ensures dimension == Dimension(150, 150)
      ensures profileFace == None && profileFaceScaled == None
      ensures face == None && !foundFace && !changedSettings
    {
      this.detect := detect;
      haarSource := DefaultCascade;
      minScale, maxScale := 1, 30;
      noCropMultiplier, additionPadding := 3, 40;
      dimension := Dimension(150, 150);
      originalFace := inputImage;
      profileFace, profileFaceScaled := None, None;
      face, foundFace, changedSettings := None, false, false;
    }

    /** `new FaceImage(inputImage)`: the defaults, then `update`; the
        constructor throws when detection fails. */
    static method Create(detect: Detector, inputImage: Image) returns (r: Result<FaceImage>)
      ensures var d := detect(inputImage, DefaultCascade, 1, 30);
              (r.Failure? <==> d.DetectorFailed?) &&
              (r.Failure? ==> r.error == DetectionFailed) &&
              (r.Success? ==>
                 var f := r.value;
                 fresh(f) && f.Valid() && f.detect == detect && f.originalFace == inputImage &&
                 f.haarSource == DefaultCascade && f.minScale == 1 && f.maxScale == 30 &&
                 f.noCropMultiplier == 3 && f.additionPadding == 40 &&
                 f.dimension == Dimension(150, 150) &&
                 f.profileFace == None && f.profileFaceScaled == None &&
                 f.foundFace == (|d.candidates| > 0) &&
                 f.face == (if |d.candidates| > 0 then Some(d.candidates[0]) else None))
    {
      var f := new FaceImage.Init(detect, inputImage);
      var o := f.Update(inputImage);
      if o.Fail? {
        return Failure(o.error);
      }
      r := Success(f);
    }

    /** `update`: reset the face, mark the settings changed, take the new
        image and run detection on it. The two cached images are kept. */
    method Update(inputImage: Image) returns (o: Outcome)
      modifies this`face, this`foundFace, this`changedSettings, this`originalFace
      ensures Valid() && originalFace == inputImage
      ensures var d := detect(inputImage, haarSource, minScale, maxScale);
              (o.Fail? <==> d.DetectorFailed?) && (o.Fail? ==> o.error == DetectionFailed) &&
              foundFace == (d.Found? && |d.candidates| > 0) &&
              face == (if foundFace then Some(d.candidates[0]) else None)
    {
      face := None;
      foundFace := false;
      changedSettings := true;
      originalFace := inputImage;
      o := FindFace();
    }

    /** `findFace`: detection with the current image, cascade and scales.
        A non-empty result sets the flag and keeps its first rectangle; an
        empty one only clears the flag; a failure changes nothing. */
    method FindFace() returns (o: Outcome)
      modifies this`foundFace, this`face
      ensures var d := detect(originalFace, haarSource, minScale, maxScale);
              (o.Fail? <==> d.DetectorFailed?) && (o.Fail? ==> o.error == DetectionFailed) &&
              (d.DetectorFailed? ==> foundFace == old(foundFace) && face == old(face)) &&
              (d.Found? ==>
                 foundFace == (|d.candidates| > 0) &&
                 face == (if |d.candidates| > 0 then Some(d.candidates[0]) else old(face)))
    {
      var d := detect(originalFace, haarSource, minScale, maxScale);
      match d
      case DetectorFailed =>
        o := Fail(DetectionFailed);
      case Found(results) =>
        if |results| <= 0 {
          foundFace := false;
        } else {
          foundFace := true;
          face := Some(results[0]);
        }
        o := Pass;
    }

    /** `getFaceRect`: the face kept from the last non-empty detection. */
    function FaceRect(): (r: Option<Rect>)
      reads this
      requires Valid()
      ensures foundFace ==> r.Some?
    {
      face
    }

    method SetMinScale(minScale: int)
      requires Valid()
      modifies this`minScale, this`changedSettings
      ensures Valid() && this.minScale == minScale && changedSettings
    {
      this.changedSettings := true;
      this.minScale := minScale;
    }

    method SetMaxScale(maxScale: int)
      requires Valid()
      modifies this`maxScale, this`changedSettings
      ensures Valid() && this.maxScale == maxScale && changedSettings
    {
      this.changedSettings := true;
      this.maxScale := maxScale;
    }

    method SetNoCropMultiplier(noCropMultiplier: int)
      requires Valid()
      modifies this`noCropMultiplier, this`changedSettings
      ensures Valid() && this.noCropMultiplier == noCropMultiplier && changedSettings
    {
      this.changedSettings := true;
      this.noCropMultiplier := noCropMultiplier;
    }

    method SetAdditionPadding(additionPadding: int)
      requires Valid()
      modifies this`additionPadding, this`changedSettings
      ensures Valid() && this.additionPadding == additionPadding && changedSettings
    {
      this.changedSettings := true;
      this.additionPadding := additionPadding;
    }

    /** `setHaarSource`: take the new cascade and detect again at once,
        without resetting the face first. */
    method SetHaarSource(haarSource: CascadeSource) returns (o: Outcome)
      requires Valid()
      modifies this`haarSource, this`foundFace, this`face
      ensures Valid() && this.haarSource == haarSource
      ensures var d := detect(originalFace, haarSource, minScale, maxScale);
              (o.Fail? <==> d.DetectorFailed?) && (o.Fail? ==> o.error == DetectionFailed) &&
              (d.DetectorFailed? ==> foundFace == old(foundFace) && face == old(face)) &&
              (d.Found? ==>
                 foundFace == (|d.candidates| > 0) &&
                 face == (if |d.candidates| > 0 then Some(d.candidates[0]) else old(face)))
    {
      this.haarSource := haarSource;
      o := FindFace();
    }

    /** What `getProfileFace` returns in the current state: a fresh crop
        when the settings changed or nothing is cached and a face was found,
        otherwise the cached profile, which may be absent or belong to an
        earlier image. */
    function ProfileResult(): (r: Result<Option<Region>>)
      reads this
      requires Valid()
      ensures !foundFace ==> r == Success(profileFace)
      ensures foundFace && r.Success? ==>
                r.value.Some? && r.value.value.source == originalFace &&
                Within(r.value.value.Area(), originalFace)
    {
      if (changedSettings || profileFace.None?) && foundFace then Cut()
      else Success(profileFace)
    }

    /** A face detected inside the image, with positive sides and a
        non-negative padding setting, always gets a profile of the current
        image: `getSubimage` is never refused for it. */
    lemma FaceInsideAlwaysCropped()
      requires Valid() && foundFace
      requires Within(face.value, originalFace) && face.value.width > 0 && face.value.height > 0
      requires additionPadding >= 0
      ensures ProfileResult().Success? && ProfileResult().value.Some?
    {
      if !NoCrop(originalFace, face.value, noCropMultiplier) {
        CropAroundFace(originalFace, face.value, noCropMultiplier, additionPadding);
      }
    }

    /** The crop of the found face under the present settings, as a result. */
    function Cut(): Result<Option<Region>>
      reads this
      requires foundFace && face.Some?
    {
      match CutFace(originalFace, face.value, noCropMultiplier, additionPadding)
      case Some(c) => Success(Some(c))
      case None => Failure(RasterFormat)
    }

    /** What building the scaled image for `dim` gives in the current state:
        the profile as `getProfileFace` returns it, scaled to `dim`. */
    function ScaledFor(dim: Dimension): Result<Scaled>
      reads this
      requires Valid()
    {
      match ProfileResult()
      case Failure(e) => Failure(e)
      case Success(None) => Failure(NullImage)
      case Success(Some(c)) => ScaleTo(c, dim.width, dim.height)
    }

    /** `createCutFace`: store the whole image when the face is large,
        otherwise the padded face found by the shrinking search. */
    method CreateCutFace() returns (o: Outcome)
      requires Valid()
      modifies this`profileFace
      ensures !foundFace ==> o == Pass && profileFace == old(profileFace)
      ensures foundFace ==>
                match CutFace(originalFace, face.value, noCropMultiplier, additionPadding)
                case Some(c) => o == Pass && profileFace == Some(c)
                case None => o == Fail(RasterFormat) && profileFace == old(profileFace)
    {
      o := Pass;
      if foundFace && NoCrop(originalFace, face.value, noCropMultiplier) {
        profileFace := Some(Whole(originalFace));
      } else if foundFace {
        var f := face.value;
        var padding := PaddingFor(f, originalFace, additionPadding);
        var topX := f.x - padding;
        var topY := f.y - padding;
        var width := f.width + padding * 2;
        var height := f.height + padding * 2;
        var cut := Subimage(originalFace, Rect(topX, topY, width, height));
        if cut.Some? {
          profileFace := cut;
        } else {
          o := Fail(RasterFormat);
        }
      }
    }

    /** `getProfileFace`: rebuild the crop when the settings changed or none
        is cached, and a face was found; return the stored profile. */
    method GetProfileFace() returns (r: Result<Option<Region>>)
      requires Valid()
      modifies this`profileFace
      ensures Valid()
      ensures r == old(ProfileResult())
      ensures profileFace == if r.Success? then r.value else old(profileFace)
    {
      if (changedSettings || profileFace.None?) && foundFace {
        var o := CreateCutFace();
        if o.Fail? {
          return Failure(o.error);
        }
      }
      r := Success(profileFace);
    }

    /** `updateScaledImage`: scale the profile to the current dimension. */
    method UpdateScaledImage() returns (o: Outcome)
      requires Valid()
      modifies this`profileFace, this`profileFaceScaled
      ensures Valid()
      ensures var p := old(ProfileResult());
              profileFace == if p.Success? then p.value else old(profileFace)
      ensures var s := old(ScaledFor(dimension));
              (o == Pass <==> s.Success?) && (o.Fail? ==> o.error == s.error) &&
              profileFaceScaled == if s.Success? then Some(s.value) else old(profileFaceScaled)
    {
      var p := GetProfileFace();
      match p
      case Failure(e) =>
        o := Fail(e);
      case Success(None) =>
        o := Fail(NullImage);
      case Success(Some(src)) =>
        var s := ScaleTo(src, dimension.width, dimension.height);
        if s.Success? {
          profileFaceScaled := Some(s.value);
          o := Pass;
        } else {
          o := Fail(s.error);
        }
    }

    /** `getScaledProfileFace`: build the scaled image only when none is
        cached, then return the cached one. */
    method GetScaledProfileFace() returns (r: Result<Scaled>)
      requires Valid()
      modifies this`profileFace, this`profileFaceScaled
      ensures Valid()
      ensures old(profileFaceScaled).Some? ==>
                r == Success(old(profileFaceScaled).value) &&
                profileFace == old(profileFace) && profileFaceScaled == old(profileFaceScaled)
      ensures old(profileFaceScaled).None? ==>
                r == old(ScaledFor(dimension)) &&
                profileFace == (var p := old(ProfileResult()); if p.Success? then p.value else old(profileFace)) &&
                profileFaceScaled == if r.Success? then Some(r.value) else None
    {
      if profileFaceScaled.None? {
        var o := UpdateScaledImage();
        if o.Fail? {
          return Failure(o.error);
        }
      }
      r := Success(profileFaceScaled.value);
    }

    /** `setDimension`: record the dimension; build the scaled image for it
        only when none is cached, so an existing one is kept as it is. */
    method SetDimension(dimension: Dimension) returns (o: Outcome)
      requires Valid()
      modifies this`dimension, this`profileFace, this`profileFaceScaled
      ensures Valid() && this.dimension == dimension
      ensures old(profileFaceScaled).Some? ==>
                o == Pass && profileFace == old(profileFace) && profileFaceScaled == old(profileFaceScaled)
      ensures old(profileFaceScaled).None? ==>
                var s := old(ScaledFor(dimension));
                (o == Pass <==> s.Success?) && (o.Fail? ==> o.error == s.error) &&
                profileFace == (var p := old(ProfileResult()); if p.Success? then p.value else old(profileFace)) &&
                profileFaceScaled == if s.Success? then Some(s.value) else None
    {
      this.dimension := dimension;
      o := Pass;
      if profileFaceScaled.None? {
        o := UpdateScaledImage();
      }
    }
  }
}
