/** What a caller of the controller can rely on, derived from the
    contracts of `FaceImage` alone. */
module FaceImageClients {

  import opened Outcomes
  import opened Geometry
  import opened Detection
  import opened Scaling
  import opened FaceImageController

  /** Two `getProfileFace` calls with nothing in between agree. */
  method ProfileTwice(f: FaceImage) returns (first: Result<Option<Region>>, second: Result<Option<Region>>)
    requires f.Valid()
    modifies f`profileFace
    ensures first == second
  {
    first := f.GetProfileFace();
    second := f.GetProfileFace();
  }

  /** Two `getScaledProfileFace` calls with nothing in between agree. */
  method ScaledTwice(f: FaceImage) returns (first: Result<Scaled>, second: Result<Scaled>)
    requires f.Valid()
    modifies f`profileFace, f`profileFaceScaled
    ensures first == second
  {
    first := f.GetScaledProfileFace();
    second := f.GetScaledProfileFace();
  }

  /** A 1000 x 1000 photo with one face at (400, 400, 100, 100) under the
      default settings: the profile is the face padded by 40 on each side,
      the thumbnail is 150 x 150, and a later request for 300 x 300 leaves
      that thumbnail as it is. */
  method CentredFaceAndDimensionChange()
  {
    var photo := Image(1000, 1000);
    var detector: Detector := (img: Image, src: CascadeSource, lo: int, hi: int) =>
      Found([Rect(400, 400, 100, 100)]);
    var created := FaceImage.Create(detector, photo);
    assert created.Success?;
    var f := created.value;
    assert f.foundFace && f.FaceRect() == Some(Rect(400, 400, 100, 100));

    var profile := f.GetProfileFace();
    assert profile == Success(Some(Region(photo, 360, 360, 180, 180)));

    var thumb := f.GetScaledProfileFace();
    assert thumb == Success(Scaled(Region(photo, 360, 360, 180, 180), 150, 150));

    var o := f.SetDimension(Dimension(300, 300));
    var again := f.GetScaledProfileFace();
    assert o == Pass && again == thumb;
  }

  /** After a new photo in which nothing is detected, the profile and the
      thumbnail are still those of the previous photo. */
  method NewPhotoWithoutFaceKeepsOldImages()
  {
    var first := Image(1000, 1000);
    var second := Image(640, 480);
    var detector: Detector := (img: Image, src: CascadeSource, lo: int, hi: int) =>
      if img == first then Found([Rect(10, 10, 50, 50)]) else Found([]);
    var created := FaceImage.Create(detector, first);
    assert created.Success?;
    var f := created.value;
    var thumb := f.GetScaledProfileFace();
    assert thumb == Success(Scaled(Region(first, 0, 0, 70, 70), 150, 150));

    var o := f.Update(second);
    assert o == Pass && !f.foundFace && f.FaceRect() == None;
    var profile := f.GetProfileFace();
    assert profile == Success(Some(Region(first, 0, 0, 70, 70)));
    var again := f.GetScaledProfileFace();
    assert again == thumb;
  }

  /** A new cascade that finds nothing clears the flag but keeps the old
      rectangle, unlike an update. */
  method NewCascadeWithoutFaceKeepsRectangle()
  {
    var photo := Image(800, 600);
    var other := Stream(7);
    var detector: Detector := (img: Image, src: CascadeSource, lo: int, hi: int) =>
      if src == other then Found([]) else Found([Rect(300, 200, 120, 120)]);
    var created := FaceImage.Create(detector, photo);
    assert created.Success?;
    var f := created.value;
    var o := f.SetHaarSource(other);
    assert o == Pass && !f.foundFace && f.FaceRect() == Some(Rect(300, 200, 120, 120));
  }
}
