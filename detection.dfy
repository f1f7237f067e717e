/** The detector as the controller sees it: an opaque producer of candidate
    rectangles for an image, a cascade description and a scale range. */
module Detection {

  import opened Geometry

  /** Where the Haar cascade description is read from. */
  datatype CascadeSource = Resource(path: string) | Stream(handle: nat)

  /** The cascade bundled with the program, read when no other is set. */
  const DefaultCascade: CascadeSource := Resource("/haar/HCSB.txt")

  /** The candidates in the order the detector returns them, or a failure
      anywhere in cascade parsing, grey conversion or the multi-scale search. */
  datatype Detection = Found(candidates: seq<Rect>) | DetectorFailed

  /** Detection of `(image, cascade, minScale, maxScale)`. */
  type Detector = (Image, CascadeSource, int, int) -> Detection
}
