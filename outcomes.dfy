/** Optional values and the ways an operation of the controller can fail. */
module Outcomes {

  /** Java's nullable reference: absent is `null`. */
  datatype Option<+T> = None | Some(value: T)

  /** The exceptions the controller's operations can raise. */
  datatype Fault =
    | DetectionFailed   // any Throwable of the detector, rethrown as IOException
    | NullImage         // the profile image is null when it is to be scaled
    | RasterFormat      // getSubimage with an area that is not a non-empty part of the image
    | IllegalSize       // a BufferedImage of width or height <= 0, or of width * height >= Integer.MAX_VALUE

  datatype Result<+T> = Success(value: T) | Failure(error: Fault)

  /** The outcome of a `void` method that may throw. */
  datatype Outcome = Pass | Fail(error: Fault)
}
