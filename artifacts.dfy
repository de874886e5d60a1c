/**
 * Values shared by the signature surface and the wizard: surface points,
 * the opaque image tokens that stand for `data:` URLs, and the optional
 * value that stands for a JavaScript value that may be `null`.
 */
module Artifacts {

  /** `null` (None) or a present value (Some). */
  datatype Option<+T> = None | Some(value: T)

  /** A point in surface-local (or viewport) pixel coordinates. */
  datatype Point = Point(x: int, y: int)

  /** A path as the canvas context holds it: the moveTo point, then each lineTo point. */
  type Path = seq<Point>

  /**
   * An encoded image (a self-contained `data:` URL). It is never null and
   * never inspected by the wizard. A signature snapshot records the paths
   * stroked on the surface; a camera frame is identified by a frame number.
   */
  datatype Token =
    | SignatureImage(strokes: seq<Path>)
    | CameraImage(frame: nat)
}
