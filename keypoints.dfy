/** The values that flow between the stages of the gesture pipeline: the detector's
    normalised landmarks, pixel-space keypoints, and the explicit "no hand" case that the
    Python code signals with the integer 0. */
module Keypoints {

  /** A landmark as the hand detector reports it: `x` and `y` as fractions of the image
      width and height, `z` a depth relative to the wrist. */
  datatype Landmark = Landmark(x: real, y: real, z: real)

  /** The landmarks of one detected hand, in the detector's order (21 of them). */
  type Hand = seq<Landmark>

  /** A keypoint `[X, Y, Z]`: `X` and `Y` in pixels, `Z` the detector's depth. */
  datatype Point = Point(x: real, y: real, z: real)

  /** A frame's keypoints, or `Absent` when no hand was detected. */
  datatype KeypointSet = Absent | Present(points: seq<Point>)

  /** The detector's result list, which is `None` when it found no hand. */
  datatype Option<T> = None | Some(value: T)

  /** `image.shape` of a camera frame: rows (the height) first, then columns (the width). */
  datatype Shape = Shape(height: nat, width: nat)

  /** The two landmarks the aiming logic reads: the base and the tip of the index finger. */
  const IndexFingerBase := 5
  const IndexFingerTip := 8

  /** A point on the screen, in pixels: an aim point or the centre of a target. */
  datatype Vec2 = Vec2(x: real, y: real)

  /** The squared Euclidean distance between two screen points. */
  function SqDist(a: Vec2, b: Vec2): (d: real)
    ensures 0.0 <= d
  {
    var dx, dy := a.x - b.x, a.y - b.y;
    SquareFacts(dx);
    SquareFacts(dy);
    dx * dx + dy * dy
  }

  lemma SquareFacts(r: real)
    ensures 0.0 <= r * r
  {
    if r < 0.0 {
      assert r * r == (-r) * (-r);
    }
  }

  /** Keypoint coordinates keep 2 decimals in `x` and `y` and 3 in the depth `z`. */
  const PixelDecimals: nat := 2
  const DepthDecimals: nat := 3

  /** Every keypoint moved by the same offset `v`. */
  function Translate(points: seq<Point>, v: Point): seq<Point>
  {
    seq(|points|, i requires 0 <= i < |points| =>
      Point(points[i].x + v.x, points[i].y + v.y, points[i].z + v.z))
  }
}
