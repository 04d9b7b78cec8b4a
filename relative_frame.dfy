/** `relative_coordinates`: every keypoint of a frame re-expressed relative to the base
    of the index finger, which removes where the hand is in the image. */
module RelativeFrame {
  import opened Numeric
  import opened Keypoints

  /** The keypoint `p` seen from `origin`, each component rounded. */
  function Rebase(p: Point, origin: Point): Point
  {
    Point(Round(p.x - origin.x, PixelDecimals),
          Round(p.y - origin.y, PixelDecimals),
          Round(p.z - origin.z, DepthDecimals))
  }

  /** The relative keypoints of a frame, as `relative_coordinates` builds them. The source
      indexes keypoint 5 of every present set, so a present set must have one. */
  function Relative(keypoints: KeypointSet): (r: KeypointSet)
    requires keypoints.Present? ==> IndexFingerBase < |keypoints.points|
    ensures r.Absent? <==> keypoints.Absent?
    ensures keypoints.Present? ==> |r.points| == |keypoints.points|
  {
    match keypoints
    case Absent => Absent
    case Present(points) =>
      var origin := points[IndexFingerBase];
      Present(seq(|points|, i requires 0 <= i < |points| => Rebase(points[i], origin)))
  }

  /** `relative_coordinates`: reads the origin once, then appends every keypoint minus the
      origin, in order. */
  method RelativeCoordinates(keypoints: KeypointSet) returns (relative: KeypointSet)
    requires keypoints.Present? ==> IndexFingerBase < |keypoints.points|
    ensures relative == Relative(keypoints)
  {
    if keypoints.Absent? {
      return Absent;
    }
    var points := keypoints.points;
    var x := points[IndexFingerBase].x;
    var y := points[IndexFingerBase].y;
    var z := points[IndexFingerBase].z;
    var relativePoints: seq<Point> := [];
    for i := 0 to |points|
      invariant |relativePoints| == i
      invariant forall k :: 0 <= k < i ==> relativePoints[k] == Rebase(points[k], points[IndexFingerBase])
    {
      relativePoints := relativePoints + [Point(Round(points[i].x - x, PixelDecimals),
                                                Round(points[i].y - y, PixelDecimals),
                                                Round(points[i].z - z, DepthDecimals))];
    }
    relative := Present(relativePoints);
  }

  /** No hand in, no hand out; a present set keeps its size, and keypoint `i` becomes its
      offset from keypoint 5, rounded. */
  lemma RelativeAt(points: seq<Point>, i: nat)
    requires IndexFingerBase < |points| && i < |points|
    ensures Relative(Absent) == Absent
    ensures Relative(Present(points)).Present?
    ensures |Relative(Present(points)).points| == |points|
    ensures Relative(Present(points)).points[i]
      == Point(Round(points[i].x - points[IndexFingerBase].x, PixelDecimals),
               Round(points[i].y - points[IndexFingerBase].y, PixelDecimals),
               Round(points[i].z - points[IndexFingerBase].z, DepthDecimals))
  {
  }

  /** The rounding moves each relative component by at most half a unit in its last kept
      decimal, so a relative keypoint is the exact offset up to 0.005 in `x` and `y`. */
  lemma RelativeNearExactOffset(points: seq<Point>, i: nat)
    requires IndexFingerBase < |points| && i < |points|
    ensures Abs(Relative(Present(points)).points[i].x - (points[i].x - points[IndexFingerBase].x)) <= 0.005
    ensures Abs(Relative(Present(points)).points[i].y - (points[i].y - points[IndexFingerBase].y)) <= 0.005
    ensures Abs(Relative(Present(points)).points[i].z - (points[i].z - points[IndexFingerBase].z)) <= 0.0005
  {
    RoundError(points[i].x - points[IndexFingerBase].x, PixelDecimals);
    RoundError(points[i].y - points[IndexFingerBase].y, PixelDecimals);
    RoundError(points[i].z - points[IndexFingerBase].z, DepthDecimals);
  }

  /** The index-finger base is the origin of the relative frame. */
  lemma BaseIsOrigin(points: seq<Point>)
    requires IndexFingerBase < |points|
    ensures Relative(Present(points)).points[IndexFingerBase] == Point(0.0, 0.0, 0.0)
  {
    RoundInteger(0, PixelDecimals);
    RoundInteger(0, DepthDecimals);
  }

  /** Moving the whole hand by the same offset does not change its relative keypoints. */
  lemma TranslationInvariant(points: seq<Point>, v: Point)
    requires IndexFingerBase < |points|
    ensures Relative(Present(Translate(points, v))) == Relative(Present(points))
  {
    var moved := Translate(points, v);
    var o, o' := points[IndexFingerBase], moved[IndexFingerBase];
    forall i | 0 <= i < |points|
      ensures Rebase(moved[i], o') == Rebase(points[i], o)
    {
      assert moved[i].x - o'.x == points[i].x - o.x;
      assert moved[i].y - o'.y == points[i].y - o.y;
      assert moved[i].z - o'.z == points[i].z - o.z;
    }
  }
}
