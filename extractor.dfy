/** `take_coordinates`: the detector's normalised landmarks of every detected hand,
    converted to pixel-space keypoints and laid out one hand after another. */
module Extractor {
  import opened Numeric
  import opened Keypoints

  /** A normalised coordinate times the image extent along its axis. */
  function ToPixels(fraction: real, extent: nat): real
  {
    fraction * extent as real
  }

  /** One landmark in pixels: `x` scaled by the image width, `y` by the image height, both
      rounded to 2 decimals; `z` only rounded, to 3 decimals. */
  function Denormalize(l: Landmark, shape: Shape): Point
  {
    Point(Round(ToPixels(l.x, shape.width), PixelDecimals),
          Round(ToPixels(l.y, shape.height), PixelDecimals),
          Round(l.z, DepthDecimals))
  }

  function DenormalizeAll(landmarks: seq<Landmark>, shape: Shape): seq<Point>
  {
    seq(|landmarks|, i requires 0 <= i < |landmarks| => Denormalize(landmarks[i], shape))
  }

  /** The landmarks of all hands, in detector order, as one sequence. */
  function Flatten(hands: seq<Hand>): seq<Landmark>
  {
    if hands == [] then [] else Flatten(hands[..|hands| - 1]) + hands[|hands| - 1]
  }

  /** How many landmarks the hands hold together. */
  function LandmarkCount(hands: seq<Hand>): nat
  {
    if hands == [] then 0 else |hands[0]| + LandmarkCount(hands[1..])
  }

  /** The keypoints of a frame, as `take_coordinates` builds them. */
  function Coordinates(detected: Option<seq<Hand>>, shape: Shape): (r: KeypointSet)
    ensures r.Absent? <==> detected.None?
    ensures detected.Some? ==> |r.points| == LandmarkCount(detected.value)
  {
    match detected
    case None => Absent
    case Some(hands) =>
      FlattenLength(hands);
      Present(DenormalizeAll(Flatten(hands), shape))
  }

  /** `take_coordinates`: appends, hand by hand and landmark by landmark, each landmark
      converted to pixels. */
  method TakeCoordinates(detected: Option<seq<Hand>>, shape: Shape) returns (keypoints: KeypointSet)
    ensures keypoints == Coordinates(detected, shape)
    ensures keypoints.Absent? <==> detected.None?
  {
    if detected.None? {
      return Absent;
    }
    var width, height := shape.width, shape.height;
    var hands := detected.value;
    var points: seq<Point> := [];
    for h := 0 to |hands|
      invariant points == DenormalizeAll(Flatten(hands[..h]), shape)
    {
      var landmarks := hands[h];
      for i := 0 to |landmarks|
        invariant points == DenormalizeAll(Flatten(hands[..h]) + landmarks[..i], shape)
      {
        var xyz := landmarks[i];
        var x := Round(ToPixels(xyz.x, width), PixelDecimals);
        var y := Round(ToPixels(xyz.y, height), PixelDecimals);
        var z := Round(xyz.z, DepthDecimals);
        points := points + [Point(x, y, z)];
        assert landmarks[..i + 1] == landmarks[..i] + [xyz];
      }
      assert hands[..h + 1][..h] == hands[..h];
      assert landmarks[..|landmarks|] == landmarks;
    }
    assert hands[..|hands|] == hands;
    keypoints := Present(points);
  }

  /** Flattening keeps every landmark: the total is the sum of the hands' sizes. */
  lemma {:induction false} FlattenLength(hands: seq<Hand>)
    ensures |Flatten(hands)| == LandmarkCount(hands)
  {
    if hands != [] {
      var n := |hands| - 1;
      FlattenLength(hands[..n]);
      CountSplit(hands[..n], [hands[n]]);
      assert hands[..n] + [hands[n]] == hands;
      assert [hands[n]][1..] == [];
    }
  }

  /** Counting two runs of hands one after the other. */
  lemma {:induction false} CountSplit(a: seq<Hand>, b: seq<Hand>)
    ensures LandmarkCount(a + b) == LandmarkCount(a) + LandmarkCount(b)
  {
    if a != [] {
      CountSplit(a[1..], b);
      assert (a + b)[1..] == a[1..] + b;
    } else {
      assert a + b == b;
    }
  }

  /** Landmark `t` of hand `j` sits in the flat sequence right after all the landmarks of
      the hands before `j`. */
  lemma {:induction false} FlattenAt(hands: seq<Hand>, j: nat, t: nat)
    requires j < |hands| && t < |hands[j]|
    ensures LandmarkCount(hands[..j]) + t < |Flatten(hands)|
    ensures Flatten(hands)[LandmarkCount(hands[..j]) + t] == hands[j][t]
  {
    var n := |hands| - 1;
    assert hands[..n + 1] == hands;
    FlattenLength(hands[..j]);
    FlattenLength(hands);
    CountSplit(hands[..j], hands[j..]);
    assert hands[..j] + hands[j..] == hands;
    assert hands[j..][1..] == hands[j + 1..];
    if j < n {
      assert hands[..n][..j] == hands[..j];
      FlattenAt(hands[..n], j, t);
    } else {
      assert hands[..j] == hands[..n];
    }
  }

  /** With no detection the frame has no keypoints. */
  lemma CoordinatesAbsent(shape: Shape)
    ensures Coordinates(None, shape) == Absent
  {
  }

  /** A detection yields one keypoint per landmark of every hand, in hand order; each
      keypoint is its landmark with `x` scaled by the width (`shape[1]`), `y` by the height
      (`shape[0]`), and `z` left unscaled, each then rounded. */
  lemma CoordinatesAt(hands: seq<Hand>, shape: Shape, j: nat, t: nat)
    requires j < |hands| && t < |hands[j]|
    ensures Coordinates(Some(hands), shape).Present?
    ensures |Coordinates(Some(hands), shape).points| == LandmarkCount(hands)
    ensures LandmarkCount(hands[..j]) + t < LandmarkCount(hands)
    ensures Coordinates(Some(hands), shape).points[LandmarkCount(hands[..j]) + t]
      == Point(Round(ToPixels(hands[j][t].x, shape.width), PixelDecimals),
               Round(ToPixels(hands[j][t].y, shape.height), PixelDecimals),
               Round(hands[j][t].z, DepthDecimals))
  {
    FlattenLength(hands);
    FlattenAt(hands, j, t);
    var flat := Flatten(hands);
    var points := Coordinates(Some(hands), shape).points;
    var k := LandmarkCount(hands[..j]) + t;
    assert points == DenormalizeAll(flat, shape);
    assert points[k] == Denormalize(flat[k], shape);
  }
}
