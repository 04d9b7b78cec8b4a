/** `get_angle` and `get_aim_point`: where the index finger points, as an angle measured
    from straight up and as a point on the screen `k` finger-lengths out. */
module AimResolver {
  import opened Numeric
  import opened Keypoints

  /** `get_angle` reports its result to 1 decimal. */
  const AngleDecimals: nat := 1

  /** What `np.arctan(m) * 180 / np.pi` is taken to be: a function of the slope `m` whose
      values lie strictly between -90 and 90 degrees and which is 0 at slope 0. Nothing else
      about the arctangent is assumed. */
  ghost predicate IsArctanDegrees(arctanDeg: real -> real)
  {
    arctanDeg(0.0) == 0.0 && forall m :: -90.0 < arctanDeg(m) < 90.0
  }

  /** `Y / X`, with 0 where Python raises `ZeroDivisionError`. */
  function Slope(x: real, y: real): real
  {
    if x == 0.0 then 0.0 else y / x
  }

  /** The angle of the fingertip `tip` (relative to the finger base) before rounding: the
      arctangent of the slope, turned so that straight up is 0, right of it positive. */
  function RawAngle(tip: Point, arctanDeg: real -> real): real
  {
    var angle := arctanDeg(Slope(tip.x, tip.y));
    if tip.x > 0.0 then angle + 90.0 else angle - 90.0
  }

  /** `get_angle`: 0 when no hand was detected, otherwise the angle of relative keypoint 8
      rounded to 1 decimal. */
  function GetAngle(relative: KeypointSet, arctanDeg: real -> real): (r: real)
    requires relative.Present? ==> IndexFingerTip < |relative.points|
    ensures relative.Absent? ==> r == 0.0
    ensures IsArctanDegrees(arctanDeg) ==> -180.0 <= r <= 180.0
  {
    match relative
    case Absent => 0.0
    case Present(points) => Round(RawAngle(points[IndexFingerTip], arctanDeg), AngleDecimals)
  }

  /** Without a hand the angle is 0. */
  lemma AngleOfAbsent(arctanDeg: real -> real)
    ensures GetAngle(Absent, arctanDeg) == 0.0
  {
  }

  /** The two branches on the sign of `X`, with `X == 0` taking the second one with slope 0. */
  lemma AngleBranches(points: seq<Point>, arctanDeg: real -> real)
    requires IndexFingerTip < |points|
    ensures var tip := points[IndexFingerTip];
      var a := GetAngle(Present(points), arctanDeg);
      && (tip.x > 0.0 ==> a == Round(arctanDeg(tip.y / tip.x) + 90.0, AngleDecimals))
      && (tip.x < 0.0 ==> a == Round(arctanDeg(tip.y / tip.x) - 90.0, AngleDecimals))
      && (tip.x == 0.0 ==> a == Round(arctanDeg(0.0) - 90.0, AngleDecimals))
  {
  }

  /** A fingertip straight above or below the base (`X == 0`) always reads -90. */
  lemma AngleOnVertical(points: seq<Point>, arctanDeg: real -> real)
    requires IndexFingerTip < |points| && points[IndexFingerTip].x == 0.0
    requires IsArctanDegrees(arctanDeg)
    ensures GetAngle(Present(points), arctanDeg) == -90.0
  {
    RoundInteger(-90, AngleDecimals);
  }

  /** Before rounding the angle lies strictly between -180 and 180 and is positive exactly
      when the fingertip is to the right of the base. */
  lemma RawAngleRange(tip: Point, arctanDeg: real -> real)
    requires IsArctanDegrees(arctanDeg)
    ensures -180.0 < RawAngle(tip, arctanDeg) < 180.0
    ensures 0.0 < RawAngle(tip, arctanDeg) <==> 0.0 < tip.x
  {
    var m := Slope(tip.x, tip.y);
    assert -90.0 < arctanDeg(m) < 90.0;
  }

  /** The reported angle lies in [-180, 180], within 0.05 of the unrounded one, and has
      the sign of `X` where it is not 0 (rounding can take a value near 0 to 0 and one near
      -180 to -180). */
  lemma AngleRange(points: seq<Point>, arctanDeg: real -> real)
    requires IndexFingerTip < |points|
    requires IsArctanDegrees(arctanDeg)
    ensures var a := GetAngle(Present(points), arctanDeg);
      && -180.0 <= a <= 180.0
      && Abs(a - RawAngle(points[IndexFingerTip], arctanDeg)) <= 0.05
      && (0.0 < a ==> 0.0 < points[IndexFingerTip].x)
      && (a < 0.0 ==> points[IndexFingerTip].x <= 0.0)
  {
    var raw := RawAngle(points[IndexFingerTip], arctanDeg);
    RawAngleRange(points[IndexFingerTip], arctanDeg);
    RoundMonotone(-180.0, raw, AngleDecimals);
    RoundMonotone(raw, 180.0, AngleDecimals);
    RoundInteger(-180, AngleDecimals);
    RoundInteger(180, AngleDecimals);
    RoundInteger(0, AngleDecimals);
    if raw <= 0.0 {
      RoundMonotone(raw, 0.0, AngleDecimals);
    } else {
      RoundMonotone(0.0, raw, AngleDecimals);
    }
    RoundError(raw, AngleDecimals);
  }

  /** Scaling the fingertip's offset by any positive factor leaves the angle unchanged: it
      depends on the direction of keypoint 8, not on the finger's length. */
  lemma AngleScaleInvariant(points: seq<Point>, scaled: seq<Point>, c: real, arctanDeg: real -> real)
    requires IndexFingerTip < |points| && IndexFingerTip < |scaled| && 0.0 < c
    requires scaled[IndexFingerTip].x == c * points[IndexFingerTip].x
    requires scaled[IndexFingerTip].y == c * points[IndexFingerTip].y
    ensures GetAngle(Present(scaled), arctanDeg) == GetAngle(Present(points), arctanDeg)
  {
    var tip, tip' := points[IndexFingerTip], scaled[IndexFingerTip];
    assert Slope(tip'.x, tip'.y) == Slope(tip.x, tip.y) by {
      if tip.x != 0.0 {
        assert tip'.x != 0.0 by {
          NonZeroProduct(c, tip.x);
        }
        CancelFactor(tip.y, tip.x, c);
      }
    }
    assert 0.0 < tip'.x <==> 0.0 < tip.x;
  }

  lemma NonZeroProduct(c: real, x: real)
    requires c != 0.0 && x != 0.0
    ensures c * x != 0.0
  {
  }

  lemma CancelFactor(y: real, x: real, c: real)
    requires x != 0.0 && c != 0.0
    ensures (c * y) / (c * x) == y / x
  {
  }

  /** Only the `x` and `y` of relative keypoint 8 decide the angle. */
  lemma AngleReadsOnlyTip(points: seq<Point>, others: seq<Point>, arctanDeg: real -> real)
    requires IndexFingerTip < |points| && IndexFingerTip < |others|
    requires points[IndexFingerTip].x == others[IndexFingerTip].x
    requires points[IndexFingerTip].y == others[IndexFingerTip].y
    ensures GetAngle(Present(points), arctanDeg) == GetAngle(Present(others), arctanDeg)
  {
  }

  /** A keypoint truncated to whole pixels, as `int()` does on each coordinate. */
  datatype Pixel = Pixel(x: int, y: int)

  function PixelOf(p: Point): Pixel
  {
    Pixel(Trunc(p.x), Trunc(p.y))
  }

  /** `get_aim_point`: the ray from the index-finger base through its tip, followed
      `rangeMultiplier` times the finger's length from the base. Multiplier 0 gives the
      base and multiplier 1 the tip, both truncated to whole pixels. */
  function GetAimPoint(keypoints: seq<Point>, rangeMultiplier: real): (r: Vec2)
    requires IndexFingerTip < |keypoints|
    ensures rangeMultiplier == 0.0 ==>
      r == Vec2(Trunc(keypoints[IndexFingerBase].x) as real, Trunc(keypoints[IndexFingerBase].y) as real)
    ensures rangeMultiplier == 1.0 ==>
      r == Vec2(Trunc(keypoints[IndexFingerTip].x) as real, Trunc(keypoints[IndexFingerTip].y) as real)
  {
    var point1 := PixelOf(keypoints[IndexFingerBase]);
    var point2 := PixelOf(keypoints[IndexFingerTip]);
    Vec2((point2.x - point1.x) as real * rangeMultiplier + point1.x as real,
         (point2.y - point1.y) as real * rangeMultiplier + point1.y as real)
  }

  /** The aim point lies `k` times the base-to-tip vector away from the base, both
      keypoints truncated to whole pixels. */
  lemma AimPointOnRay(keypoints: seq<Point>, k: real)
    requires IndexFingerTip < |keypoints|
    ensures var p1, p2 := PixelOf(keypoints[IndexFingerBase]), PixelOf(keypoints[IndexFingerTip]);
      var aim := GetAimPoint(keypoints, k);
      && aim.x - p1.x as real == k * (p2.x - p1.x) as real
      && aim.y - p1.y as real == k * (p2.y - p1.y) as real
  {
  }

  /** The aim point is `|k|` finger-lengths from the base: its squared distance from the
      base is `k * k` times the squared length of the finger. */
  lemma AimPointDistance(keypoints: seq<Point>, k: real)
    requires IndexFingerTip < |keypoints|
    ensures var p1, p2 := PixelOf(keypoints[IndexFingerBase]), PixelOf(keypoints[IndexFingerTip]);
      var base, tip := Vec2(p1.x as real, p1.y as real), Vec2(p2.x as real, p2.y as real);
      SqDist(GetAimPoint(keypoints, k), base) == k * k * SqDist(tip, base)
  {
    var p1, p2 := PixelOf(keypoints[IndexFingerBase]), PixelOf(keypoints[IndexFingerTip]);
    var dx, dy := (p2.x - p1.x) as real, (p2.y - p1.y) as real;
    var aim := GetAimPoint(keypoints, k);
    assert aim.x - p1.x as real == k * dx;
    assert aim.y - p1.y as real == k * dy;
    assert (k * dx) * (k * dx) + (k * dy) * (k * dy) == k * k * (dx * dx + dy * dy);
  }

  /** Only the `x` and `y` of keypoints 5 and 8 decide the aim point. */
  lemma AimPointReadsOnlyBaseAndTip(keypoints: seq<Point>, others: seq<Point>, k: real)
    requires IndexFingerTip < |keypoints| && IndexFingerTip < |others|
    requires PixelOf(keypoints[IndexFingerBase]) == PixelOf(others[IndexFingerBase])
    requires PixelOf(keypoints[IndexFingerTip]) == PixelOf(others[IndexFingerTip])
    ensures GetAimPoint(keypoints, k) == GetAimPoint(others, k)
  {
  }
}
