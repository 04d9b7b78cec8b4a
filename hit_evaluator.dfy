/** `is_hit`: whether the aim point falls inside a circular target. */
module HitEvaluator {
  import opened Numeric
  import opened Keypoints
  import opened AimResolver

  /** `is_hit`: the distance from the aim point to the target centre is at most the
      target's radius. The distance is compared through its square: a negative radius
      admits no distance. */
  function IsHit(keypoints: seq<Point>, rangeMultiplier: real, targetPoint: Vec2, targetSize: real): (r: bool)
    requires IndexFingerTip < |keypoints|
    ensures targetSize < 0.0 ==> !r
    ensures r ==> var aim := GetAimPoint(keypoints, rangeMultiplier);
      Abs(aim.x - targetPoint.x) <= targetSize && Abs(aim.y - targetPoint.y) <= targetSize
  {
    var aimPoint := GetAimPoint(keypoints, rangeMultiplier);
    var hit := 0.0 <= targetSize && SqDist(aimPoint, targetPoint) <= targetSize * targetSize;
    if hit then
      AxisWithinRadius(aimPoint.x - targetPoint.x, aimPoint.y - targetPoint.y, targetSize);
      hit
    else
      hit
  }

  /** Each axis of an offset is no longer than the offset itself. */
  lemma AxisWithinRadius(dx: real, dy: real, s: real)
    requires 0.0 <= s && dx * dx + dy * dy <= s * s
    ensures Abs(dx) <= s && Abs(dy) <= s
  {
    SquareFacts(dx);
    SquareFacts(dy);
    if s < Abs(dx) {
      assert Abs(dx) * Abs(dx) == dx * dx;
      SquareStrictlyMonotone(s, Abs(dx));
    }
    if s < Abs(dy) {
      assert Abs(dy) * Abs(dy) == dy * dy;
      SquareStrictlyMonotone(s, Abs(dy));
    }
  }

  /** For the Euclidean distance `d` from the aim point to the target (the non-negative
      root of the squared distance), a hit is exactly `d <= targetSize`. */
  lemma HitIsDistanceTest(keypoints: seq<Point>, k: real, targetPoint: Vec2, targetSize: real, d: real)
    requires IndexFingerTip < |keypoints|
    requires 0.0 <= d && d * d == SqDist(GetAimPoint(keypoints, k), targetPoint)
    ensures IsHit(keypoints, k, targetPoint, targetSize) <==> d <= targetSize
  {
    if 0.0 <= targetSize {
      if d <= targetSize {
        SquareMonotone(d, targetSize);
      } else {
        SquareStrictlyMonotone(targetSize, d);
      }
    }
  }

  lemma SquareMonotone(a: real, b: real)
    requires 0.0 <= a <= b
    ensures a * a <= b * b
  {
    assert a * a <= a * b <= b * b;
  }

  lemma SquareStrictlyMonotone(a: real, b: real)
    requires 0.0 <= a < b
    ensures a * a < b * b
  {
    assert b * b - a * a == (b - a) * (b + a);
    PositiveProduct(b - a, b + a);
  }

  lemma PositiveProduct(x: real, y: real)
    requires 0.0 < x && 0.0 < y
    ensures 0.0 < x * y
  {
  }

  /** The boundary is inclusive: an aim point exactly `targetSize` away is a hit. */
  lemma HitOnBoundary(keypoints: seq<Point>, k: real, targetPoint: Vec2, targetSize: real)
    requires IndexFingerTip < |keypoints| && 0.0 <= targetSize
    requires SqDist(GetAimPoint(keypoints, k), targetPoint) == targetSize * targetSize
    ensures IsHit(keypoints, k, targetPoint, targetSize)
  {
  }

  /** Aiming at the target's centre hits it for every radius `>= 0`, 0 included. */
  lemma HitAtCentre(keypoints: seq<Point>, k: real, targetSize: real)
    requires IndexFingerTip < |keypoints| && 0.0 <= targetSize
    ensures IsHit(keypoints, k, GetAimPoint(keypoints, k), targetSize)
  {
    SquareFacts(targetSize);
  }

  /** A shot that hits a target also hits any larger target with the same centre. */
  lemma HitMonotoneInSize(keypoints: seq<Point>, k: real, targetPoint: Vec2, size: real, larger: real)
    requires IndexFingerTip < |keypoints| && size <= larger
    requires IsHit(keypoints, k, targetPoint, size)
    ensures IsHit(keypoints, k, targetPoint, larger)
  {
    SquareMonotone(size, larger);
  }
}
