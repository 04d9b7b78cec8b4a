/** `is_shot`: whether the player fired in this frame, judged from the previous frame's
    angle and relative keypoints and the current ones. */
module ShotTrigger {
  import opened Numeric
  import opened Keypoints

  /** Rule 1 fires when the angle's magnitude drops by at least this many degrees. */
  const SnapDegrees := 20.0
  /** Rule 2 applies only while the previous angle's magnitude is below this. */
  const NeutralZoneDegrees := 10.0
  /** Rule 2 fires when the fingertip rises by at least this many pixels. */
  const PressPixels := 10.0

  /** Rule 1: the finger straightened quickly. */
  predicate Snapped(prevAngle: real, angle: real)
  {
    Abs(prevAngle) - Abs(angle) >= SnapDegrees
  }

  /** Whether `is_shot` reaches the second rule's read of keypoint 8: only when rule 1 did
      not fire and the previous angle is in the neutral zone (`and` short-circuits). */
  predicate ReadsTips(prevAngle: real, angle: real)
  {
    !Snapped(prevAngle, angle) && Abs(prevAngle) < NeutralZoneDegrees
  }

  /** `is_shot`. Outside the neutral zone only rule 1 can fire. */
  function IsShot(prevRelative: seq<Point>, relative: seq<Point>, prevAngle: real, angle: real): (r: bool)
    requires ReadsTips(prevAngle, angle) ==>
      IndexFingerTip < |prevRelative| && IndexFingerTip < |relative|
    ensures r && NeutralZoneDegrees <= Abs(prevAngle) ==> Snapped(prevAngle, angle)
  {
    if Snapped(prevAngle, angle) then true
    else if Abs(prevAngle) < NeutralZoneDegrees
         && prevRelative[IndexFingerTip].y - relative[IndexFingerTip].y >= PressPixels then true
    else false
  }

  /** Rule 1 fires whatever the keypoints are, even when there are none. */
  lemma SnapFires(prevRelative: seq<Point>, relative: seq<Point>, prevAngle: real, angle: real)
    requires Abs(prevAngle) - Abs(angle) >= SnapDegrees
    ensures IsShot(prevRelative, relative, prevAngle, angle)
  {
  }

  /** When rule 1 does not fire, the shot is rule 2: previous angle within 10 degrees of
      upright and the fingertip at least 10 pixels higher than before. */
  lemma PressRule(prevRelative: seq<Point>, relative: seq<Point>, prevAngle: real, angle: real)
    requires Abs(prevAngle) - Abs(angle) < SnapDegrees
    requires IndexFingerTip < |prevRelative| && IndexFingerTip < |relative|
    ensures IsShot(prevRelative, relative, prevAngle, angle)
      <==> Abs(prevAngle) < NeutralZoneDegrees
           && prevRelative[IndexFingerTip].y - relative[IndexFingerTip].y >= PressPixels
  {
  }

  /** Nothing but the angles' magnitudes and the rise of keypoint 8's `y` affects the
      decision: two frame pairs that agree on those agree on the shot. */
  lemma ShotReadsOnlyAnglesAndTipRise(
    prevRelative: seq<Point>, relative: seq<Point>, prevAngle: real, angle: real,
    prevRelative': seq<Point>, relative': seq<Point>, prevAngle': real, angle': real)
    requires IndexFingerTip < |prevRelative| && IndexFingerTip < |relative|
    requires IndexFingerTip < |prevRelative'| && IndexFingerTip < |relative'|
    requires Abs(prevAngle) == Abs(prevAngle') && Abs(angle) == Abs(angle')
    requires prevRelative[IndexFingerTip].y - relative[IndexFingerTip].y
          == prevRelative'[IndexFingerTip].y - relative'[IndexFingerTip].y
    ensures IsShot(prevRelative, relative, prevAngle, angle)
        == IsShot(prevRelative', relative', prevAngle', angle')
  {
  }

  /** Three sample decisions: a drop from 40 to 15 degrees fires, one from 40 to 25 does
      not, whatever the keypoints, and a steady 5 degrees with the tip rising from 50 to 38
      fires. */
  lemma SampleDecisions(prevRelative: seq<Point>, relative: seq<Point>)
    requires IndexFingerTip < |prevRelative| && IndexFingerTip < |relative|
    requires prevRelative[IndexFingerTip].y == 50.0 && relative[IndexFingerTip].y == 38.0
    ensures IsShot([], [], 40.0, 15.0)
    ensures forall p: seq<Point>, c: seq<Point> :: !IsShot(p, c, 40.0, 25.0)
    ensures IsShot(prevRelative, relative, 5.0, 5.0)
  {
  }

  /** A "no previous frame" baseline of angle 0 and all-zero keypoints does fire: rule 2
      holds exactly when the current fingertip is at least 10 pixels above the base. */
  lemma ZeroBaselineFires(zeros: seq<Point>, relative: seq<Point>, angle: real)
    requires IndexFingerTip < |zeros| && IndexFingerTip < |relative|
    requires forall i :: 0 <= i < |zeros| ==> zeros[i] == Point(0.0, 0.0, 0.0)
    ensures IsShot(zeros, relative, 0.0, angle) <==> relative[IndexFingerTip].y <= -10.0
  {
    assert zeros[IndexFingerTip].y == 0.0;
  }
}
