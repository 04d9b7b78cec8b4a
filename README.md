# Gesture shooting core, modelled in Dafny

A model of the gesture-interpretation code of a webcam target-shooting game
(`utils/game_utils.py`). A hand detector reports landmark points for each detected hand;
the code turns them into pixel keypoints (`take_coordinates`), re-bases them on the base of
the index finger (`relative_coordinates`), derives the finger's pointing angle
(`get_angle`) and the point it aims at (`get_aim_point`), decides from two consecutive
frames whether the player fired (`is_shot`), tests the aim point against a circular target
(`is_hit`), and sizes the target and hit-marker sprites so that their ring matches the hit
box (`put_target`, `put_bang`).

Modules, one per stage, one file each:

- `Numeric` (`numeric.dfy`): Python's `int()` on a float (truncation toward zero) and
  `round(x, n)` (round half to even at `n` decimals), on exact reals.
- `Keypoints` (`keypoints.dfy`): landmarks, keypoints, the explicit `Absent` keypoint set
  that replaces the source's `0` sentinel, screen points and squared distance.
- `Extractor` (`extractor.dfy`): `take_coordinates`, a method with the source's nested
  append loops, proved equal to the function `Coordinates`.
- `RelativeFrame` (`relative_frame.dfy`): `relative_coordinates`, a method with the
  source's index loop, proved equal to the function `Relative`.
- `AimResolver` (`aim_resolver.dfy`): `get_angle` and `get_aim_point`.
- `ShotTrigger` (`shot_trigger.dfy`): `is_shot`.
- `HitEvaluator` (`hit_evaluator.dfy`): `is_hit`.
- `Overlay` (`overlay.dfy`): the sprite-size expression of `put_target` and `put_bang`.

`np.arctan(m) * 180 / np.pi` is a parameter `arctanDeg` of the angle functions. The
lemmas that need it assume only `IsArctanDegrees`: its values lie strictly between -90 and
90 and it is 0 at slope 0.

Four points where the code behaves differently from what one might expect:

- `get_angle` rounds its result to 1 decimal. So the reported angle can be exactly -180
  (for instance, an unrounded -179.97) and can be 0 for a fingertip slightly right of the
  base. The strict range (-180, 180) and "positive exactly when X > 0" hold for the
  unrounded angle (`RawAngleRange`). The reported angle satisfies the rounded forms
  (`AngleRange`).
- `get_aim_point` truncates keypoints 5 and 8 to whole pixels first. So multiplier 0 gives
  the truncated base, not the exact keypoint 5, and multiplier 1 gives the truncated tip.
- A "no previous frame" baseline of angle 0 and all-zero keypoints is not inert: rule 2
  fires when the current fingertip is 10 or more pixels above the base
  (`ZeroBaselineFires`). The game loop that keeps the previous frame is not part of this
  model, so what it actually passes is not known here.
- Nothing checks that a hand has 21 landmarks. The model requires only what each
  function indexes: keypoint 5 for `relative_coordinates`, keypoint 8 for the others.

## Model

| member | source | states |
|---|---|---|
| `Numeric.Trunc` | utils/game_utils.py:178-180 | `int()` truncates toward zero: the result is within 1 of the value and not beyond it on the side away from 0 |
| `Numeric.RoundHalfEven` | utils/game_utils.py:43-45 | `round` to an integer gives the nearest one, and the even one when the value is half-way |
| `Numeric.RoundHalfEvenUnique` | utils/game_utils.py:145 | those two properties determine the rounded integer uniquely |
| `Numeric.Round` | utils/game_utils.py:43-45 | models Python's `round(x, n)`: the result times `10^n` is the integer nearest `x * 10^n`, ties to even; `RoundError`, `RoundMonotone` and `RoundInteger` carry its properties |
| `Numeric.RoundError` | utils/game_utils.py:64 | `round(x, n)` differs from `x` by at most half a unit in the n-th decimal |
| `Numeric.RoundMonotone` | utils/game_utils.py:145 | `round(x, n)` never reverses the order of two values |
| `Numeric.RoundInteger` | utils/game_utils.py:64 | a whole number is unchanged by `round(x, n)` |
| `Extractor.Coordinates` | utils/game_utils.py:33-49 | models the result of `take_coordinates`: `Absent` exactly for `None`, otherwise one keypoint per landmark of all hands; `CoordinatesAt` states each entry |
| `Extractor.TakeCoordinates` | utils/game_utils.py:9-49 | the nested append loops build exactly `Coordinates`; the result is `Absent` exactly when the detector gave `None` |
| `Extractor.CoordinatesAbsent` | utils/game_utils.py:33-34 | no detection gives the `Absent` sentinel |
| `Extractor.FlattenLength` | utils/game_utils.py:40-47 | the flat keypoint list holds as many entries as all hands' landmarks together |
| `Extractor.FlattenAt` | utils/game_utils.py:40-47 | landmark t of hand j lands right after the landmarks of hands 0..j-1, in order |
| `Extractor.CoordinatesAt` | utils/game_utils.py:36-47 | a detection yields one keypoint per landmark in hand order, `x` times the width (`shape[1]`), `y` times the height (`shape[0]`), `z` unscaled, rounded to 2, 2 and 3 decimals |
| `RelativeFrame.Relative` | utils/game_utils.py:53-66 | models the result of `relative_coordinates`: `Absent` exactly for `Absent`, same length otherwise; `RelativeAt`, `BaseIsOrigin` and `TranslationInvariant` carry its properties |
| `RelativeFrame.RelativeCoordinates` | utils/game_utils.py:53-66 | the index loop builds exactly `Relative`: `Absent` stays `Absent`, each keypoint becomes its rounded offset from keypoint 5 |
| `RelativeFrame.RelativeAt` | utils/game_utils.py:54-64 | a present set keeps its length and entry i is `kp[i] - kp[5]` componentwise, rounded |
| `RelativeFrame.RelativeNearExactOffset` | utils/game_utils.py:64 | each relative component is the exact offset up to 0.005 (x, y) and 0.0005 (z) |
| `RelativeFrame.BaseIsOrigin` | utils/game_utils.py:57-64 | relative keypoint 5 is `(0, 0, 0)` |
| `RelativeFrame.TranslationInvariant` | utils/game_utils.py:57-64 | moving every keypoint by the same vector leaves the relative keypoints unchanged |
| `AimResolver.GetAngle` | utils/game_utils.py:125-145 | models `get_angle`: 0 without a hand, and within [-180, 180] for any arctangent with values in (-90, 90); `AngleBranches`, `RawAngleRange`, `AngleRange` and `AngleScaleInvariant` carry the rest |
| `AimResolver.AngleOfAbsent` | utils/game_utils.py:126-127 | without a hand the angle is 0 |
| `AimResolver.AngleBranches` | utils/game_utils.py:129-145 | X > 0 gives `atan(Y/X) + 90`, X < 0 gives `atan(Y/X) - 90`, X == 0 gives `atan(0) - 90`, each rounded to 1 decimal |
| `AimResolver.AngleOnVertical` | utils/game_utils.py:132-143 | a fingertip with X == 0 always reads -90 |
| `AimResolver.RawAngleRange` | utils/game_utils.py:137-143 | before rounding the angle is strictly between -180 and 180 and positive exactly when X > 0 |
| `AimResolver.AngleRange` | utils/game_utils.py:137-145 | the reported angle is in [-180, 180], within 0.05 of the unrounded one, positive only when X > 0 and negative only when X <= 0 |
| `AimResolver.AngleScaleInvariant` | utils/game_utils.py:129-143 | scaling keypoint 8's x and y by a positive factor leaves the angle unchanged |
| `AimResolver.AngleReadsOnlyTip` | utils/game_utils.py:129-130 | only the x and y of relative keypoint 8 affect the angle |
| `AimResolver.AimPointOnRay` | utils/game_utils.py:176-184 | `aim - p1 == k * (p2 - p1)` for the int-truncated keypoints p1 = 5 and p2 = 8 |
| `AimResolver.GetAimPoint` | utils/game_utils.py:176-184 | models `get_aim_point`: multiplier 0 gives the truncated keypoint 5, multiplier 1 the truncated keypoint 8; `AimPointOnRay` and `AimPointDistance` carry the rest |
| `AimResolver.AimPointDistance` | utils/game_utils.py:182 | the aim point's squared distance from p1 is `k * k` times the finger's squared length |
| `AimResolver.AimPointReadsOnlyBaseAndTip` | utils/game_utils.py:177-180 | only the truncated x and y of keypoints 5 and 8 affect the aim point |
| `ShotTrigger.IsShot` | utils/game_utils.py:70-79 | models `is_shot`: with `abs(prev_angle) >= 10` only rule 1 can fire; `SnapFires`, `PressRule` and `ShotReadsOnlyAnglesAndTipRise` carry the rest |
| `ShotTrigger.SnapFires` | utils/game_utils.py:73-74 | `abs(prev_angle) - abs(angle) >= 20` fires whatever the keypoints, even none |
| `ShotTrigger.PressRule` | utils/game_utils.py:75-79 | otherwise the shot fires exactly when `abs(prev_angle) < 10` and `prev[8].y - cur[8].y >= 10` |
| `ShotTrigger.ShotReadsOnlyAnglesAndTipRise` | utils/game_utils.py:70-79 | the decision depends only on the two angles' magnitudes and the rise of keypoint 8's y |
| `ShotTrigger.SampleDecisions` | utils/game_utils.py:73-77 | 40 to 15 degrees fires, 40 to 25 does not whatever the keypoints, a steady 5 degrees with the tip rising from 50 to 38 fires |
| `ShotTrigger.ZeroBaselineFires` | utils/game_utils.py:76-77 | with previous angle 0 and all-zero previous keypoints, a shot fires exactly when the current tip's y is at most -10 |
| `HitEvaluator.IsHit` | utils/game_utils.py:83-90 | models `is_hit`: a negative `target_size` never hits, and a hit lies within `target_size` of the target on each axis; `HitIsDistanceTest` relates it to the true distance |
| `HitEvaluator.HitIsDistanceTest` | utils/game_utils.py:83-90 | for the Euclidean distance d from the aim point to the target, a hit is exactly `d <= target_size` |
| `HitEvaluator.HitOnBoundary` | utils/game_utils.py:87-88 | an aim point exactly `target_size` away hits (inclusive boundary) |
| `HitEvaluator.HitAtCentre` | utils/game_utils.py:84-88 | aiming at the centre hits for every `target_size >= 0` |
| `HitEvaluator.HitMonotoneInSize` | utils/game_utils.py:87-90 | a hit stays a hit for any larger target with the same centre |
| `Overlay.SpriteSize` | utils/game_utils.py:100 | models `int(size*2*480/410)` shared by `put_target` and `put_bang` (line 115): truncation keeps the sign of the radius; `SpriteRingMatchesHitBox` carries the sizing property |
| `Overlay.SpriteRingMatchesHitBox` | utils/game_utils.py:96-100 | for radius >= 0 the 410/480 ring of the resized sprite is at most `2 * size` across and less than one sprite pixel's worth of ring smaller |
| `Overlay.SpriteSizeMonotone` | utils/game_utils.py:112-115 | a larger radius never gives a smaller sprite |
| `Overlay.SpriteSizeOfHundred` | utils/game_utils.py:100 | radius 100 gives a 234-pixel sprite |

## Left out

- `home.py`: a display loop that runs until Enter is pressed: clock reads, image loads, window output and key
  polling, with no decision logic.
- Image work in `put_target` and `put_bang`: loading the sprite file, converting its
  colours, resizing and compositing (`image_utils.put_image` is not part of this model).
  Only the size expression is modelled, by `Overlay.SpriteSize`.
- `put_debug_info` and `put_aim_line`: drawing calls only. `put_aim_line` aims with
  multiplier 3, which `GetAimPoint` covers as one value of its multiplier.
- The hand detector. Its result is given as `Option<seq<Hand>>`, each hand a sequence of
  normalised landmarks; the image is given by its shape.
- Floating point. Values are exact reals, so `round` is exact decimal rounding and no
  binary representation error is modelled. `np.arctan` is the parameter `arctanDeg`,
  constrained only by `IsArctanDegrees`.
- The square root inside `np.linalg.norm`. `IsHit` compares squared distance with squared
  radius; `HitIsDistanceTest` states the result for the true distance.
- AimResolver.AngleRange: weaker than "strictly between -180 and 180, positive exactly when
  X > 0", because the final 1-decimal rounding can reach -180 and can round a small
  positive angle to 0; the strict statement is `RawAngleRange`, about the unrounded angle.
- The integer `0` passed to `is_shot`, `get_aim_point` or `is_hit` in place of keypoints.
  Python would fail on indexing it; the model takes sequences there and requires keypoint
  8 where the code reads it.
- The previous-frame state that feeds `is_shot`. The game loop that keeps it is not part
  of this model.
