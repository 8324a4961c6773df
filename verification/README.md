# Three teaser: framing and pointer-follow model

A Dafny model of the interactive logo teaser in `three-teaser.js`. The page
shows a 3D logo in a perspective camera, frames it so that it fills the view
with a margin, makes it follow the pointer, and lets it drift in a slow idle
wiggle once the pointer has been still for a while. The model covers the
parts of the script that decide numbers:

- `HostMath`: `Math.PI`, `Math.sin` and `Math.tan` as values supplied by the
  host, plus the few facts about them that the proofs use.
- `Geometry`: vectors and axis-aligned boxes as the rendering library keeps
  them. An empty box has zero size and a zero centre.
- `Framing`:
  - the `resize()` aspect, with each mount dimension raised to at least one
    pixel;
  - the rig's base orientation, Euler angles (pi/2, pi, 0), which maps the
    rig's frame to world space by (x, y, z) to (-x, z, y);
  - `fitCameraToObject`: the logo's world-space bounds are measured, the
    logo is re-centred, and the camera is placed at
    `fitOffset * max(fitHeightDistance, fitWidthDistance)` with clip planes
    `d / 100` and `d * 100`;
  - the `resize()` call at start-up, and the window `resize` listener and
    the model-load callback that call these two functions.
- `Pointer`: the `pointermove` listener. It normalises the pointer into
  [-1, 1] and stamps the time of the move, unless the `.modal_wrap` element
  is showing.
- `Orientation`: one `animate()` frame.
  - The frame goes idle exactly when the last accepted move is more than
    900 ms old. On entering idle it records the start time and the rig's
    current offset (the hold).
  - While active, the target follows the pointer (pitch clamped to ±1.05).
    While idle, it wiggles about the hold by `sin` terms.
  - Each frame eases pitch and yaw 6% of the way to the target and writes a
    small decorative roll.
  - `Run` strings frames together, each frame with the pointer state left
    by the moves handled before it.

Numbers are `real`s standing for JavaScript doubles.

`Math.sin` and `Math.tan` are parameters of type `real -> real`. `Valid`
requires:
- pi lies between 3.14159 and 3.1416;
- `sin` is bounded by one and is zero at zero;
- `tan` is positive on the open first quadrant.

Periodicity of `sin` is required, through `SinIsPeriodic`, only by the lemma
that needs it.

The clock (`performance.now()`) and the window and mount sizes become
parameters of the handlers.

The code places no floor under the object's extent. A zero-size or empty
bounding box therefore gives distance 0 and `near == far == 0`. The model
follows the code here: it proves that the distance is 0 exactly in that
case, and positive exactly when the object has extent.

The re-centring line `object3D.position.sub(center)` subtracts a world-space
centre from a position held in the rotated rig's frame. The model keeps that
line as written (`RecentreAsWritten`, `FitAsWritten`) and proves that it
centres the logo only in a degenerate case (see "## Findings"). The page
handlers use the evidently intended re-centring (`Recentre`, `Fit`), which
carries the centre back into the rig's frame first.

## Model

| member | source | states |
|---|---|---|
| Framing.InitialCamera | three-teaser.js:55 | the camera starts with a field of view in (0, 180), a positive aspect and near below far |
| Framing.Startup | three-teaser.js:202 | the start-up `resize()` leaves no logo loaded and gives the constructed camera the mount's positive aspect, changing nothing else about it |
| Framing.StartupIsResizeListener | three-teaser.js:202 | start-up leaves the stage exactly as the window `resize` listener would from the initial stage, since no fit runs before the logo loads |
| Framing.AtLeastOne | three-teaser.js:66-67 | a mount dimension is raised to at least one pixel: the result is at least 1 and at least the input, and it is the input or 1 |
| Framing.ViewportAspect | three-teaser.js:65-68 | the aspect is positive for every mount size, even a collapsed one, and times the clamped height gives the clamped width |
| Framing.Resize | three-teaser.js:65-71 | resizing sets a positive aspect equal to clamped width over clamped height and changes nothing else on the camera |
| Framing.EffectiveAspect | three-teaser.js:101 | a zero aspect falls back to exactly 1, any other aspect is kept, and a nonnegative aspect yields a positive one |
| Framing.TanHalfFov | three-teaser.js:100-103 | the tangent of half a field of view strictly between 0 and 180 degrees is positive, so the height fit distance is defined |
| HostMath.HalfFovInFirstQuadrant | three-teaser.js:100-103 | half of such a field of view in radians lies strictly inside (0, pi/2) |
| Framing.FitHeightDistance | three-teaser.js:103 | at this distance half the object's extent exactly fills half the view height, and it is nonnegative for a nonnegative extent |
| Framing.LargerFitIsTightest | three-teaser.js:103-105 | the larger of the height and width fit distances is the closest distance at which the object fits on both axes, and there it touches the tighter axis |
| Framing.MarginedDistanceIsTightest | three-teaser.js:103-105 | `margin` times the larger fit distance (`BaseDistance`) is the closest distance at which the object enlarged by `margin` fits on both axes |
| Framing.FitDistanceFacts | three-teaser.js:103-105 | `fitOffset * BaseDistance(..)`, the larger of the height and width distances times the margin, meets `FramesAt`: it is at least `fitOffset * h`, it is the tightest fit for the enlarged object, it is positive iff the extent is, and it is 0 for zero extent |
| Framing.FitDistanceFrames | three-teaser.js:99-105 | `FitDistance`, the camera distance of a fit computed from the bounds' largest extent, the camera's field of view and its effective aspect, meets `FramesAt` |
| Geometry.MaxExtent | three-teaser.js:99 | the largest extent bounds all three components and is one of them |
| Geometry.SizeSpansBox | three-teaser.js:95 | an empty box has zero size; any other box's size carries its min corner onto its max corner; every extent is nonnegative |
| Geometry.CenterIsMidpoint | three-teaser.js:96 | an empty box has its centre at the origin; any other box's centre lies in it, as far from the min corner as from the max corner |
| Geometry.TranslateKeepsShape | three-teaser.js:94 | moving a box keeps its emptiness and size and moves the centre of a non-empty box by the same vector |
| Geometry.EmptyIffNoPoints | three-teaser.js:94 | a box is empty exactly when no point lies in it |
| Framing.WorldToRig | three-teaser.js:77-80 | mapping a world point into the rig's frame and back through the base orientation gives the point again |
| Framing.RigFrameRoundTrip | three-teaser.js:77-80 | mapping a rig point to world space and back gives the point again, so the two maps are inverse bijections |
| Framing.WorldBoxShape | three-teaser.js:94-96 | the world bounds of a box in the rig's frame are empty exactly when it is, have its extents with y and z exchanged and so the same largest extent, and have the image of its centre as centre |
| Framing.WorldBoxIsExact | three-teaser.js:94 | a world point lies in the world bounds exactly when its preimage in the rig's frame lies in the box, so the bounds are exact |
| Framing.WorldCentreOfLogo | three-teaser.js:94-96 | the world-space centre of a logo with extent is its local centre moved by its position and carried into world space |
| Framing.PlaceCamera | three-teaser.js:99-111 | the camera moves onto the view axis at the fit distance; only position, near and far change; near times 100 and far over 100 both equal the distance; near < far exactly when the distance is positive, and near == far at distance 0 |
| Framing.Recentre | three-teaser.js:97 | the corrected re-centring moves the object, seen in world space, by exactly minus the world-space centre |
| Framing.RecentreAsWritten | three-teaser.js:97 | as written, the world-space centre is subtracted straight from the position in the rig's frame |
| Framing.Fit | three-teaser.js:93-112 | with the corrected re-centring (see "## Findings"): the camera is placed by `PlaceCamera`, and the object moves so that, in world space, it shifts by minus the bounds' centre |
| Framing.FitAsWritten | three-teaser.js:93-112 | the camera is placed by `PlaceCamera`, and the object's position drops by the world-space centre taken as a rig-frame vector |
| Framing.RecentredBoundsAtOrigin | three-teaser.js:94-97 | moving the logo by minus its world-space centre, carried into the rig's frame, puts that centre on the origin, for empty boxes too |
| Framing.AsWrittenRefitDrifts | three-teaser.js:94-97 | with the code's re-centring, the first fit centres the logo, and the next fit leaves it where the first put it, each exactly when its rig-frame centre lies on the axis the base orientation fixes (x = 0 and y = z) |
| Framing.AsWrittenPositions | three-teaser.js:94-97 | with the code's re-centring and rig-frame centre `u`, the first fit moves the logo by (u.x, -u.z, -u.y) and leaves its world-space centre at (-2 u.x, u.z - u.y, u.y - u.z), and the next fit moves it on by minus that centre |
| Framing.AsWrittenSampleDrifts | three-teaser.js:94-97 | for a box from (0, -1, -1) to (2, 1, 1) with the logo at the rig's origin, the code's re-centring moves the logo to (1, 0, 0) with its world-space centre at (-2, 0, 0), and the next fit moves it on to (3, 0, 0) |
| Framing.AsWrittenCentredOffAxis | three-teaser.js:94-97 | the same three positions for any logo with extent whose local centre is (1, 0, 0), starting at the rig's origin |
| Framing.RecentreSettles | three-teaser.js:94-97 | with the corrected re-centring, from any position and for any box, the first fit centres the logo and the next leaves it in place |
| Framing.OnResize | three-teaser.js:136-139 | with the corrected re-centring (see "## Findings"): a resize gives a positive aspect and keeps the field of view; without a logo only the aspect changes; with one, the camera is the one `PlaceCamera` gives for the resized camera and the logo's world bounds, the logo stays loaded with the same geometry, and its world-space bounds are centred on the origin |
| Framing.ResizeFramesLogo | three-teaser.js:136-139 | after a resize with a logo, the camera sits on the view axis (x = y = 0) at the tightest distance at which the 1.18-margined logo fits the new viewport, with near a hundredth and far a hundred times that distance, and near < far exactly when the logo has extent |
| Framing.OnLogoLoaded | three-teaser.js:116-130 | with the corrected re-centring (see "## Findings"): once the model loads, the logo is attached with its geometry and centred on the origin, the aspect follows the mount, the field of view is kept, the camera is the one `PlaceCamera` gives for the resized camera and the logo's world bounds, it sits at the tightest distance at which the 1.18-margined logo fits, and near < far exactly when the logo has extent |
| Framing.RefitIsFixedPoint | three-teaser.js:136-139 | with the corrected re-centring (see "## Findings"), a second resize at the same mount size leaves the stage exactly as the first left it |
| Pointer.InitialInput | three-teaser.js:141-143 | before any move the pointer is at the centre (0, 0) of the unit square and the last move is the start time |
| Pointer.Normalise | three-teaser.js:151-152 | denormalising the result gives back the client coordinate, and the result lies in [-1, 1] iff the coordinate lies inside the window |
| Pointer.NormaliseDenormalise | three-teaser.js:151-152 | normalising undoes denormalising, so the two are inverse bijections |
| Pointer.OnPointerMove | three-teaser.js:145-156 | with the modal showing (`Suppresses`: present and displayed) the input is untouched; otherwise the move is stamped with the current time, the stored position denormalises back to the client point, and it lies in the unit square iff the pointer is inside the window |
| Orientation.Initial | three-teaser.js:161-164 | the controller starts active with the rig at the base orientation (zero offset), so it meets the band invariant |
| Orientation.UpdateMode | three-teaser.js:170-178 | the mode always equals "last move more than 900 ms ago"; only the active-to-idle edge records the time and the current offset; otherwise start time and hold are kept |
| Orientation.Clamp | three-teaser.js:180 | the clamped value lies in [lo, hi], is the input when the input is inside, and is the nearer bound when it is outside |
| Orientation.ActiveTarget | three-teaser.js:180-181 | the pitch target is -0.95 times the pointer's height, saturated at -1.05 and 1.05; the yaw target is 0.55 times the pointer's horizontal position; for a pointer in the unit square the clamp does not engage and the yaw stays within 0.55 |
| Orientation.IdleTarget | three-teaser.js:189-193 | the idle target stays within 0.06 of the hold in pitch and 0.18 in yaw, and equals the hold at elapsed time 0 |
| Orientation.Damp | three-teaser.js:195-196 | the eased value lies between current and desired; the remaining distance is 0.94 of the old one and the step is 0.06 of it |
| Orientation.Roll | three-teaser.js:197 | the roll stays within 0.02 of the base roll |
| Orientation.Step | three-teaser.js:166-197 | a frame sets the mode by the timeout; on entry it holds the rig's offset taken at that moment; otherwise it keeps start and hold; per axis the new offset lies between current and the mode's desired offset (`Desired`: the wiggle while idle, the pointer target while active) and leaves 0.94 of the gap; the roll stays within 0.02 |
| Orientation.IdleEntryIsContinuous | three-teaser.js:172-196 | on the frame that times out, pitch and yaw do not move: the wiggle starts at the held offset, which is the rig's own |
| Orientation.IdleTargetIsPeriodic | three-teaser.js:190-192 | the wiggle repeats after 40*pi seconds (10 turns of the pitch term, 13 of the yaw term) |
| Orientation.IdleDesiredIsPeriodic | three-teaser.js:189-193 | while idle, two frames one period apart aim at the same offset |
| Orientation.IdleStepStaysInBand | three-teaser.js:170-196 | an idle frame is idle; it holds the entry offset, or the offset already held; it keeps the rig within ±0.06 / ±0.18 of the hold |
| Orientation.StepKeepsBand | three-teaser.js:166-197 | every frame, active or idle, keeps the invariant "when idle, the rig is within the wiggle's reach of the hold" |
| Orientation.RunKeepsBand | three-teaser.js:161-197 | that invariant holds after any run of frames, whatever pointer state each frame sees, from any controller that meets it, the initial one included |
| Orientation.ActiveStepContracts | three-teaser.js:183-196 | an active frame leaves exactly 0.94 of the signed gap to the pointer's target on each axis |
| Orientation.GapAfterIsGeometric | three-teaser.js:195-196 | n damping steps leave 0.94^n of the initial gap |
| Orientation.GapNeverOvershoots | three-teaser.js:195-196 | damping never overshoots: after any number of steps the gap keeps its sign and is no larger than it was |
| Orientation.ActiveRunConverges | three-teaser.js:180-196 | over any run of active frames with a fixed pointer, the gap to the target on each axis is the initial gap damped once per frame |
| Orientation.IdleRunHoldsBand | three-teaser.js:170-196 | over any run of idle frames, idle is entered once and persists; the hold and start time are those of the first frame that timed out; the rig never leaves the band around the hold |
| HostMath.SinPeriodic | three-teaser.js:190-192 | sine repeats after any whole number of turns |

## Findings

| source | as written | input that shows it | evidently intended | confidence | as-written member | corrected member |
|---|---|---|---|---|---|---|
| three-teaser.js:97 | `object3D.position.sub(center)` subtracts the world-space centre of the bounds from the logo's position, which lives in the frame of the rig rotated by (pi/2, pi, 0) | a logo whose local box runs from (0, -1, -1) to (2, 1, 1), at the rig's origin: the first fit, in the load callback, moves it to (1, 0, 0) and leaves its world-space centre at (-2, 0, 0); the next fit, on the first window resize, moves it to (3, 0, 0) | carry the centre back into the rig's frame before subtracting, so that the logo is centred on the point the camera looks at and refitting leaves it in place | not executed | Framing.RecentreAsWritten, Framing.AsWrittenRefitDrifts, Framing.AsWrittenSampleDrifts | Framing.Recentre, Framing.RecentreSettles, Framing.RefitIsFixedPoint |

## Left out

- Page setup is not modelled: style injection, the mount element, the
  renderer, tone mapping, the light, the HDR environment and the material
  tweaks. They decide no number the core uses.
- The CDN module imports and the asynchronous GLB and HDR loads are not
  modelled. The load callback is modelled as `OnLogoLoaded`. A load failure
  only logs and leaves the stage without a logo, which is `NotLoaded`.
- `requestAnimationFrame`, `renderer.render`, `renderer.setSize`,
  `updateProjectionMatrix` and `camera.lookAt` are rendering side effects.
  The camera's look direction is implied by its position on the view axis.
- Device orientation input is not part of this script, so it is not modelled.
- Floating-point rounding is not modelled. Reals stand for doubles, so the
  eased offsets are exact, and there is no NaN or Infinity.
- Framing.EffectiveAspect: `aspect || 1` also maps NaN to 1. There is no NaN
  among reals, so only the zero case is modelled.
- Framing.OnResize: re-centres with `Recentre`, the corrected form of
  three-teaser.js:97, not with the line as written (see "## Findings").
  Its world bounds take the rig at its exact base orientation. `animate()`
  runs before the model loads, so at a fit the rig carries its current
  offsets, and these can be large: up to ±1.05 rad of pitch and ±0.55 rad
  of yaw from the pointer, plus the idle wiggle of ±0.06 / ±0.18 rad about
  any hold and a roll of up to 0.02 rad. Under such a rotation the
  world-space bounds are not the image of the rig-frame box, and their
  centre is not `RigToWorld` of the rig-frame centre. Centring the logo on
  the origin is promised only at the exact base orientation.
- Framing.ResizeFramesLogo: the camera distance uses the largest extent at
  the base orientation. Under the offsets above, the measured largest
  extent can grow or shrink by tens of percent: at a pitch of 1.05 rad a
  cube of side 2 measures about 2.73, and a rod of length 2 turned in the
  pitch plane about 1.73. So `Tightest` for the local largest extent is promised only at the exact
  base orientation.
- Framing.OnLogoLoaded: re-centres with `Recentre`, not line 97 as written,
  and takes the rig at its exact base orientation, with the same
  consequences as for `OnResize` and `ResizeFramesLogo`: centring and
  `Tightest` are promised only there.
- Framing.RefitIsFixedPoint: holds for the corrected re-centring at the base
  orientation. The code as written moves the logo again on every fit
  (see "## Findings" and `AsWrittenRefitDrifts`).
- The logo's own rotation and scale, which `setFromObject` would also apply,
  are taken as the identity that a loaded scene starts with.
- Pointer.OnPointerMove: requires a positive window width and height. The
  script divides by them, so a zero-size window would store Infinity or NaN.
- Pointer.OnPointerMove: the modal's computed style is reduced to its
  `display` value.
- Orientation.ActiveRunConverges: requires every frame of the run to see the
  same pointer state. Runs with moves in between are covered by
  `RunKeepsBand` and by the single-frame `Step` contract.
- Orientation.IdleRunHoldsBand: likewise requires one pointer state for the
  whole run; an accepted move would end the idle spell.
- `Math.sin` and `Math.tan` are abstract parameters. Only their boundedness,
  the sign of `tan` on the first quadrant, `sin(0) = 0` and periodicity are
  assumed of them.
