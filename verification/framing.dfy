/** The framing engine: the viewport aspect computed on resize, and the camera
    placement that makes the loaded logo fill the view with a margin. */
module Framing {
  import opened HostMath
  import opened Geometry

  /** Vertical field of view the camera is created with, in degrees. */
  const FovDegrees: real := 35.0
  /** Headroom factor the page passes on every fit. */
  const FitOffset: real := 1.18
  /** Near and far clip planes sit this factor in front of and behind the distance. */
  const ClipRatio: real := 100.0

  datatype Camera = Camera(fov: real, aspect: real, near: real, far: real, position: Vec3)

  /** The perspective camera as constructed: fov 35, aspect 1, near 0.1, far 500. */
  function InitialCamera(): (c: Camera)
    ensures 0.0 < c.fov < 180.0 && 0.0 < c.aspect && c.near < c.far
  {
    Camera(FovDegrees, 1.0, 0.1, 500.0, Zero)
  }

  // ---------------------------------------------------------------- resize

  /** `Math.max(1, n)` for a mount dimension in pixels. */
  function AtLeastOne(n: int): (r: int)
    ensures 1 <= r && n <= r
    ensures r == n || r == 1
  {
    if n < 1 then 1 else n
  }

  /** Width over height of the mount, each side first raised to at least one
      pixel, so the aspect is positive for every mount, even a collapsed one. */
  function ViewportAspect(clientWidth: int, clientHeight: int): (a: real)
    ensures 0.0 < a
    ensures a * (AtLeastOne(clientHeight) as real) == AtLeastOne(clientWidth) as real
  {
    (AtLeastOne(clientWidth) as real) / (AtLeastOne(clientHeight) as real)
  }

  /** `resize()`: only the camera's aspect changes. */
  function Resize(cam: Camera, clientWidth: int, clientHeight: int): (c: Camera)
    ensures 0.0 < c.aspect
    ensures c.aspect * (AtLeastOne(clientHeight) as real) == AtLeastOne(clientWidth) as real
    ensures c.(aspect := cam.aspect) == cam
  {
    cam.(aspect := ViewportAspect(clientWidth, clientHeight))
  }

  // ------------------------------------------------------------------- fit

  /** `camera.aspect || 1`: a zero aspect falls back to 1. */
  function EffectiveAspect(aspect: real): (a: real)
    ensures aspect != 0.0 ==> a == aspect
    ensures aspect == 0.0 ==> a == 1.0
    ensures 0.0 <= aspect ==> 0.0 < a
  {
    if aspect == 0.0 then 1.0 else aspect
  }

  /** Tangent of half the vertical field of view. */
  function TanHalfFov(m: Math, fovDeg: real): (t: real)
    requires Valid(m)
    requires 0.0 < fovDeg < 180.0
    ensures 0.0 < t
  {
    HalfFovInFirstQuadrant(m, fovDeg);
    m.tan(DegToRad(m, fovDeg) / 2.0)
  }

  /** At distance `d`, a camera whose half-fov tangent is `tanHalf` sees a
      half-height of `d * tanHalf` and a half-width of `d * tanHalf * aspect`;
      an object of extent `size` fits when both reach half its extent. */
  predicate FitsAt(tanHalf: real, aspect: real, size: real, d: real) {
    && size / 2.0 <= d * tanHalf
    && size / 2.0 <= d * tanHalf * aspect
  }

  /** `d` is the closest distance at which the object fits. */
  ghost predicate Tightest(tanHalf: real, aspect: real, size: real, d: real) {
    && FitsAt(tanHalf, aspect, size, d)
    && forall d' :: FitsAt(tanHalf, aspect, size, d') ==> d <= d'
  }

  /** `fitHeightDistance`: the distance at which half the extent exactly
      fills half the view's height. */
  function FitHeightDistance(tanHalf: real, size: real): (h: real)
    requires 0.0 < tanHalf
    ensures h * tanHalf == size / 2.0
    ensures 0.0 <= size ==> 0.0 <= h
  {
    (size / 2.0) / tanHalf
  }

  /** The larger of the height and width fit distances, before the margin. */
  function BaseDistance(tanHalf: real, aspect: real, size: real): real
    requires 0.0 < tanHalf
    requires aspect != 0.0
  {
    var fitHeight := FitHeightDistance(tanHalf, size);
    Max(fitHeight, fitHeight / aspect)
  }

  /** If `h` fills the view's height and `w` its width exactly with an
      object of extent `size`, the larger of the two is the closest distance
      at which the object fits on both axes, and there it touches the frustum
      on the tighter axis. */
  lemma LargerFitIsTightest(tanHalf: real, aspect: real, size: real, h: real, w: real)
    requires 0.0 < tanHalf
    requires 0.0 < aspect
    requires h * tanHalf == size / 2.0
    requires w * (tanHalf * aspect) == size / 2.0
    ensures Tightest(tanHalf, aspect, size, Max(h, w))
    ensures var d := Max(h, w);
            d * tanHalf == size / 2.0 || d * tanHalf * aspect == size / 2.0
  {
    var d := Max(h, w);
    var k := tanHalf * aspect;
    assert 0.0 < k;
    assert h <= d && w <= d;
    assert d == h || d == w;
    // the object fits at d on both axes
    ScaleMonotone(h, d, tanHalf);
    assert size / 2.0 <= d * tanHalf;
    ScaleMonotone(w, d, k);
    MulAssoc(d, tanHalf, aspect);
    assert size / 2.0 <= d * tanHalf * aspect;
    assert FitsAt(tanHalf, aspect, size, d);
    // any distance at which it fits is at least d
    forall d' | FitsAt(tanHalf, aspect, size, d')
      ensures d <= d'
    {
      assert h * tanHalf <= d' * tanHalf;
      ScaleCancel(h, d', tanHalf);
      MulAssoc(d', tanHalf, aspect);
      assert w * k <= d' * k;
      ScaleCancel(w, d', k);
    }
    // and it touches the frustum on the tighter axis
    if d == h {
      assert d * tanHalf == size / 2.0;
    } else {
      assert d * k == size / 2.0;
    }
  }

  /** The fit distance, `margin` times the larger of the height and width fit
      distances, is the closest distance at which the object enlarged by
      `margin` fits on both axes: seen from `distance / margin`, the object's
      half extent exactly touches the frustum on the tighter axis. */
  lemma MarginedDistanceIsTightest(tanHalf: real, aspect: real, size: real, margin: real)
    requires 0.0 < tanHalf
    requires 0.0 < aspect
    requires 0.0 < margin
    ensures Tightest(tanHalf, aspect, margin * size, margin * BaseDistance(tanHalf, aspect, size))
    ensures var d := margin * BaseDistance(tanHalf, aspect, size);
            d * tanHalf == (margin * size) / 2.0 || d * tanHalf * aspect == (margin * size) / 2.0
  {
    var h := FitHeightDistance(tanHalf, size);
    var w := h / aspect;
    assert w * aspect == h;
    var H, W := margin * h, margin * w;
    assert H * tanHalf == (margin * size) / 2.0 by {
      calc {
        H * tanHalf;
        margin * (h * tanHalf);
        margin * (size / 2.0);
      }
    }
    assert W * (tanHalf * aspect) == H * tanHalf by {
      calc {
        W * (tanHalf * aspect);
        margin * ((w * aspect) * tanHalf);
        margin * (h * tanHalf);
      }
    }
    assert margin * Max(h, w) == Max(H, W);
    LargerFitIsTightest(tanHalf, aspect, margin * size, H, W);
  }

  /** The camera placement of one fit and the object's re-centred position. */
  datatype Fitted = Fitted(camera: Camera, objectPosition: Vec3)

  /** The distance from the origin at which a fit puts the camera: `fitOffset`
      times the larger of the height and width fit distances of the bounds'
      largest extent. `FitDistanceFrames` states what it achieves. */
  function FitDistance(m: Math, cam: Camera, bounds: Box3, fitOffset: real): real
    requires Valid(m)
    requires 0.0 < cam.fov < 180.0
  {
    fitOffset * BaseDistance(TanHalfFov(m, cam.fov), EffectiveAspect(cam.aspect), MaxExtent(bounds.Size()))
  }

  /** The fit distance is never closer than `fitOffset` times the height fit
      distance, and it is exactly the closest distance at which the object,
      enlarged by `fitOffset`, fits the view on both axes. It is positive
      exactly when the object has extent; a box of zero extent puts the
      camera at the origin. */
  lemma FitDistanceFrames(m: Math, cam: Camera, bounds: Box3, fitOffset: real)
    requires Valid(m)
    requires 0.0 < cam.fov < 180.0
    ensures FramesAt(TanHalfFov(m, cam.fov), EffectiveAspect(cam.aspect), MaxExtent(bounds.Size()),
                     fitOffset, FitDistance(m, cam, bounds, fitOffset))
  {
    var tanHalf := TanHalfFov(m, cam.fov);
    var aspect := EffectiveAspect(cam.aspect);
    var size := MaxExtent(bounds.Size());
    SizeSpansBox(bounds);
    FitDistanceFacts(tanHalf, aspect, size, fitOffset, FitDistance(m, cam, bounds, fitOffset));
  }

  /** The object's new position in the rig's frame, with the re-centring the
      code evidently intends: the world-space centre is carried back into the
      rig's frame before it is subtracted, so the object moves in world space
      by exactly minus the centre. */
  function Recentre(position: Vec3, centre: Vec3): (p: Vec3)
    ensures RigToWorld(position.Minus(p)) == centre
  {
    position.Minus(WorldToRig(centre))
  }

  /** `object3D.position.sub(center)` as written: the world-space centre is
      subtracted straight from the position in the rig's frame. */
  function RecentreAsWritten(position: Vec3, centre: Vec3): (p: Vec3)
    ensures p.Plus(centre) == position
  {
    position.Minus(centre)
  }

  /** The camera part of `fitCameraToObject`: the camera is put on the
      view axis at `FitDistance`, looking at the origin, with the clip planes
      a factor 100 in front of and behind that distance; nothing else about
      it changes. */
  function PlaceCamera(m: Math, cam: Camera, bounds: Box3, fitOffset: real): (c: Camera)
    requires Valid(m)
    requires 0.0 < cam.fov < 180.0
    ensures c.(position := cam.position, near := cam.near, far := cam.far) == cam
    ensures c.position == Vec3(0.0, 0.0, FitDistance(m, cam, bounds, fitOffset))
    ensures var d := c.position.z;
            && c.near * ClipRatio == d
            && c.far == d * ClipRatio
            && (c.near < c.far <==> 0.0 < d)
            && (d == 0.0 ==> c.near == c.far)
  {
    var distance := FitDistance(m, cam, bounds, fitOffset);
    cam.(position := Vec3(0.0, 0.0, distance), near := distance / ClipRatio, far := distance * ClipRatio)
  }

  /** `fitCameraToObject(object, fitOffset)` for the logo, a child of the
      rig, given its world-space bounds and its position in the rig's frame:
      the camera is placed by `PlaceCamera` and the logo re-centred by
      `Recentre`. */
  function Fit(m: Math, cam: Camera, bounds: Box3, position: Vec3, fitOffset: real): (r: Fitted)
    requires Valid(m)
    requires 0.0 < cam.fov < 180.0
    ensures r.camera == PlaceCamera(m, cam, bounds, fitOffset)
    ensures RigToWorld(position.Minus(r.objectPosition)) == bounds.Center()
  {
    Fitted(PlaceCamera(m, cam, bounds, fitOffset), Recentre(position, bounds.Center()))
  }

  /** `fitCameraToObject` as written, re-centring by `RecentreAsWritten`. */
  function FitAsWritten(m: Math, cam: Camera, bounds: Box3, position: Vec3, fitOffset: real): (r: Fitted)
    requires Valid(m)
    requires 0.0 < cam.fov < 180.0
    ensures r.camera == PlaceCamera(m, cam, bounds, fitOffset)
    ensures r.objectPosition.Plus(bounds.Center()) == position
  {
    Fitted(PlaceCamera(m, cam, bounds, fitOffset), RecentreAsWritten(position, bounds.Center()))
  }

  /** What the camera distance `d` for an object of extent `size` and a
      margin `fitOffset` is meant to achieve: never closer than the margined
      height fit distance; for a positive margin and aspect, the closest
      distance at which the margined object fits on both axes, positive
      exactly when the object has extent; and zero for zero extent. */
  ghost predicate FramesAt(tanHalf: real, aspect: real, size: real, fitOffset: real, d: real)
    requires 0.0 < tanHalf
  {
    && (0.0 <= fitOffset ==> fitOffset * FitHeightDistance(tanHalf, size) <= d)
    && (0.0 < fitOffset && 0.0 < aspect ==> Tightest(tanHalf, aspect, fitOffset * size, d))
    && (0.0 < fitOffset && 0.0 < aspect ==> (0.0 < d <==> 0.0 < size))
    && (size == 0.0 ==> d == 0.0)
  }

  /** `fitOffset * BaseDistance(..)` achieves what `FramesAt` asks. */
  lemma FitDistanceFacts(tanHalf: real, aspect: real, size: real, fitOffset: real, d: real)
    requires 0.0 < tanHalf
    requires aspect != 0.0
    requires 0.0 <= size
    requires d == fitOffset * BaseDistance(tanHalf, aspect, size)
    ensures FramesAt(tanHalf, aspect, size, fitOffset, d)
  {
    var b := BaseDistance(tanHalf, aspect, size);
    var h := FitHeightDistance(tanHalf, size);
    if 0.0 <= fitOffset {
      ScaleMonotone(h, b, fitOffset);
    }
    if 0.0 < fitOffset && 0.0 < aspect {
      MarginedDistanceIsTightest(tanHalf, aspect, size, fitOffset);
      if 0.0 < size {
        assert 0.0 < h;
        assert 0.0 < fitOffset * b;
      } else {
        assert b == 0.0;
      }
    }
    if size == 0.0 {
      assert h / aspect == 0.0;
    }
  }

  // ------------------------------------------------------------ rig frame

  /** The rig's base orientation, Euler angles (pi/2, pi, 0) applied in
      x-y-z order (a half turn about y, then a quarter turn about x), as the
      map from the rig's frame to world space. */
  function RigToWorld(v: Vec3): Vec3 {
    Vec3(Flip(v.x), v.z, v.y)
  }

  /** The half turn about y reverses the x axis; the quarter turn about x
      only exchanges y and z. `Flip` is that reversal of one coordinate. */
  function Flip(a: real): real {
    -a
  }

  /** The map from world space back into the rig's frame. */
  function WorldToRig(w: Vec3): (v: Vec3)
    ensures RigToWorld(v) == w
  {
    Vec3(Flip(w.x), w.z, w.y)
  }

  /** The two maps are mutually inverse. */
  lemma RigFrameRoundTrip(v: Vec3)
    ensures WorldToRig(RigToWorld(v)) == v
  {}

  /** The largest extent does not depend on the order of the axes. */
  lemma MaxExtentSwapped(s: Vec3)
    ensures MaxExtent(Vec3(s.x, s.z, s.y)) == MaxExtent(s)
  {}

  /** `Box3.setFromObject` for a box held in the rig's frame: the bounds of
      its image in world space. The base orientation only swaps and negates
      axes, so the image is itself an axis-aligned box and the bounds are
      exact (`WorldBoxIsExact`). */
  function WorldBox(b: Box3): Box3 {
    Box3(Vec3(Flip(b.max.x), b.min.z, b.min.y), Vec3(Flip(b.min.x), b.max.z, b.max.y))
  }

  /** The world box is empty exactly when the box is; it has the same
      extents with y and z exchanged, hence the same largest extent; and its
      centre is the image of the box's centre. */
  lemma WorldBoxShape(b: Box3)
    ensures WorldBox(b).IsEmpty() == b.IsEmpty()
    ensures WorldBox(b).Size() == Vec3(b.Size().x, b.Size().z, b.Size().y)
    ensures MaxExtent(WorldBox(b).Size()) == MaxExtent(b.Size())
    ensures WorldBox(b).Center() == RigToWorld(b.Center())
  {
    MaxExtentSwapped(b.Size());
  }

  /** A world point lies in the world box exactly when its preimage in the
      rig's frame lies in the original box. */
  lemma WorldBoxIsExact(b: Box3, q: Vec3)
    ensures WorldBox(b).Contains(q) <==> b.Contains(WorldToRig(q))
  {}

  // -------------------------------------------------------- page handlers

  /** The `logo` slot of the page: empty until the model has loaded. The
      loaded object sits in the rig at `position`, with bounds `local` in its
      own frame. */
  datatype Logo = NotLoaded | Loaded(position: Vec3, local: Box3) {
    /** `Box3.setFromObject(logo)` with the rig at its base orientation: the
        local bounds moved by the position, carried into world space. */
    function WorldBounds(): Box3
      requires Loaded?
    {
      WorldBox(local.Translate(position))
    }
  }

  datatype Stage = Stage(camera: Camera, logo: Logo)

  /** The page's initial stage: the constructed camera and no logo. */
  function InitialStage(): Stage {
    Stage(InitialCamera(), NotLoaded)
  }

  /** The `resize()` call at start-up, before any logo has loaded: the
      constructed camera takes the mount's aspect, and nothing else about
      it changes. */
  function Startup(clientWidth: int, clientHeight: int): (s: Stage)
    ensures s.logo.NotLoaded?
    ensures s.camera.(aspect := 1.0) == InitialCamera()
    ensures 0.0 < s.camera.aspect
    ensures s.camera.aspect * (AtLeastOne(clientHeight) as real) == AtLeastOne(clientWidth) as real
  {
    InitialStage().(camera := Resize(InitialCamera(), clientWidth, clientHeight))
  }

  /** Start-up leaves the stage the window `resize` listener would leave
      from the initial stage: with no logo loaded yet the listener does no
      fit. */
  lemma StartupIsResizeListener(m: Math, clientWidth: int, clientHeight: int)
    requires Valid(m)
    ensures Startup(clientWidth, clientHeight) == OnResize(m, InitialStage(), clientWidth, clientHeight)
  {}

  /** The window `resize` listener: `resize()`, then, when a logo is loaded,
      `fitCameraToObject(logo, 1.18)`. Without a logo only the aspect
      changes; with one, the camera is placed for the logo's world bounds in
      the resized viewport and the logo ends up centred on the origin.
      `ResizeFramesLogo` states what that placement achieves. */
  function OnResize(m: Math, s: Stage, clientWidth: int, clientHeight: int): (s': Stage)
    requires Valid(m)
    requires 0.0 < s.camera.fov < 180.0
    ensures 0.0 < s'.camera.aspect
    ensures s'.camera.aspect * (AtLeastOne(clientHeight) as real) == AtLeastOne(clientWidth) as real
    ensures s'.camera.fov == s.camera.fov
    ensures s.logo.NotLoaded? ==> s' == s.(camera := s.camera.(aspect := s'.camera.aspect))
    ensures s.logo.Loaded? ==>
              && s'.camera == PlaceCamera(m, Resize(s.camera, clientWidth, clientHeight), s.logo.WorldBounds(), FitOffset)
              && s'.logo.Loaded?
              && s'.logo.local == s.logo.local
              && s'.logo.WorldBounds().Center() == Zero
  {
    var cam := Resize(s.camera, clientWidth, clientHeight);
    match s.logo
    case NotLoaded => Stage(cam, NotLoaded)
    case Loaded(position, local) =>
      var r := Fit(m, cam, s.logo.WorldBounds(), position, FitOffset);
      RecentredBoundsAtOrigin(local, position);
      Stage(r.camera, Loaded(r.objectPosition, local))
  }

  /** After a resize with a logo loaded, the camera sits on the view axis at
      the closest distance at which the logo, enlarged by the 1.18 margin,
      fits the new viewport on both axes; its clip planes are a hundredth and
      a hundred times that distance, properly ordered exactly when the logo
      has extent. */
  lemma ResizeFramesLogo(m: Math, s: Stage, clientWidth: int, clientHeight: int)
    requires Valid(m)
    requires 0.0 < s.camera.fov < 180.0
    requires s.logo.Loaded?
    ensures var s' := OnResize(m, s, clientWidth, clientHeight);
            && Tightest(TanHalfFov(m, s.camera.fov), s'.camera.aspect,
                        FitOffset * MaxExtent(s.logo.local.Size()), s'.camera.position.z)
            && s'.camera.position.x == 0.0 && s'.camera.position.y == 0.0
            && s'.camera.near * ClipRatio == s'.camera.position.z
            && s'.camera.far == s'.camera.position.z * ClipRatio
            && (s'.camera.near < s'.camera.far <==> 0.0 < MaxExtent(s.logo.local.Size()))
  {
    var s' := OnResize(m, s, clientWidth, clientHeight);
    var cam := Resize(s.camera, clientWidth, clientHeight);
    var world := s.logo.WorldBounds();
    var r := Fit(m, cam, world, s.logo.position, FitOffset);
    FitDistanceFrames(m, cam, world, FitOffset);
    assert s'.camera == r.camera;
    assert EffectiveAspect(cam.aspect) == s'.camera.aspect;
    assert TanHalfFov(m, cam.fov) == TanHalfFov(m, s.camera.fov);
    assert MaxExtent(world.Size()) == MaxExtent(s.logo.local.Size());
  }

  /** The world-space centre of a loaded logo with extent is its local
      centre moved by its position, carried into world space. */
  lemma WorldCentreOfLogo(position: Vec3, local: Box3)
    requires !local.IsEmpty()
    ensures Loaded(position, local).WorldBounds().Center() == RigToWorld(local.Center().Plus(position))
  {
    TranslateKeepsShape(local, position);
    WorldBoxShape(local.Translate(position));
  }

  /** Moving the logo within the rig by minus its world-space centre, carried
      back into the rig's frame, puts that centre on the origin, for empty
      boxes too. */
  lemma RecentredBoundsAtOrigin(local: Box3, position: Vec3)
    ensures var world := Loaded(position, local).WorldBounds();
            Loaded(position.Minus(WorldToRig(world.Center())), local).WorldBounds().Center() == Zero
  {
    var world := Loaded(position, local).WorldBounds();
    var p' := position.Minus(WorldToRig(world.Center()));
    if !local.IsEmpty() {
      var c := local.Center().Plus(position);
      assert local.Translate(position).Center() == c;
      RigFrameRoundTrip(c);
      assert WorldToRig(world.Center()) == c;
      assert local.Translate(p').Center() == local.Center().Plus(p');
      assert local.Center().Plus(p') == Zero;
    }
  }

  /** Re-centring as written, for a logo with extent whose centre sits at
      `u` in the rig's frame: the first fit leaves the logo's world-space
      centre on the origin, and the next fit leaves the logo where the
      first put it, only when `u` lies on the axis the base orientation
      fixes (`u.x == 0` and `u.y == u.z`). Everywhere else the logo is left
      off the point the camera looks at and moves again on every fit. */
  lemma AsWrittenRefitDrifts(position: Vec3, local: Box3)
    requires !local.IsEmpty()
    ensures var u := local.Center().Plus(position);
            var once := RecentreAsWritten(position, Loaded(position, local).WorldBounds().Center());
            var twice := RecentreAsWritten(once, Loaded(once, local).WorldBounds().Center());
            && (Loaded(once, local).WorldBounds().Center() == Zero <==> u.x == 0.0 && u.y == u.z)
            && (twice == once <==> u.x == 0.0 && u.y == u.z)
  {
    var u := local.Center().Plus(position);
    var once := RecentreAsWritten(position, Loaded(position, local).WorldBounds().Center());
    WorldCentreOfLogo(position, local);
    WorldCentreOfLogo(once, local);
    var after := Loaded(once, local).WorldBounds().Center();
    assert local.Center().Plus(once) == u.Minus(RigToWorld(u));
    assert after == RigToWorld(u.Minus(RigToWorld(u)));
  }

  /** Where re-centring as written puts a logo with extent whose centre
      sits at `u` in the rig's frame: the first fit adds `u.x` to the x
      coordinate and swaps `u`'s y and z into the subtraction, and the next
      fit moves the logo on by the world-space centre that the first left,
      which is (-2 u.x, u.z - u.y, u.y - u.z). */
  lemma AsWrittenPositions(position: Vec3, local: Box3)
    requires !local.IsEmpty()
    ensures var u := local.Center().Plus(position);
            var once := RecentreAsWritten(position, Loaded(position, local).WorldBounds().Center());
            var after := Loaded(once, local).WorldBounds().Center();
            var twice := RecentreAsWritten(once, after);
            && once.x == position.x + u.x && once.y == position.y - u.z && once.z == position.z - u.y
            && after.x == -2.0 * u.x && after.y == u.z - u.y && after.z == u.y - u.z
            && twice.x == once.x + 2.0 * u.x && twice.y == once.y + u.y - u.z && twice.z == once.z + u.z - u.y
  {
    var u := local.Center().Plus(position);
    var once := RecentreAsWritten(position, Loaded(position, local).WorldBounds().Center());
    WorldCentreOfLogo(position, local);
    WorldCentreOfLogo(once, local);
    assert local.Center().Plus(once) == u.Minus(RigToWorld(u));
  }

  /** An instance: a box two units long in x, from 0 to 2, with the logo
      at the rig's origin. Its centre (1, 0, 0) is off the fixed axis: as
      written, the first fit moves the logo to (1, 0, 0) and leaves its
      world-space centre at (-2, 0, 0), and the next fit moves it on to
      (3, 0, 0). */
  lemma AsWrittenSampleDrifts()
    ensures var local := Box3(Vec3(0.0, -1.0, -1.0), Vec3(2.0, 1.0, 1.0));
            var once := RecentreAsWritten(Zero, Loaded(Zero, local).WorldBounds().Center());
            var after := Loaded(once, local).WorldBounds().Center();
            && once == Vec3(1.0, 0.0, 0.0)
            && after.x == -2.0 && after.y == 0.0 && after.z == 0.0
            && RecentreAsWritten(once, after) == Vec3(3.0, 0.0, 0.0)
  {
    var local := Box3(Vec3(0.0, -1.0, -1.0), Vec3(2.0, 1.0, 1.0));
    assert local.Center() == Vec3(1.0, 0.0, 0.0);
    AsWrittenCentredOffAxis(local);
  }

  /** The same drift for any logo with extent whose local centre is
      (1, 0, 0), starting at the rig's origin. */
  lemma AsWrittenCentredOffAxis(local: Box3)
    requires !local.IsEmpty() && local.Center() == Vec3(1.0, 0.0, 0.0)
    ensures var once := RecentreAsWritten(Zero, Loaded(Zero, local).WorldBounds().Center());
            var after := Loaded(once, local).WorldBounds().Center();
            && once == Vec3(1.0, 0.0, 0.0)
            && after.x == -2.0 && after.y == 0.0 && after.z == 0.0
            && RecentreAsWritten(once, after) == Vec3(3.0, 0.0, 0.0)
  {
    assert local.Center().Plus(Zero) == local.Center();
    AsWrittenPositions(Zero, local);
  }

  /** The corrected re-centring, from any position and for empty boxes too:
      one fit puts the logo's world-space centre on the origin and the
      next leaves the logo where it is. */
  lemma RecentreSettles(position: Vec3, local: Box3)
    ensures var once := Recentre(position, Loaded(position, local).WorldBounds().Center());
            var twice := Recentre(once, Loaded(once, local).WorldBounds().Center());
            && Loaded(once, local).WorldBounds().Center() == Zero
            && twice == once
  {
    RecentredBoundsAtOrigin(local, position);
    var once := Recentre(position, Loaded(position, local).WorldBounds().Center());
    assert WorldToRig(Zero) == Zero;
    assert once.Minus(Zero) == once;
  }

  /** The GLB load callback: the logo is attached, then `resize()` and a
      fit. The logo ends up centred on the origin, and the camera is placed
      for its world bounds in the resized viewport, at the closest distance
      at which the 1.18-margined logo fits. */
  function OnLogoLoaded(m: Math, s: Stage, position: Vec3, local: Box3,
                        clientWidth: int, clientHeight: int): (s': Stage)
    requires Valid(m)
    requires 0.0 < s.camera.fov < 180.0
    ensures s'.logo.Loaded? && s'.logo.local == local
    ensures s'.logo.WorldBounds().Center() == Zero
    ensures s'.camera == PlaceCamera(m, Resize(s.camera, clientWidth, clientHeight),
                                     Loaded(position, local).WorldBounds(), FitOffset)
    ensures s'.camera.fov == s.camera.fov
    ensures 0.0 < s'.camera.aspect
    ensures s'.camera.aspect * (AtLeastOne(clientHeight) as real) == AtLeastOne(clientWidth) as real
    ensures Tightest(TanHalfFov(m, s.camera.fov), s'.camera.aspect,
                     FitOffset * MaxExtent(local.Size()), s'.camera.position.z)
    ensures s'.camera.near < s'.camera.far <==> 0.0 < MaxExtent(local.Size())
  {
    var loaded := s.(logo := Loaded(position, local));
    ResizeFramesLogo(m, loaded, clientWidth, clientHeight);
    OnResize(m, loaded, clientWidth, clientHeight)
  }

  /** Fitting is idempotent: a second resize with the same mount size leaves
      the stage as the first one left it, because re-centring an object that
      is already centred moves it by zero. */
  lemma RefitIsFixedPoint(m: Math, s: Stage, clientWidth: int, clientHeight: int)
    requires Valid(m)
    requires 0.0 < s.camera.fov < 180.0
    ensures var once := OnResize(m, s, clientWidth, clientHeight);
            OnResize(m, once, clientWidth, clientHeight) == once
  {
    var once := OnResize(m, s, clientWidth, clientHeight);
    if s.logo.Loaded? {
      var world := once.logo.WorldBounds();
      assert world.Center() == Zero;
      assert WorldToRig(Zero) == Zero;
      assert once.logo.position.Minus(Zero) == once.logo.position;
    }
  }
}
