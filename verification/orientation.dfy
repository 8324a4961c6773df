/** The orientation controller run once per animation frame: it decides
    between following the pointer and the idle wiggle, and eases the rig's
    rotation toward the chosen offset from the base orientation. */
module Orientation {
  import opened HostMath
  import opened Pointer

  /** Milliseconds without an accepted pointer move after which the rig idles. */
  const IdleTimeoutMs: real := 900.0
  /** Pitch (x) follows the vertical pointer position with this gain ... */
  const FollowStrengthX: real := 0.95
  /** ... and is clamped to this many radians either way. */
  const PitchLimit: real := 1.05
  /** Yaw (y) follows the horizontal pointer position with this gain. */
  const FollowStrengthY: real := 0.55
  /** Fraction of the remaining distance covered each frame. */
  const Smoothing: real := 0.06
  /** Idle wiggle: amplitude in radians and angular frequency per second. */
  const IdleAmpX: real := 0.06
  const IdleFreqX: real := 0.5
  const IdleAmpY: real := 0.18
  const IdleFreqY: real := 0.65
  /** Decorative roll: amplitude in radians and angular frequency per millisecond. */
  const RollAmp: real := 0.02
  const RollFreq: real := 0.00032

  datatype Rotation = Rotation(x: real, y: real, z: real)

  /** Pitch and yaw relative to the base orientation. */
  datatype Offset = Offset(x: real, y: real)

  /** The fixed orientation that makes the logo face the viewer. */
  function Base(m: Math): Rotation {
    Rotation(m.pi / 2.0, m.pi, 0.0)
  }

  function OffsetOf(m: Math, r: Rotation): Offset {
    Offset(r.x - Base(m).x, r.y - Base(m).y)
  }

  /** The controller's state: whether it idles, when the idle spell began,
      the offset held when it began, and the rig's rotation. */
  datatype Controller = Controller(idleMode: bool, idleStart: real, hold: Offset, rig: Rotation)

  /** Before the first frame: active, nothing held, the rig at its base. */
  function Initial(m: Math): (c: Controller)
    ensures !c.idleMode
    ensures OffsetOf(m, c.rig) == Offset(0.0, 0.0) && c.rig.z == Base(m).z
    ensures BandInvariant(m, c)
  {
    Controller(false, 0.0, Offset(0.0, 0.0), Base(m))
  }

  /** The timeout rule: idle once the last accepted move is more than 900 ms old. */
  predicate IsIdle(now: real, lastMove: real) {
    now - lastMove > IdleTimeoutMs
  }

  /** The frame on which an active controller times out. */
  predicate EntersIdle(c: Controller, now: real, lastMove: real) {
    IsIdle(now, lastMove) && !c.idleMode
  }

  /** The mode update at the start of a frame. The mode always ends up equal
      to the timeout rule. Only the active-to-idle edge records the start time
      and the rig's current offset; leaving idle keeps both as they were. */
  function UpdateMode(c: Controller, now: real, lastMove: real, current: Offset): (c': Controller)
    ensures c'.idleMode == IsIdle(now, lastMove)
    ensures c'.rig == c.rig
    ensures EntersIdle(c, now, lastMove) ==> c'.idleStart == now && c'.hold == current
    ensures !EntersIdle(c, now, lastMove) ==> c'.idleStart == c.idleStart && c'.hold == c.hold
  {
    var idle := IsIdle(now, lastMove);
    var c1 := if idle && !c.idleMode then c.(idleMode := true, idleStart := now, hold := current) else c;
    if !idle && c1.idleMode then c1.(idleMode := false) else c1
  }

  /** The rendering library's `clamp(v, lo, hi)`, i.e. `max(lo, min(hi, v))`. */
  function Clamp(v: real, lo: real, hi: real): (r: real)
    ensures lo <= hi ==> lo <= r <= hi
    ensures lo <= v <= hi ==> r == v
    ensures v < lo ==> r == lo
    ensures hi < v && lo <= hi ==> r == hi
  {
    Max(lo, Min(hi, v))
  }

  /** The offset the rig follows while active. The pitch follows the
      pointer's height at 0.95 per unit, against its sign, and saturates at
      the nearer of -1.05 and 1.05 beyond them; for a pointer inside the
      window the clamp never engages. The yaw follows the pointer's
      horizontal position at 0.55 per unit, so it stays within 0.55 for a
      pointer inside the window. */
  function ActiveTarget(input: Input): (t: Offset)
    ensures -PitchLimit <= t.x <= PitchLimit
    ensures var follow := -input.my * FollowStrengthX;
            && (follow < -PitchLimit ==> t.x == -PitchLimit)
            && (PitchLimit < follow ==> t.x == PitchLimit)
            && (-PitchLimit <= follow <= PitchLimit ==> t.x == follow)
    ensures InUnitSquare(input) ==> t.x * -1.0 == input.my * FollowStrengthX
    ensures t.y == input.mx * FollowStrengthY
    ensures InUnitSquare(input) ==> Abs(t.y) <= FollowStrengthY
  {
    Offset(Clamp(-input.my * FollowStrengthX, -PitchLimit, PitchLimit), input.mx * FollowStrengthY)
  }

  /** The offset the rig follows while idle, `elapsedMs` after the idle spell
      began: a wiggle about the held offset, within 0.06 in pitch and 0.18 in
      yaw, that starts exactly at the held offset. */
  function IdleTarget(m: Math, hold: Offset, elapsedMs: real): (d: Offset)
    requires Valid(m)
    ensures Abs(d.x - hold.x) <= IdleAmpX
    ensures Abs(d.y - hold.y) <= IdleAmpY
    ensures elapsedMs == 0.0 ==> d == hold
  {
    var t := elapsedMs * 0.001;
    Offset(hold.x + m.sin(t * IdleFreqX) * IdleAmpX, hold.y + m.sin(t * IdleFreqY) * IdleAmpY)
  }

  /** Joint period of the two wiggle axes: 40*pi seconds (10 turns of the
      pitch term and 13 of the yaw term). */
  function IdlePeriodMs(m: Math): real {
    40000.0 * m.pi
  }

  /** The offset the rig is eased toward on this frame, after the mode update. */
  function Desired(m: Math, c: Controller, input: Input, now: real): Offset
    requires Valid(m)
  {
    if c.idleMode then IdleTarget(m, c.hold, now - c.idleStart) else ActiveTarget(input)
  }

  /** One-pole low-pass step: the new value lies between the current and the
      desired value, 6% of the way there, so the remaining distance shrinks
      to exactly 94% of what it was. */
  function Damp(current: real, desired: real): (next: real)
    ensures Between(current, next, desired)
    ensures Abs(desired - next) == (1.0 - Smoothing) * Abs(desired - current)
    ensures Abs(next - current) == Smoothing * Abs(desired - current)
  {
    current + (desired - current) * Smoothing
  }

  /** The decorative roll: within 0.02 of the base roll. */
  function Roll(m: Math, now: real): (z: real)
    requires Valid(m)
    ensures Abs(z - Base(m).z) <= RollAmp
  {
    Base(m).z + m.sin(now * RollFreq) * RollAmp
  }

  /** One `animate()` frame at time `now` with the listener's latest input:
      the mode update, then pitch and yaw eased toward the desired offset,
      then the roll. Rotation is always written as base plus offset. */
  function Step(m: Math, c: Controller, input: Input, now: real): (c': Controller)
    requires Valid(m)
    ensures c'.idleMode == IsIdle(now, input.lastMove)
    ensures EntersIdle(c, now, input.lastMove) ==>
              c'.idleStart == now && c'.hold == OffsetOf(m, c.rig)
    ensures !EntersIdle(c, now, input.lastMove) ==>
              c'.idleStart == c.idleStart && c'.hold == c.hold
    ensures var cur, next, des := OffsetOf(m, c.rig), OffsetOf(m, c'.rig), Desired(m, c', input, now);
            && Between(cur.x, next.x, des.x)
            && Between(cur.y, next.y, des.y)
            && Abs(des.x - next.x) == (1.0 - Smoothing) * Abs(des.x - cur.x)
            && Abs(des.y - next.y) == (1.0 - Smoothing) * Abs(des.y - cur.y)
    ensures Abs(c'.rig.z - Base(m).z) <= RollAmp
  {
    var current := OffsetOf(m, c.rig);
    var moded := UpdateMode(c, now, input.lastMove, current);
    var desired := Desired(m, moded, input, now);
    var base := Base(m);
    moded.(rig := Rotation(base.x + Damp(current.x, desired.x),
                           base.y + Damp(current.y, desired.y),
                           Roll(m, now)))
  }

  // ---------------------------------------------------------------- lemmas

  /** Continuity at the active-to-idle edge: on the frame that times out the
      wiggle starts at `t = 0`, so the desired offset is the held offset,
      which is the rig's own offset, and pitch and yaw do not move. */
  lemma IdleEntryIsContinuous(m: Math, c: Controller, input: Input, now: real)
    requires Valid(m)
    requires EntersIdle(c, now, input.lastMove)
    ensures var c' := Step(m, c, input, now);
            c'.rig.x == c.rig.x && c'.rig.y == c.rig.y
  {
    var c' := Step(m, c, input, now);
    assert Desired(m, c', input, now) == OffsetOf(m, c.rig);
  }

  /** The idle wiggle repeats every `IdlePeriodMs`: while the mode stays
      idle and no input arrives, two frames one period apart aim at the same
      offset. */
  lemma IdleDesiredIsPeriodic(m: Math, c: Controller, input: Input, now: real)
    requires Valid(m) && SinIsPeriodic(m)
    requires c.idleMode
    ensures Desired(m, c, input, now + IdlePeriodMs(m)) == Desired(m, c, input, now)
  {
    var e := now - c.idleStart;
    var e' := now + IdlePeriodMs(m) - c.idleStart;
    IdleTargetIsPeriodic(m, c.hold, e);
    assert e' == e + IdlePeriodMs(m);
  }

  /** The wiggle itself repeats after `IdlePeriodMs`. */
  lemma IdleTargetIsPeriodic(m: Math, hold: Offset, elapsedMs: real)
    requires Valid(m) && SinIsPeriodic(m)
    ensures IdleTarget(m, hold, elapsedMs + IdlePeriodMs(m)) == IdleTarget(m, hold, elapsedMs)
  {
    var t := elapsedMs * 0.001;
    var t' := (elapsedMs + IdlePeriodMs(m)) * 0.001;
    SinPeriodic(m, t * IdleFreqX, 10);
    SinEqualArgs(m, t' * IdleFreqX, t * IdleFreqX + (10 as real) * (2.0 * m.pi));
    SinPeriodic(m, t * IdleFreqY, 13);
    SinEqualArgs(m, t' * IdleFreqY, t * IdleFreqY + (13 as real) * (2.0 * m.pi));
  }

  /** An offset within the wiggle's reach of the held offset. */
  predicate InBand(o: Offset, hold: Offset) {
    Abs(o.x - hold.x) <= IdleAmpX && Abs(o.y - hold.y) <= IdleAmpY
  }

  /** An idle frame keeps the hold and keeps the rig within the wiggle's
      reach of it, because both the rig and the desired offset are. */
  lemma IdleStepStaysInBand(m: Math, c: Controller, input: Input, now: real)
    requires Valid(m)
    requires IsIdle(now, input.lastMove)
    requires c.idleMode ==> InBand(OffsetOf(m, c.rig), c.hold)
    ensures var c' := Step(m, c, input, now);
            && c'.idleMode
            && c'.hold == (if c.idleMode then c.hold else OffsetOf(m, c.rig))
            && InBand(OffsetOf(m, c'.rig), c'.hold)
  {
    var c' := Step(m, c, input, now);
    var cur, next, des := OffsetOf(m, c.rig), OffsetOf(m, c'.rig), Desired(m, c', input, now);
    assert InBand(des, c'.hold) by {
      assert des == IdleTarget(m, c'.hold, now - c'.idleStart);
    }
    assert InBand(cur, c'.hold);
    assert InBand(next, c'.hold) by {
      NearBoth(cur.x, next.x, des.x, c'.hold.x, IdleAmpX);
      NearBoth(cur.y, next.y, des.y, c'.hold.y, IdleAmpY);
    }
  }

  /** Whenever the controller is idle, the rig is within the wiggle's reach
      of the held offset. */
  predicate BandInvariant(m: Math, c: Controller) {
    c.idleMode ==> InBand(OffsetOf(m, c.rig), c.hold)
  }

  /** Every frame, active or idle, keeps `BandInvariant`: an active frame
      leaves the idle mode, and an idle frame stays in the band. */
  lemma StepKeepsBand(m: Math, c: Controller, input: Input, now: real)
    requires Valid(m)
    requires BandInvariant(m, c)
    ensures BandInvariant(m, Step(m, c, input, now))
  {
    if IsIdle(now, input.lastMove) {
      IdleStepStaysInBand(m, c, input, now);
    }
  }

  /** `BandInvariant`, which the initial controller meets, holds after any
      run of frames, whatever pointer moves arrive between them. */
  lemma {:induction false} RunKeepsBand(m: Math, c: Controller, frames: seq<Frame>)
    requires Valid(m)
    requires BandInvariant(m, c)
    ensures BandInvariant(m, Run(m, c, frames))
    decreases |frames|
  {
    if |frames| > 0 {
      StepKeepsBand(m, c, frames[0].input, frames[0].now);
      RunKeepsBand(m, Step(m, c, frames[0].input, frames[0].now), frames[1..]);
    }
  }

  /** A point between two points that are both within `r` of `h` is too. */
  lemma NearBoth(a: real, x: real, b: real, h: real, r: real)
    requires Abs(a - h) <= r && Abs(b - h) <= r
    requires Between(a, x, b)
    ensures Abs(x - h) <= r
  {}

  /** One `animate()` frame as the page sees it: the pointer state left by
      the moves handled since the previous frame, and the frame's time. */
  datatype Frame = Frame(input: Input, now: real)

  /** Frames in order, each with the pointer state current when it runs. */
  function Run(m: Math, c: Controller, frames: seq<Frame>): Controller
    requires Valid(m)
    decreases |frames|
  {
    if |frames| == 0 then c else Run(m, Step(m, c, frames[0].input, frames[0].now), frames[1..])
  }

  /** `b` to the power `n`. */
  function Pow(b: real, n: nat): (r: real)
    ensures 0.0 <= b <= 1.0 ==> 0.0 <= r <= 1.0
  {
    if n == 0 then 1.0
    else
      var p := Pow(b, n - 1);
      if 0.0 <= b <= 1.0 then
        UnitProduct(b, p);
        b * p
      else
        b * p
  }

  /** The product of two numbers in [0, 1] stays in [0, 1]. */
  lemma UnitProduct(a: real, b: real)
    requires 0.0 <= a <= 1.0 && 0.0 <= b <= 1.0
    ensures 0.0 <= a * b <= 1.0
  {
    ScaleMonotone(0.0, a, b);
    ScaleMonotone(a, 1.0, b);
    assert a * b <= b;
  }

  /** An active frame covers 6% of the way to the pointer's target. */
  lemma ActiveStepContracts(m: Math, c: Controller, input: Input, now: real)
    requires Valid(m)
    requires !IsIdle(now, input.lastMove)
    ensures var t, o, o' := ActiveTarget(input), OffsetOf(m, c.rig), OffsetOf(m, Step(m, c, input, now).rig);
            && t.x - o'.x == (1.0 - Smoothing) * (t.x - o.x)
            && t.y - o'.y == (1.0 - Smoothing) * (t.y - o.y)
  {
    var c' := Step(m, c, input, now);
    assert Desired(m, c', input, now) == ActiveTarget(input);
  }

  /** The gap left after `n` damping steps toward a fixed target. */
  function GapAfter(gap: real, n: nat): real
    decreases n
  {
    if n == 0 then gap else GapAfter((1.0 - Smoothing) * gap, n - 1)
  }

  /** After `n` steps the gap is exactly 0.94^n of what it was. */
  lemma {:induction false} GapAfterIsGeometric(gap: real, n: nat)
    ensures GapAfter(gap, n) == Pow(1.0 - Smoothing, n) * gap
    decreases n
  {
    if n > 0 {
      var k := 1.0 - Smoothing;
      GapAfterIsGeometric(k * gap, n - 1);
      assert Pow(k, n - 1) * (k * gap) == (k * Pow(k, n - 1)) * gap;
    }
  }

  /** Damping never overshoots: after any number of steps the gap keeps its
      sign and is no larger than it was. */
  lemma GapNeverOvershoots(gap: real, n: nat)
    ensures 0.0 <= gap ==> 0.0 <= GapAfter(gap, n) <= gap
    ensures gap <= 0.0 ==> gap <= GapAfter(gap, n) <= 0.0
    ensures Abs(GapAfter(gap, n)) <= Abs(gap)
  {
    var p := Pow(1.0 - Smoothing, n);
    GapAfterIsGeometric(gap, n);
    assert 0.0 <= p <= 1.0;
    if 0.0 <= gap {
      ScaleMonotone(0.0, p, gap);
      ScaleMonotone(p, 1.0, gap);
    } else {
      ScaleMonotone(0.0, p, -gap);
      ScaleMonotone(p, 1.0, -gap);
      assert p * gap == -(p * -gap);
    }
  }

  /** While input keeps arriving in time and the pointer holds still, the rig
      converges geometrically on the pointer's target: after `n` frames the
      remaining gap on each axis is the initial gap damped `n` times, that is
      exactly 0.94^n of it (`GapAfterIsGeometric`), and it never overshoots
      (`GapNeverOvershoots`). */
  lemma {:induction false} ActiveRunConverges(m: Math, c: Controller, input: Input, frames: seq<Frame>)
    requires Valid(m)
    requires forall i :: 0 <= i < |frames| ==> frames[i].input == input && !IsIdle(frames[i].now, input.lastMove)
    ensures var t, o, o' := ActiveTarget(input), OffsetOf(m, c.rig), OffsetOf(m, Run(m, c, frames).rig);
            && t.x - o'.x == GapAfter(t.x - o.x, |frames|)
            && t.y - o'.y == GapAfter(t.y - o.y, |frames|)
    decreases |frames|
  {
    if |frames| > 0 {
      var t := ActiveTarget(input);
      var o := OffsetOf(m, c.rig);
      var c1 := Step(m, c, input, frames[0].now);
      var o1 := OffsetOf(m, c1.rig);
      var rest := frames[1..];
      ActiveStepContracts(m, c, input, frames[0].now);
      ActiveRunConverges(m, c1, input, rest);
      assert Run(m, c, frames) == Run(m, c1, rest);
    }
  }

  /** Once input stops, the idle spell is entered once and then persists:
      the held offset is the rig's offset on the frame that timed out (or
      the one already held), the start time stays put, and the rig never
      leaves the wiggle's reach of the held offset. */
  lemma {:induction false} IdleRunHoldsBand(m: Math, c: Controller, input: Input, frames: seq<Frame>)
    requires Valid(m)
    requires 0 < |frames|
    requires forall i :: 0 <= i < |frames| ==> frames[i].input == input && IsIdle(frames[i].now, input.lastMove)
    requires c.idleMode ==> InBand(OffsetOf(m, c.rig), c.hold)
    ensures var r := Run(m, c, frames);
            && r.idleMode
            && r.hold == (if c.idleMode then c.hold else OffsetOf(m, c.rig))
            && r.idleStart == (if c.idleMode then c.idleStart else frames[0].now)
            && InBand(OffsetOf(m, r.rig), r.hold)
    decreases |frames|
  {
    var c1 := Step(m, c, input, frames[0].now);
    IdleStepStaysInBand(m, c, input, frames[0].now);
    if |frames| > 1 {
      IdleRunHoldsBand(m, c1, input, frames[1..]);
    }
  }
}
