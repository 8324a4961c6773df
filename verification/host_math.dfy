/** The parts of the browser's `Math` object that the teaser calls.

    `Math.PI`, `Math.sin` and `Math.tan` are not computed here: they are
    passed around as a record of values and functions, and `Valid` states the
    only facts about them that the proofs rely on. Every real number here
    stands for a JavaScript double; rounding is not modelled.
 */
module HostMath {

  /** `Math.PI`, `Math.sin` and `Math.tan`, as supplied by the host. */
  datatype Math = Math(pi: real, sin: real -> real, tan: real -> real)

  /** What any faithful host library satisfies: pi to five decimals, sine
      bounded by one and zero at zero, and tangent positive on the open first
      quadrant. */
  ghost predicate Valid(m: Math) {
    && 3.14159 < m.pi < 3.1416
    && m.sin(0.0) == 0.0
    && (forall x :: -1.0 <= m.sin(x) <= 1.0)
    && (forall x :: 0.0 < x < m.pi / 2.0 ==> 0.0 < m.tan(x))
  }

  /** `x` advanced by one full turn. */
  function Turn(m: Math, x: real): real {
    x + 2.0 * m.pi
  }

  /** Sine is 2*pi-periodic. Kept apart from `Valid` and required only
      where periodicity is the point. */
  ghost predicate SinIsPeriodic(m: Math) {
    forall x {:trigger m.sin(Turn(m, x))} :: m.sin(Turn(m, x)) == m.sin(x)
  }

  function Abs(x: real): real {
    if x < 0.0 then -x else x
  }

  /** `Math.max` of two numbers. */
  function Max(a: real, b: real): real {
    if a < b then b else a
  }

  /** `Math.min` of two numbers. */
  function Min(a: real, b: real): real {
    if b < a then b else a
  }

  /** Multiplying both sides by a nonnegative factor keeps their order. */
  lemma ScaleMonotone(a: real, b: real, k: real)
    requires a <= b
    requires 0.0 <= k
    ensures a * k <= b * k
  {}

  /** Multiplying both sides by a positive factor keeps their strict order. */
  lemma ScaleStrict(a: real, b: real, k: real)
    requires a < b
    requires 0.0 < k
    ensures a * k < b * k
  {
    assert (b - a) * k > 0.0;
  }

  /** Regrouping a product of three factors. */
  lemma MulAssoc(a: real, b: real, c: real)
    ensures a * b * c == a * (b * c)
  {}

  /** Dividing both sides by a positive factor keeps their order. */
  lemma ScaleCancel(a: real, b: real, k: real)
    requires a * k <= b * k
    requires 0.0 < k
    ensures a <= b
  {
    assert (b - a) * k >= 0.0;
  }

  /** `x` lies on the closed segment between `a` and `b`, in either order. */
  predicate Between(a: real, x: real, b: real) {
    Min(a, b) <= x <= Max(a, b)
  }

  /** The rendering library's degree-to-radian conversion (`deg * PI / 180`). */
  function DegToRad(m: Math, deg: real): real {
    deg * (m.pi / 180.0)
  }

  /** A field of view strictly between 0 and 180 degrees has a half angle
      strictly inside the first quadrant, where the tangent is positive. */
  lemma HalfFovInFirstQuadrant(m: Math, fovDeg: real)
    requires Valid(m)
    requires 0.0 < fovDeg < 180.0
    ensures 0.0 < DegToRad(m, fovDeg) / 2.0 < m.pi / 2.0
    ensures 0.0 < m.tan(DegToRad(m, fovDeg) / 2.0)
  {
    var unit := m.pi / 180.0;
    var r := DegToRad(m, fovDeg);
    assert 0.0 < unit;
    ScaleStrict(0.0, fovDeg, unit);
    ScaleStrict(fovDeg, 180.0, unit);
    assert 180.0 * unit == m.pi;
    assert 0.0 < r < m.pi;
    assert 0.0 < r / 2.0 < m.pi / 2.0;
  }

  /** Sine repeats after any whole number of turns. */
  lemma {:induction false} SinPeriodic(m: Math, x: real, turns: nat)
    requires SinIsPeriodic(m)
    ensures m.sin(x + (turns as real) * (2.0 * m.pi)) == m.sin(x)
    decreases turns
  {
    if turns > 0 {
      var prev := x + ((turns - 1) as real) * (2.0 * m.pi);
      SinPeriodic(m, x, turns - 1);
      assert (turns as real) * (2.0 * m.pi) == ((turns - 1) as real) * (2.0 * m.pi) + 2.0 * m.pi;
      assert m.sin(Turn(m, prev)) == m.sin(prev);
      SinEqualArgs(m, x + (turns as real) * (2.0 * m.pi), Turn(m, prev));
    } else {
      SinEqualArgs(m, x + (turns as real) * (2.0 * m.pi), x);
    }
  }

  /** Equal arguments give equal sines: two differently written phases that
      denote the same angle have the same sine. */
  lemma SinEqualArgs(m: Math, a: real, b: real)
    requires a == b
    ensures m.sin(a) == m.sin(b)
  {}
}
