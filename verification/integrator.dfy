/**
 * One integration step of a particle along the magnetic field line
 * (`simulate_step`): a fourth-order Runge-Kutta step whose four stages are
 * the field direction renormalised to the step length, followed by the
 * containment test against the torus.  The field itself is a parameter
 * `field`; it stands for `compute_magnetic_field` with the coil data fixed
 * (`Field.ComputeMagneticField` is proved to compute `Field.TotalField`).
 */
module Integrator {
  import opened RealFacts
  import opened Points
  import opened Constants

  /** The sentinel every coordinate of which is the minor radius: the value of a particle that left the torus. */
  const Divergent := Point(MinorRadius, MinorRadius, MinorRadius)

  /**
   * One stage `k`: the field `b` divided by its norm, then multiplied by
   * the step size.  It has the step size for length and points along `b`
   * (against it for a negative step size).
   */
  function StageStep(b: Point, stepSize: real, sqrt: real -> real): (k: Point)
    requires IsSqrt(sqrt)
    requires b != Zero
    ensures Norm(k, sqrt) == Abs(stepSize)
    ensures Scale(k, Norm(b, sqrt)) == Scale(b, stepSize)
  {
    UnitVectorProperties(b, sqrt);
    NormScale(UnitVector(b, sqrt), stepSize, sqrt);
    var u := UnitVector(b, sqrt);
    var n := Norm(b, sqrt);
    assert (u.x * stepSize) * n == (u.x * n) * stepSize;
    assert (u.y * stepSize) * n == (u.y * n) * stepSize;
    assert (u.z * stepSize) * n == (u.z * n) * stepSize;
    Scale(u, stepSize)
  }

  /** The point half a stage ahead of `particle` (`k / 2 + particle`). */
  function HalfAhead(particle: Point, k: Point): Point {
    Point(k.x / 2.0 + particle.x, k.y / 2.0 + particle.y, k.z / 2.0 + particle.z)
  }

  /** The point a whole stage ahead of `particle` (`k + particle`). */
  function FullAhead(particle: Point, k: Point): Point {
    Point(k.x + particle.x, k.y + particle.y, k.z + particle.z)
  }

  /**
   * The field is nonzero at the four points where the stages evaluate it,
   * so every stage can be normalised: at the particle, half of `k1` ahead,
   * half of `k2` ahead and all of `k3` ahead.
   */
  ghost predicate StagesDefined(particle: Point, field: Point -> Point, stepSize: real, sqrt: real -> real)
    requires IsSqrt(sqrt)
  {
    field(particle) != Zero &&
    var k1 := StageStep(field(particle), stepSize, sqrt);
    field(HalfAhead(particle, k1)) != Zero &&
    var k2 := StageStep(field(HalfAhead(particle, k1)), stepSize, sqrt);
    field(HalfAhead(particle, k2)) != Zero &&
    var k3 := StageStep(field(HalfAhead(particle, k2)), stepSize, sqrt);
    field(FullAhead(particle, k3)) != Zero
  }

  /** A field without zeros has every stage defined at every particle. */
  lemma NonvanishingStages(particle: Point, field: Point -> Point, stepSize: real, sqrt: real -> real)
    requires IsSqrt(sqrt)
    requires forall q :: field(q) != Zero
    ensures StagesDefined(particle, field, stepSize, sqrt)
  {
  }

  /** The Runge-Kutta combination `particle + (k1 + 2 k2 + 2 k3 + k4) / 6`. */
  function Combine(particle: Point, k1: Point, k2: Point, k3: Point, k4: Point): Point {
    Point(particle.x + (k1.x + 2.0 * k2.x + 2.0 * k3.x + k4.x) / 6.0,
          particle.y + (k1.y + 2.0 * k2.y + 2.0 * k3.y + k4.y) / 6.0,
          particle.z + (k1.z + 2.0 * k2.z + 2.0 * k3.z + k4.z) / 6.0)
  }

  /**
   * The four stages: `k1` at the particle, `k2` at half of `k1` ahead,
   * `k3` at half of `k2` ahead, `k4` at all of `k3` ahead; then their
   * combination.
   */
  function Rk4(particle: Point, field: Point -> Point, stepSize: real, sqrt: real -> real): Point
    requires IsSqrt(sqrt)
    requires StagesDefined(particle, field, stepSize, sqrt)
  {
    var k1 := StageStep(field(particle), stepSize, sqrt);
    var k2 := StageStep(field(HalfAhead(particle, k1)), stepSize, sqrt);
    var k3 := StageStep(field(HalfAhead(particle, k2)), stepSize, sqrt);
    var k4 := StageStep(field(FullAhead(particle, k3)), stepSize, sqrt);
    Combine(particle, k1, k2, k3, k4)
  }

  /** The weights `1, 2, 2, 1` over `6` sum to one: four equal stages move the particle by one stage. */
  lemma CombineEqualStages(particle: Point, k: Point)
    ensures Combine(particle, k, k, k, k) == Add(particle, k)
  {
  }

  /** In a field of one constant value, one step moves the particle by exactly one stage along it. */
  lemma UniformFieldStep(particle: Point, field: Point -> Point, stepSize: real, sqrt: real -> real)
    requires IsSqrt(sqrt)
    requires field(particle) != Zero
    requires forall q :: field(q) == field(particle)
    ensures Rk4(particle, field, stepSize, sqrt) == Add(particle, StageStep(field(particle), stepSize, sqrt))
  {
  }

  /**
   * The containment test: `p` is the result dropped onto the `z = 0`
   * plane, `origin` the point of the major circle in its direction, and the
   * result has left when its distance from `origin` exceeds the minor
   * radius.  On the `z` axis the direction is undefined (the norm of `p` is
   * zero and the source's comparison is false), so such a result stays.
   */
  predicate Escaped(result: Point, sqrt: real -> real)
    requires IsSqrt(sqrt)
  {
    var p := Point(result.x, result.y, 0.0);
    var n := Norm(p, sqrt);
    n != 0.0 &&
    Distance(result, Point(MajorRadius * p.x / n, MajorRadius * p.y / n, 0.0), sqrt) > MinorRadius
  }

  /** A result on the `z` axis never escapes. */
  lemma AxisNotEscaped(result: Point, sqrt: real -> real)
    requires IsSqrt(sqrt)
    requires result.x == 0.0 && result.y == 0.0
    ensures !Escaped(result, sqrt)
  {
    NormZeroIff(Point(result.x, result.y, 0.0), sqrt);
  }

  /** The arithmetic behind `SentinelEscapes`, over plain reals. */
  lemma SentinelDistance(m: real, major: real, n: real, t: real, d: real)
    requires m == MinorRadius && major == MajorRadius
    requires 0.0 <= n && n * n == m * m + m * m + 0.0 * 0.0
    requires n != 0.0 && t == m - major * m / n
    requires 0.0 <= d && d * d == t * t + t * t + (m - 0.0) * (m - 0.0)
    ensures m < d
  {
    if n == major {
      assert false;
    }
    assert t != 0.0;
    SquareFacts(t);
    SquareMonotone(d, m);
  }

  /**
   * The sentinel itself lies outside the tube: its distance from the major
   * circle is more than the minor radius.
   */
  lemma SentinelEscapes(sqrt: real -> real)
    requires IsSqrt(sqrt)
    ensures Escaped(Divergent, sqrt)
  {
    var m := MinorRadius;
    var p := Point(m, m, 0.0);
    NormZeroIff(p, sqrt);
    var n := Norm(p, sqrt);
    var origin := Point(MajorRadius * p.x / n, MajorRadius * p.y / n, 0.0);
    var d := Distance(Divergent, origin, sqrt);
    var e := Displacement(Divergent, origin);
    assert d * d == SumOfSquares(e.x, e.y, e.z);
    SentinelDistance(m, MajorRadius, n, m - MajorRadius * m / n, d);
  }

  /**
   * `simulate_step`: the Runge-Kutta result, or the sentinel when that
   * result has left the tube.  Because the sentinel lies outside the tube,
   * the sentinel comes back exactly when the result escaped.
   */
  function SimulateStep(particle: Point, field: Point -> Point, stepSize: real, sqrt: real -> real): (r: Point)
    requires IsSqrt(sqrt)
    requires StagesDefined(particle, field, stepSize, sqrt)
    ensures r == Rk4(particle, field, stepSize, sqrt) || r == Divergent
    ensures r == Divergent <==> Escaped(Rk4(particle, field, stepSize, sqrt), sqrt)
  {
    SentinelEscapes(sqrt);
    var result := Rk4(particle, field, stepSize, sqrt);
    if Escaped(result, sqrt) then Divergent else result
  }
}
