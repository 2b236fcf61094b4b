/**
 * The three-component vector used for coil points, segment vectors, field
 * values and particle positions (src/point.rs).  Coordinates are reals; the
 * square root taken by `get_norm` and `get_distance` is a parameter `sqrt`
 * that must return the nonnegative root of every nonnegative argument.
 */
module Points {
  import opened RealFacts

  datatype Point = Point(x: real, y: real, z: real)

  const Zero := Point(0.0, 0.0, 0.0)

  /** `sqrt` returns the nonnegative square root of every nonnegative real. */
  ghost predicate IsSqrt(sqrt: real -> real) {
    forall v :: 0.0 <= v ==> 0.0 <= sqrt(v) && sqrt(v) * sqrt(v) == v
  }

  /** The nonnegative root is unique, so `sqrt` is pinned down wherever a root is known. */
  lemma SqrtOf(sqrt: real -> real, v: real, r: real)
    requires IsSqrt(sqrt)
    requires 0.0 <= r && r * r == v
    ensures sqrt(v) == r
  {
    var s := sqrt(v);
    assert 0.0 <= s && s * s == r * r;
    assert (s - r) * (s + r) == 0.0;
    if s + r != 0.0 {
      assert s - r == (s - r) * (s + r) / (s + r);
    }
  }

  function Add(a: Point, b: Point): Point {
    Point(a.x + b.x, a.y + b.y, a.z + b.z)
  }

  function Scale(p: Point, k: real): Point {
    Point(p.x * k, p.y * k, p.z * k)
  }

  function Neg(p: Point): Point {
    Point(-p.x, -p.y, -p.z)
  }

  /** The radicand of every norm and distance: `x * x + y * y + z * z`. */
  function SumOfSquares(x: real, y: real, z: real): (s: real)
    ensures 0.0 <= s
  {
    SquareFacts(x);
    SquareFacts(y);
    SquareFacts(z);
    x * x + y * y + z * z
  }

  /** `get_norm`: the Euclidean length, the nonnegative root of the sum of squares. */
  function Norm(p: Point, sqrt: real -> real): (r: real)
    requires IsSqrt(sqrt)
    ensures 0.0 <= r && r * r == SumOfSquares(p.x, p.y, p.z)
  {
    sqrt(SumOfSquares(p.x, p.y, p.z))
  }

  /** `get_displacement`: `self - other`; adding it back to `other` gives `self`. */
  function Displacement(self: Point, other: Point): (d: Point)
    ensures Add(other, d) == self
  {
    Point(self.x - other.x, self.y - other.y, self.z - other.z)
  }

  /** `get_distance`: computed without building the difference point, yet equal to its norm. */
  function Distance(self: Point, other: Point, sqrt: real -> real): (r: real)
    requires IsSqrt(sqrt)
    ensures 0.0 <= r
    ensures r == Norm(Displacement(self, other), sqrt)
  {
    var x := self.x - other.x;
    var y := self.y - other.y;
    var z := self.z - other.z;
    sqrt(SumOfSquares(x, y, z))
  }

  /**
   * `get_unit_vector`: each component divided by the norm.  The source
   * divides by zero for the zero vector; here that input is excluded.
   */
  function UnitVector(self: Point, sqrt: real -> real): (u: Point)
    requires IsSqrt(sqrt)
    requires self != Zero
    ensures Scale(u, Norm(self, sqrt)) == self
  {
    NormZeroIff(self, sqrt);
    var norm := Norm(self, sqrt);
    DivTimes(self.x, norm, self.x / norm);
    DivTimes(self.y, norm, self.y / norm);
    DivTimes(self.z, norm, self.z / norm);
    Point(self.x / norm, self.y / norm, self.z / norm)
  }

  lemma DisplacementSelfIsZero(a: Point)
    ensures Displacement(a, a) == Zero
  {
  }

  lemma DisplacementAntisymmetric(a: Point, b: Point)
    ensures Displacement(a, b) == Neg(Displacement(b, a))
  {
  }

  /** Two points coincide exactly when the displacement between them is zero. */
  lemma DisplacementZeroIff(a: Point, b: Point)
    ensures Displacement(a, b) == Zero <==> a == b
  {
  }

  /** Away from the origin some square is positive, so their sum is. */
  lemma SumOfSquaresPositive(p: Point)
    requires p != Zero
    ensures Positive(SumOfSquares(p.x, p.y, p.z))
  {
    if p.x < 0.0 {
      assert p.x * p.x == (-p.x) * (-p.x);
    }
    if p.y < 0.0 {
      assert p.y * p.y == (-p.y) * (-p.y);
    }
    if p.z < 0.0 {
      assert p.z * p.z == (-p.z) * (-p.z);
    }
    assert Positive(p.x * p.x + p.y * p.y + p.z * p.z);
    assert SumOfSquares(p.x, p.y, p.z) == p.x * p.x + p.y * p.y + p.z * p.z;
  }

  /** The root of a positive number is positive. */
  lemma SqrtPositive(sqrt: real -> real, v: real)
    requires IsSqrt(sqrt) && Positive(v)
    ensures Positive(sqrt(v))
  {
  }

  /** A norm is zero exactly for the zero vector, and positive otherwise. */
  lemma NormZeroIff(p: Point, sqrt: real -> real)
    requires IsSqrt(sqrt)
    ensures Norm(p, sqrt) == 0.0 <==> p == Zero
    ensures p != Zero ==> 0.0 < Norm(p, sqrt)
  {
    if p == Zero {
      ZeroSquare(p.x);
      SqrtOf(sqrt, 0.0, 0.0);
    } else {
      SumOfSquaresPositive(p);
      SqrtPositive(sqrt, SumOfSquares(p.x, p.y, p.z));
    }
  }

  /** Scaling a vector by `k` scales its norm by `|k|`. */
  lemma NormScale(p: Point, k: real, sqrt: real -> real)
    requires IsSqrt(sqrt)
    ensures Norm(Scale(p, k), sqrt) == Norm(p, sqrt) * Abs(k)
  {
    var n := Norm(p, sqrt);
    var q := Scale(p, k);
    ScaledSquares(p.x, p.y, p.z, k);
    assert SumOfSquares(q.x, q.y, q.z) == SumOfSquares(p.x, p.y, p.z) * (k * k);
    ProductSquare(n, Abs(k));
    AbsSquare(k);
    MulEq(n * n, SumOfSquares(p.x, p.y, p.z), Abs(k) * Abs(k), k * k);
    NonnegProduct(n, Abs(k));
    SqrtOf(sqrt, SumOfSquares(q.x, q.y, q.z), n * Abs(k));
  }

  /** A unit vector has norm one, and scaling it by the original norm gives the original back. */
  lemma UnitVectorProperties(v: Point, sqrt: real -> real)
    requires IsSqrt(sqrt)
    requires v != Zero
    ensures Norm(UnitVector(v, sqrt), sqrt) == 1.0
    ensures Scale(UnitVector(v, sqrt), Norm(v, sqrt)) == v
  {
    NormZeroIff(v, sqrt);
    var n := Norm(v, sqrt);
    var u := UnitVector(v, sqrt);
    ScaledSquares(u.x, u.y, u.z, n);
    var su := SumOfSquares(u.x, u.y, u.z);
    assert su * (n * n) == SumOfSquares(v.x, v.y, v.z);
    CancelFactor(su, n * n, SumOfSquares(v.x, v.y, v.z));
    SqrtOf(sqrt, 1.0, 1.0);
  }
}
