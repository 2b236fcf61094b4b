/**
 * Segment geometry computed once before the simulation
 * (`compute_displacements`, `compute_all_displacements`, `compute_e_roof`,
 * `compute_all_e_roof`): a coil is a polyline of points, each pair of
 * consecutive points is a segment, and every segment gets its vector and
 * its unit tangent.
 */
module Geometry {
  import opened Points

  /** `compute_displacements`: over the windows of two points, the vector from the first to the second. */
  function ComputeDisplacements(coil: seq<Point>): (ds: seq<Point>)
    ensures |ds| == if |coil| < 2 then 0 else |coil| - 1
    ensures forall i :: 0 <= i < |ds| ==> ds[i] == Displacement(coil[i + 1], coil[i])
  {
    if |coil| < 2 then []
    else [Displacement(coil[1], coil[0])] + ComputeDisplacements(coil[1..])
  }

  /** The polyline that starts at `start` and then follows the segment vectors `ds` one after another. */
  function Walk(start: Point, ds: seq<Point>): (coil: seq<Point>)
    ensures |coil| == |ds| + 1 && coil[0] == start
    decreases |ds|
  {
    if ds == [] then [start]
    else [start] + Walk(Add(start, ds[0]), ds[1..])
  }

  /** The segment vectors lose nothing but the first point: walking them from it rebuilds the coil. */
  lemma {:induction false} WalkDisplacements(coil: seq<Point>)
    requires 1 <= |coil|
    ensures Walk(coil[0], ComputeDisplacements(coil)) == coil
  {
    if |coil| >= 2 {
      var ds := ComputeDisplacements(coil);
      assert ds[1..] == ComputeDisplacements(coil[1..]);
      WalkDisplacements(coil[1..]);
      assert Add(coil[0], ds[0]) == coil[1];
      assert coil == [coil[0]] + coil[1..];
    }
  }

  /** Conversely, the segment vectors of a walk are the steps it was built from. */
  lemma {:induction false} DisplacementsOfWalk(start: Point, ds: seq<Point>)
    ensures ComputeDisplacements(Walk(start, ds)) == ds
    decreases |ds|
  {
    if ds != [] {
      var coil := Walk(start, ds);
      DisplacementsOfWalk(Add(start, ds[0]), ds[1..]);
      assert coil[1..] == Walk(Add(start, ds[0]), ds[1..]);
      assert Displacement(coil[1], coil[0]) == ds[0];
      assert ds == [ds[0]] + ds[1..];
    }
  }

  /** `compute_all_displacements`: the segment vectors of every coil, coil by coil. */
  function ComputeAllDisplacements(coils: seq<seq<Point>>): (dss: seq<seq<Point>>)
    ensures |dss| == |coils|
    ensures forall c :: 0 <= c < |coils| ==> dss[c] == ComputeDisplacements(coils[c])
  {
    if coils == [] then []
    else [ComputeDisplacements(coils[0])] + ComputeAllDisplacements(coils[1..])
  }

  /** No two consecutive points of the coil coincide. */
  predicate Nondegenerate(coil: seq<Point>) {
    forall i :: 0 <= i < |coil| - 1 ==> coil[i] != coil[i + 1]
  }

  /** Every segment vector is nonzero, so each has a unit vector. */
  predicate NonzeroSegments(ds: seq<Point>) {
    forall i :: 0 <= i < |ds| ==> ds[i] != Zero
  }

  /** A coil has no zero segment vector exactly when no two consecutive points coincide. */
  lemma NondegenerateIff(coil: seq<Point>)
    ensures Nondegenerate(coil) <==> NonzeroSegments(ComputeDisplacements(coil))
  {
    var ds := ComputeDisplacements(coil);
    forall i | 0 <= i < |ds|
      ensures ds[i] == Zero <==> coil[i + 1] == coil[i]
    {
      DisplacementZeroIff(coil[i + 1], coil[i]);
    }
  }

  /**
   * `compute_e_roof`: the unit tangent of every segment.  The source divides
   * by a zero norm for a zero segment vector; here such a segment is excluded.
   */
  function ComputeERoof(ds: seq<Point>, sqrt: real -> real): (es: seq<Point>)
    requires IsSqrt(sqrt)
    requires NonzeroSegments(ds)
    ensures |es| == |ds|
    ensures forall i :: 0 <= i < |ds| ==> es[i] == UnitVector(ds[i], sqrt)
  {
    if ds == [] then []
    else [UnitVector(ds[0], sqrt)] + ComputeERoof(ds[1..], sqrt)
  }

  /** Every tangent has length one and, stretched by its segment's length, is the segment vector again. */
  lemma ERoofTangents(ds: seq<Point>, sqrt: real -> real)
    requires IsSqrt(sqrt)
    requires NonzeroSegments(ds)
    ensures forall i :: 0 <= i < |ds| ==>
      Norm(ComputeERoof(ds, sqrt)[i], sqrt) == 1.0 &&
      Scale(ComputeERoof(ds, sqrt)[i], Norm(ds[i], sqrt)) == ds[i]
  {
    var es := ComputeERoof(ds, sqrt);
    forall i | 0 <= i < |ds|
      ensures Norm(es[i], sqrt) == 1.0 && Scale(es[i], Norm(ds[i], sqrt)) == ds[i]
    {
      UnitVectorProperties(ds[i], sqrt);
    }
  }

  /** `compute_all_e_roof`: the unit tangents of every coil, coil by coil. */
  function ComputeAllERoof(dss: seq<seq<Point>>, sqrt: real -> real): (ess: seq<seq<Point>>)
    requires IsSqrt(sqrt)
    requires forall c :: 0 <= c < |dss| ==> NonzeroSegments(dss[c])
    ensures |ess| == |dss|
    ensures forall c :: 0 <= c < |dss| ==> ess[c] == ComputeERoof(dss[c], sqrt)
  {
    if dss == [] then []
    else [ComputeERoof(dss[0], sqrt)] + ComputeAllERoof(dss[1..], sqrt)
  }
}
