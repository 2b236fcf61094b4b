/**
 * The magnetic field at a particle (`compute_magnetic_field`): the sum, over
 * every segment of every coil, of that segment's Biot-Savart contribution.
 * The structure of the contribution (the two vectors from the segment ends,
 * the scaled tangent, the cross product) is modelled; the scalar
 * coefficient and the physical multiplier are parameters.
 */
module Field {
  import opened Points
  import opened Geometry

  /**
   * The constants of the law: `multiplier` is `(MIU * I) / (4.0 * PI)`, and
   * `coefficient(segment, rmi, rmf)` is the scalar `c` the source computes
   * from the norms of the segment vector and of the vectors from the
   * segment's two ends to the particle.
   */
  datatype Law = Law(multiplier: real, coefficient: (Point, Point, Point) -> real)

  /** The cross product `u x v`, componentwise as the three accumulation lines add it to the field. */
  function Cross(u: Point, v: Point): Point {
    Point(u.y * v.z - u.z * v.y, -(u.x * v.z - u.z * v.x), u.x * v.y - u.y * v.x)
  }

  function Dot(a: Point, b: Point): real {
    a.x * b.x + a.y * b.y + a.z * b.z
  }

  /**
   * The contribution of the segment from `start` to `end`, with unit
   * tangent `tangent` and segment vector `segment`: the tangent scaled by
   * the multiplier, crossed with the vector from the segment's start to the
   * particle scaled by the coefficient.
   */
  function SegmentField(law: Law, particle: Point, start: Point, end: Point,
                        tangent: Point, segment: Point): Point
  {
    var rmi := Displacement(particle, start);
    var rmf := Displacement(particle, end);
    var u := Point(law.multiplier * tangent.x, law.multiplier * tangent.y, law.multiplier * tangent.z);
    var c := law.coefficient(segment, rmi, rmf);
    var v := Point(rmi.x * c, rmi.y * c, rmi.z * c);
    Cross(u, v)
  }

  /**
   * A segment's contribution is perpendicular to the segment and to the
   * vector from the segment's start to the particle.
   */
  lemma SegmentFieldPerpendicular(law: Law, particle: Point, start: Point, end: Point,
                                  tangent: Point, segment: Point)
    ensures Dot(tangent, SegmentField(law, particle, start, end, tangent, segment)) == 0.0
    ensures Dot(Displacement(particle, start), SegmentField(law, particle, start, end, tangent, segment)) == 0.0
  {
  }

  /**
   * Every index the field loops use exists: each coil has a point (so
   * `len() - 1` does not underflow), and for each segment `i` of coil `c`
   * there is a segment vector and a tangent.
   */
  predicate FieldIndexable(coils: seq<seq<Point>>, displacements: seq<seq<Point>>, eRoof: seq<seq<Point>>) {
    |coils| <= |displacements| && |coils| <= |eRoof| &&
    forall c :: 0 <= c < |coils| ==>
      1 <= |coils[c]| && |coils[c]| - 1 <= |displacements[c]| && |coils[c]| - 1 <= |eRoof[c]|
  }

  /** The sum of the contributions of the first `n` segments of one coil. */
  function CoilField(law: Law, particle: Point, coil: seq<Point>, ds: seq<Point>, es: seq<Point>,
                     n: nat): Point
    requires n < |coil| && n <= |ds| && n <= |es|
  {
    if n == 0 then Zero
    else Add(CoilField(law, particle, coil, ds, es, n - 1),
             SegmentField(law, particle, coil[n - 1], coil[n], es[n - 1], ds[n - 1]))
  }

  /** The sum of the fields of the first `n` coils, each over all its segments. */
  function FieldSum(law: Law, particle: Point, coils: seq<seq<Point>>, displacements: seq<seq<Point>>,
                    eRoof: seq<seq<Point>>, n: nat): Point
    requires FieldIndexable(coils, displacements, eRoof)
    requires n <= |coils|
  {
    if n == 0 then Zero
    else
      var c := n - 1;
      Add(FieldSum(law, particle, coils, displacements, eRoof, c),
          CoilField(law, particle, coils[c], displacements[c], eRoof[c], |coils[c]| - 1))
  }

  /** The field of all coils. */
  function TotalField(law: Law, particle: Point, coils: seq<seq<Point>>, displacements: seq<seq<Point>>,
                      eRoof: seq<seq<Point>>): Point
    requires FieldIndexable(coils, displacements, eRoof)
  {
    FieldSum(law, particle, coils, displacements, eRoof, |coils|)
  }

  /**
   * `compute_magnetic_field`: the accumulator starts at zero and each
   * segment's cross product is added to it, coil after coil.
   */
  method ComputeMagneticField(law: Law, particle: Point, coils: seq<seq<Point>>,
                              displacements: seq<seq<Point>>, eRoof: seq<seq<Point>>) returns (b: Point)
    requires FieldIndexable(coils, displacements, eRoof)
    ensures b == TotalField(law, particle, coils, displacements, eRoof)
  {
    b := Point(0.0, 0.0, 0.0);
    var coil := 0;
    while coil < |coils|
      invariant 0 <= coil <= |coils|
      invariant b == FieldSum(law, particle, coils, displacements, eRoof, coil)
    {
      ghost var before := b;
      var point := 0;
      while point < |coils[coil]| - 1
        invariant 0 <= point <= |coils[coil]| - 1
        invariant b == Add(before, CoilField(law, particle, coils[coil], displacements[coil], eRoof[coil], point))
      {
        var contribution := SegmentField(law, particle, coils[coil][point], coils[coil][point + 1],
                                         eRoof[coil][point], displacements[coil][point]);
        b := Add(b, contribution);
        point := point + 1;
      }
      assert b == FieldSum(law, particle, coils, displacements, eRoof, coil + 1);
      coil := coil + 1;
    }
  }

  /**
   * The coil data produced by the preprocessing is indexable by the field
   * loops whenever every coil has at least one point and no repeated
   * consecutive point.
   */
  lemma PreprocessedIndexable(coils: seq<seq<Point>>, sqrt: real -> real)
    requires IsSqrt(sqrt)
    requires forall c :: 0 <= c < |coils| ==> 1 <= |coils[c]| && Nondegenerate(coils[c])
    ensures forall c :: 0 <= c < |coils| ==> NonzeroSegments(ComputeAllDisplacements(coils)[c])
    ensures FieldIndexable(coils, ComputeAllDisplacements(coils),
                           ComputeAllERoof(ComputeAllDisplacements(coils), sqrt))
  {
    var dss := ComputeAllDisplacements(coils);
    forall c | 0 <= c < |coils|
      ensures NonzeroSegments(dss[c])
    {
      NondegenerateIff(coils[c]);
    }
  }

  /** Appending a coil leaves the sum over the first `n` coils unchanged. */
  lemma {:induction false} FieldSumAppend(law: Law, particle: Point, coils: seq<seq<Point>>,
                                          displacements: seq<seq<Point>>, eRoof: seq<seq<Point>>,
                                          coil: seq<Point>, ds: seq<Point>, es: seq<Point>, n: nat)
    requires FieldIndexable(coils, displacements, eRoof)
    requires FieldIndexable(coils + [coil], displacements + [ds], eRoof + [es])
    requires n <= |coils|
    ensures FieldSum(law, particle, coils + [coil], displacements + [ds], eRoof + [es], n)
         == FieldSum(law, particle, coils, displacements, eRoof, n)
  {
    if n > 0 {
      var c := n - 1;
      assert (coils + [coil])[c] == coils[c];
      assert (displacements + [ds])[c] == displacements[c];
      assert (eRoof + [es])[c] == eRoof[c];
      FieldSumAppend(law, particle, coils, displacements, eRoof, coil, ds, es, c);
    }
  }

  /** Superposition: adding a coil adds its own field to the total. */
  lemma AddCoil(law: Law, particle: Point, coils: seq<seq<Point>>, displacements: seq<seq<Point>>,
                eRoof: seq<seq<Point>>, coil: seq<Point>, ds: seq<Point>, es: seq<Point>)
    requires FieldIndexable(coils, displacements, eRoof)
    requires |coils| == |displacements| == |eRoof|
    requires 1 <= |coil| && |coil| - 1 <= |ds| && |coil| - 1 <= |es|
    ensures FieldIndexable(coils + [coil], displacements + [ds], eRoof + [es])
    ensures TotalField(law, particle, coils + [coil], displacements + [ds], eRoof + [es])
         == Add(TotalField(law, particle, coils, displacements, eRoof),
                CoilField(law, particle, coil, ds, es, |coil| - 1))
  {
    var coils', displacements', eRoof' := coils + [coil], displacements + [ds], eRoof + [es];
    forall c | 0 <= c < |coils'|
      ensures 1 <= |coils'[c]| && |coils'[c]| - 1 <= |displacements'[c]| && |coils'[c]| - 1 <= |eRoof'[c]|
    {
      if c < |coils| {
        assert coils'[c] == coils[c] && displacements'[c] == displacements[c] && eRoof'[c] == eRoof[c];
      }
    }
    assert FieldIndexable(coils', displacements', eRoof');
    FieldSumAppend(law, particle, coils, displacements, eRoof, coil, ds, es, |coils|);
    assert coils'[|coils|] == coil && displacements'[|coils|] == ds && eRoof'[|coils|] == es;
    assert FieldSum(law, particle, coils', displacements', eRoof', |coils| + 1)
        == Add(FieldSum(law, particle, coils', displacements', eRoof', |coils|),
               CoilField(law, particle, coil, ds, es, |coil| - 1));
  }
}
