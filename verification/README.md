# bs-solctra-rs in Dafny

A model of the core of bs-solctra-rs, a tracer of charged particles through
the magnetic field of a stellarator's coils. The model covers three parts.

- **Preprocessing.** Each coil is a polyline of points. The preprocessing
  computes one vector per segment (`compute_displacements`) and its unit
  tangent (`compute_e_roof`).
- **Integration.** The field at a point is the sum of the contributions of all
  segments (`compute_magnetic_field`). Each particle is moved along the field
  by a renormalised fourth-order Runge-Kutta step (`simulate_step`). A step
  that leaves the torus turns the particle into the sentinel
  `(MINOR_RADIUS, MINOR_RADIUS, MINOR_RADIUS)`.
- **The driver** (`simulate_particles`). It advances the particle array in
  place, step after step. It skips sentinels and writes snapshots on a fixed
  schedule.

Modules, one per file:

- `RealFacts` (`real_facts.dfy`): small lemmas of real arithmetic.
- `Points` (`points.dfy`): the vector type and its norm, distance,
  displacement and unit vector, over reals.
- `Constants` (`constants.dfy`): the torus radii.
- `Geometry` (`geometry.dfy`): the segment preprocessing.
- `Field` (`field.dfy`):
  - the structure of the field sum;
  - the nested field loops, as a method proved against the sum;
  - a proof that the preprocessed data is in bounds for those loops.
- `Integrator` (`integrator.dfy`): the Runge-Kutta step and the containment
  test.
- `Driver` (`driver.dfy`):
  - the driver loop, as a method over `array<Point>`;
  - its specification by iteration of one particle step;
  - the snapshot schedule.

Three pieces are parameters of the model rather than fixed definitions:

- **The square root**, `sqrt: real -> real`. The predicate `IsSqrt` requires
  it to return the nonnegative root of every nonnegative argument.
- **The field seen by the integrator**, `field: Point -> Point`. It stands for
  `compute_magnetic_field` with the coil data fixed.
- **The step function seen by the driver**, `step: Point -> Point`. It stands
  for `simulate_step` with the coil data and the step size fixed.

## Model

| member | source | states |
|---|---|---|
| Points.SumOfSquares | src/point.rs:12 | the radicand of a norm is never negative |
| Points.Norm | src/point.rs:11-13 | the norm is nonnegative and its square is the sum of the squared components |
| Points.Displacement | src/point.rs:22-27 | adding `self - other` back to `other` gives `self` |
| Points.Distance | src/point.rs:15-20 | the distance is nonnegative and equals the norm of the displacement |
| Points.DisplacementSelfIsZero | src/point.rs:22-27 | the displacement of a point from itself is zero |
| Points.DisplacementAntisymmetric | src/point.rs:22-27 | `a - b` is the negation of `b - a` |
| Points.DisplacementZeroIff | src/point.rs:22-27 | the displacement is zero exactly when the two points coincide |
| Points.SumOfSquaresPositive | src/point.rs:12 | away from the origin the radicand is positive |
| Points.SqrtPositive | src/point.rs:12 | the root of a positive radicand is positive |
| Points.NormZeroIff | src/point.rs:11-13 | the norm is zero exactly for the zero vector, and positive otherwise |
| Points.NormScale | src/point.rs:11-13 | scaling a vector by `k` scales its norm by `abs(k)` |
| Points.UnitVector | src/point.rs:29-35 | each component divided by the norm (nonzero input only); scaled back by the norm it gives the input |
| Points.UnitVectorProperties | src/point.rs:29-35 | for a nonzero vector, the unit vector has norm 1 and, scaled by the norm, gives the vector back |
| Geometry.ComputeDisplacements | src/simulation.rs:181-185 | there are `len - 1` segment vectors (none below two points), and entry `i` is `coil[i+1] - coil[i]` |
| Geometry.Walk | src/simulation.rs:181-185 | the polyline rebuilt from a start point and segment vectors has one more point than there are vectors, and starts at the start point |
| Geometry.WalkDisplacements | src/simulation.rs:181-185 | walking the segment vectors from the first point rebuilds the coil |
| Geometry.DisplacementsOfWalk | src/simulation.rs:181-185 | the segment vectors of a walk are the steps it was built from |
| Geometry.ComputeAllDisplacements | src/simulation.rs:187-189 | one entry per coil, in order, each the segment vectors of that coil |
| Geometry.NondegenerateIff | src/simulation.rs:181-185 | no segment vector is zero exactly when no two consecutive points coincide |
| Geometry.ComputeERoof | src/simulation.rs:191-196 | one tangent per segment vector, in order, each the unit vector of that segment vector |
| Geometry.ERoofTangents | src/simulation.rs:191-196 | each tangent has norm 1 and, scaled by its segment's length, is the segment vector |
| Geometry.ComputeAllERoof | src/simulation.rs:198-203 | one entry per coil, in order, each the tangents of that coil's segment vectors |
| Field.Cross | src/simulation.rs:44-46 | the cross product `u x v` the three accumulation lines add to `b`, with the sign of line 45 (no contract; its meaning is `Field.SegmentFieldPerpendicular`) |
| Field.SegmentField | src/simulation.rs:24-46 | one segment's contribution: the multiplier-scaled tangent crossed with `rmi` scaled by the coefficient (no contract; see `Field.SegmentFieldPerpendicular`) |
| Field.SegmentFieldPerpendicular | src/simulation.rs:24-46 | one segment's contribution is perpendicular to the segment's tangent and to the vector from the segment's start to the particle |
| Field.ComputeMagneticField | src/simulation.rs:9-50 | the nested loops stay in bounds and return the sum over all coils and all their segments of the segment contributions |
| Field.PreprocessedIndexable | src/simulation.rs:22-31 | when every coil is nonempty and has no repeated consecutive point, the preprocessed tangents exist, and every `coils[c][i+1]`, `displacements[c][i]` and `e_roof[c][i]` the field loops read is in bounds |
| Field.FieldSumAppend | src/simulation.rs:22-48 | appending a coil does not change the partial sum over the earlier coils |
| Field.AddCoil | src/simulation.rs:22-48 | superposition: the field of the coils plus one more is the old field plus that coil's field |
| Integrator.StageStep | src/simulation.rs:59-63 | each renormalised stage has length `abs(step_size)` and points along the field: `k * norm(b) == b * step_size` |
| Integrator.HalfAhead | src/simulation.rs:64-68 | the point `k / 2 + particle` (no contract) |
| Integrator.FullAhead | src/simulation.rs:86-90 | the point `k + particle` (no contract) |
| Integrator.StagesDefined | src/simulation.rs:59-95 | the field is nonzero at the four points where the stages evaluate it, the only places the source divides by a field norm (no contract) |
| Integrator.NonvanishingStages | src/simulation.rs:59-95 | a field without zeros has every stage defined at every particle |
| Integrator.Combine | src/simulation.rs:96-100 | `particle + (k1 + 2 k2 + 2 k3 + k4) / 6` (no contract; see `Integrator.CombineEqualStages`) |
| Integrator.Rk4 | src/simulation.rs:59-100 | the four stages at the particle, half of `k1` ahead, half of `k2` ahead and all of `k3` ahead, then their combination (no contract; see `Integrator.UniformFieldStep`) |
| Integrator.CombineEqualStages | src/simulation.rs:96-100 | the weights 1, 2, 2, 1 over 6 sum to one: four equal stages move the particle by exactly one stage |
| Integrator.UniformFieldStep | src/simulation.rs:59-100 | in a constant field, one Runge-Kutta step moves the particle by one stage along the field |
| Integrator.Escaped | src/simulation.rs:102-118 | the containment test: the distance from the result to the point of the major circle in its direction exceeds the minor radius (no contract; see `Integrator.AxisNotEscaped`, `Integrator.SentinelEscapes`) |
| Integrator.AxisNotEscaped | src/simulation.rs:102-114 | a result on the `z` axis is never declared out of the torus |
| Integrator.SentinelDistance | src/simulation.rs:107-114 | with the two radii, the sentinel is farther than the minor radius from its point on the major circle |
| Integrator.SentinelEscapes | src/simulation.rs:134-138 | the sentinel itself fails the containment test |
| Integrator.SimulateStep | src/simulation.rs:52-121 | the result is either the Runge-Kutta combination or the sentinel, and it is the sentinel exactly when the combination left the tube |
| Driver.Advance | src/simulation.rs:147-152 | the sentinel is skipped, any other particle is replaced by one step of its own value (no contract; see `Driver.StepAll`, `Driver.SentinelStaysFrozen`) |
| Driver.StepAll | src/simulation.rs:147-153 | one pass keeps the number of particles and replaces particle `j` by the skip-or-step of its own old value only |
| Driver.AfterSteps | src/simulation.rs:146-153 | no number of passes changes the number of particles |
| Driver.Independence | src/simulation.rs:147-152 | particle `j` after `t` steps depends only on its own initial value |
| Driver.SentinelStaysFrozen | src/simulation.rs:147-149 | a particle that is the sentinel stays the sentinel in every later step |
| Driver.AdvanceDivergentIff | src/simulation.rs:147-152 | with the integrator's step, a particle is the sentinel after a step exactly when it was before or its Runge-Kutta result left the tube |
| Driver.Trace | src/simulation.rs:142-159 | the snapshots written by the end of step `t`: step 0, then each step that is a multiple of `write_frequency` (no contract; see `Driver.TraceCadence`) |
| Driver.TraceCadence | src/simulation.rs:142-159 | by step `t` there are `t / write_frequency + 1` snapshots, and snapshot `k` holds the array after step `k * write_frequency` |
| Driver.TraceKeepsCount | src/simulation.rs:142-159 | every snapshot holds as many particles as the array |
| Driver.SnapshotsKeepSentinel | src/simulation.rs:147-159 | a particle that is the sentinel in one snapshot is the sentinel in every later snapshot |
| Driver.StepParticles | src/simulation.rs:147-153 | the particle loop of one step leaves the array holding, at every index, the skip-or-step of the old value there, and changes nothing else |
| Driver.SimulateParticles | src/simulation.rs:123-161 | after the call the array holds the particles after `total_steps` passes, and the snapshots taken are the schedule `Trace` |
| Driver.Range | src/simulation.rs:146 | the range `lo..hi` yields `hi - lo` integers (none when `hi <= lo`), counting up from `lo` |
| Driver.StepsAsWritten | src/simulation.rs:146 | the steps `1..total_steps + 1` yields with the bound computed in 32 bits (no contract; see `Driver.StepsAsWrittenAtMax`) |
| Driver.Steps | src/simulation.rs:146 | the intended steps `1..=total_steps` (no contract; see `Driver.StepsAreEveryStep`) |
| Driver.StepsAreEveryStep | src/simulation.rs:146 | the intended steps are `1..=total_steps`, each once and in order |
| Driver.StepsAsWrittenBelowMax | src/simulation.rs:146 | below `u32::MAX` the loop bound as written yields exactly the intended steps |
| Driver.StepsAsWrittenAtMax | src/simulation.rs:146 | at `u32::MAX` the bound as written yields no step, where `u32::MAX` steps were asked for |

## Left out

- Floating point: every coordinate is a real, with no rounding, no infinities and no NaN. The fixed regression value of the integration test depends on `f64` rounding and is not modelled.
- The square root is the parameter `sqrt` rather than `f64::sqrt`.
- Points.UnitVector: the zero vector is excluded by a precondition. The source divides by a zero norm there and produces NaN components.
- Geometry.ComputeERoof: requires every segment vector to be nonzero, for the same reason. `Geometry.NondegenerateIff` states when that holds.
- Field.SegmentField: the Biot-Savart scalar `c` (src/simulation.rs:34-38) and the multiplier `(MIU * I) / (4.0 * PI)` (line 15) are parameters of a `Law`. The coefficient is given the three vectors rather than their three norms, so the model does not record that `c` depends only on the norms.
- Field.ComputeMagneticField: the three componentwise accumulation lines (44-46) are one vector addition of the cross product. Real addition is associative, so the order in which the floating-point sums are rounded is not captured.
- Field.ComputeMagneticField: requires every coil to be nonempty and every index to exist. The source underflows `len() - 1` on an empty coil and panics on an out-of-bounds index.
- Integrator.StageStep: requires a nonzero field, because the source divides by its norm. `Integrator.Rk4` and `Integrator.SimulateStep` require this (`Integrator.StagesDefined`) only at the four points where the stages evaluate the field.
- Integrator.Escaped: for a result on the `z` axis, the source computes a NaN origin, and `NaN > MINOR_RADIUS` is false. The model states that outcome directly ("not escaped") instead of modelling NaN.
- Exact equality with the sentinel (src/simulation.rs:148) is real equality rather than `f64` equality.
- Integrator.Rk4: takes the field as a parameter `field`, as does Integrator.SimulateStep. `Field.ComputeMagneticField` and `Field.TotalField` model the field separately, and no lemma composes the two.
- Driver.SimulateParticles: `coils`, `displacements`, `e_roof` and `step_size` are folded into the `step` parameter.
- Driver.SimulateParticles: `output_dir` and the calls to `write_points_to_file` are replaced by a ghost trace of `Snapshot`s. A failed write, which panics in the source, is not modelled.
- Driver.SimulateParticles: `total_steps` and `write_frequency` are unbounded naturals. The 32-bit bound is modelled separately by `Driver.StepsAsWritten` (see Findings).
- Driver.SimulateParticles: `write_frequency == 0` is excluded by a precondition whenever at least one step runs, because the source panics on `step % 0`.
- `read_coil_data_directory`, `read_from_file`, `write_points_to_file` and the `Display` implementation of `Point` are file I/O and formatting, and are not modelled.
- The command line and process setup are not modelled: `src/main.rs`, `src/args.rs` and `src/utils.rs`. They hold argument parsing, logging setup and directory creation, all calls into libraries.
- The call at src/main.rs:52-60 passes seven arguments to the eight-parameter `simulate_particles`; `write_frequency` is missing. That call site is not modelled.
- Logging (`debug!`, `info!`, `trace!`) has no behaviour to model.
- `MIU`, `I` and `PI` (src/constants.rs:3-5) feed only the multiplier, which is a parameter.

## Findings

| source | as written | input that shows it | evidently intended | confidence | as-written member | corrected member |
|---|---|---|---|---|---|---|
| src/simulation.rs:146 | `for step in 1..total_steps + 1` adds 1 to a `u32`. In a release build the sum wraps to 0 and the range is empty. A debug build panics on the overflow instead. | `total_steps == u32::MAX` (4294967295) | run steps `1..=total_steps`, all `u32::MAX` of them | medium; not executed | Driver.StepsAsWritten, Driver.StepsAsWrittenAtMax | Driver.Steps, Driver.StepsAreEveryStep, Driver.SimulateParticles |
