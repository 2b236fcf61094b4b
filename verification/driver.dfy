/**
 * The simulation driver (`simulate_particles`): every step advances each
 * particle that has not left the torus by one call of the step function,
 * in place, and snapshots of the whole array are taken on a fixed schedule.
 * The step function is a parameter `step` (it stands for
 * `Integrator.SimulateStep` with the coil data and step size fixed); the
 * files the snapshots are written to are a ghost trace of `Snapshot`s.
 */
module Driver {
  import opened Points
  import opened Integrator

  /** What the body of the particle loop does to one particle: the sentinel is skipped, anything else is stepped. */
  function Advance(p: Point, step: Point -> Point): Point {
    if p == Divergent then p else step(p)
  }

  /** One pass of the particle loop over the whole array. */
  function StepAll(ps: seq<Point>, step: Point -> Point): (qs: seq<Point>)
    ensures |qs| == |ps|
    ensures forall j :: 0 <= j < |ps| ==> qs[j] == Advance(ps[j], step)
  {
    if ps == [] then []
    else [Advance(ps[0], step)] + StepAll(ps[1..], step)
  }

  /** The array after `t` passes. */
  function AfterSteps(ps: seq<Point>, t: nat, step: Point -> Point): (qs: seq<Point>)
    ensures |qs| == |ps|
  {
    if t == 0 then ps
    else StepAll(AfterSteps(ps, t - 1, step), step)
  }

  /** One particle on its own after `t` steps. */
  function ParticleAfter(p: Point, t: nat, step: Point -> Point): Point {
    if t == 0 then p
    else Advance(ParticleAfter(p, t - 1, step), step)
  }

  /** Particles do not interact: particle `j` after `t` steps depends on its own start value only. */
  lemma {:induction false} Independence(ps: seq<Point>, t: nat, step: Point -> Point)
    ensures forall j :: 0 <= j < |ps| ==> AfterSteps(ps, t, step)[j] == ParticleAfter(ps[j], t, step)
  {
    if t > 0 {
      Independence(ps, t - 1, step);
    }
  }

  /** A particle that is the sentinel after `t` steps is still the sentinel `k` steps later. */
  lemma {:induction false} SentinelStaysFrozen(p: Point, t: nat, k: nat, step: Point -> Point)
    requires ParticleAfter(p, t, step) == Divergent
    ensures ParticleAfter(p, t + k, step) == Divergent
  {
    if k > 0 {
      SentinelStaysFrozen(p, t, k - 1, step);
    }
  }

  /**
   * Where the step function is the integrator's step, a particle becomes
   * the sentinel in a step exactly when it already was one or its
   * Runge-Kutta result left the tube.
   */
  lemma AdvanceDivergentIff(p: Point, step: Point -> Point, field: Point -> Point, stepSize: real,
                            sqrt: real -> real)
    requires IsSqrt(sqrt)
    requires StagesDefined(p, field, stepSize, sqrt)
    requires step(p) == SimulateStep(p, field, stepSize, sqrt)
    ensures Advance(p, step) == Divergent <==> p == Divergent || Escaped(Rk4(p, field, stepSize, sqrt), sqrt)
  {
  }

  /** A snapshot: the step number and a copy of the particle array written for it. */
  datatype Snapshot = Snapshot(step: nat, particles: seq<Point>)

  /**
   * The snapshots written by the end of step `t`: the start values at step
   * 0, then the array after every step divisible by `writeFrequency`.
   */
  function Trace(initial: seq<Point>, t: nat, writeFrequency: nat, step: Point -> Point): seq<Snapshot>
    requires t == 0 || 0 < writeFrequency
  {
    if t == 0 then [Snapshot(0, initial)]
    else
      Trace(initial, t - 1, writeFrequency, step) +
      (if t % writeFrequency == 0 then [Snapshot(t, AfterSteps(initial, t, step))] else [])
  }

  lemma MulAtLeast(x: int, f: int)
    requires 1 <= x && 1 <= f
    ensures f <= x * f
  {
  }

  lemma MulMonotone(k: nat, k': nat, f: nat)
    requires k <= k'
    ensures k * f <= k' * f
  {
    if k < k' && 0 < f {
      MulAtLeast(k' - k, f);
      assert (k' - k) * f == k' * f - k * f;
    }
  }

  lemma MulGap(a: int, q: int, f: int)
    requires 0 < f
    ensures a > q ==> a * f - q * f >= f
  {
    if a > q {
      MulAtLeast(a - q, f);
      assert (a - q) * f == a * f - q * f;
    }
  }

  /** Quotient and remainder are the only ones with `s == a * f + b` and `0 <= b < f`. */
  lemma DivModUnique(s: int, f: int, a: int, b: int)
    requires 0 < f && 0 <= b < f && s == a * f + b
    ensures s / f == a && s % f == b
  {
    MulGap(a, s / f, f);
    MulGap(s / f, a, f);
  }

  /** Going from `s - 1` to `s` raises the quotient by one exactly when `s` is a multiple. */
  lemma DivStep(s: int, f: int)
    requires 1 <= s && 1 <= f
    ensures s / f == (s - 1) / f + (if s % f == 0 then 1 else 0)
  {
    var q, r := (s - 1) / f, (s - 1) % f;
    if r == f - 1 {
      DivModUnique(s, f, q + 1, 0);
    } else {
      DivModUnique(s, f, q, r + 1);
    }
  }

  /**
   * The schedule in closed form: by the end of step `t` there are
   * `t / writeFrequency + 1` snapshots, and snapshot `k` holds the array
   * after step `k * writeFrequency`.
   */
  lemma {:induction false} TraceCadence(initial: seq<Point>, t: nat, writeFrequency: nat, step: Point -> Point)
    requires 0 < writeFrequency
    ensures |Trace(initial, t, writeFrequency, step)| == t / writeFrequency + 1
    ensures forall k :: 0 <= k < |Trace(initial, t, writeFrequency, step)| ==>
      Trace(initial, t, writeFrequency, step)[k]
        == Snapshot(k * writeFrequency, AfterSteps(initial, k * writeFrequency, step))
  {
    if t > 0 {
      var f := writeFrequency;
      TraceCadence(initial, t - 1, f, step);
      DivStep(t, f);
      if t % f == 0 {
        DivModUnique(t, f, t / f, 0);
      }
    }
  }

  /** Every snapshot holds as many particles as the array. */
  lemma TraceKeepsCount(initial: seq<Point>, t: nat, writeFrequency: nat, step: Point -> Point)
    requires 0 < writeFrequency
    ensures forall k :: 0 <= k < |Trace(initial, t, writeFrequency, step)| ==>
      |Trace(initial, t, writeFrequency, step)[k].particles| == |initial|
  {
  }

  /** Once particle `j` is the sentinel in a snapshot, it is the sentinel in every later one. */
  lemma SnapshotsKeepSentinel(initial: seq<Point>, t: nat, writeFrequency: nat, step: Point -> Point,
                              j: nat, k: nat, k': nat)
    requires 0 < writeFrequency
    requires k <= k' < |Trace(initial, t, writeFrequency, step)|
    requires j < |Trace(initial, t, writeFrequency, step)[k].particles|
    requires Trace(initial, t, writeFrequency, step)[k].particles[j] == Divergent
    ensures j < |Trace(initial, t, writeFrequency, step)[k'].particles|
    ensures Trace(initial, t, writeFrequency, step)[k'].particles[j] == Divergent
  {
    var f := writeFrequency;
    var tr := Trace(initial, t, f, step);
    TraceCadence(initial, t, f, step);
    var early, late := k * f, k' * f;
    assert tr[k] == Snapshot(early, AfterSteps(initial, early, step));
    assert tr[k'] == Snapshot(late, AfterSteps(initial, late, step));
    MulMonotone(k, k', f);
    Independence(initial, early, step);
    Independence(initial, late, step);
    SentinelStaysFrozen(initial[j], early, late - early, step);
  }

  /**
   * The particle loop of one step (the inner loop of `simulate_particles`):
   * each particle in turn is skipped if it is the sentinel and otherwise
   * overwritten in place by the step of its own value.
   */
  method StepParticles(particles: array<Point>, step: Point -> Point)
    modifies particles
    ensures particles[..] == StepAll(old(particles[..]), step)
  {
    ghost var before := particles[..];
    var i := 0;
    while i < particles.Length
      invariant 0 <= i <= particles.Length
      invariant particles[..i] == StepAll(before, step)[..i]
      invariant particles[i..] == before[i..]
    {
      if particles[i] == Divergent {
      } else {
        particles[i] := step(particles[i]);
      }
      assert particles[i] == StepAll(before, step)[i];
      i := i + 1;
    }
    assert particles[..] == particles[..particles.Length];
  }

  /**
   * `simulate_particles`: snapshot the start values, then for each step
   * `1 ..= totalSteps` advance every particle in place and snapshot the
   * array when the step is a multiple of `writeFrequency`.  The source's
   * loop bound `total_steps + 1` is computed in 32 bits; here the loop runs
   * over all the steps (see `StepsAsWritten`).
   */
  method SimulateParticles(particles: array<Point>, totalSteps: nat, writeFrequency: nat, step: Point -> Point)
      returns (ghost trace: seq<Snapshot>)
    requires totalSteps == 0 || 0 < writeFrequency
    modifies particles
    ensures particles[..] == AfterSteps(old(particles[..]), totalSteps, step)
    ensures trace == Trace(old(particles[..]), totalSteps, writeFrequency, step)
  {
    ghost var initial := particles[..];
    trace := [Snapshot(0, particles[..])];
    var t := 1;
    while t <= totalSteps
      invariant 1 <= t <= totalSteps + 1
      invariant particles[..] == AfterSteps(initial, t - 1, step)
      invariant trace == Trace(initial, t - 1, writeFrequency, step)
    {
      StepParticles(particles, step);
      if t % writeFrequency == 0 {
        trace := trace + [Snapshot(t, particles[..])];
      }
      t := t + 1;
    }
  }

  /** The largest `u32`. */
  const U32Max: nat := 0xFFFF_FFFF

  /** The integers `lo, lo + 1, ..., hi - 1` (none when `hi <= lo`), as a Rust range `lo..hi` yields them. */
  function Range(lo: nat, hi: nat): (r: seq<nat>)
    ensures |r| == if lo <= hi then hi - lo else 0
    ensures forall i :: 0 <= i < |r| ==> r[i] == lo + i
    decreases hi - lo
  {
    if hi <= lo then [] else [lo] + Range(lo + 1, hi)
  }

  /** The steps `1..total_steps + 1` yields as written: the bound wraps to 0 in 32 bits when `total_steps` is the largest `u32`. */
  function StepsAsWritten(totalSteps: nat): seq<nat>
    requires totalSteps <= U32Max
  {
    Range(1, (totalSteps + 1) % (U32Max + 1))
  }

  /** The steps meant: `1 ..= totalSteps`, the ones `SimulateParticles` runs. */
  function Steps(totalSteps: nat): seq<nat> {
    Range(1, totalSteps + 1)
  }

  /** The intended steps are `1, 2, ..., totalSteps`, each once and in order. */
  lemma StepsAreEveryStep(totalSteps: nat)
    ensures |Steps(totalSteps)| == totalSteps
    ensures forall i :: 0 <= i < totalSteps ==> Steps(totalSteps)[i] == i + 1
  {
  }

  /** Below the largest `u32` the range as written yields the intended steps. */
  lemma StepsAsWrittenBelowMax(totalSteps: nat)
    requires totalSteps < U32Max
    ensures StepsAsWritten(totalSteps) == Steps(totalSteps)
  {
  }

  /** At the largest `u32` the range as written is empty, where `u32::MAX` steps were asked for. */
  lemma StepsAsWrittenAtMax()
    ensures StepsAsWritten(U32Max) == []
    ensures |Steps(U32Max)| == U32Max
  {
  }
}
