/** The two torus radii of the device (src/constants.rs). */
module Constants {

  /** Radius of the containment tube, and every coordinate of the divergence sentinel. */
  const MinorRadius: real := 0.0944165

  /** Radius of the circle the tube is wrapped around, in the `z = 0` plane. */
  const MajorRadius: real := 0.2381
}
