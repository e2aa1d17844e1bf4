/**
 * The air/water switch shared by the squid and every trash instance: a body is in water
 * when its y is below the surface (y = 0), and the body then gets the water set of
 * gravity scale, linear drag and angular drag instead of the air set.
 */
module Submersion {

  /** The three values written to a `Rigidbody2D` each `Update`. */
  datatype Coefficients = Coefficients(gravityScale: real, linearDrag: real, angularDrag: real)

  /** The configured air and water sets of one component. */
  datatype Profile = Profile(air: Coefficients, water: Coefficients)

  /** `transform.position.y < 0`: the surface itself (y = 0) counts as air. */
  predicate InWater(y: real) {
    y < 0.0
  }

  /** The set the body receives: the water set exactly when the flag holds. */
  function Select(p: Profile, inWater: bool): Coefficients {
    if inWater then p.water else p.air
  }
}
