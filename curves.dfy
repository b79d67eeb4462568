/**
 * The interpolation tables (THROTTLE_MAP, BRAKE_MAP, APPS_3V3_SCALE_MAP) as the pedal code
 * uses them: an `interp` lookup over the ADC domain, the start of the domain (`start()`) and
 * the width of the valid range (`range()`). The tables' contents are not part of this model.
 */
module Curves {
  import opened Words

  datatype Curve = Curve(interp: U16 -> I16, start: U16, range: I16)

  /** A piecewise-linear table over an increasing input column never decreases. */
  ghost predicate Monotone(c: Curve)
  {
    forall x: U16, y: U16 :: x <= y ==> c.interp(x) <= c.interp(y)
  }
}
