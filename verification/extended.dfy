/** Objective values extended with positive infinity, the `f32::INFINITY`
    that a sequential selector starts from and the `+inf` that an IEEE
    division by a zero temperature produces. */
module Extended {

  datatype Extended = Finite(value: real) | PosInf

  /** `x < e` on the extended line. */
  predicate Below(x: real, e: Extended)
  {
    e.PosInf? || x < e.value
  }

  /** `x <= e` on the extended line. */
  predicate AtMost(x: real, e: Extended)
  {
    e.PosInf? || x <= e.value
  }
}
