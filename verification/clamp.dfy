/**
 * `clamp` from src/util/clamp.ts over JavaScript numbers, which may be infinite.
 * NaN is not modelled.
 */
module Clamping {

  /** A JavaScript number that is not NaN: a real or one of the two infinities. */
  datatype ExtReal = NegInf | Fin(v: real) | PosInf

  /** The order on extended reals. */
  predicate Le(a: ExtReal, b: ExtReal)
  {
    match (a, b)
    case (NegInf, _) => true
    case (_, PosInf) => true
    case (Fin(x), Fin(y)) => x <= y
    case _ => false
  }

  predicate Lt(a: ExtReal, b: ExtReal)
  {
    Le(a, b) && a != b
  }

  /** `Math.min` of two numbers. */
  function Min(a: ExtReal, b: ExtReal): (r: ExtReal)
    ensures Le(r, a) && Le(r, b)
    ensures r == a || r == b
  {
    if Le(a, b) then a else b
  }

  /** `Math.max` of two numbers. */
  function Max(a: ExtReal, b: ExtReal): (r: ExtReal)
    ensures Le(a, r) && Le(b, r)
    ensures r == a || r == b
  {
    if Le(a, b) then b else a
  }

  /**
   * `clamp(val, max, min)`: note the order of the bounds. When the bounds are
   * inverted the outer `Math.max` wins and the result is `min`.
   */
  function Clamp(val: ExtReal, max: ExtReal, min: ExtReal): (r: ExtReal)
    ensures Le(min, max) ==> Le(min, r) && Le(r, max)
    ensures Le(min, val) && Le(val, max) ==> r == val
    ensures Le(min, max) && Lt(max, val) ==> r == max
    ensures Lt(val, min) ==> r == min
    ensures Lt(max, min) ==> r == min
    ensures r == val || r == max || r == min
  {
    Max(min, Min(max, val))
  }

  /** Clamping an already clamped number changes nothing, whatever the bounds. */
  lemma ClampIdempotent(val: ExtReal, max: ExtReal, min: ExtReal)
    ensures Clamp(Clamp(val, max, min), max, min) == Clamp(val, max, min)
  {
  }
}
