/** The real functions the store takes from Go's math package, by the laws they obey. */
module Oracles {
  import opened Arith

  ghost predicate IsSqrt(sqrt: real -> real) {
    forall x: real :: x >= 0.0 ==> sqrt(x) >= 0.0 && Sq(sqrt(x)) == x
  }

  ghost predicate IsLn(ln: real -> real) {
    && ln(1.0) == 0.0
    && forall x: real, y: real :: 0.0 < x < y ==> Rises(ln, x, y)
  }

  /** Named so that the law is used where a proof names two points, and nowhere else. */
  ghost predicate Rises(f: real -> real, x: real, y: real) { f(x) < f(y) }

  datatype Maths = Maths(ln: real -> real, sqrt: real -> real)

  ghost predicate IsMaths(p: Maths) { IsLn(p.ln) && IsSqrt(p.sqrt) }

  datatype Trig = Trig(sin: real -> real, cos: real -> real, atan2: (real, real) -> real)

  /** The Pythagorean identity, the double-angle formulas, and that atan2(y, x) is
      the direction of the point (x, y). */
  ghost predicate IsTrig(t: Trig) {
    && (forall x: real :: Sq(t.cos(x)) + Sq(t.sin(x)) == 1.0)
    && (forall x: real :: t.sin(2.0 * x) == 2.0 * Mul(t.sin(x), t.cos(x)))
    && (forall x: real :: t.cos(2.0 * x) == Sq(t.cos(x)) - Sq(t.sin(x)))
    && (forall x: real, y: real :: Mul(x, t.sin(t.atan2(y, x))) == Mul(y, t.cos(t.atan2(y, x))))
  }

  lemma SqrtPositive(sqrt: real -> real, x: real)
    requires IsSqrt(sqrt) && x > 0.0
    ensures sqrt(x) > 0.0
  {
  }
}
