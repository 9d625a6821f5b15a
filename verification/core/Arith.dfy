/** Products and linear combinations of reals as named functions, with the few
    polynomial facts the proofs need. Naming them keeps nonlinear terms out of
    proofs that only have to move them around. */
module Arith {

  function Mul(a: real, b: real): real { a * b }

  function Sq(a: real): real { Mul(a, a) }

  function Lin(c: real, a: real, d: real, b: real): real { c * a + d * b }

  function Div(x: real, n: real): real
    requires n != 0.0
  {
    x / n
  }

  /** A quotient, for proofs that show the zero denominator never occurs. */
  function Over(x: real, y: real): real { if y == 0.0 then 0.0 else x / y }

  lemma SqNonNegative(a: real)
    ensures Sq(a) >= 0.0
    ensures Sq(a) == 0.0 <==> a == 0.0
  {
    if a > 0.0 {
      MulPositive(a, a);
    } else if a < 0.0 {
      MulPositive(-a, -a);
      assert Sq(a) == Mul(-a, -a);
    }
  }

  lemma MulPositive(a: real, b: real)
    requires a > 0.0 && b > 0.0
    ensures Mul(a, b) > 0.0
  {
  }

  lemma MulMonotone(a: real, b: real, c: real)
    requires a <= b && 0.0 <= c
    ensures Mul(a, c) <= Mul(b, c)
  {
  }

  lemma SameFactor(x: real, y: real, d: real)
    requires d > 0.0 && Mul(x, d) == Mul(y, d)
    ensures x == y
  {
  }

  lemma DifferenceOfSquares(a: real, b: real)
    ensures Mul(a - b, a + b) == Sq(a) - Sq(b)
  {
  }

  /** Comparing squares compares the numbers. */
  lemma SqLess(a: real, b: real)
    requires Sq(a) <= Sq(b) && b >= 0.0
    ensures a <= b
  {
    if a > b {
      DifferenceOfSquares(a, b);
      MulPositive(a - b, a + b);
      assert false;
    }
  }

  lemma LinSum(c: real, a: real, d: real, b: real, a': real, b': real)
    ensures Lin(c, a, d, b) + Lin(c, a', d, b') == Lin(c, a + a', d, b + b')
  {
  }

  lemma LinMul(c: real, a: real, d: real, b: real, h: real)
    ensures Mul(Lin(c, a, d, b), h) == Lin(c, Mul(a, h), d, Mul(b, h))
  {
  }

  lemma LinOne(c: real, a: real, b: real)
    ensures Lin(c, a, 1.0, b) == Mul(c, a) + b
  {
  }

  /** Arithmetic and geometric mean, in the form the Cauchy-Schwarz induction uses. */
  lemma MeanInequality(a: real, x: real, y: real, w: real, xv: real, yu: real)
    requires xv >= 0.0 && yu >= 0.0 && Sq(a) <= Mul(x, y)
    requires Mul(xv, yu) == Mul(Mul(x, y), Sq(w))
    ensures 2.0 * Mul(a, w) <= xv + yu
  {
    SqNonNegative(xv - yu);
    SqNonNegative(w);
    SqOfSum(xv, yu);
    SqOfDouble(a, w);
    MulMonotone(Sq(a), Mul(x, y), Sq(w));
    SqLess(2.0 * Mul(a, w), xv + yu);
  }

  /** The step of the Cauchy-Schwarz induction. */
  lemma CauchyStep(a: real, x: real, y: real, u: real, v: real, a': real, x': real, y': real)
    requires x >= 0.0 && y >= 0.0 && Sq(a) <= Mul(x, y)
    requires a' == Mul(u, v) + a && x' == Mul(u, u) + x && y' == Mul(v, v) + y
    ensures Sq(a') <= Mul(x', y')
  {
    SqNonNegative(u);
    SqNonNegative(v);
    MulMonotone(0.0, x, Sq(v));
    MulMonotone(0.0, y, Sq(u));
    Regroup(x, y, u, v);
    MeanInequality(a, x, y, Mul(u, v), Mul(x, Sq(v)), Mul(y, Sq(u)));
    SqOfShift(Mul(u, v), a);
    Expand(x, y, u, v);
  }

  lemma SqOfSum(a: real, b: real)
    ensures Sq(a + b) == Sq(a - b) + 4.0 * Mul(a, b)
  {
  }

  lemma SqOfShift(w: real, a: real)
    ensures Sq(w + a) == Sq(w) + 2.0 * Mul(a, w) + Sq(a)
  {
  }

  lemma Regroup(x: real, y: real, u: real, v: real)
    ensures Mul(Mul(x, Sq(v)), Mul(y, Sq(u))) == Mul(Mul(x, y), Sq(Mul(u, v)))
  {
  }

  lemma SqOfDouble(a: real, w: real)
    ensures Sq(2.0 * Mul(a, w)) == 4.0 * Mul(Sq(a), Sq(w))
  {
  }

  lemma Expand(x: real, y: real, u: real, v: real)
    ensures Mul(Mul(u, u) + x, Mul(v, v) + y) == Sq(Mul(u, v)) + Mul(x, Sq(v)) + Mul(y, Sq(u)) + Mul(x, y)
  {
  }

  lemma SqOfProduct(x: real, y: real)
    ensures Sq(Mul(x, y)) == Mul(Sq(x), Sq(y)) == Mul(Sq(y), Sq(x))
  {
  }
}
