/** The range finder of the decomposition: a basis of what some power iterations sample. */
module Sampling {
  import opened Arith
  import opened Sums
  import opened Oracles
  import opened Matrix
  import opened GramSchmidt

  const SVD_POWER_ITERS: nat := 4

  /** The matrix whose columns span the sampled range, after some power iterations. */
  ghost function Sample(sqrt: real -> real, m: nat, n: nat, k: nat, a: Mat, omega: Mat, iters: nat): Mat {
    if iters == 0 then Product(n, a, omega) else
      var q := Orthonormalised(sqrt, m, k, Sample(sqrt, m, n, k, a, omega, iters - 1));
      Product(n, a, Product(m, Transpose(a), q))
  }

  ghost function SampledBasis(sqrt: real -> real, m: nat, n: nat, k: nat, a: Mat, omega: Mat, iters: nat): Mat {
    Orthonormalised(sqrt, m, k, Sample(sqrt, m, n, k, a, omega, iters))
  }

  // ---------- what the basis spans ----------

  /** (A At)^p A times the test matrix, never orthonormalised. */
  ghost function Powered(m: nat, n: nat, a: Mat, omega: Mat, p: nat): Mat {
    if p == 0 then Product(n, a, omega) else Product(n, a, Product(m, Transpose(a), Powered(m, n, a, omega, p - 1)))
  }

  ghost predicate Triangular(k: nat, r: Mat) {
    && (forall i, j :: 0 <= j < i < k ==> r(i, j) == 0.0)
    && forall i :: 0 <= i < k ==> r(i, i) > 0.0
  }

  /** x is q times the upper triangular r with a positive diagonal: the first columns of both span the same. */
  ghost predicate Factors(k: nat, x: Mat, q: Mat, r: Mat) {
    Triangular(k, r) && forall i, j :: 0 <= j < k ==> x(i, j) == Product(k, q, r)(i, j)
  }

  lemma ProductAssoc(n: nat, k: nat, a: Mat, b: Mat, r: Mat, i: int, j: int)
    ensures Product(k, Product(n, a, b), r)(i, j) == Product(n, a, Product(k, b, r))(i, j)
  {
    var u, w := Row(a, i), Col(r, j);
    forall t ensures Row(Product(n, a, b), i)(t) == ApplyT(b, Range(n), u)(t) {
      DotSym(Range(n), u, Col(b, t));
    }
    DotExt(Range(k), Row(Product(n, a, b), i), w, ApplyT(b, Range(n), u), w);
    Adjoint(Range(n), Range(k), u, b, w);
    DotExt(Range(n), u, Apply(b, Range(k), w), u, Col(Product(k, b, r), j));
  }

  lemma SameRight(l: nat, f: Mat, g: Mat, g': Mat, i: int, j: int)
    requires forall t | 0 <= t < l :: g(t, j) == g'(t, j)
    ensures Product(l, f, g)(i, j) == Product(l, f, g')(i, j)
  {
    DotExt(Range(l), Row(f, i), Col(g, j), Row(f, i), Col(g', j));
  }

  lemma SameLeft(l: nat, f: Mat, f': Mat, g: Mat, i: int, j: int)
    requires forall t | 0 <= t < l :: f(i, t) == f'(i, t)
    ensures Product(l, f, g)(i, j) == Product(l, f', g)(i, j)
  {
    DotExt(Range(l), Row(f, i), Col(g, j), Row(f', i), Col(g, j));
  }

  lemma TriangularProduct(k: nat, r: Mat, s: Mat)
    requires Triangular(k, r) && Triangular(k, s)
    ensures Triangular(k, Product(k, r, s))
  {
    forall i, j | 0 <= j <= i < k
      ensures Product(k, r, s)(i, j) == if i == j then Mul(r(i, i), s(i, i)) else 0.0
    {
      TriangularEntry(k, r, s, i, j);
    }
    forall i | 0 <= i < k ensures Product(k, r, s)(i, i) > 0.0 {
      MulPositive(r(i, i), s(i, i));
    }
  }

  lemma TriangularEntry(k: nat, r: Mat, s: Mat, i: nat, j: nat)
    requires Triangular(k, r) && Triangular(k, s) && j <= i < k
    ensures Product(k, r, s)(i, j) == if i == j then Mul(r(i, i), s(i, i)) else 0.0
  {
    var f := Times(Row(r, i), Col(s, j));
    forall t | 0 <= t < k && (t != i || j < i) ensures f(t) == 0.0 {
      ZeroTimes(r(i, t), s(t, j));
    }
    assert Product(k, r, s)(i, j) == Dot(Range(k), Row(r, i), Col(s, j)) == Sum(Range(k), f);
    if i == j {
      Pull(Range(k), f, i);
      SumZero(Range(k) - {i}, f);
    } else {
      SumZero(Range(k), f);
    }
  }

  lemma ZeroTimes(x: real, y: real)
    ensures x == 0.0 || y == 0.0 ==> Mul(x, y) == 0.0
  {
  }

  lemma UpperTriangular(sqrt: real -> real, m: nat, k: nat, a: Mat)
    ensures Factors(k, a, Orthonormalised(sqrt, m, k, a), Upper(sqrt, m, a))
  {
    forall i, j | 0 <= j < k
      ensures a(i, j) == Product(k, Orthonormalised(sqrt, m, k, a), Upper(sqrt, m, a))(i, j)
    {
      QrFactors(sqrt, m, k, a, i, j);
    }
    var r := Upper(sqrt, m, a);
    forall i | 0 <= i < k ensures r(i, i) > 0.0 {
      assert r(i, i) == Scale(Pivot(sqrt, m, a, i));
    }
    assert forall i, j :: 0 <= j < i < k ==> r(i, j) == 0.0;
  }

  /** The factor between the powers and the basis: the product of the triangular factors of all steps. */
  ghost function PowerUpper(sqrt: real -> real, m: nat, n: nat, k: nat, a: Mat, omega: Mat, iters: nat): Mat {
    var r := Upper(sqrt, m, Sample(sqrt, m, n, k, a, omega, iters));
    if iters == 0 then r else Product(k, r, PowerUpper(sqrt, m, n, k, a, omega, iters - 1))
  }

  /** Orthonormalising after every step does not change what is spanned: for every input, degenerate ones included,
      (A At)^p A times the test matrix is the basis times an upper triangular matrix with a positive diagonal. */
  lemma {:induction false} BasisSpansPowers(sqrt: real -> real, m: nat, n: nat, k: nat, a: Mat, omega: Mat, iters: nat)
    ensures Factors(k, Powered(m, n, a, omega, iters), SampledBasis(sqrt, m, n, k, a, omega, iters),
                    PowerUpper(sqrt, m, n, k, a, omega, iters))
  {
    var x := Sample(sqrt, m, n, k, a, omega, iters);
    UpperTriangular(sqrt, m, k, x);
    if iters > 0 {
      var q, r := SampledBasis(sqrt, m, n, k, a, omega, iters - 1), PowerUpper(sqrt, m, n, k, a, omega, iters - 1);
      BasisSpansPowers(sqrt, m, n, k, a, omega, iters - 1);
      FactorsNext(m, n, k, a, Powered(m, n, a, omega, iters - 1), q, r, x, SampledBasis(sqrt, m, n, k, a, omega, iters),
                  Upper(sqrt, m, x));
    }
  }

  /** One power iteration: x is A At times the old basis q, and factors into the new basis and u. */
  lemma FactorsNext(m: nat, n: nat, k: nat, a: Mat, y: Mat, q: Mat, r: Mat, x: Mat, q': Mat, u: Mat)
    requires Factors(k, y, q, r) && Factors(k, x, q', u) && x == Product(n, a, Product(m, Transpose(a), q))
    ensures Factors(k, Product(n, a, Product(m, Transpose(a), y)), q', Product(k, u, r))
  {
    TriangularProduct(k, u, r);
    forall i, j | 0 <= j < k
      ensures Product(n, a, Product(m, Transpose(a), y))(i, j) == Product(k, q', Product(k, u, r))(i, j)
    {
      StepFactors(m, n, k, a, y, q, r, i, j);
      SameLeft(k, x, Product(k, q', u), r, i, j);
      ProductAssoc(k, k, q', u, r, i, j);
    }
  }

  lemma StepFactors(m: nat, n: nat, k: nat, a: Mat, y: Mat, q: Mat, r: Mat, i: int, j: int)
    requires Factors(k, y, q, r) && 0 <= j < k
    ensures Product(n, a, Product(m, Transpose(a), y))(i, j) ==
      Product(k, Product(n, a, Product(m, Transpose(a), q)), r)(i, j)
  {
    var at := Transpose(a);
    forall t ensures Product(m, at, y)(t, j) == Product(k, Product(m, at, q), r)(t, j) {
      SameRight(m, at, y, Product(k, q, r), t, j);
      ProductAssoc(m, k, at, q, r, t, j);
    }
    SameRight(n, a, Product(m, at, y), Product(k, Product(m, at, q), r), i, j);
    ProductAssoc(n, k, a, Product(m, at, q), r, i, j);
  }

  // ---------- the loops ----------

  method SampleRange(sqrt: real -> real, a: array2<real>, omega: array2<real>, m: nat, n: nat, k: nat, powerIters: nat,
                     ghost f: Mat, ghost o: Mat)
    returns (q: array2<real>)
    requires Holds(a, m, n, f) && Holds(omega, n, k, o)
    ensures fresh(q) && Holds(q, m, k, SampledBasis(sqrt, m, n, k, f, o, powerIters))
  {
    var y := MatMul(a, omega, m, n, k, f, o);
    for iter := 0 to powerIters
      invariant fresh(y) && Holds(y, m, k, Sample(sqrt, m, n, k, f, o, iter))
    {
      ghost var g := Sample(sqrt, m, n, k, f, o, iter);
      var q' := QrDecomp(sqrt, y, m, k, g);
      var atQ := MatMulAT(a, q', m, n, k, f, Orthonormalised(sqrt, m, k, g));
      y := MatMul(a, atQ, m, n, k, f, Product(m, Transpose(f), Orthonormalised(sqrt, m, k, g)));
    }
    q := QrDecomp(sqrt, y, m, k, Sample(sqrt, m, n, k, f, o, powerIters));
  }
}
