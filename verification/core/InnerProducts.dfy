/** Inner products of lists of reals, as accumulator loops compute them. */
module InnerProducts {
  import opened Arith
  import opened Sums
  import opened Oracles

  function InnerTo(a: seq<real>, b: seq<real>, n: nat): real
    requires n <= |a| && n <= |b|
  {
    if n == 0 then 0.0 else InnerTo(a, b, n - 1) + Mul(a[n - 1], b[n - 1])
  }

  function Inner(a: seq<real>, b: seq<real>): real
    requires |a| == |b|
  {
    InnerTo(a, b, |a|)
  }

  function Component(a: seq<real>): Vec<int> { i => if 0 <= i < |a| then a[i] else 0.0 }

  lemma {:induction false} InnerIsDot(a: seq<real>, b: seq<real>, n: nat)
    requires n <= |a| && n <= |b|
    ensures InnerTo(a, b, n) == Dot(Range(n), Component(a), Component(b))
  {
    if n > 0 {
      InnerIsDot(a, b, n - 1);
      AccumulateDot(n - 1, Component(a), Component(b));
    }
  }

  lemma InnerSymmetric(a: seq<real>, b: seq<real>)
    requires |a| == |b|
    ensures Inner(a, b) == Inner(b, a)
  {
    InnerIsDot(a, b, |a|);
    InnerIsDot(b, a, |a|);
    DotSym(Range(|a|), Component(a), Component(b));
  }

  lemma InnerNonNegative(a: seq<real>)
    ensures Inner(a, a) >= 0.0
    ensures Inner(a, a) == 0.0 <==> forall i :: 0 <= i < |a| ==> a[i] == 0.0
  {
    InnerIsDot(a, a, |a|);
    NormNonNegative(Range(|a|), Component(a));
    if Inner(a, a) == 0.0 {
      forall i | 0 <= i < |a| ensures a[i] == 0.0 {
        ZeroNorm(Range(|a|), Component(a), i);
      }
    } else if forall i :: 0 <= i < |a| ==> a[i] == 0.0 {
      SumZero(Range(|a|), Times(Component(a), Component(a)));
    }
  }

  lemma ListCauchySchwarz(a: seq<real>, b: seq<real>)
    requires |a| == |b|
    ensures Sq(Inner(a, b)) <= Mul(Inner(a, a), Inner(b, b))
  {
    InnerIsDot(a, b, |a|);
    InnerIsDot(a, a, |a|);
    InnerIsDot(b, b, |a|);
    CauchySchwarz(Range(|a|), Component(a), Component(b));
  }

  /** A list divided by a number. */
  function Divided(a: seq<real>, r: real): (b: seq<real>)
    requires r != 0.0
    ensures |b| == |a|
  {
    seq(|a|, i requires 0 <= i < |a| => Div(a[i], r))
  }

  lemma {:induction false} DividedInner(a: seq<real>, r: real, n: nat)
    requires r != 0.0 && n <= |a|
    ensures Mul(InnerTo(Divided(a, r), Divided(a, r), n), Sq(r)) == InnerTo(a, a, n)
  {
    if n > 0 {
      DividedInner(a, r, n - 1);
      DividedTerm(InnerTo(Divided(a, r), Divided(a, r), n - 1), a[n - 1], r);
    }
  }

  lemma DividedTerm(s: real, x: real, r: real)
    requires r != 0.0
    ensures Mul(s + Mul(Div(x, r), Div(x, r)), Sq(r)) == Mul(s, Sq(r)) + Mul(x, x)
  {
  }

  /** Dividing a list by its length makes it a unit vector. */
  lemma UnitLength(sqrt: real -> real, a: seq<real>, r: real)
    requires IsSqrt(sqrt) && r == sqrt(Inner(a, a)) && r != 0.0
    ensures Inner(Divided(a, r), Divided(a, r)) == 1.0
  {
    InnerNonNegative(a);
    DividedInner(a, r, |a|);
    OnlyOne(Inner(Divided(a, r), Divided(a, r)), Sq(r));
    SqNonNegative(r);
  }

  lemma OnlyOne(x: real, d: real)
    requires Mul(x, d) == d
    ensures x == 1.0 || d == 0.0
  {
  }

  /** A root is zero only of zero. */
  lemma RootZero(sqrt: real -> real, x: real)
    requires IsSqrt(sqrt) && x >= 0.0
    ensures sqrt(x) >= 0.0 && (sqrt(x) == 0.0 <==> x == 0.0)
  {
    SqNonNegative(sqrt(x));
  }

  /** The inner product of vectors of length at most one. */
  lemma UnitBound(a: seq<real>, b: seq<real>)
    requires |a| == |b| && Inner(a, a) <= 1.0 && Inner(b, b) <= 1.0
    ensures -1.0 <= Inner(a, b) <= 1.0
  {
    ListCauchySchwarz(a, b);
    InnerNonNegative(b);
    MulMonotone(Inner(a, a), 1.0, Inner(b, b));
    var x := Inner(a, b);
    assert Sq(1.0) == 1.0 && Sq(-x) == Sq(x);
    SqLess(x, 1.0);
    SqLess(-x, 1.0);
  }
}
