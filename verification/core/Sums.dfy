/** Finite sums of reals over a set, and the inner products built on them.
    A float64 accumulator loop of the store adds the terms of such a sum in some order;
    over exact reals every order gives the same value. */
module Sums {
  import opened Arith

  type Vec<!T> = T -> real

  ghost function Sum<T>(s: set<T>, f: Vec<T>): real
    decreases |s|, 2
  {
    if s == {} then 0.0 else NonEmptySum(s, f)
  }

  /** The sum of a non-empty set. The detour through two functions keeps the solver
      from expanding sums on its own; only the lemma Pull looks inside. */
  ghost function NonEmptySum<T>(s: set<T>, f: Vec<T>): real
    requires s != {}
    decreases |s|, 1
  {
    FirstAndRest(s, f)
  }

  ghost function FirstAndRest<T>(s: set<T>, f: Vec<T>): real
    requires s != {}
    decreases |s|, 0
  {
    var x :| x in s;
    f(x) + Sum(s - {x}, f)
  }

  /** The index set of a slice of length n. */
  ghost function Range(n: int): (r: set<int>)
    ensures forall i :: i in r <==> 0 <= i < n
  {
    if n <= 0 then {} else Range(n - 1) + {n - 1}
  }

  function Times<T>(f: Vec<T>, g: Vec<T>): Vec<T> {
    x => Mul(f(x), g(x))
  }

  ghost function Dot<T>(s: set<T>, f: Vec<T>, g: Vec<T>): real {
    Sum(s, Times(f, g))
  }

  /** Any element may be taken out of a sum first: the order of summation is irrelevant. */
  lemma {:induction false} Pull<T>(s: set<T>, f: Vec<T>, y: T)
    requires y in s
    ensures Sum(s, f) == f(y) + Sum(s - {y}, f)
    decreases |s|
  {
    assert Sum(s, f) == NonEmptySum(s, f) == FirstAndRest(s, f);
    var x :| x in s && FirstAndRest(s, f) == f(x) + Sum(s - {x}, f);
    if x != y {
      Pull(s - {x}, f, y);
      Pull(s - {y}, f, x);
      assert s - {x} - {y} == s - {y} - {x};
    }
  }

  lemma Push<T>(s: set<T>, f: Vec<T>, y: T)
    requires y !in s
    ensures Sum(s + {y}, f) == Sum(s, f) + f(y)
  {
    Pull(s + {y}, f, y);
    assert s + {y} - {y} == s;
  }

  /** One more turn of an accumulator loop. */
  lemma Accumulate(n: nat, f: Vec<int>)
    ensures Sum(Range(n + 1), f) == Sum(Range(n), f) + f(n)
  {
    Push(Range(n), f, n);
  }

  lemma AccumulateDot(n: nat, f: Vec<int>, g: Vec<int>)
    ensures Dot(Range(n + 1), f, g) == Dot(Range(n), f, g) + Mul(f(n), g(n))
  {
    Accumulate(n, Times(f, g));
  }

  lemma {:induction false} Ext<T>(s: set<T>, f: Vec<T>, g: Vec<T>)
    requires forall x | x in s :: f(x) == g(x)
    ensures Sum(s, f) == Sum(s, g)
    decreases |s|
  {
    if s != {} {
      var x :| x in s;
      Pull(s, f, x);
      Pull(s, g, x);
      Ext(s - {x}, f, g);
    }
  }

  lemma DotExt<T>(s: set<T>, f: Vec<T>, g: Vec<T>, f': Vec<T>, g': Vec<T>)
    requires forall x | x in s :: f(x) == f'(x) && g(x) == g'(x)
    ensures Dot(s, f, g) == Dot(s, f', g')
  {
    Ext(s, Times(f, g), Times(f', g'));
  }

  lemma DotSym<T>(s: set<T>, f: Vec<T>, g: Vec<T>)
    ensures Dot(s, f, g) == Dot(s, g, f)
  {
    Ext(s, Times(f, g), Times(g, f));
  }

  lemma {:induction false} SumLinear<T>(s: set<T>, c: real, f: Vec<T>, d: real, g: Vec<T>, k: Vec<T>)
    requires forall x | x in s :: k(x) == Lin(c, f(x), d, g(x))
    ensures Sum(s, k) == Lin(c, Sum(s, f), d, Sum(s, g))
    decreases |s|
  {
    if s == {} {
    } else {
      var x :| x in s;
      var r := s - {x};
      Pull(s, k, x);
      Pull(s, f, x);
      Pull(s, g, x);
      SumLinear(r, c, f, d, g, k);
      LinSum(c, f(x), d, g(x), Sum(r, f), Sum(r, g));
    }
  }

  /** The inner product is linear in its left argument. */
  lemma DotLinear<T>(s: set<T>, c: real, f: Vec<T>, d: real, g: Vec<T>, k: Vec<T>, h: Vec<T>)
    requires forall x | x in s :: k(x) == Lin(c, f(x), d, g(x))
    ensures Dot(s, k, h) == Lin(c, Dot(s, f, h), d, Dot(s, g, h))
  {
    forall x | x in s ensures Times(k, h)(x) == Lin(c, Times(f, h)(x), d, Times(g, h)(x)) {
      LinMul(c, f(x), d, g(x), h(x));
    }
    SumLinear(s, c, Times(f, h), d, Times(g, h), Times(k, h));
  }

  lemma DotLinearRight<T>(s: set<T>, h: Vec<T>, c: real, f: Vec<T>, d: real, g: Vec<T>, k: Vec<T>)
    requires forall x | x in s :: k(x) == Lin(c, f(x), d, g(x))
    ensures Dot(s, h, k) == Lin(c, Dot(s, h, f), d, Dot(s, h, g))
  {
    DotSym(s, h, k);
    DotLinear(s, c, f, d, g, k, h);
    DotSym(s, h, f);
    DotSym(s, h, g);
  }

  lemma {:induction false} SumZero<T>(s: set<T>, f: Vec<T>)
    requires forall x | x in s :: f(x) == 0.0
    ensures Sum(s, f) == 0.0
    decreases |s|
  {
    if s != {} {
      var x :| x in s;
      Pull(s, f, x);
      SumZero(s - {x}, f);
    }
  }

  /** A sum whose terms agree off p and q changes by exactly what changed at p and q. */
  lemma PairChange<T>(s: set<T>, f: Vec<T>, g: Vec<T>, p: T, q: T)
    requires p in s && q in s && p != q
    requires forall x | x in s && x != p && x != q :: f(x) == g(x)
    ensures Sum(s, g) - Sum(s, f) == g(p) + g(q) - f(p) - f(q)
  {
    Pull(s, f, p);
    Pull(s, g, p);
    Pull(s - {p}, f, q);
    Pull(s - {p}, g, q);
    Ext(s - {p} - {q}, f, g);
  }

  /** An inner product is unchanged when the terms at p and q trade weight. */
  lemma DotPair<T>(s: set<T>, f: Vec<T>, g: Vec<T>, f': Vec<T>, g': Vec<T>, p: T, q: T)
    requires p in s && q in s && p != q
    requires forall x | x in s && x != p && x != q :: f(x) == f'(x) && g(x) == g'(x)
    requires Mul(f'(p), g'(p)) + Mul(f'(q), g'(q)) == Mul(f(p), g(p)) + Mul(f(q), g(q))
    ensures Dot(s, f', g') == Dot(s, f, g)
  {
    PairChange(s, Times(f, g), Times(f', g'), p, q);
  }

  /** Multiplying with a unit vector selects a component. */
  lemma DotUnit<T>(s: set<T>, p: T, u: Vec<T>, f: Vec<T>)
    requires p in s
    requires forall x | x in s :: u(x) == if x == p then 1.0 else 0.0
    ensures Dot(s, u, f) == f(p)
  {
    Pull(s, Times(u, f), p);
    SumZero(s - {p}, Times(u, f));
  }

  lemma {:induction false} Monotone<T>(s: set<T>, f: Vec<T>, g: Vec<T>)
    requires forall x | x in s :: f(x) <= g(x)
    ensures Sum(s, f) <= Sum(s, g)
    decreases |s|
  {
    if s != {} {
      var x :| x in s;
      Pull(s, f, x);
      Pull(s, g, x);
      Monotone(s - {x}, f, g);
    }
  }

  lemma {:induction false} SumBound<T>(s: set<T>, f: Vec<T>, b: real)
    requires forall x | x in s :: f(x) <= b
    ensures Sum(s, f) <= Mul(|s| as real, b)
    decreases |s|
  {
    if s != {} {
      var x :| x in s;
      Pull(s, f, x);
      SumBound(s - {x}, f, b);
      OneMore(|s - {x}|, b);
    }
  }

  lemma OneMore(n: nat, b: real)
    ensures Mul((n + 1) as real, b) == Mul(n as real, b) + b
  {
  }

  lemma {:induction false} RangeSize(k: nat)
    ensures |Range(k)| == k
  {
    if k > 0 { RangeSize(k - 1); }
  }

  lemma {:induction false} NonNegative<T>(s: set<T>, f: Vec<T>)
    requires forall x | x in s :: f(x) >= 0.0
    ensures Sum(s, f) >= 0.0
    decreases |s|
  {
    if s != {} {
      var x :| x in s;
      Pull(s, f, x);
      NonNegative(s - {x}, f);
    }
  }

  lemma Positive<T>(s: set<T>, f: Vec<T>, p: T)
    requires p in s && f(p) > 0.0
    requires forall x | x in s :: f(x) >= 0.0
    ensures Sum(s, f) > 0.0
  {
    Pull(s, f, p);
    NonNegative(s - {p}, f);
  }

  lemma {:induction false} SubsetSum<T>(s: set<T>, t: set<T>, f: Vec<T>)
    requires s <= t
    requires forall x | x in t :: f(x) >= 0.0
    ensures Sum(s, f) <= Sum(t, f)
    decreases |t - s|
  {
    if y :| y in t && y !in s {
      Push(s, f, y);
      assert t - (s + {y}) == t - s - {y};
      SubsetSum(s + {y}, t, f);
    } else {
      assert s == t;
    }
  }

  lemma NormNonNegative<T>(s: set<T>, f: Vec<T>)
    ensures Dot(s, f, f) >= 0.0
  {
    forall x | x in s ensures Times(f, f)(x) >= 0.0 {
      SqNonNegative(f(x));
      assert Times(f, f)(x) == Sq(f(x));
    }
    NonNegative(s, Times(f, f));
  }

  /** A vector of zero length is zero on its index set. */
  lemma ZeroNorm<T>(s: set<T>, f: Vec<T>, x: T)
    requires x in s && Dot(s, f, f) == 0.0
    ensures f(x) == 0.0
  {
    forall y | y in s ensures Times(f, f)(y) >= 0.0 && (Times(f, f)(y) == 0.0 ==> f(y) == 0.0) {
      SqNonNegative(f(y));
      assert Times(f, f)(y) == Sq(f(y));
    }
    if f(x) != 0.0 {
      Positive(s, Times(f, f), x);
    }
  }

  lemma {:induction false} CauchySchwarz<T>(s: set<T>, f: Vec<T>, g: Vec<T>)
    ensures Sq(Dot(s, f, g)) <= Mul(Dot(s, f, f), Dot(s, g, g))
    decreases |s|
  {
    if s == {} {
    } else {
      var x :| x in s;
      var r := s - {x};
      Pull(s, Times(f, g), x);
      Pull(s, Times(f, f), x);
      Pull(s, Times(g, g), x);
      CauchySchwarz(r, f, g);
      NormNonNegative(r, f);
      NormNonNegative(r, g);
      CauchyStep(Dot(r, f, g), Dot(r, f, f), Dot(r, g, g), f(x), g(x), Dot(s, f, g), Dot(s, f, f), Dot(s, g, g));
    }
  }

  lemma Pick<T>(s: set<T>) returns (x: T)
    requires s != {}
    ensures x in s
  {
    x :| x in s;
  }
}
