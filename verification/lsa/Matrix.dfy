/** Dense matrices: mutable 2-D arrays, and the functions of two indices they hold. */
module Matrix {
  import opened Arith
  import opened Sums

  type Mat = (int, int) -> real

  /** Pivots, singular values and off-diagonal entries up to here count as zero. */
  const TOLERANCE: real := 0.000000000001

  function Row(b: Mat, x: int): Vec<int> { y => b(x, y) }
  function Col(b: Mat, y: int): Vec<int> { x => b(x, y) }

  /** The matrix b, and its transpose, applied to a vector. */
  ghost function Apply(b: Mat, t: set<int>, w: Vec<int>): Vec<int> { x => Dot(t, Row(b, x), w) }
  ghost function ApplyT(b: Mat, s: set<int>, u: Vec<int>): Vec<int> { y => Dot(s, Col(b, y), u) }

  /** The transpose is the adjoint: <u, B w> == <Bt u, w>. Double sums may be swapped. */
  lemma {:induction false} Adjoint(s: set<int>, t: set<int>, u: Vec<int>, b: Mat, w: Vec<int>)
    ensures Dot(s, u, Apply(b, t, w)) == Dot(t, ApplyT(b, s, u), w)
    decreases |s|
  {
    if s == {} {
      SumZero(t, Times(ApplyT(b, s, u), w));
    } else {
      var x := Pick(s);
      var r := s - {x};
      Pull(s, Times(u, Apply(b, t, w)), x);
      Adjoint(r, t, u, b, w);
      forall y | y in t ensures ApplyT(b, s, u)(y) == Lin(u(x), Row(b, x)(y), 1.0, ApplyT(b, r, u)(y)) {
        ApplyTStep(s, u, b, x, y);
      }
      DotLinear(t, u(x), Row(b, x), 1.0, ApplyT(b, r, u), ApplyT(b, s, u), w);
      LinOne(u(x), Dot(t, Row(b, x), w), Dot(t, ApplyT(b, r, u), w));
    }
  }

  lemma ApplyTStep(s: set<int>, u: Vec<int>, b: Mat, x: int, y: int)
    requires x in s
    ensures ApplyT(b, s, u)(y) == Lin(u(x), Row(b, x)(y), 1.0, ApplyT(b, s - {x}, u)(y))
  {
    Pull(s, Times(Col(b, y), u), x);
    LinOne(u(x), b(x, y), ApplyT(b, s - {x}, u)(y));
  }

  ghost function RowSums(b: Mat, t: set<int>): Vec<int> { x => Sum(t, Row(b, x)) }
  ghost function ColSums(b: Mat, s: set<int>): Vec<int> { y => Sum(s, Col(b, y)) }

  lemma {:induction false} SumSwap(s: set<int>, t: set<int>, b: Mat)
    ensures Sum(s, RowSums(b, t)) == Sum(t, ColSums(b, s))
    decreases |s|
  {
    if s == {} {
      SumZero(t, ColSums(b, s));
    } else {
      var x := Pick(s);
      var r := s - {x};
      Pull(s, RowSums(b, t), x);
      SumSwap(r, t, b);
      forall y | y in t ensures ColSums(b, s)(y) == Lin(1.0, Row(b, x)(y), 1.0, ColSums(b, r)(y)) {
        Pull(s, Col(b, y), x);
      }
      SumLinear(t, 1.0, Row(b, x), 1.0, ColSums(b, r), ColSums(b, s));
    }
  }

  /** a is an m x n array holding f. */
  ghost predicate Holds(a: array2<real>, m: int, n: int, f: Mat)
    reads a
  {
    a.Length0 == m && a.Length1 == n && forall i, j :: 0 <= i < m && 0 <= j < n ==> a[i, j] == f(i, j)
  }

  function Transpose(f: Mat): Mat { (i, j) => f(j, i) }

  /** The product of an m x l and an l x n matrix. */
  ghost function Product(l: int, f: Mat, g: Mat): Mat {
    (i, j) => Dot(Range(l), Row(f, i), Col(g, j))
  }

  /** The first l terms of an entry of a product: what an accumulator holds on the way. */
  ghost function Partial(l: int, f: Mat, g: Mat, i: int, j: int): real {
    Dot(Range(l), Row(f, i), Col(g, j))
  }

  lemma PartialNext(l: nat, f: Mat, g: Mat, i: int, j: int)
    ensures Partial(l + 1, f, g, i, j) == Partial(l, f, g, i, j) + Mul(f(i, l), g(l, j))
    ensures f(i, l) == 0.0 || g(l, j) == 0.0 ==> Partial(l + 1, f, g, i, j) == Partial(l, f, g, i, j)
  {
    Accumulate(l, Times(Row(f, i), Col(g, j)));
  }

  method Zeros(m: nat, n: nat) returns (a: array2<real>)
    ensures fresh(a) && Holds(a, m, n, (i, j) => 0.0)
  {
    a := new real[m, n];
    forall i, j | 0 <= i < m && 0 <= j < n { a[i, j] := 0.0; }
  }

  /** The inner loop of the products: adds x times row r of b to row i of res. */
  method AddScaledRow(res: array2<real>, i: nat, x: real, b: array2<real>, r: nat)
    requires res != b && i < res.Length0 && r < b.Length0 && res.Length1 == b.Length1
    modifies res
    ensures forall u, j :: 0 <= u < res.Length0 && 0 <= j < res.Length1 ==>
      res[u, j] == old(res[u, j]) + if u == i then Mul(x, b[r, j]) else 0.0
  {
    for j := 0 to res.Length1
      invariant forall u, t :: 0 <= u < res.Length0 && 0 <= t < res.Length1 ==>
        res[u, t] == old(res[u, t]) + if u == i && t < j then Mul(x, b[r, t]) else 0.0
    {
      res[i, j] := res[i, j] + Mul(x, b[r, j]);
    }
  }

  /** Row-wise product that skips zero entries of a. */
  method MatMul(a: array2<real>, b: array2<real>, rowsA: nat, colsA: nat, colsB: nat, ghost f: Mat, ghost g: Mat)
    returns (res: array2<real>)
    requires Holds(a, rowsA, colsA, f) && Holds(b, colsA, colsB, g)
    ensures fresh(res) && Holds(res, rowsA, colsB, Product(colsA, f, g))
  {
    res := Zeros(rowsA, colsB);
    for i := 0 to rowsA
      invariant forall u, j :: 0 <= u < rowsA && 0 <= j < colsB ==>
        res[u, j] == Partial(if u < i then colsA else 0, f, g, u, j)
    {
      for k := 0 to colsA
        invariant forall u, j :: 0 <= u < rowsA && 0 <= j < colsB ==>
          res[u, j] == Partial(if u < i then colsA else if u == i then k else 0, f, g, u, j)
      {
        forall j { PartialNext(k, f, g, i, j); }
        if a[i, k] != 0.0 {
          AddScaledRow(res, i, a[i, k], b, k);
        }
      }
    }
  }

  /** The product of the transpose of a (m x n) with q (m x k). */
  method MatMulAT(a: array2<real>, q: array2<real>, m: nat, n: nat, k: nat, ghost f: Mat, ghost g: Mat)
    returns (res: array2<real>)
    requires Holds(a, m, n, f) && Holds(q, m, k, g)
    ensures fresh(res) && Holds(res, n, k, Product(m, Transpose(f), g))
  {
    ghost var ft := Transpose(f);
    res := Zeros(n, k);
    for r := 0 to m
      invariant forall c, j :: 0 <= c < n && 0 <= j < k ==> res[c, j] == Partial(r, ft, g, c, j)
    {
      for c := 0 to n
        invariant forall u, j :: 0 <= u < n && 0 <= j < k ==>
          res[u, j] == Partial(if u < c then r + 1 else r, ft, g, u, j)
      {
        forall j { PartialNext(r, ft, g, c, j); }
        if a[r, c] != 0.0 {
          AddScaledRow(res, c, a[r, c], q, r);
        }
      }
    }
  }

  /** The product of the transpose of q (m x k) with a (m x n). */
  method MatMulQT(q: array2<real>, a: array2<real>, m: nat, k: nat, n: nat, ghost f: Mat, ghost g: Mat)
    returns (res: array2<real>)
    requires Holds(q, m, k, f) && Holds(a, m, n, g)
    ensures fresh(res) && Holds(res, k, n, Product(m, Transpose(f), g))
  {
    ghost var ft := Transpose(f);
    res := Zeros(k, n);
    for i := 0 to k
      invariant forall u, j :: 0 <= u < k && 0 <= j < n ==> res[u, j] == Partial(if u < i then m else 0, ft, g, u, j)
    {
      for row := 0 to m
        invariant forall u, j :: 0 <= u < k && 0 <= j < n ==>
          res[u, j] == Partial(if u < i then m else if u == i then row else 0, ft, g, u, j)
      {
        forall j { PartialNext(row, ft, g, i, j); }
        if q[row, i] != 0.0 {
          AddScaledRow(res, i, q[row, i], a, row);
        }
      }
    }
  }
}
