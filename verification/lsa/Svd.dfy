/** Randomised truncated singular value decomposition. */
module Svd {
  import opened Arith
  import opened Sums
  import InnerProducts
  import opened Oracles
  import opened Matrix
  import opened Rotation
  import opened GramSchmidt
  import opened Jacobi
  import opened Sampling

  // ---------- what the small eigenproblem gives ----------

  /** b times its transpose. */
  ghost function Gram(n: nat, b: Mat): Mat { (i, j) => Dot(Range(n), Row(b, i), Row(b, j)) }

  /** The squared Frobenius norm of a k x n matrix. */
  ghost function Frobenius(k: nat, n: nat, b: Mat): real { Trace(k, Gram(n, b)) }

  lemma GramSymmetric(k: nat, n: nat, b: Mat)
    ensures Symmetric(k, Gram(n, b))
  {
    forall i, j | 0 <= i < k && 0 <= j < k ensures Gram(n, b)(i, j) == Gram(n, b)(j, i) {
      DotSym(Range(n), Row(b, i), Row(b, j));
    }
  }

  /** Column j of the transpose of b times w. */
  ghost function Image(k: nat, b: Mat, w: Mat, j: int): Vec<int> { ApplyT(b, Range(k), Col(w, j)) }

  /** B Bt is positive semidefinite: its quadratic form is a squared length. */
  lemma QuadraticForm(k: nat, n: nat, b: Mat, w: Mat, j: int)
    ensures Compressed(k, Gram(n, b), w)(j, j) == Dot(Range(n), Image(k, b, w, j), Image(k, b, w, j))
  {
    var u, y, r := Col(w, j), Image(k, b, w, j), Range(k);
    forall i ensures Apply(Gram(n, b), r, u)(i) == Apply(b, Range(n), y)(i) {
      GramApplied(k, n, b, u, i);
    }
    DotExt(r, u, Apply(Gram(n, b), r, u), u, Apply(b, Range(n), y));
    Adjoint(r, Range(n), u, b, y);
  }

  lemma GramApplied(k: nat, n: nat, b: Mat, u: Vec<int>, i: int)
    ensures Apply(Gram(n, b), Range(k), u)(i) == Apply(b, Range(n), ApplyT(b, Range(k), u))(i)
  {
    var r, x := Range(k), Row(b, i);
    forall j ensures Row(Gram(n, b), i)(j) == Apply(b, Range(n), x)(j) {
      DotSym(Range(n), Row(b, i), Row(b, j));
    }
    DotExt(r, Row(Gram(n, b), i), u, Apply(b, Range(n), x), u);
    DotSym(r, Apply(b, Range(n), x), u);
    Adjoint(r, Range(n), u, b, x);
    DotSym(Range(n), ApplyT(b, r, u), x);
  }

  ghost predicate SingularValues(k: nat, n: nat, b: Mat, w: Mat, s: seq<real>) {
    && |s| == k
    && (forall i :: 0 <= i < k ==> s[i] >= 0.0)
    && (forall i, j :: 0 <= i < j < k ==> s[i] >= s[j])
    && (forall i :: 0 <= i < k ==> Sq(s[i]) == Dot(Range(n), Image(k, b, w, i), Image(k, b, w, i)))
  }

  function Squares(s: seq<real>): Vec<int> { i => if 0 <= i < |s| then Sq(s[i]) else 0.0 }

  /** Taking roots of the eigenvalues, the clipping at zero never loses anything. */
  lemma RootsAreSingularValues(sqrt: real -> real, k: nat, n: nat, b: Mat, w: Mat, vals: seq<real>, s: seq<real>)
    requires IsSqrt(sqrt) && EigenPairs(k, Gram(n, b), vals, w)
    requires |s| == k && forall i :: 0 <= i < k ==> s[i] == if vals[i] > 0.0 then sqrt(vals[i]) else 0.0
    ensures SingularValues(k, n, b, w, s)
    ensures Sum(Range(k), Squares(s)) == Frobenius(k, n, b)
  {
    forall i | 0 <= i < k
      ensures s[i] >= 0.0 && Sq(s[i]) == vals[i] == Dot(Range(n), Image(k, b, w, i), Image(k, b, w, i))
    {
      QuadraticForm(k, n, b, w, i);
      NormNonNegative(Range(n), Image(k, b, w, i));
    }
    forall i, j | 0 <= i < j < k ensures s[i] >= s[j] {
      SqLess(s[j], s[i]);
    }
    Ext(Range(k), Squares(s), InnerProducts.Component(vals));
  }

  // ---------- orthonormal bases ----------

  /** Q Qt applied to x: the projection of x on the columns of q. */
  ghost function Coordinates(m: nat, q: Mat, x: Vec<int>): Vec<int> { ApplyT(q, Range(m), x) }

  lemma QtQ(m: nat, k: nat, q: Mat, x: Vec<int>, l: int)
    requires OrthonormalColumns(m, k, q) && 0 <= l < k
    ensures Coordinates(m, q, Apply(q, Range(k), x))(l) == x(l)
  {
    Adjoint(Range(m), Range(k), Col(q, l), q, x);
    DotUnit(Range(k), l, ApplyT(q, Range(m), Col(q, l)), x);
  }

  /** An orthonormal basis preserves inner products. */
  lemma Isometry(m: nat, k: nat, q: Mat, x: Vec<int>, y: Vec<int>)
    requires OrthonormalColumns(m, k, q)
    ensures Dot(Range(m), Apply(q, Range(k), x), Apply(q, Range(k), y)) == Dot(Range(k), x, y)
  {
    var u := Apply(q, Range(k), x);
    Adjoint(Range(m), Range(k), u, q, y);
    forall l | l in Range(k) ensures Coordinates(m, q, u)(l) == x(l) { QtQ(m, k, q, x, l); }
    DotExt(Range(k), Coordinates(m, q, u), y, x, y);
  }

  /** Bessel's inequality. */
  lemma Bessel(m: nat, k: nat, q: Mat, x: Vec<int>)
    requires OrthonormalColumns(m, k, q)
    ensures Dot(Range(k), Coordinates(m, q, x), Coordinates(m, q, x)) <= Dot(Range(m), x, x)
  {
    var y := Coordinates(m, q, x);
    var p := Apply(q, Range(k), y);
    var e := Less(x, 1.0, p);
    Isometry(m, k, q, y, y);
    Adjoint(Range(m), Range(k), x, q, y);
    DotLess(m, x, x, 1.0, p);
    DotLess(m, e, x, 1.0, p);
    DotSym(Range(m), e, x);
    DotLess(m, p, x, 1.0, p);
    DotSym(Range(m), e, p);
    DotSym(Range(m), p, x);
    NormNonNegative(Range(m), e);
    LessOnes(Dot(Range(m), x, x), Dot(Range(k), y, y));
  }

  lemma LessOnes(a: real, c: real)
    ensures LessEntry(LessEntry(a, 1.0, c), 1.0, LessEntry(c, 1.0, c)) == a - c
  {
  }

  function Squared(b: Mat): Mat { (i, j) => Mul(b(i, j), b(i, j)) }

  lemma GramDiagonal(n: nat, b: Mat, i: int)
    ensures Gram(n, b)(i, i) == RowSums(Squared(b), Range(n))(i)
    ensures Gram(n, Transpose(b))(i, i) == ColSums(Squared(b), Range(n))(i)
  {
    var x, y := Row(b, i), Row(Transpose(b), i);
    Ext(Range(n), Times(x, x), Row(Squared(b), i));
    Ext(Range(n), Times(y, y), Col(Squared(b), i));
    assert Gram(n, b)(i, i) == Dot(Range(n), x, x);
    assert Gram(n, Transpose(b))(i, i) == Dot(Range(n), y, y);
  }

  /** The Frobenius norm may be taken by columns. */
  lemma FrobeniusByColumns(k: nat, n: nat, b: Mat)
    ensures Frobenius(k, n, b) == Frobenius(n, k, Transpose(b))
  {
    forall i ensures Diagonal(Gram(n, b))(i) == RowSums(Squared(b), Range(n))(i) {
      GramDiagonal(n, b, i);
    }
    forall i ensures Diagonal(Gram(k, Transpose(b)))(i) == ColSums(Squared(b), Range(k))(i) {
      GramDiagonal(k, b, i);
    }
    Ext(Range(k), Diagonal(Gram(n, b)), RowSums(Squared(b), Range(n)));
    Ext(Range(n), Diagonal(Gram(k, Transpose(b))), ColSums(Squared(b), Range(k)));
    SumSwap(Range(k), Range(n), Squared(b));
  }

  /** The small matrix Qt A. */
  ghost function Small(m: nat, q: Mat, a: Mat): Mat { Product(m, Transpose(q), a) }

  lemma SmallColumn(m: nat, q: Mat, a: Mat, l: int, c: int)
    ensures Small(m, q, a)(l, c) == Coordinates(m, q, Col(a, c))(l)
  {
    DotExt(Range(m), Row(Transpose(q), l), Col(a, c), Col(q, l), Col(a, c));
  }

  lemma ColumnEnergy(m: nat, k: nat, q: Mat, a: Mat, c: int)
    requires OrthonormalColumns(m, k, q)
    ensures Gram(k, Transpose(Small(m, q, a)))(c, c) <= Gram(m, Transpose(a))(c, c)
  {
    var y, x := Coordinates(m, q, Col(a, c)), Col(a, c);
    forall l { SmallColumn(m, q, a, l, c); }
    var r := Row(Transpose(Small(m, q, a)), c);
    DotExt(Range(k), r, r, y, y);
    DotExt(Range(m), Row(Transpose(a), c), Row(Transpose(a), c), x, x);
    Bessel(m, k, q, x);
  }

  /** Projecting on an orthonormal basis does not add energy. */
  lemma EnergyBounded(m: nat, k: nat, n: nat, q: Mat, a: Mat)
    requires OrthonormalColumns(m, k, q)
    ensures Frobenius(k, n, Small(m, q, a)) <= Frobenius(m, n, a)
  {
    FrobeniusByColumns(k, n, Small(m, q, a));
    FrobeniusByColumns(m, n, a);
    forall c | c in Range(n) { ColumnEnergy(m, k, q, a, c); }
    Monotone(Range(n), Diagonal(Gram(k, Transpose(Small(m, q, a)))), Diagonal(Gram(m, Transpose(a))));
  }

  // ---------- the factors ----------

  /** Column j is the j-th image divided by its singular value, or zero when that is negligible. */
  ghost function RightVectors(k: nat, b: Mat, w: Mat, s: seq<real>): Mat {
    (doc, j) => if 0 <= j < |s| && s[j] > TOLERANCE then Div(Image(k, b, w, j)(doc), s[j]) else 0.0
  }

  /** The decomposition of the m x n matrix a on the basis q. */
  ghost predicate Decomposition(m: nat, n: nat, k: nat, a: Mat, q: Mat, w: Mat, s: seq<real>) {
    var b := Small(m, q, a);
    && OrthonormalColumns(k, k, w) && OrthonormalRows(k, w)
    && SingularValues(k, n, b, w, s)
    && Sum(Range(k), Squares(s)) == Frobenius(k, n, b)
  }

  /** Turning the columns of a basis by an orthogonal matrix keeps them orthonormal. */
  lemma TurnedOrthonormal(m: nat, k: nat, q: Mat, w: Mat)
    requires OrthonormalColumns(m, k, q) && OrthonormalColumns(k, k, w)
    ensures OrthonormalColumns(m, k, Product(k, q, w))
  {
    var u := Product(k, q, w);
    forall i, j | 0 <= i < k && 0 <= j < k
      ensures Dot(Range(m), Col(u, i), Col(u, j)) == if i == j then 1.0 else 0.0
    {
      var x, y := Apply(q, Range(k), Col(w, i)), Apply(q, Range(k), Col(w, j));
      DotExt(Range(m), Col(u, i), Col(u, j), x, y);
      Isometry(m, k, q, Col(w, i), Col(w, j));
    }
  }

  /** Turning back gives the basis again. */
  lemma TurnedBack(k: nat, q: Mat, w: Mat, r: int, i: int)
    requires OrthonormalRows(k, w) && 0 <= i < k
    ensures Product(k, Product(k, q, w), Transpose(w))(r, i) == q(r, i)
  {
    var x, y := Row(q, r), Row(w, i);
    var u := Product(k, q, w);
    forall l ensures Row(u, r)(l) == ApplyT(w, Range(k), x)(l) { DotSym(Range(k), x, Col(w, l)); }
    DotExt(Range(k), Row(u, r), Col(Transpose(w), i), ApplyT(w, Range(k), x), y);
    Adjoint(Range(k), Range(k), x, w, y);
    DotSym(Range(k), x, Apply(w, Range(k), y));
    DotUnit(Range(k), i, Apply(w, Range(k), y), x);
  }

  lemma SameColumns(m: nat, k: nat, q: Mat, q': Mat)
    requires OrthonormalColumns(m, k, q') && forall r, i | 0 <= i < k :: q'(r, i) == q(r, i)
    ensures OrthonormalColumns(m, k, q)
  {
    forall i, j | 0 <= i < k && 0 <= j < k
      ensures Dot(Range(m), Col(q, i), Col(q, j)) == if i == j then 1.0 else 0.0
    {
      DotExt(Range(m), Col(q, i), Col(q, j), Col(q', i), Col(q', j));
    }
  }

  /** The left factor has orthonormal columns exactly when the basis has. */
  lemma LeftOrthonormal(m: nat, n: nat, k: nat, a: Mat, q: Mat, w: Mat, s: seq<real>)
    requires Decomposition(m, n, k, a, q, w, s)
    ensures OrthonormalColumns(m, k, Product(k, q, w)) <==> OrthonormalColumns(m, k, q)
  {
    var u, wt := Product(k, q, w), Transpose(w);
    if OrthonormalColumns(m, k, q) {
      TurnedOrthonormal(m, k, q, w);
    }
    if OrthonormalColumns(m, k, u) {
      TransposeOrthonormal(k, w);
      TurnedOrthonormal(m, k, u, wt);
      forall r, i | 0 <= i < k { TurnedBack(k, q, w, r, i); }
      SameColumns(m, k, q, Product(k, u, wt));
    }
  }

  /** The singular values carry exactly the energy of Qt A: never more than that of A. */
  lemma SingularEnergy(m: nat, n: nat, k: nat, a: Mat, q: Mat, w: Mat, s: seq<real>)
    requires Decomposition(m, n, k, a, q, w, s)
    ensures Sum(Range(k), Squares(s)) == Frobenius(k, n, Small(m, q, a))
    ensures OrthonormalColumns(m, k, q) ==> Sum(Range(k), Squares(s)) <= Frobenius(m, n, a)
  {
    if OrthonormalColumns(m, k, q) {
      EnergyBounded(m, k, n, q, a);
    }
  }

  /** A column of the right factor has unit length, or is zero for a negligible singular value. */
  lemma RightUnit(m: nat, n: nat, k: nat, a: Mat, q: Mat, w: Mat, s: seq<real>, j: int)
    requires Decomposition(m, n, k, a, q, w, s) && 0 <= j < k
    ensures var v := RightVectors(k, Small(m, q, a), w, s);
      Dot(Range(n), Col(v, j), Col(v, j)) == if s[j] > TOLERANCE then 1.0 else 0.0
  {
    var y, c := Image(k, Small(m, q, a), w, j), Col(RightVectors(k, Small(m, q, a), w, s), j);
    var d := Dot(Range(n), y, y);
    if s[j] > TOLERANCE {
      DivideLeft(n, y, s[j], c, c);
      DotSym(Range(n), y, c);
      DivideLeft(n, y, s[j], c, y);
      Ratio(s[j], d);
    } else {
      SumZero(Range(n), Times(c, c));
    }
  }

  lemma DivideLeft(n: nat, y: Vec<int>, x: real, c: Vec<int>, z: Vec<int>)
    requires x != 0.0 && forall i :: c(i) == Div(y(i), x)
    ensures Dot(Range(n), c, z) == Div(Dot(Range(n), y, z), x)
  {
    forall i ensures c(i) == Lin(1.0 / x, y(i), 0.0, y(i)) { Scaled(y(i), x); }
    DotLinear(Range(n), 1.0 / x, y, 0.0, y, c, z);
    Scaled(Dot(Range(n), y, z), x);
  }

  /** No singular value lies strictly between zero and the tolerance. */
  ghost predicate NoneDropped(s: seq<real>) {
    forall j :: 0 <= j < |s| ==> s[j] == 0.0 || s[j] > 0.000000000001
  }

  /** U times the diagonal of s. */
  ghost function Weighted(k: nat, q: Mat, w: Mat, s: seq<real>): Mat {
    (i, j) => if 0 <= j < |s| then Mul(Product(k, q, w)(i, j), s[j]) else 0.0
  }

  /** The directions whose singular value is negligible: the code leaves them out. */
  ghost function Dropped(s: seq<real>): set<int> { set j | 0 <= j < |s| && s[j] <= TOLERANCE }

  function Kept(s: seq<real>, x: Vec<int>): Vec<int> { j => if 0 <= j < |s| && s[j] > TOLERANCE then x(j) else 0.0 }

  /** Entry doc of every image. */
  ghost function Images(k: nat, b: Mat, w: Mat, doc: int): Vec<int> { j => Image(k, b, w, j)(doc) }

  lemma {:induction false} SumWithout(s: set<int>, t: set<int>, f: Vec<int>, g: Vec<int>)
    requires t <= s && forall x | x in s :: g(x) == if x in t then 0.0 else f(x)
    ensures Sum(s, f) == Sum(s, g) + Sum(t, f)
    decreases |s|
  {
    if s != {} {
      var x := Pick(s);
      Pull(s, f, x);
      Pull(s, g, x);
      SumWithout(s - {x}, t - {x}, f, g);
      if x in t {
        Pull(t, f, x);
      } else {
        assert t - {x} == t;
      }
    }
  }

  lemma KeptAndDropped(s: seq<real>, x: Vec<int>, y: Vec<int>)
    ensures Dot(Range(|s|), x, y) == Dot(Range(|s|), Kept(s, x), Kept(s, y)) + Dot(Dropped(s), x, y)
  {
    SumWithout(Range(|s|), Dropped(s), Times(x, y), Times(Kept(s, x), Kept(s, y)));
  }

  lemma ImageAlong(k: nat, b: Mat, w: Mat, doc: int, j: int)
    ensures Images(k, b, w, doc)(j) == Apply(Transpose(w), Range(k), Col(b, doc))(j)
  {
    TransposedEntry(k, w, Col(b, doc), j);
    assert Image(k, b, w, j)(doc) == Dot(Range(k), Col(b, doc), Col(w, j));
  }

  /** Seen along the columns of w, a column of b has its images as coordinates. */
  lemma AlongImages(k: nat, q: Mat, b: Mat, w: Mat, i: int, doc: int)
    requires OrthonormalRows(k, w)
    ensures Dot(Range(k), Row(Product(k, q, w), i), Images(k, b, w, doc)) == Product(k, q, b)(i, doc)
  {
    var x, y, wt := Row(q, i), Col(b, doc), Transpose(w);
    var x', y' := Apply(wt, Range(k), x), Apply(wt, Range(k), y);
    forall j ensures Row(Product(k, q, w), i)(j) == x'(j) && Images(k, b, w, doc)(j) == y'(j) {
      TransposedEntry(k, w, x, j);
      ImageAlong(k, b, w, doc, j);
    }
    DotExt(Range(k), Row(Product(k, q, w), i), Images(k, b, w, doc), x', y');
    TransposeOrthonormal(k, w);
    Isometry(k, k, wt, x, y);
  }

  lemma ImagesKeepInner(k: nat, b: Mat, w: Mat, d: int, e: int)
    requires OrthonormalRows(k, w)
    ensures Dot(Range(k), Images(k, b, w, d), Images(k, b, w, e)) == Dot(Range(k), Col(b, d), Col(b, e))
  {
    var x, y, wt := Col(b, d), Col(b, e), Transpose(w);
    var x', y' := Apply(wt, Range(k), x), Apply(wt, Range(k), y);
    forall j ensures Images(k, b, w, d)(j) == x'(j) && Images(k, b, w, e)(j) == y'(j) {
      ImageAlong(k, b, w, d, j);
      ImageAlong(k, b, w, e, j);
    }
    DotExt(Range(k), Images(k, b, w, d), Images(k, b, w, e), x', y');
    TransposeOrthonormal(k, w);
    Isometry(k, k, wt, x, y);
  }

  /** An entry of U S Vt. */
  ghost function Restored(k: nat, q: Mat, b: Mat, w: Mat, s: seq<real>): Mat {
    Product(k, Weighted(k, q, w, s), Transpose(RightVectors(k, b, w, s)))
  }

  /** U S Vt is the projection Q Qt A less what the dropped directions carry of it. */
  lemma Reconstruction(m: nat, n: nat, k: nat, a: Mat, q: Mat, w: Mat, s: seq<real>, i: int, doc: int)
    requires Decomposition(m, n, k, a, q, w, s)
    ensures var b := Small(m, q, a);
      Restored(k, q, b, w, s)(i, doc) + Dot(Dropped(s), Row(Product(k, q, w), i), Images(k, b, w, doc))
        == Product(k, q, b)(i, doc)
  {
    var b := Small(m, q, a);
    var x, y := Row(Product(k, q, w), i), Images(k, b, w, doc);
    var f, g := Row(Weighted(k, q, w, s), i), Col(Transpose(RightVectors(k, b, w, s)), doc);
    forall j | j in Range(k) ensures Times(f, g)(j) == Times(Kept(s, x), Kept(s, y))(j) {
      RestoredTerm(k, q, b, w, s, i, doc, j);
    }
    Ext(Range(k), Times(f, g), Times(Kept(s, x), Kept(s, y)));
    assert Restored(k, q, b, w, s)(i, doc) == Dot(Range(k), f, g);
    KeptAndDropped(s, x, y);
    AlongImages(k, q, b, w, i, doc);
  }

  lemma RestoredTerm(k: nat, q: Mat, b: Mat, w: Mat, s: seq<real>, i: int, doc: int, j: int)
    requires |s| == k && 0 <= j < k
    ensures Mul(Weighted(k, q, w, s)(i, j), RightVectors(k, b, w, s)(doc, j)) ==
      Mul(Kept(s, Row(Product(k, q, w), i))(j), Kept(s, Images(k, b, w, doc))(j))
  {
    var u, y := Product(k, q, w)(i, j), Image(k, b, w, j)(doc);
    if s[j] > TOLERANCE {
      WeightCancels(u, s[j], y);
    } else {
      ZeroProducts(u, s[j]);
    }
  }

  lemma WeightCancels(u: real, x: real, y: real)
    requires x != 0.0
    ensures Mul(Mul(u, x), Div(y, x)) == Mul(u, y)
  {
  }

  lemma ZeroProducts(u: real, x: real)
    ensures Mul(0.0, 0.0) == 0.0 == Mul(Mul(u, x), 0.0)
  {
  }

  // ---------- when dropping loses nothing ----------

  /** What the dropped directions carry of a document. */
  ghost function Carried(k: nat, b: Mat, w: Mat, s: seq<real>, d: int): real {
    Dot(Dropped(s), Images(k, b, w, d), Images(k, b, w, d))
  }

  /** A dropped direction of a positive singular value carries something of some document. */
  lemma SomethingCarried(k: nat, n: nat, b: Mat, w: Mat, s: seq<real>, j: nat) returns (d: nat)
    requires SingularValues(k, n, b, w, s) && j < k && 0.0 < s[j] <= TOLERANCE
    ensures d < n && Carried(k, b, w, s, d) > 0.0
  {
    var y := Image(k, b, w, j);
    SqNonNegative(s[j]);
    if forall i :: 0 <= i < n ==> y(i) == 0.0 {
      SumZero(Range(n), Times(y, y));
      assert false;
    }
    d :| d < n && y(d) != 0.0;
    var x := Images(k, b, w, d);
    forall i ensures Times(x, x)(i) >= 0.0 && (x(i) != 0.0 ==> Times(x, x)(i) > 0.0) {
      SqNonNegative(x(i));
      assert Times(x, x)(i) == Sq(x(i));
    }
    Positive(Dropped(s), Times(x, x), j);
  }

  /** The image of a zero singular value vanishes, so dropping it loses nothing. */
  lemma NothingCarried(k: nat, n: nat, b: Mat, w: Mat, s: seq<real>, x: Vec<int>, d: nat)
    requires SingularValues(k, n, b, w, s) && NoneDropped(s) && d < n
    ensures Dot(Dropped(s), x, Images(k, b, w, d)) == 0.0
  {
    forall j | j in Dropped(s) ensures Times(x, Images(k, b, w, d))(j) == 0.0 {
      SqNonNegative(s[j]);
      ZeroNorm(Range(n), Image(k, b, w, j), d);
      ZeroProducts(x(j), 1.0);
      assert Mul(x(j), 1.0) == x(j);
    }
    SumZero(Dropped(s), Times(x, Images(k, b, w, d)));
  }

  /** The squares of the images, by document and direction. */
  ghost function Energies(k: nat, b: Mat, w: Mat): Mat { (d, j) => Sq(Images(k, b, w, d)(j)) }

  ghost function AllCarried(k: nat, b: Mat, w: Mat, s: seq<real>): Vec<int> { d => Carried(k, b, w, s, d) }

  lemma CarriedIsRow(k: nat, b: Mat, w: Mat, s: seq<real>, d: int)
    ensures Carried(k, b, w, s, d) == RowSums(Energies(k, b, w), Dropped(s))(d)
  {
    var x := Images(k, b, w, d);
    Ext(Dropped(s), Times(x, x), Row(Energies(k, b, w), d));
  }

  lemma SquareIsColumn(k: nat, n: nat, b: Mat, w: Mat, s: seq<real>, j: int)
    requires SingularValues(k, n, b, w, s) && 0 <= j < k
    ensures Squares(s)(j) == ColSums(Energies(k, b, w), Range(n))(j)
  {
    var y := Image(k, b, w, j);
    forall d ensures Times(y, y)(d) == Col(Energies(k, b, w), j)(d) { assert y(d) == Images(k, b, w, d)(j); }
    Ext(Range(n), Times(y, y), Col(Energies(k, b, w), j));
  }

  /** Over all documents the dropped directions carry the squares of their singular values. */
  lemma CarriedInAll(k: nat, n: nat, b: Mat, w: Mat, s: seq<real>)
    requires SingularValues(k, n, b, w, s)
    ensures Sum(Range(n), AllCarried(k, b, w, s)) == Sum(Dropped(s), Squares(s))
  {
    var sq := Energies(k, b, w);
    forall d { CarriedIsRow(k, b, w, s, d); }
    forall j | j in Dropped(s) { SquareIsColumn(k, n, b, w, s, j); }
    Ext(Range(n), AllCarried(k, b, w, s), RowSums(sq, Dropped(s)));
    Ext(Dropped(s), Squares(s), ColSums(sq, Range(n)));
    SumSwap(Range(n), Dropped(s), sq);
  }

  /** What column doc of U S Vt falls short of the projection. */
  ghost function Missing(k: nat, q: Mat, b: Mat, w: Mat, s: seq<real>, doc: int): Vec<int> {
    i => Product(k, q, b)(i, doc) - Restored(k, q, b, w, s)(i, doc)
  }

  function Only(t: set<int>, x: Vec<int>): Vec<int> { j => if j in t then x(j) else 0.0 }

  lemma OnlyDot(s: set<int>, t: set<int>, x: Vec<int>, y: Vec<int>)
    requires t <= s
    ensures Dot(s, y, Only(t, x)) == Dot(t, y, x)
  {
    forall j | j in s ensures j !in t ==> Times(y, Only(t, x))(j) == 0.0 {
      ZeroProducts(y(j), 1.0);
      assert Mul(y(j), 1.0) == y(j);
    }
    var f := Times(y, Only(t, x));
    SumWithout(s, t, f, _ => 0.0);
    SumZero(s, _ => 0.0);
    Ext(t, f, Times(y, x));
  }

  /** On an orthonormal basis the missing part is exactly as long as what was carried. */
  lemma MissingEnergy(m: nat, n: nat, k: nat, a: Mat, q: Mat, w: Mat, s: seq<real>, doc: nat)
    requires Decomposition(m, n, k, a, q, w, s) && OrthonormalColumns(m, k, q)
    ensures var b := Small(m, q, a);
      var e := Missing(k, q, b, w, s, doc);
      Dot(Range(m), e, e) == Carried(k, b, w, s, doc)
  {
    var b, u := Small(m, q, a), Product(k, q, w);
    var x, e := Images(k, b, w, doc), Missing(k, q, b, w, s, doc);
    var y := Only(Dropped(s), x);
    forall i ensures e(i) == Apply(u, Range(k), y)(i) {
      Reconstruction(m, n, k, a, q, w, s, i, doc);
      OnlyDot(Range(k), Dropped(s), x, Row(u, i));
    }
    DotExt(Range(m), e, e, Apply(u, Range(k), y), Apply(u, Range(k), y));
    LeftOrthonormal(m, n, k, a, q, w, s);
    Isometry(m, k, u, y, y);
    OnlyDot(Range(k), Dropped(s), x, y);
    DotExt(Dropped(s), y, x, x, x);
  }

  ghost function Shortfall(m: nat, k: nat, q: Mat, b: Mat, w: Mat, s: seq<real>): Vec<int> {
    doc => Dot(Range(m), Missing(k, q, b, w, s, doc), Missing(k, q, b, w, s, doc))
  }

  /** In all, the error is the sum of the squares of the dropped singular values. */
  lemma MissingInAll(m: nat, n: nat, k: nat, a: Mat, q: Mat, w: Mat, s: seq<real>)
    requires Decomposition(m, n, k, a, q, w, s) && OrthonormalColumns(m, k, q)
    ensures Sum(Range(n), Shortfall(m, k, q, Small(m, q, a), w, s)) == Sum(Dropped(s), Squares(s))
  {
    var b := Small(m, q, a);
    forall doc: nat { MissingEnergy(m, n, k, a, q, w, s, doc); }
    Ext(Range(n), Shortfall(m, k, q, b, w, s), AllCarried(k, b, w, s));
    CarriedInAll(k, n, b, w, s);
  }

  ghost predicate Reconstructs(m: nat, n: nat, k: nat, a: Mat, q: Mat, w: Mat, s: seq<real>) {
    var b := Small(m, q, a);
    forall i, doc :: 0 <= i < m && 0 <= doc < n ==> Restored(k, q, b, w, s)(i, doc) == Product(k, q, b)(i, doc)
  }

  lemma ReconstructsWhenNoneDropped(m: nat, n: nat, k: nat, a: Mat, q: Mat, w: Mat, s: seq<real>)
    requires Decomposition(m, n, k, a, q, w, s) && NoneDropped(s)
    ensures Reconstructs(m, n, k, a, q, w, s)
  {
    forall i, doc | 0 <= i < m && 0 <= doc < n
      ensures Restored(k, q, Small(m, q, a), w, s)(i, doc) == Product(k, q, Small(m, q, a))(i, doc)
    {
      Reconstruction(m, n, k, a, q, w, s, i, doc);
      NothingCarried(k, n, Small(m, q, a), w, s, Row(Product(k, q, w), i), doc);
    }
  }

  lemma NothingMissing(m: nat, n: nat, k: nat, a: Mat, q: Mat, w: Mat, s: seq<real>, doc: nat)
    requires Reconstructs(m, n, k, a, q, w, s) && doc < n
    ensures var e := Missing(k, q, Small(m, q, a), w, s, doc);
      Dot(Range(m), e, e) == 0.0
  {
    var e := Missing(k, q, Small(m, q, a), w, s, doc);
    forall i | i in Range(m) ensures Times(e, e)(i) == 0.0 { ZeroProducts(0.0, 0.0); }
    SumZero(Range(m), Times(e, e));
  }

  /** On an orthonormal basis U S Vt is the projection exactly when no positive singular value is negligible. */
  lemma ReconstructsIff(m: nat, n: nat, k: nat, a: Mat, q: Mat, w: Mat, s: seq<real>)
    requires Decomposition(m, n, k, a, q, w, s) && OrthonormalColumns(m, k, q)
    ensures Reconstructs(m, n, k, a, q, w, s) <==> NoneDropped(s)
  {
    var b := Small(m, q, a);
    if NoneDropped(s) {
      ReconstructsWhenNoneDropped(m, n, k, a, q, w, s);
    } else {
      var j: nat :| j < k && s[j] != 0.0 && s[j] <= TOLERANCE;
      var d := SomethingCarried(k, n, b, w, s, j);
      MissingEnergy(m, n, k, a, q, w, s, d);
      if Reconstructs(m, n, k, a, q, w, s) {
        NothingMissing(m, n, k, a, q, w, s, d);
        assert false;
      }
    }
  }

  lemma TransposedEntry(k: nat, w: Mat, x: Vec<int>, j: int)
    ensures Apply(Transpose(w), Range(k), x)(j) == Dot(Range(k), x, Col(w, j))
  {
    DotExt(Range(k), Row(Transpose(w), j), x, Col(w, j), x);
    DotSym(Range(k), Col(w, j), x);
  }

  lemma TransposeOrthonormal(k: nat, w: Mat)
    requires OrthonormalRows(k, w)
    ensures OrthonormalColumns(k, k, Transpose(w))
  {
    forall i, j | 0 <= i < k && 0 <= j < k
      ensures Dot(Range(k), Col(Transpose(w), i), Col(Transpose(w), j)) == if i == j then 1.0 else 0.0
    {
      DotExt(Range(k), Col(Transpose(w), i), Col(Transpose(w), j), Row(w, i), Row(w, j));
    }
  }

  // ---------- the algorithm ----------

  /** So U has orthonormal columns exactly when no pivot of the last orthonormalisation is negligible. */
  lemma SampledLeftOrthonormal(sqrt: real -> real, m: nat, n: nat, k: nat, a: Mat, omega: Mat, iters: nat, w: Mat,
                               s: seq<real>)
    requires IsSqrt(sqrt) && Decomposition(m, n, k, a, SampledBasis(sqrt, m, n, k, a, omega, iters), w, s)
    ensures OrthonormalColumns(m, k, Product(k, SampledBasis(sqrt, m, n, k, a, omega, iters), w)) <==>
      AllPivots(sqrt, m, Sample(sqrt, m, n, k, a, omega, iters), k)
  {
    LeftOrthonormal(m, n, k, a, SampledBasis(sqrt, m, n, k, a, omega, iters), w, s);
    OrthonormalIff(sqrt, m, k, Sample(sqrt, m, n, k, a, omega, iters));
  }

  method RowDot(b: array2<real>, k: nat, n: nat, i: nat, j: nat, ghost f: Mat) returns (sum: real)
    requires Holds(b, k, n, f) && i < k && j < k
    ensures sum == Gram(n, f)(i, j)
  {
    sum := 0.0;
    for col := 0 to n
      invariant sum == Dot(Range(col), Row(f, i), Row(f, j))
    {
      AccumulateDot(col, Row(f, i), Row(f, j));
      sum := sum + Mul(b[i, col], b[j, col]);
    }
  }

  method GramMatrix(b: array2<real>, k: nat, n: nat, ghost f: Mat) returns (g: array2<real>)
    requires Holds(b, k, n, f)
    ensures fresh(g) && Holds(g, k, k, Gram(n, f))
  {
    g := Zeros(k, k);
    for i := 0 to k
      invariant forall u, j :: 0 <= u < i && 0 <= j < k ==> g[u, j] == Gram(n, f)(u, j)
    {
      for j := 0 to k
        invariant forall u, t :: 0 <= u <= i && 0 <= t < k && (u < i || t < j) ==> g[u, t] == Gram(n, f)(u, t)
      {
        var sum := RowDot(b, k, n, i, j, f);
        g[i, j] := sum;
      }
    }
  }

  method Roots(sqrt: real -> real, vals: array<real>, k: nat) returns (s: array<real>)
    requires vals.Length == k
    ensures fresh(s) && s.Length == k
    ensures forall i :: 0 <= i < k ==> s[i] == if vals[i] > 0.0 then sqrt(vals[i]) else 0.0
  {
    s := new real[k](i => 0.0);
    for i := 0 to k
      invariant forall j :: 0 <= j < k ==> s[j] == if j < i && vals[j] > 0.0 then sqrt(vals[j]) else 0.0
    {
      if vals[i] > 0.0 {
        s[i] := sqrt(vals[i]);
      }
    }
  }

  method ImageEntry(b: array2<real>, w: array2<real>, k: nat, n: nat, doc: nat, col: nat, ghost f: Mat, ghost g: Mat)
    returns (sum: real)
    requires Holds(b, k, n, f) && Holds(w, k, k, g) && doc < n && col < k
    ensures sum == Image(k, f, g, col)(doc)
  {
    sum := 0.0;
    for row := 0 to k
      invariant sum == Dot(Range(row), Col(f, doc), Col(g, col))
    {
      AccumulateDot(row, Col(f, doc), Col(g, col));
      sum := sum + Mul(b[row, doc], w[row, col]);
    }
  }

  method RightFactor(b: array2<real>, w: array2<real>, s: array<real>, k: nat, n: nat, ghost f: Mat, ghost g: Mat)
    returns (v: array2<real>)
    requires Holds(b, k, n, f) && Holds(w, k, k, g) && s.Length == k
    ensures fresh(v) && Holds(v, n, k, RightVectors(k, f, g, s[..]))
  {
    v := Zeros(n, k);
    ghost var target := RightVectors(k, f, g, s[..]);
    for doc := 0 to n
      invariant forall i, j :: 0 <= i < n && 0 <= j < k ==> v[i, j] == if i < doc then target(i, j) else 0.0
    {
      for col := 0 to k
        invariant forall i, j :: 0 <= i < n && 0 <= j < k ==>
          v[i, j] == if i < doc || (i == doc && j < col) then target(i, j) else 0.0
      {
        if s[col] > TOLERANCE {
          var sum := ImageEntry(b, w, k, n, doc, col, f, g);
          v[doc, col] := Div(sum, s[col]);
        }
      }
    }
  }

  /** The rank-k factors of the m x n matrix a; omega is the random test matrix. */
  method ComputeTruncatedSVD(sqrt: real -> real, trig: Trig, a: array2<real>, omega: array2<real>,
                             m: nat, n: nat, k: nat, powerIters: nat, ghost f: Mat, ghost o: Mat)
    returns (u: array2<real>, s: array<real>, v: array2<real>, ghost w: Mat)
    requires IsSqrt(sqrt) && IsTrig(trig)
    requires Holds(a, m, n, f) && Holds(omega, n, k, o)
    ensures fresh(u) && fresh(s) && fresh(v)
    ensures var q := SampledBasis(sqrt, m, n, k, f, o, powerIters);
      && Decomposition(m, n, k, f, q, w, s[..])
      && Factors(k, Powered(m, n, f, o, powerIters), q, PowerUpper(sqrt, m, n, k, f, o, powerIters))
      && Holds(u, m, k, Product(k, q, w))
      && Holds(v, n, k, RightVectors(k, Small(m, q, f), w, s[..]))
  {
    ghost var qf := SampledBasis(sqrt, m, n, k, f, o, powerIters);
    ghost var bf := Small(m, qf, f);
    var q := SampleRange(sqrt, a, omega, m, n, k, powerIters, f, o);
    BasisSpansPowers(sqrt, m, n, k, f, o, powerIters);
    var b := MatMulQT(q, a, m, k, n, qf, f);
    var g := GramMatrix(b, k, n, bf);
    GramSymmetric(k, n, bf);
    var vals, vecs;
    ghost var rotations;
    vals, vecs, w, rotations := JacobiEigen(trig, g, k, Gram(n, bf));
    s := Roots(sqrt, vals, k);
    RootsAreSingularValues(sqrt, k, n, bf, w, vals[..], s[..]);
    u := MatMul(q, vecs, m, k, k, qf, w);
    v := RightFactor(b, vecs, s, k, n, bf, w);
  }
}
