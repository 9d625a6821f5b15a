/** Inputs on which Gram-Schmidt fails: linearly dependent columns. */
module Dependence {
  import opened Arith
  import opened Sums
  import opened Oracles
  import opened Matrix
  import Rotation
  import GramSchmidt
  import Svd

  /** With orthonormal columns, the triangular factor holds the inner products with the input columns. */
  lemma UpperIs(sqrt: real -> real, m: nat, cols: nat, a: Mat, l: nat, k: nat)
    requires l < cols && k < cols
    requires Rotation.OrthonormalColumns(m, cols, GramSchmidt.Orthonormalised(sqrt, m, cols, a))
    ensures Dot(Range(m), Col(a, k), Col(GramSchmidt.Orthonormalised(sqrt, m, cols, a), l)) ==
      GramSchmidt.Upper(sqrt, m, a)(l, k)
  {
    var q, r := GramSchmidt.Orthonormalised(sqrt, m, cols, a), GramSchmidt.Upper(sqrt, m, a);
    var y := Apply(q, Range(cols), Col(r, k));
    forall i ensures Col(a, k)(i) == y(i) {
      GramSchmidt.QrFactors(sqrt, m, cols, a, i, k);
    }
    Svd.QtQ(m, cols, q, Col(r, k), l);
    DotExt(Range(m), Col(a, k), Col(q, l), y, Col(q, l));
    DotSym(Range(m), Col(q, l), y);
  }

  lemma OnlyOneTerm(cols: nat, c: Vec<int>, w: Vec<int>, j: nat)
    requires j < cols && forall k :: 0 <= k < j ==> c(k) == 0.0
    requires forall k :: j < k < cols ==> w(k) == 0.0
    ensures Dot(Range(cols), c, w) == Mul(c(j), w(j))
  {
    Pull(Range(cols), Times(c, w), j);
    SumZero(Range(cols) - {j}, Times(c, w));
  }

  lemma VanishingCombination(m: nat, cols: nat, a: Mat, u: Vec<int>, w: Vec<int>)
    requires forall i :: 0 <= i < m ==> Apply(a, Range(cols), w)(i) == 0.0
    ensures Dot(Range(cols), ApplyT(a, Range(m), u), w) == 0.0
  {
    SumZero(Range(m), Times(u, Apply(a, Range(cols), w)));
    Adjoint(Range(m), Range(cols), u, a, w);
  }

  /** Seen along column j of the result, the earlier input columns vanish and column j has the length of its pivot. */
  lemma AlongColumn(sqrt: real -> real, m: nat, cols: nat, a: Mat, j: nat, k: nat)
    requires IsSqrt(sqrt) && k <= j < cols && GramSchmidt.AllPivots(sqrt, m, a, cols)
    ensures var c := ApplyT(a, Range(m), Col(GramSchmidt.Orthonormalised(sqrt, m, cols, a), j));
      if k < j then c(k) == 0.0 else c(k) > 0.0
  {
    GramSchmidt.OrthonormalIff(sqrt, m, cols, a);
    UpperIs(sqrt, m, cols, a, j, k);
    assert GramSchmidt.Pivot(sqrt, m, a, j) > TOLERANCE;
  }

  /** If some combination of the columns vanishes, some pivot is negligible and the result is not orthonormal. */
  lemma DependentColumns(sqrt: real -> real, m: nat, cols: nat, a: Mat, w: Vec<int>, j: nat)
    requires IsSqrt(sqrt) && j < cols && w(j) != 0.0 && forall k :: j < k < cols ==> w(k) == 0.0
    requires forall i :: 0 <= i < m ==> Apply(a, Range(cols), w)(i) == 0.0
    ensures !GramSchmidt.AllPivots(sqrt, m, a, cols)
    ensures !Rotation.OrthonormalColumns(m, cols, GramSchmidt.Orthonormalised(sqrt, m, cols, a))
  {
    GramSchmidt.OrthonormalIff(sqrt, m, cols, a);
    if GramSchmidt.AllPivots(sqrt, m, a, cols) {
      var u := Col(GramSchmidt.Orthonormalised(sqrt, m, cols, a), j);
      var c := ApplyT(a, Range(m), u);
      VanishingCombination(m, cols, a, u, w);
      forall k: nat | k <= j ensures if k < j then c(k) == 0.0 else c(k) > 0.0 {
        AlongColumn(sqrt, m, cols, a, j, k);
      }
      OnlyOneTerm(cols, c, w, j);
      NonZeroProduct(c(j), w(j));
      assert false;
    }
  }

  lemma NonZeroProduct(x: real, y: real)
    requires x != 0.0 && y != 0.0
    ensures Mul(x, y) != 0.0
  {
  }

  /** A zero column is such an input. */
  lemma ZeroColumn(sqrt: real -> real, m: nat, cols: nat, a: Mat, j: nat)
    requires IsSqrt(sqrt) && j < cols && forall i :: 0 <= i < m ==> a(i, j) == 0.0
    ensures !Rotation.OrthonormalColumns(m, cols, GramSchmidt.Orthonormalised(sqrt, m, cols, a))
  {
    var w: Vec<int> := k => if k == j then 1.0 else 0.0;
    forall i | 0 <= i < m ensures Apply(a, Range(cols), w)(i) == 0.0 {
      DotSym(Range(cols), Row(a, i), w);
      DotUnit(Range(cols), j, w, Row(a, i));
    }
    DependentColumns(sqrt, m, cols, a, w, j);
  }
}
