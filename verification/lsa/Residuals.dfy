/** How far the returned pairs are from eigenpairs. */
module Residuals {
  import opened Arith
  import opened Sums
  import opened Matrix
  import opened Rotation
  import opened Jacobi
  import GramSchmidt
  import Svd

  /** What M w_j lacks of being the j-th value times w_j. */
  ghost function Residual(k: nat, m: Mat, w: Mat, j: int): Vec<int> {
    GramSchmidt.Less(Apply(m, Range(k), Col(w, j)), Compressed(k, m, w)(j, j), Col(w, j))
  }

  ghost function ResidualSizes(k: nat, m: Mat, w: Mat): Vec<int> {
    j => Dot(Range(k), Residual(k, m, w, j), Residual(k, m, w, j))
  }

  function OffDiagonal(c: Mat): Mat { (i, j) => OffRow(c, i)(j) }

  /** Along w_i the residual of column j has entry (i, j) of the compressed matrix, off its diagonal. */
  lemma ResidualAlong(k: nat, m: Mat, w: Mat, i: nat, j: nat)
    requires OrthonormalColumns(k, k, w) && i < k && j < k
    ensures Apply(Transpose(w), Range(k), Residual(k, m, w, j))(i) == if i == j then 0.0 else Compressed(k, m, w)(i, j)
  {
    var e := Residual(k, m, w, j);
    Svd.TransposedEntry(k, w, e, i);
    DotSym(Range(k), e, Col(w, i));
    GramSchmidt.DotLess(k, Col(w, i), Apply(m, Range(k), Col(w, j)), Compressed(k, m, w)(j, j), Col(w, j));
  }

  lemma EntrySquared(c: Mat, i: int, j: int, y: real)
    requires y == if i == j then 0.0 else c(i, j)
    ensures Mul(y, y) == Col(OffDiagonal(c), j)(i)
  {
    assert Col(OffDiagonal(c), j)(i) == OffRow(c, i)(j);
  }

  lemma ResidualSize(k: nat, m: Mat, w: Mat, j: nat)
    requires OrthonormalColumns(k, k, w) && OrthonormalRows(k, w) && j < k
    ensures ResidualSizes(k, m, w)(j) == ColSums(OffDiagonal(Compressed(k, m, w)), Range(k))(j)
  {
    var e, wt, c := Residual(k, m, w, j), Transpose(w), Compressed(k, m, w);
    var y := Apply(wt, Range(k), e);
    Svd.TransposeOrthonormal(k, w);
    Svd.Isometry(k, k, wt, e, e);
    forall i: nat | i < k ensures Times(y, y)(i) == Col(OffDiagonal(c), j)(i) {
      ResidualAlong(k, m, w, i, j);
      EntrySquared(c, i, j, y(i));
    }
    Ext(Range(k), Times(y, y), Col(OffDiagonal(c), j));
  }

  /** The squared residuals add up to exactly the remaining off-diagonal energy. */
  lemma ResidualEnergy(k: nat, m: Mat, w: Mat)
    requires OrthonormalColumns(k, k, w) && OrthonormalRows(k, w)
    ensures Sum(Range(k), ResidualSizes(k, m, w)) == Off(k, Compressed(k, m, w))
  {
    var d := OffDiagonal(Compressed(k, m, w));
    forall j: nat | j < k ensures ResidualSizes(k, m, w)(j) == ColSums(d, Range(k))(j) {
      ResidualSize(k, m, w, j);
    }
    Ext(Range(k), ResidualSizes(k, m, w), ColSums(d, Range(k)));
    SumSwap(Range(k), Range(k), d);
    forall i ensures RowSums(d, Range(k))(i) == OffRows(k, Compressed(k, m, w))(i) {
      Ext(Range(k), Row(d, i), OffRow(Compressed(k, m, w), i));
    }
    Ext(Range(k), RowSums(d, Range(k)), OffRows(k, Compressed(k, m, w)));
  }

  /** So the returned pairs are eigenpairs up to errors whose squares sum to at most rate^t of the start. */
  lemma ApproximateEigenPairs(k: nat, m: Mat, vals: seq<real>, w: Mat, t: nat)
    requires k >= 2 && EigenPairs(k, m, vals, w) && Converged(k, m, w, t)
    ensures Sum(Range(k), ResidualSizes(k, m, w)) <= Mul(Power(Rate(k), t), Off(k, m))
    ensures forall j :: 0 <= j < k ==>
      Residual(k, m, w, j) == GramSchmidt.Less(Apply(m, Range(k), Col(w, j)), vals[j], Col(w, j))
  {
    ResidualEnergy(k, m, w);
  }
}
