/** The cyclic-maximum Jacobi eigenvalue method on mutable arrays. */
module Jacobi {
  import opened Arith
  import opened Sums
  import InnerProducts
  import opened Oracles
  import opened Sorting
  import opened Matrix
  import opened Rotation

  const MAX_ITERS: nat := 50

  datatype Pair = Pair(val: real, vec: seq<real>)

  // ---------- runs of rotations ----------

  function Identity(): Mat { (i, j) => if i == j then 1.0 else 0.0 }

  function Front(rs: seq<Plane>): seq<Plane> requires rs != [] { rs[..|rs| - 1] }
  function Last(rs: seq<Plane>): Plane requires rs != [] { rs[|rs| - 1] }

  /** The two working matrices after the rotations rs, starting from m and the identity. */
  ghost function AfterA(m: Mat, rs: seq<Plane>): Mat {
    if rs == [] then m else Conjugate(Last(rs), AfterA(m, Front(rs)))
  }

  ghost function AfterV(rs: seq<Plane>): Mat {
    if rs == [] then Identity() else TurnColumns(Last(rs), AfterV(Front(rs)))
  }

  ghost predicate Step(k: nat, a: Mat, r: Plane) {
    IsRotation(r, k) && Annihilates(r, a) && IsPivot(k, a, r.p, r.q)
  }

  /** Every rotation clears a largest entry of the matrix it is applied to. */
  ghost predicate Run(k: nat, m: Mat, rs: seq<Plane>) {
    rs == [] || (Run(k, m, Front(rs)) && Step(k, AfterA(m, Front(rs)), Last(rs)))
  }

  lemma RunNext(k: nat, m: Mat, rs: seq<Plane>, r: Plane)
    requires Run(k, m, rs) && Step(k, AfterA(m, rs), r)
    ensures Run(k, m, rs + [r])
    ensures AfterA(m, rs + [r]) == Conjugate(r, AfterA(m, rs)) && AfterV(rs + [r]) == TurnColumns(r, AfterV(rs))
  {
  }

  lemma {:induction false} RunSymmetric(k: nat, m: Mat, rs: seq<Plane>)
    requires Symmetric(k, m) && Run(k, m, rs)
    ensures Symmetric(k, AfterA(m, rs))
  {
    if rs != [] {
      RunSymmetric(k, m, Front(rs));
      ConjugateSymmetric(Last(rs), AfterA(m, Front(rs)), k);
    }
  }

  /** V stays orthogonal: orthonormal columns and orthonormal rows. */
  lemma {:induction false} RunOrthogonal(k: nat, m: Mat, rs: seq<Plane>)
    requires Run(k, m, rs)
    ensures OrthonormalColumns(k, k, AfterV(rs)) && OrthonormalRows(k, AfterV(rs))
  {
    if rs == [] {
      IdentityOrthogonal(k);
    } else {
      RunOrthogonal(k, m, Front(rs));
      ColumnsStayOrthonormal(k, k, Last(rs), AfterV(Front(rs)));
      RowsStayOrthonormal(k, Last(rs), AfterV(Front(rs)));
    }
  }

  lemma IdentityOrthogonal(k: nat)
    ensures OrthonormalColumns(k, k, Identity()) && OrthonormalRows(k, Identity())
  {
    forall i, j | 0 <= i < k && 0 <= j < k
      ensures Dot(Range(k), Col(Identity(), i), Col(Identity(), j)) == if i == j then 1.0 else 0.0
      ensures Dot(Range(k), Row(Identity(), i), Row(Identity(), j)) == if i == j then 1.0 else 0.0
    {
      IdentityDots(k, i, j);
    }
  }

  lemma IdentityDots(k: nat, i: int, j: int)
    requires 0 <= i < k
    ensures Dot(Range(k), Col(Identity(), i), Col(Identity(), j)) == if i == j then 1.0 else 0.0
    ensures Dot(Range(k), Row(Identity(), i), Row(Identity(), j)) == if i == j then 1.0 else 0.0
  {
    DotUnit(Range(k), i, Col(Identity(), i), Col(Identity(), j));
    DotUnit(Range(k), i, Row(Identity(), i), Row(Identity(), j));
  }

  /** M V == V A after every rotation. */
  lemma {:induction false} RunSimilar(k: nat, m: Mat, rs: seq<Plane>)
    requires Symmetric(k, m) && Run(k, m, rs)
    ensures Similar(k, m, AfterV(rs), AfterA(m, rs))
  {
    if rs == [] {
      forall i, j | 0 <= i < k && 0 <= j < k
        ensures Product(k, m, Identity())(i, j) == Product(k, Identity(), m)(i, j)
      {
        DotUnit(Range(k), i, Row(Identity(), i), Col(m, j));
        DotSym(Range(k), Row(m, i), Col(Identity(), j));
        DotUnit(Range(k), j, Col(Identity(), j), Row(m, i));
      }
    } else {
      RunSimilar(k, m, Front(rs));
      RunSymmetric(k, m, Front(rs));
      StaysSimilar(k, Last(rs), m, AfterV(Front(rs)), AfterA(m, Front(rs)));
    }
  }

  lemma {:induction false} RunTrace(k: nat, m: Mat, rs: seq<Plane>)
    requires Run(k, m, rs)
    ensures Trace(k, AfterA(m, rs)) == Trace(k, m)
  {
    if rs != [] {
      RunTrace(k, m, Front(rs));
      TraceStays(k, Last(rs), AfterA(m, Front(rs)));
    }
  }

  function Power(x: real, n: nat): real {
    if n == 0 then 1.0 else Mul(x, Power(x, n - 1))
  }

  /** The off-diagonal energy decays geometrically with the number of rotations. */
  lemma {:induction false} RunEnergy(k: nat, m: Mat, rs: seq<Plane>)
    requires k >= 2 && Symmetric(k, m) && Run(k, m, rs)
    ensures Off(k, AfterA(m, rs)) <= Mul(Power(Rate(k), |rs|), Off(k, m))
  {
    if rs == [] {
      assert Mul(1.0, Off(k, m)) == Off(k, m);
    } else {
      var x, p, e, a := Rate(k), Power(Rate(k), |rs| - 1), Off(k, m), AfterA(m, Front(rs));
      RunEnergy(k, m, Front(rs));
      RunSymmetric(k, m, Front(rs));
      EnergyShrinks(k, Last(rs), a);
      Chain(x, p, e, Off(k, a), Off(k, AfterA(m, rs)));
    }
  }

  lemma Chain(x: real, p: real, e: real, before: real, after: real)
    requires 0.0 <= x && before <= Mul(p, e) && after <= Mul(x, before)
    ensures after <= Mul(Mul(x, p), e)
  {
  }

  // ---------- what the returned columns mean ----------

  /** The matrix m seen in the basis of the columns of w: entry (i, j) is <w_i, m w_j>. */
  ghost function Compressed(k: nat, m: Mat, w: Mat): Mat {
    (i, j) => Dot(Range(k), Col(w, i), Apply(m, Range(k), Col(w, j)))
  }

  lemma CompressedIs(k: nat, m: Mat, v: Mat, a: Mat, i: int, j: int)
    requires OrthonormalColumns(k, k, v) && Similar(k, m, v, a) && 0 <= i < k && 0 <= j < k
    ensures Compressed(k, m, v)(i, j) == a(i, j)
  {
    var r, u := Range(k), Col(v, i);
    forall l | l in r ensures Apply(m, r, Col(v, j))(l) == Apply(v, r, Col(a, j))(l) {
      SameDots(k, m, v, a, l, j);
    }
    DotExt(r, u, Apply(m, r, Col(v, j)), u, Apply(v, r, Col(a, j)));
    Adjoint(r, r, u, v, Col(a, j));
    DotUnit(r, i, ApplyT(v, r, u), Col(a, j));
  }

  /** Column j of w is column perm[j] of v. */
  ghost predicate PermutesColumns(k: nat, v: Mat, perm: seq<int>, w: Mat) {
    IsPermutation(perm, k) && forall l, j :: 0 <= l < k && 0 <= j < k ==> w(l, j) == v(l, perm[j])
  }

  lemma CompressedPermuted(k: nat, m: Mat, v: Mat, perm: seq<int>, w: Mat, i: int, j: int)
    requires PermutesColumns(k, v, perm, w) && 0 <= i < k && 0 <= j < k
    ensures Compressed(k, m, w)(i, j) == Compressed(k, m, v)(perm[i], perm[j])
  {
    forall l ensures Apply(m, Range(k), Col(w, j))(l) == Apply(m, Range(k), Col(v, perm[j]))(l) {
      DotExt(Range(k), Row(m, l), Col(w, j), Row(m, l), Col(v, perm[j]));
    }
    DotExt(Range(k), Col(w, i), Apply(m, Range(k), Col(w, j)), Col(v, perm[i]), Apply(m, Range(k), Col(v, perm[j])));
  }

  /** w is an orthogonal matrix whose columns give vals as Rayleigh quotients, largest first. */
  ghost predicate EigenPairs(k: nat, m: Mat, vals: seq<real>, w: Mat) {
    && |vals| == k
    && (forall i, j :: 0 <= i < j < k ==> vals[i] >= vals[j])
    && OrthonormalColumns(k, k, w)
    && OrthonormalRows(k, w)
    && (forall i :: 0 <= i < k ==> Compressed(k, m, w)(i, i) == vals[i])
    && Sum(Range(k), InnerProducts.Component(vals)) == Trace(k, m)
  }

  /** At most 50 rotations were made, each shrinking the off-diagonal energy by the rate;
      fewer than 50 only when every off-diagonal entry is below the tolerance. */
  ghost predicate Converged(k: nat, m: Mat, w: Mat, t: nat) {
    && t <= 50
    && (k >= 2 ==> Off(k, Compressed(k, m, w)) <= Mul(Power(Rate(k), t), Off(k, m)))
    && (t < 50 ==> SmallOffDiagonal(k, Compressed(k, m, w)))
  }

  ghost predicate SmallOffDiagonal(k: nat, a: Mat) {
    forall i, j :: 0 <= i < k && 0 <= j < k && i != j ==> -0.000000000001 < a(i, j) < 0.000000000001
  }

  /** The sorted columns of V, for a run of rotations. */
  ghost predicate SortedRun(k: nat, m: Mat, rs: seq<Plane>, perm: seq<int>, vals: seq<real>, w: Mat) {
    && Symmetric(k, m) && Run(k, m, rs)
    && PermutesColumns(k, AfterV(rs), perm, w)
    && |vals| == k && (forall i :: 0 <= i < k ==> vals[i] == AfterA(m, rs)(perm[i], perm[i]))
    && (forall i, j :: 0 <= i < j < k ==> vals[i] >= vals[j])
  }

  lemma SortedEntries(k: nat, m: Mat, rs: seq<Plane>, perm: seq<int>, vals: seq<real>, w: Mat, i: int, j: int)
    requires SortedRun(k, m, rs, perm, vals, w) && 0 <= i < k && 0 <= j < k
    ensures Compressed(k, m, w)(i, j) == AfterA(m, rs)(perm[i], perm[j])
  {
    CompressedPermuted(k, m, AfterV(rs), perm, w, i, j);
    RunOrthogonal(k, m, rs);
    RunSimilar(k, m, rs);
    CompressedIs(k, m, AfterV(rs), AfterA(m, rs), perm[i], perm[j]);
  }

  lemma SortedOrthogonal(k: nat, v: Mat, perm: seq<int>, w: Mat)
    requires PermutesColumns(k, v, perm, w) && OrthonormalColumns(k, k, v) && OrthonormalRows(k, v)
    ensures OrthonormalColumns(k, k, w) && OrthonormalRows(k, w)
  {
    forall i, j | 0 <= i < k && 0 <= j < k
      ensures Dot(Range(k), Col(w, i), Col(w, j)) == if i == j then 1.0 else 0.0
      ensures Dot(Range(k), Row(w, i), Row(w, j)) == if i == j then 1.0 else 0.0
    {
      DotExt(Range(k), Col(w, i), Col(w, j), Col(v, perm[i]), Col(v, perm[j]));
      SumPermuted(perm, k, Times(Row(v, i), Row(v, j)), Times(Row(w, i), Row(w, j)));
    }
  }

  lemma SortedEigenPairs(k: nat, m: Mat, rs: seq<Plane>, perm: seq<int>, vals: seq<real>, w: Mat)
    requires SortedRun(k, m, rs, perm, vals, w)
    ensures EigenPairs(k, m, vals, w)
  {
    RunOrthogonal(k, m, rs);
    SortedOrthogonal(k, AfterV(rs), perm, w);
    forall i | 0 <= i < k ensures Compressed(k, m, w)(i, i) == vals[i] {
      SortedEntries(k, m, rs, perm, vals, w, i, i);
    }
    RunTrace(k, m, rs);
    SumPermuted(perm, k, Diagonal(AfterA(m, rs)), InnerProducts.Component(vals));
  }

  lemma SortedConverged(k: nat, m: Mat, rs: seq<Plane>, perm: seq<int>, vals: seq<real>, w: Mat)
    requires SortedRun(k, m, rs, perm, vals, w)
    requires |rs| <= MAX_ITERS && (|rs| < MAX_ITERS ==> SmallOffDiagonal(k, AfterA(m, rs)))
    ensures Converged(k, m, w, |rs|)
  {
    forall i, j | 0 <= i < k && 0 <= j < k
      ensures Compressed(k, m, w)(i, j) == AfterA(m, rs)(perm[i], perm[j])
    {
      SortedEntries(k, m, rs, perm, vals, w, i, j);
    }
    OffPermuted(k, AfterA(m, rs), perm, Compressed(k, m, w));
    if k >= 2 {
      RunEnergy(k, m, rs);
    }
  }

  lemma OffPermuted(k: nat, a: Mat, perm: seq<int>, b: Mat)
    requires IsPermutation(perm, k)
    requires forall i, j :: 0 <= i < k && 0 <= j < k ==> b(i, j) == a(perm[i], perm[j])
    ensures Off(k, b) == Off(k, a)
  {
    forall i | 0 <= i < k ensures OffRows(k, b)(i) == OffRows(k, a)(perm[i]) {
      SumPermuted(perm, k, OffRow(a, perm[i]), OffRow(b, i));
    }
    SumPermuted(perm, k, OffRows(k, a), OffRows(k, b));
  }

  // ---------- the algorithm ----------

  function Abs(x: real): real { if x < 0.0 then -x else x }

  lemma AbsSquares(x: real, y: real)
    requires Abs(x) <= Abs(y)
    ensures Sq(x) <= Sq(y)
  {
  }

  /** Finds the largest off-diagonal entry above the diagonal. */
  method FindPivot(a: array2<real>, k: nat, ghost f: Mat) returns (maxVal: real, p: nat, q: nat)
    requires Holds(a, k, k, f) && Symmetric(k, f)
    ensures maxVal >= 0.0
    ensures forall i, j :: 0 <= i < k && 0 <= j < k && i != j ==> Abs(f(i, j)) <= maxVal
    ensures maxVal > 0.0 ==> IsPivot(k, f, p, q)
  {
    maxVal, p, q := 0.0, 0, 1;
    for i := 0 to k
      invariant maxVal >= 0.0
      invariant forall u, j :: 0 <= u < i && u < j < k ==> Abs(f(u, j)) <= maxVal
      invariant maxVal > 0.0 ==> p < q < k && Abs(f(p, q)) == maxVal
    {
      for j := i + 1 to k
        invariant maxVal >= 0.0
        invariant forall u, t :: (0 <= u < i && u < t < k) || (u == i && i < t < j) ==> Abs(f(u, t)) <= maxVal
        invariant maxVal > 0.0 ==> p < q < k && Abs(f(p, q)) == maxVal
      {
        var absVal := Abs(a[i, j]);
        if absVal > maxVal {
          maxVal, p, q := absVal, i, j;
        }
      }
    }
    forall i, j | 0 <= i < k && 0 <= j < k && i != j ensures Abs(f(i, j)) <= maxVal {
      assert f(i, j) == f(j, i);
    }
    if maxVal > 0.0 {
      forall i, j | 0 <= i < k && 0 <= j < k && i != j ensures Sq(f(i, j)) <= Sq(f(p, q)) {
        AbsSquares(f(i, j), f(p, q));
      }
    }
  }

  /** The entry (u, t) is in exactly one turned row or column and not reached yet. */
  predicate Waiting(p: int, q: int, i: int, u: int, t: int) {
    || (u != p && u != q && u >= i && (t == p || t == q))
    || (t != p && t != q && t >= i && (u == p || u == q))
  }

  method RotateA(a: array2<real>, k: nat, p: nat, q: nat, c: real, s: real, ghost f: Mat)
    requires Holds(a, k, k, f) && p < k && q < k && p != q
    modifies a
    ensures Holds(a, k, k, Conjugate(Plane(p, q, c, s), f))
  {
    ghost var g := Conjugate(Plane(p, q, c, s), f);
    var app, aqq, apq := a[p, p], a[q, q], a[p, q];
    a[p, p] := CornerP(c, s, app, apq, aqq);
    a[q, q] := CornerQ(c, s, app, apq, aqq);
    a[p, q] := 0.0;
    a[q, p] := 0.0;
    for i := 0 to k
      invariant forall u, t :: 0 <= u < k && 0 <= t < k ==>
        a[u, t] == if Waiting(p, q, i, u, t) then f(u, t) else g(u, t)
    {
      if i != p && i != q {
        var aip, aiq := a[i, p], a[i, q];
        a[i, p] := First(Plane(p, q, c, s), aip, aiq);
        a[p, i] := a[i, p];
        a[i, q] := Second(Plane(p, q, c, s), aip, aiq);
        a[q, i] := a[i, q];
      }
    }
  }

  method RotateV(v: array2<real>, k: nat, p: nat, q: nat, c: real, s: real, ghost f: Mat)
    requires Holds(v, k, k, f) && p < k && q < k && p != q
    modifies v
    ensures Holds(v, k, k, TurnColumns(Plane(p, q, c, s), f))
  {
    ghost var g := TurnColumns(Plane(p, q, c, s), f);
    for i := 0 to k
      invariant forall u, t :: 0 <= u < k && 0 <= t < k ==> v[u, t] == if u < i then g(u, t) else f(u, t)
    {
      var vip, viq := v[i, p], v[i, q];
      v[i, p] := First(Plane(p, q, c, s), vip, viq);
      v[i, q] := Second(Plane(p, q, c, s), vip, viq);
    }
  }

  /** Sorts the diagonal of a in descending order together with the columns of v. */
  method SortPairs(k: nat, a: array2<real>, v: array2<real>, ghost f: Mat, ghost g: Mat)
    returns (vals: array<real>, vecs: array2<real>, ghost perm: seq<int>, ghost w: Mat)
    requires Holds(a, k, k, f) && Holds(v, k, k, g)
    ensures fresh(vals) && fresh(vecs)
    ensures Holds(vecs, k, k, w) && PermutesColumns(k, g, perm, w)
    ensures vals.Length == k
    ensures forall i :: 0 <= i < k ==> vals[i] == f(perm[i], perm[i])
    ensures forall i, j :: 0 <= i < j < k ==> vals[i] >= vals[j]
  {
    var pairs := ReadPairs(k, a, v, f, g);
    var sorted;
    sorted, perm := SortSlice(pairs, (x: Pair, y: Pair) => x.val > y.val);
    w := Columns(sorted);
    vals, vecs := WritePairs(k, sorted);
  }

  ghost function Columns(pairs: seq<Pair>): Mat {
    (i, j) => if 0 <= j < |pairs| && 0 <= i < |pairs[j].vec| then pairs[j].vec[i] else 0.0
  }

  method ReadPairs(k: nat, a: array2<real>, v: array2<real>, ghost f: Mat, ghost g: Mat) returns (pairs: seq<Pair>)
    requires Holds(a, k, k, f) && Holds(v, k, k, g)
    ensures |pairs| == k && forall j :: 0 <= j < k ==> pairs[j].val == f(j, j) && |pairs[j].vec| == k
    ensures forall j, row :: 0 <= j < k && 0 <= row < k ==> pairs[j].vec[row] == g(row, j)
  {
    pairs := [];
    for i := 0 to k
      invariant |pairs| == i
      invariant forall j :: 0 <= j < i ==> pairs[j].val == f(j, j) && |pairs[j].vec| == k
      invariant forall j, row :: 0 <= j < i && 0 <= row < k ==> pairs[j].vec[row] == g(row, j)
    {
      var vec := seq(k, row requires 0 <= row < k reads v => v[row, i]);
      pairs := pairs + [Pair(a[i, i], vec)];
    }
  }

  method WritePairs(k: nat, sorted: seq<Pair>) returns (vals: array<real>, vecs: array2<real>)
    requires |sorted| == k && forall j :: 0 <= j < k ==> |sorted[j].vec| == k
    ensures fresh(vals) && vals.Length == k && forall j :: 0 <= j < k ==> vals[j] == sorted[j].val
    ensures fresh(vecs) && Holds(vecs, k, k, Columns(sorted))
  {
    vals := new real[k];
    vecs := Zeros(k, k);
    for i := 0 to k
      invariant forall j :: 0 <= j < i ==> vals[j] == sorted[j].val
      invariant forall u, j :: 0 <= u < k && 0 <= j < i ==> vecs[u, j] == sorted[j].vec[u]
    {
      vals[i] := sorted[i].val;
      for row := 0 to k
        invariant forall j :: 0 <= j <= i ==> vals[j] == sorted[j].val
        invariant forall u, j :: 0 <= u < k && 0 <= j <= i && (j < i || u < row) ==> vecs[u, j] == sorted[j].vec[u]
      {
        vecs[row, i] := sorted[i].vec[row];
      }
    }
  }

  /** One pass of the main loop after the pivot search. */
  method Rotate(trig: Trig, a: array2<real>, v: array2<real>, k: nat, p: nat, q: nat, ghost f: Mat, ghost g: Mat)
    returns (ghost r: Plane)
    requires IsTrig(trig) && a != v && Holds(a, k, k, f) && Holds(v, k, k, g) && IsPivot(k, f, p, q)
    modifies a, v
    ensures Step(k, f, r) && Holds(a, k, k, Conjugate(r, f)) && Holds(v, k, k, TurnColumns(r, g))
  {
    var theta := 0.5 * trig.atan2(2.0 * a[p, q], a[q, q] - a[p, p]);
    var c, s := trig.cos(theta), trig.sin(theta);
    r := Plane(p, q, c, s);
    assert r == PlaneOf(trig, f, p, q);
    AngleAnnihilates(trig, f, p, q, k);
    RotateA(a, k, p, q, c, s, f);
    RotateV(v, k, p, q, c, s, g);
  }

  /** Copies the matrix and makes the identity. */
  method Start(matrix: array2<real>, k: nat, ghost m: Mat) returns (a: array2<real>, v: array2<real>)
    requires Holds(matrix, k, k, m)
    ensures fresh(a) && fresh(v) && a != v && Holds(a, k, k, m) && Holds(v, k, k, Identity())
  {
    a := Zeros(k, k);
    v := Zeros(k, k);
    forall i, j | 0 <= i < k && 0 <= j < k { a[i, j] := matrix[i, j]; }
    forall i | 0 <= i < k { v[i, i] := 1.0; }
  }

  /** Eigenvalues and eigenvectors of a symmetric matrix, as far as 50 rotations get. */
  method JacobiEigen(trig: Trig, matrix: array2<real>, k: nat, ghost m: Mat)
    returns (vals: array<real>, vecs: array2<real>, ghost w: Mat, ghost rotations: nat)
    requires IsTrig(trig) && Holds(matrix, k, k, m) && Symmetric(k, m)
    ensures fresh(vals) && fresh(vecs) && Holds(vecs, k, k, w)
    ensures EigenPairs(k, m, vals[..], w)
    ensures Converged(k, m, w, rotations)
  {
    var a, v := Start(matrix, k, m);
    ghost var rs: seq<Plane> := [];
    var iter := 0;
    while iter < MAX_ITERS
      invariant iter == |rs| <= MAX_ITERS && Run(k, m, rs)
      invariant Holds(a, k, k, AfterA(m, rs)) && Holds(v, k, k, AfterV(rs))
    {
      RunSymmetric(k, m, rs);
      var maxVal, p, q := FindPivot(a, k, AfterA(m, rs));
      if maxVal < TOLERANCE {
        assert SmallOffDiagonal(k, AfterA(m, rs));
        break;
      }
      ghost var r := Rotate(trig, a, v, k, p, q, AfterA(m, rs), AfterV(rs));
      RunNext(k, m, rs, r);
      rs := rs + [r];
      iter := iter + 1;
    }
    rotations := |rs|;
    ghost var perm;
    vals, vecs, perm, w := SortPairs(k, a, v, AfterA(m, rs), AfterV(rs));
    SortedEigenPairs(k, m, rs, perm, vals[..], w);
    SortedConverged(k, m, rs, perm, vals[..], w);
  }
}
