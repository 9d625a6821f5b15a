/** One Jacobi rotation, as a function on matrices, and what it keeps. */
module Rotation {
  import opened Arith
  import opened Sums
  import opened Oracles
  import opened Matrix

  /** A rotation of the plane of coordinates p and q. */
  datatype Plane = Plane(p: int, q: int, c: real, s: real)

  ghost predicate IsRotation(r: Plane, k: int) {
    0 <= r.p < k && 0 <= r.q < k && r.p != r.q && Sq(r.c) + Sq(r.s) == 1.0
  }

  /** The rotation's angle clears the entry (p, q) of the symmetric matrix a. */
  ghost predicate Annihilates(r: Plane, a: Mat) {
    Mul(Mul(r.c, r.s), a(r.p, r.p) - a(r.q, r.q)) + Mul(Sq(r.c) - Sq(r.s), a(r.p, r.q)) == 0.0
  }

  ghost predicate Symmetric(k: int, a: Mat) {
    forall i, j :: 0 <= i < k && 0 <= j < k ==> a(i, j) == a(j, i)
  }

  function First(r: Plane, x: real, y: real): real { Lin(r.c, x, -r.s, y) }
  function Second(r: Plane, x: real, y: real): real { Lin(r.s, x, r.c, y) }

  /** The matrix v times the rotation: columns p and q are turned. */
  function TurnColumns(r: Plane, v: Mat): Mat { (i, j) => TurnedEntry(r, v, i, j) }

  function TurnedEntry(r: Plane, v: Mat, i: int, j: int): real {
    if j == r.p then First(r, v(i, r.p), v(i, r.q))
    else if j == r.q then Second(r, v(i, r.p), v(i, r.q))
    else v(i, j)
  }

  /** The two-sided update of a, entry by entry. */
  function Conjugate(r: Plane, a: Mat): Mat { (i, j) => ConjugateEntry(r, a, i, j) }

  function ConjugateEntry(r: Plane, a: Mat, i: int, j: int): real {
    if i == j == r.p then CornerP(r.c, r.s, a(r.p, r.p), a(r.p, r.q), a(r.q, r.q))
    else if i == j == r.q then CornerQ(r.c, r.s, a(r.p, r.p), a(r.p, r.q), a(r.q, r.q))
    else if (i == r.p && j == r.q) || (i == r.q && j == r.p) then 0.0
    else if j == r.p || j == r.q then TurnedEntry(r, a, i, j)
    else if i == r.p || i == r.q then TurnedEntry(r, a, j, i)
    else a(i, j)
  }

  function CornerP(c: real, s: real, app: real, apq: real, aqq: real): real {
    c * c * app - 2.0 * s * c * apq + s * s * aqq
  }

  function CornerQ(c: real, s: real, app: real, apq: real, aqq: real): real {
    s * s * app + 2.0 * s * c * apq + c * c * aqq
  }

  // ---------- the angle ----------

  function Angle(t: Trig, a: Mat, p: int, q: int): real {
    0.5 * t.atan2(2.0 * a(p, q), a(q, q) - a(p, p))
  }

  function PlaneOf(t: Trig, a: Mat, p: int, q: int): Plane {
    Plane(p, q, t.cos(Angle(t, a, p, q)), t.sin(Angle(t, a, p, q)))
  }

  /** The half angle of atan2(2 apq, aqq - app) clears the pivot. */
  lemma AngleAnnihilates(t: Trig, a: Mat, p: int, q: int, k: int)
    requires IsTrig(t) && 0 <= p < k && 0 <= q < k && p != q
    ensures IsRotation(PlaneOf(t, a, p, q), k)
    ensures Annihilates(PlaneOf(t, a, p, q), a)
  {
  }

  // ---------- plane arithmetic ----------

  lemma TurnedPair(r: Plane, x: real, y: real, u: real, v: real)
    requires Sq(r.c) + Sq(r.s) == 1.0
    ensures Mul(First(r, x, y), First(r, u, v)) + Mul(Second(r, x, y), Second(r, u, v)) == Mul(x, u) + Mul(y, v)
  {
  }

  /** The updated entries are those of Rt A R, for symmetric a and an annihilating angle. */
  lemma ConjugateIsTurned(r: Plane, a: Mat, k: int, j: int)
    requires IsRotation(r, k) && Symmetric(k, a) && Annihilates(r, a) && 0 <= j < k
    ensures Conjugate(r, a)(r.p, j) == First(r, TurnColumns(r, a)(r.p, j), TurnColumns(r, a)(r.q, j))
    ensures Conjugate(r, a)(r.q, j) == Second(r, TurnColumns(r, a)(r.p, j), TurnColumns(r, a)(r.q, j))
  {
    var p, q := r.p, r.q;
    if j == p || j == q {
      DiagonalCorners(r, a(p, p), a(p, q), a(q, q));
      OtherCorners(r, a(p, p), a(p, q), a(q, q));
    }
  }

  lemma DiagonalCorners(r: Plane, app: real, apq: real, aqq: real)
    ensures CornerP(r.c, r.s, app, apq, aqq) == First(r, First(r, app, apq), First(r, apq, aqq))
    ensures CornerQ(r.c, r.s, app, apq, aqq) == Second(r, Second(r, app, apq), Second(r, apq, aqq))
  {
  }

  lemma OtherCorners(r: Plane, app: real, apq: real, aqq: real)
    requires Mul(Mul(r.c, r.s), app - aqq) + Mul(Sq(r.c) - Sq(r.s), apq) == 0.0
    ensures First(r, Second(r, app, apq), Second(r, apq, aqq)) == 0.0
    ensures Second(r, First(r, app, apq), First(r, apq, aqq)) == 0.0
  {
  }

  // ---------- symmetry, orthogonality, similarity ----------

  ghost predicate OrthonormalColumns(m: int, k: int, v: Mat) {
    forall i, j :: 0 <= i < k && 0 <= j < k ==>
      Dot(Range(m), Col(v, i), Col(v, j)) == if i == j then 1.0 else 0.0
  }

  ghost predicate OrthonormalRows(k: int, v: Mat) {
    forall i, j :: 0 <= i < k && 0 <= j < k ==>
      Dot(Range(k), Row(v, i), Row(v, j)) == if i == j then 1.0 else 0.0
  }

  /** m v == v a. */
  ghost predicate Similar(k: int, m: Mat, v: Mat, a: Mat) {
    forall i, j :: 0 <= i < k && 0 <= j < k ==> Product(k, m, v)(i, j) == Product(k, v, a)(i, j)
  }

  lemma ConjugateSymmetric(r: Plane, a: Mat, k: int)
    requires IsRotation(r, k) && Symmetric(k, a)
    ensures Symmetric(k, Conjugate(r, a))
  {
  }

  /** Inner products with the columns of a turned matrix. */
  lemma DotTurned(k: int, u: Vec<int>, r: Plane, v: Mat, j: int)
    ensures Dot(Range(k), u, Col(TurnColumns(r, v), j)) ==
      if j == r.p then First(r, Dot(Range(k), u, Col(v, r.p)), Dot(Range(k), u, Col(v, r.q)))
      else if j == r.q then Second(r, Dot(Range(k), u, Col(v, r.p)), Dot(Range(k), u, Col(v, r.q)))
      else Dot(Range(k), u, Col(v, j))
  {
    var w, x, y := Col(TurnColumns(r, v), j), Col(v, r.p), Col(v, r.q);
    assert forall i :: w(i) == TurnedEntry(r, v, i, j);
    if j == r.p {
      assert forall i :: w(i) == Lin(r.c, x(i), -r.s, y(i));
      DotLinearRight(Range(k), u, r.c, x, -r.s, y, w);
    } else if j == r.q {
      assert forall i :: w(i) == Lin(r.s, x(i), r.c, y(i));
      DotLinearRight(Range(k), u, r.s, x, r.c, y, w);
    } else {
      DotExt(Range(k), u, w, u, Col(v, j));
    }
  }

  lemma ColumnsStayOrthonormal(m: int, k: int, r: Plane, v: Mat)
    requires IsRotation(r, k) && OrthonormalColumns(m, k, v)
    ensures OrthonormalColumns(m, k, TurnColumns(r, v))
  {
    var w := TurnColumns(r, v);
    forall i, j | 0 <= i < k && 0 <= j < k
      ensures Dot(Range(m), Col(w, i), Col(w, j)) == if i == j then 1.0 else 0.0
    {
      DotTurned(m, Col(w, i), r, v, j);
      forall t | t == r.p || t == r.q || t == j
        ensures Dot(Range(m), Col(w, i), Col(v, t)) == Dot(Range(m), Col(v, t), Col(w, i))
      {
        DotSym(Range(m), Col(w, i), Col(v, t));
      }
      DotTurned(m, Col(v, r.p), r, v, i);
      DotTurned(m, Col(v, r.q), r, v, i);
      DotTurned(m, Col(v, j), r, v, i);
      UnitPlane(r);
    }
  }

  lemma UnitPlane(r: Plane)
    requires Sq(r.c) + Sq(r.s) == 1.0
    ensures First(r, First(r, 1.0, 0.0), First(r, 0.0, 1.0)) == 1.0
    ensures Second(r, Second(r, 1.0, 0.0), Second(r, 0.0, 1.0)) == 1.0
    ensures First(r, Second(r, 1.0, 0.0), Second(r, 0.0, 1.0)) == 0.0
    ensures Second(r, First(r, 1.0, 0.0), First(r, 0.0, 1.0)) == 0.0
    ensures First(r, 0.0, 0.0) == 0.0 == Second(r, 0.0, 0.0)
  {
  }

  /** Inner products of two rows survive turning the columns. */
  lemma RowsStay(k: int, r: Plane, f: Mat, g: Mat, i: int, j: int)
    requires IsRotation(r, k)
    ensures Dot(Range(k), Row(TurnColumns(r, f), i), Row(TurnColumns(r, g), j)) == Dot(Range(k), Row(f, i), Row(g, j))
  {
    TurnedPair(r, f(i, r.p), f(i, r.q), g(j, r.p), g(j, r.q));
    DotPair(Range(k), Row(f, i), Row(g, j), Row(TurnColumns(r, f), i), Row(TurnColumns(r, g), j), r.p, r.q);
  }

  lemma RowsStayOrthonormal(k: int, r: Plane, v: Mat)
    requires IsRotation(r, k) && OrthonormalRows(k, v)
    ensures OrthonormalRows(k, TurnColumns(r, v))
  {
    var w := TurnColumns(r, v);
    forall i, j | 0 <= i < k && 0 <= j < k
      ensures Dot(Range(k), Row(w, i), Row(w, j)) == if i == j then 1.0 else 0.0
    {
      RowsStay(k, r, v, v, i, j);
    }
  }

  /** v' a' == v (a turned): turning v's columns undoes turning a's rows. */
  lemma TurnedProduct(k: int, r: Plane, v: Mat, a: Mat, i: int, j: int)
    requires IsRotation(r, k) && Symmetric(k, a) && Annihilates(r, a) && 0 <= i < k && 0 <= j < k
    ensures Product(k, TurnColumns(r, v), Conjugate(r, a))(i, j) == Product(k, v, TurnColumns(r, a))(i, j)
  {
    var f, g := Col(TurnColumns(r, a), j), Col(Conjugate(r, a), j);
    forall l | l in Range(k) && l != r.p && l != r.q ensures f(l) == g(l) {
      OtherRow(r, a, l, j);
    }
    TurnedTerms(k, r, v, a, i, j);
    DotPair(Range(k), Row(v, i), f, Row(TurnColumns(r, v), i), g, r.p, r.q);
  }

  /** The terms of v' a' and of v (a turned) at p and q have the same sum. */
  lemma TurnedTerms(k: int, r: Plane, v: Mat, a: Mat, i: int, j: int)
    requires IsRotation(r, k) && Symmetric(k, a) && Annihilates(r, a) && 0 <= i < k && 0 <= j < k
    ensures var w, b, t := TurnColumns(r, v), Conjugate(r, a), TurnColumns(r, a);
      Mul(w(i, r.p), b(r.p, j)) + Mul(w(i, r.q), b(r.q, j)) == Mul(v(i, r.p), t(r.p, j)) + Mul(v(i, r.q), t(r.q, j))
  {
    var t := TurnColumns(r, a);
    ConjugateIsTurned(r, a, k, j);
    TurnedPair(r, v(i, r.p), v(i, r.q), t(r.p, j), t(r.q, j));
  }

  /** Rows other than p and q of the updated matrix are turned on one side only. */
  lemma OtherRow(r: Plane, a: Mat, l: int, j: int)
    requires l != r.p && l != r.q
    ensures Conjugate(r, a)(l, j) == TurnColumns(r, a)(l, j)
  {
  }

  lemma StaysSimilar(k: int, r: Plane, m: Mat, v: Mat, a: Mat)
    requires IsRotation(r, k) && Symmetric(k, a) && Annihilates(r, a) && Similar(k, m, v, a)
    ensures Similar(k, m, TurnColumns(r, v), Conjugate(r, a))
  {
    var w, b := TurnColumns(r, v), Conjugate(r, a);
    forall i, j | 0 <= i < k && 0 <= j < k ensures Product(k, m, w)(i, j) == Product(k, w, b)(i, j) {
      TurnedProduct(k, r, v, a, i, j);
      DotTurned(k, Row(m, i), r, v, j);
      DotTurned(k, Row(v, i), r, a, j);
      SameDots(k, m, v, a, i, r.p);
      SameDots(k, m, v, a, i, r.q);
      SameDots(k, m, v, a, i, j);
    }
  }

  lemma SameDots(k: int, m: Mat, v: Mat, a: Mat, i: int, j: int)
    requires Similar(k, m, v, a) && 0 <= i < k && 0 <= j < k
    ensures Dot(Range(k), Row(m, i), Col(v, j)) == Dot(Range(k), Row(v, i), Col(a, j))
  {
    assert Product(k, m, v)(i, j) == Product(k, v, a)(i, j);
  }

  // ---------- trace and off-diagonal energy ----------

  function Diagonal(a: Mat): Vec<int> { i => a(i, i) }

  ghost function Trace(k: int, a: Mat): real { Sum(Range(k), Diagonal(a)) }

  lemma TraceStays(k: int, r: Plane, a: Mat)
    requires IsRotation(r, k)
    ensures Trace(k, Conjugate(r, a)) == Trace(k, a)
  {
    PairChange(Range(k), Diagonal(a), Diagonal(Conjugate(r, a)), r.p, r.q);
    CornerTrace(r.c, r.s, a(r.p, r.p), a(r.p, r.q), a(r.q, r.q));
  }

  lemma CornerTrace(c: real, s: real, app: real, apq: real, aqq: real)
    requires Sq(c) + Sq(s) == 1.0
    ensures CornerP(c, s, app, apq, aqq) + CornerQ(c, s, app, apq, aqq) == app + aqq
  {
  }

  /** Squares of the off-diagonal entries, by row. */
  function OffRow(a: Mat, i: int): Vec<int> { j => if i == j then 0.0 else Sq(a(i, j)) }
  ghost function OffRows(k: int, a: Mat): Vec<int> { i => Sum(Range(k), OffRow(a, i)) }
  ghost function Off(k: int, a: Mat): real { Sum(Range(k), OffRows(k, a)) }

  /** A rotation lowers the off-diagonal energy by exactly twice the square of the pivot. */
  lemma EnergyDrops(k: int, r: Plane, a: Mat)
    requires IsRotation(r, k) && Symmetric(k, a) && Annihilates(r, a)
    ensures Off(k, Conjugate(r, a)) == Off(k, a) - 2.0 * Sq(a(r.p, r.q))
  {
    var b := Conjugate(r, a);
    forall i | i in Range(k) && i != r.p && i != r.q ensures OffRows(k, a)(i) == OffRows(k, b)(i) {
      OtherOffRow(k, r, a, i);
    }
    PairChange(Range(k), OffRows(k, a), OffRows(k, b), r.p, r.q);
    PivotRows(k, r, a);
  }

  lemma OtherOffRow(k: int, r: Plane, a: Mat, i: int)
    requires IsRotation(r, k) && i != r.p && i != r.q
    ensures Sum(Range(k), OffRow(Conjugate(r, a), i)) == Sum(Range(k), OffRow(a, i))
  {
    var f, g := OffRow(a, i), OffRow(Conjugate(r, a), i);
    forall j | j in Range(k) && j != r.p && j != r.q ensures f(j) == g(j) {
      OtherRow(r, a, i, j);
    }
    PairChange(Range(k), f, g, r.p, r.q);
    OtherRow(r, a, i, r.p);
    OtherRow(r, a, i, r.q);
    TurnedPair(r, a(i, r.p), a(i, r.q), a(i, r.p), a(i, r.q));
  }

  function BothRows(r: Plane, a: Mat): Vec<int> { j => OffRow(a, r.p)(j) + OffRow(a, r.q)(j) }

  lemma PivotRows(k: int, r: Plane, a: Mat)
    requires IsRotation(r, k) && Symmetric(k, a) && Annihilates(r, a)
    ensures OffRows(k, Conjugate(r, a))(r.p) + OffRows(k, Conjugate(r, a))(r.q) ==
      OffRows(k, a)(r.p) + OffRows(k, a)(r.q) - 2.0 * Sq(a(r.p, r.q))
  {
    var b := Conjugate(r, a);
    SplitRows(k, r, a);
    SplitRows(k, r, b);
    forall j | j in Range(k) && j != r.p && j != r.q ensures BothRows(r, a)(j) == BothRows(r, b)(j) {
      TurnedPair(r, a(j, r.p), a(j, r.q), a(j, r.p), a(j, r.q));
      assert b(r.p, j) == First(r, a(j, r.p), a(j, r.q)) && b(r.q, j) == Second(r, a(j, r.p), a(j, r.q));
    }
    assert b(r.p, r.q) == 0.0 == b(r.q, r.p);
    assert Sq(0.0) == 0.0;
    PairChange(Range(k), BothRows(r, a), BothRows(r, b), r.p, r.q);
  }

  lemma SplitRows(k: int, r: Plane, a: Mat)
    ensures Sum(Range(k), BothRows(r, a)) == OffRows(k, a)(r.p) + OffRows(k, a)(r.q)
  {
    SumLinear(Range(k), 1.0, OffRow(a, r.p), 1.0, OffRow(a, r.q), BothRows(r, a));
  }

  /** No off-diagonal entry is larger in size than the entry (p, q). */
  ghost predicate IsPivot(k: int, a: Mat, p: int, q: int) {
    && 0 <= p < k && 0 <= q < k && p != q
    && forall i, j :: 0 <= i < k && 0 <= j < k && i != j ==> Sq(a(i, j)) <= Sq(a(p, q))
  }

  function Pairs(k: nat): real { Mul(k as real, k as real - 1.0) }

  /** The pivot carries at least the average share of the energy. */
  lemma PivotShare(k: nat, a: Mat, p: int, q: int)
    requires IsPivot(k, a, p, q)
    ensures Off(k, a) <= Mul(Pairs(k), Sq(a(p, q)))
  {
    EnergyBound(k, a, Sq(a(p, q)));
  }

  lemma EnergyBound(k: nat, a: Mat, b: real)
    requires forall i, j :: 0 <= i < k && 0 <= j < k && i != j ==> Sq(a(i, j)) <= b
    ensures Off(k, a) <= Mul(Pairs(k), b)
  {
    var c := Mul(k as real - 1.0, b);
    forall i | i in Range(k) ensures OffRows(k, a)(i) <= c {
      OffRowShare(k, a, i, b);
    }
    AllShares(k, OffRows(k, a), b, c);
  }

  lemma AllShares(k: nat, f: Vec<int>, b: real, c: real)
    requires c == Mul(k as real - 1.0, b) && forall i | i in Range(k) :: f(i) <= c
    ensures Sum(Range(k), f) <= Mul(Pairs(k), b)
  {
    RangeSize(k);
    SumBound(Range(k), f, c);
    Reassociate(k as real, k as real - 1.0, b);
  }

  lemma OffRowShare(k: nat, a: Mat, i: int, b: real)
    requires 0 <= i < k && forall j :: 0 <= j < k && i != j ==> Sq(a(i, j)) <= b
    ensures Sum(Range(k), OffRow(a, i)) <= Mul(k as real - 1.0, b)
  {
    forall j | 0 <= j < k && i != j ensures OffRow(a, i)(j) <= b {
      assert OffRow(a, i)(j) == Sq(a(i, j));
    }
    RowShare(k, i, OffRow(a, i), b);
  }

  lemma Reassociate(x: real, y: real, b: real)
    ensures Mul(x, Mul(y, b)) == Mul(Mul(x, y), b)
  {
  }

  lemma RowShare(k: nat, i: int, f: Vec<int>, b: real)
    requires 0 <= i < k && f(i) == 0.0 && forall j :: 0 <= j < k && i != j ==> f(j) <= b
    ensures Sum(Range(k), f) <= Mul(k as real - 1.0, b)
  {
    RangeSize(k);
    Pull(Range(k), f, i);
    SumBound(Range(k) - {i}, f, b);
    assert |Range(k) - {i}| as real == k as real - 1.0;
  }

  /** 1 - 2 / (k (k - 1)): the factor by which every rotation shrinks the energy. */
  function Rate(k: nat): real
    requires k >= 2
  {
    assert Pairs(k) >= 2.0 by { MulMonotone(1.0, k as real - 1.0, k as real); }
    1.0 - 2.0 / Pairs(k)
  }

  lemma EnergyShrinks(k: nat, r: Plane, a: Mat)
    requires IsRotation(r, k) && Symmetric(k, a) && Annihilates(r, a) && IsPivot(k, a, r.p, r.q)
    ensures k >= 2 && 0.0 <= Rate(k) && Off(k, Conjugate(r, a)) <= Mul(Rate(k), Off(k, a))
  {
    EnergyDrops(k, r, a);
    PivotShare(k, a, r.p, r.q);
    Share(k, Off(k, a), Sq(a(r.p, r.q)));
  }

  lemma Share(k: nat, e: real, b: real)
    requires k >= 2 && e <= Mul(Pairs(k), b)
    ensures 0.0 <= Rate(k) && e - 2.0 * b <= Mul(Rate(k), e)
  {
  }
}
