/** Thin QR decomposition by modified Gram-Schmidt, in place. */
module GramSchmidt {
  import opened Arith
  import opened Sums
  import opened Oracles
  import opened Matrix
  import opened Rotation

  /** A matrix by its columns. */
  type Columns = int -> Vec<int>

  function FromColumns(c: Columns): Mat { (i, k) => c(k)(i) }

  ghost function Length(sqrt: real -> real, m: nat, u: Vec<int>): real {
    sqrt(Dot(Range(m), u, u))
  }

  /** The vector divided by its length, or unchanged when that is negligible. */
  ghost function Unitized(sqrt: real -> real, m: nat, u: Vec<int>): Vec<int> {
    Shrunk(Length(sqrt, m, u), u)
  }

  function Shrunk(norm: real, u: Vec<int>): Vec<int> { i => ShrunkEntry(norm, u(i)) }

  function ShrunkEntry(norm: real, x: real): real {
    if norm > TOLERANCE then Div(x, norm) else x
  }

  /** u without d times b. */
  function Less(u: Vec<int>, d: real, b: Vec<int>): Vec<int> { i => LessEntry(u(i), d, b(i)) }

  function LessEntry(x: real, d: real, y: real): real { x - d * y }

  /** Column k of a after the first t columns had their turn, t <= k. */
  ghost function Residual(sqrt: real -> real, m: nat, a: Mat, t: nat, k: int): Vec<int>
    decreases t, 2
  {
    if t == 0 then Col(a, k) else LaterResidual(sqrt, m, a, t - 1, k)
  }

  /** As in Sums, the detour keeps the solver from expanding the recursion on its own;
      only the lemma ResidualNext looks inside. */
  ghost function LaterResidual(sqrt: real -> real, m: nat, a: Mat, t: nat, k: int): Vec<int>
    decreases t + 1, 1
  {
    ProjectedResidual(sqrt, m, a, t, k)
  }

  ghost function ProjectedResidual(sqrt: real -> real, m: nat, a: Mat, t: nat, k: int): Vec<int>
    decreases t + 1, 0
  {
    var u := Residual(sqrt, m, a, t, k);
    var b := Unitized(sqrt, m, Residual(sqrt, m, a, t, t));
    Less(u, Dot(Range(m), b, u), b)
  }

  /** The result's column l. */
  ghost function Basis(sqrt: real -> real, m: nat, a: Mat, l: nat): Vec<int> {
    Unitized(sqrt, m, Residual(sqrt, m, a, l, l))
  }

  /** The working matrix when t columns are done. */
  ghost function State(sqrt: real -> real, m: nat, a: Mat, t: nat): Columns {
    k => if 0 <= k < t then Basis(sqrt, m, a, k) else Residual(sqrt, m, a, t, k)
  }

  ghost function Orthonormalised(sqrt: real -> real, m: nat, cols: nat, a: Mat): Mat {
    FromColumns(State(sqrt, m, a, cols))
  }

  /** The length of column j when its turn comes. */
  ghost function Pivot(sqrt: real -> real, m: nat, a: Mat, j: nat): real {
    Length(sqrt, m, Residual(sqrt, m, a, j, j))
  }

  ghost predicate AllPivots(sqrt: real -> real, m: nat, a: Mat, t: nat) {
    forall j: nat :: j < t ==> Pivot(sqrt, m, a, j) > 0.000000000001
  }

  // ---------- A == Q R ----------

  /** The triangular factor. */
  ghost function Upper(sqrt: real -> real, m: nat, a: Mat): Mat {
    (l, k) =>
      if l < 0 || k < l then 0.0
      else if l == k then Scale(Pivot(sqrt, m, a, l))
      else Dot(Range(m), Basis(sqrt, m, a, l), Residual(sqrt, m, a, l, k))
  }

  function Scale(norm: real): real { if norm > TOLERANCE then norm else 1.0 }

  lemma ResidualNext(sqrt: real -> real, m: nat, a: Mat, t: nat, k: int)
    ensures Residual(sqrt, m, a, t + 1, k) ==
      Less(Residual(sqrt, m, a, t, k), Dot(Range(m), Basis(sqrt, m, a, t), Residual(sqrt, m, a, t, k)),
           Basis(sqrt, m, a, t))
  {
    assert Residual(sqrt, m, a, t + 1, k) == LaterResidual(sqrt, m, a, t, k) == ProjectedResidual(sqrt, m, a, t, k);
  }

  lemma LessPlus(u: Vec<int>, d: real, b: Vec<int>, i: int)
    ensures u(i) == Less(u, d, b)(i) + Mul(b(i), d)
  {
  }

  /** Step t takes the part along b(t) out of res(t). */
  ghost predicate Removes(m: nat, b: Columns, res: Columns, t: int) {
    res(t + 1) == Less(res(t), Dot(Range(m), b(t), res(t)), b(t))
  }

  /** The parts removed one after the other add up to an entry of the product. */
  lemma {:induction false} Telescope(m: nat, n: nat, b: Columns, res: Columns, q: Mat, r: Mat, i: int, k: int)
    requires forall t :: 0 <= t < n ==> Removes(m, b, res, t)
    requires forall t :: 0 <= t < n ==> q(i, t) == b(t)(i) && r(t, k) == Dot(Range(m), b(t), res(t))
    ensures res(0)(i) == res(n)(i) + Partial(n, q, r, i, k)
  {
    if n > 0 {
      var t := n - 1;
      assert Removes(m, b, res, t);
      Telescope(m, t, b, res, q, r, i, k);
      PartialNext(t, q, r, i, k);
      LessPlus(res(t), r(t, k), b(t), i);
    }
  }

  /** A unit vector b(l), orthogonal to the later ones, is orthogonal to what they leave. */
  lemma {:induction false} RemainsOrthogonal(m: nat, b: Columns, res: Columns, l: nat, t: nat)
    requires l < t && forall j :: l <= j < t ==> Removes(m, b, res, j)
    requires forall j :: l <= j < t ==> Dot(Range(m), b(l), b(j)) == if l == j then 1.0 else 0.0
    ensures Dot(Range(m), b(l), res(t)) == 0.0
  {
    var u := t - 1;
    if l < u {
      RemainsOrthogonal(m, b, res, l, u);
    }
    assert Removes(m, b, res, u);
    LessOrthogonal(m, b(l), res(u), b(u), l == u);
  }

  lemma LessOrthogonal(m: nat, x: Vec<int>, u: Vec<int>, b: Vec<int>, same: bool)
    requires if same then x == b && Dot(Range(m), b, b) == 1.0
      else Dot(Range(m), x, u) == 0.0 && Dot(Range(m), x, b) == 0.0
    ensures Dot(Range(m), x, Less(u, Dot(Range(m), b, u), b)) == 0.0
  {
    DotLess(m, x, u, Dot(Range(m), b, u), b);
  }

  ghost function Residuals(sqrt: real -> real, m: nat, a: Mat, k: int): Columns {
    t => ResidualFrom(sqrt, m, a, t, k)
  }

  ghost function ResidualFrom(sqrt: real -> real, m: nat, a: Mat, t: int, k: int): Vec<int> {
    if t < 0 then Col(a, k) else Residual(sqrt, m, a, t, k)
  }

  ghost function Bases(sqrt: real -> real, m: nat, a: Mat): Columns {
    l => if l < 0 then Col(a, l) else Basis(sqrt, m, a, l)
  }

  lemma StepRemoves(sqrt: real -> real, m: nat, a: Mat, t: nat, k: int)
    ensures Removes(m, Bases(sqrt, m, a), Residuals(sqrt, m, a, k), t)
  {
    ResidualNext(sqrt, m, a, t, k);
  }

  /** What is left of column k after k steps, plus what was removed, is the column. */
  lemma RemovedParts(sqrt: real -> real, m: nat, cols: nat, a: Mat, i: int, k: nat)
    requires k < cols
    ensures a(i, k) == Residual(sqrt, m, a, k, k)(i)
      + Partial(k, Orthonormalised(sqrt, m, cols, a), Upper(sqrt, m, a), i, k)
  {
    forall t | 0 <= t < k ensures Removes(m, Bases(sqrt, m, a), Residuals(sqrt, m, a, k), t) {
      StepRemoves(sqrt, m, a, t, k);
    }
    Telescope(m, k, Bases(sqrt, m, a), Residuals(sqrt, m, a, k), Orthonormalised(sqrt, m, cols, a), Upper(sqrt, m, a),
              i, k);
  }

  lemma DiagonalPart(sqrt: real -> real, m: nat, cols: nat, a: Mat, i: int, k: nat)
    requires k < cols
    ensures Residual(sqrt, m, a, k, k)(i) == Mul(Orthonormalised(sqrt, m, cols, a)(i, k), Upper(sqrt, m, a)(k, k))
  {
  }

  lemma {:induction false} ZeroTail(l: nat, q: Mat, r: Mat, i: int, k: nat)
    requires k < l && forall t :: k < t ==> r(t, k) == 0.0
    ensures Partial(l, q, r, i, k) == Partial(k + 1, q, r, i, k)
  {
    if k + 1 < l {
      ZeroTail(l - 1, q, r, i, k);
      PartialNext(l - 1, q, r, i, k);
    }
  }

  /** Each input column is a combination of the result columns up to it: A == Q R. */
  lemma QrFactors(sqrt: real -> real, m: nat, cols: nat, a: Mat, i: int, k: nat)
    requires k < cols
    ensures a(i, k) == Product(cols, Orthonormalised(sqrt, m, cols, a), Upper(sqrt, m, a))(i, k)
    ensures forall l :: k < l ==> Upper(sqrt, m, a)(l, k) == 0.0
  {
    var q, r := Orthonormalised(sqrt, m, cols, a), Upper(sqrt, m, a);
    assert forall l :: k < l ==> r(l, k) == 0.0;
    RemovedParts(sqrt, m, cols, a, i, k);
    DiagonalPart(sqrt, m, cols, a, i, k);
    PartialNext(k, q, r, i, k);
    ZeroTail(cols, q, r, i, k);
  }

  // ---------- Q'Q == I ----------

  lemma UnitLength(sqrt: real -> real, m: nat, u: Vec<int>)
    requires IsSqrt(sqrt) && Length(sqrt, m, u) > TOLERANCE
    ensures Dot(Range(m), Unitized(sqrt, m, u), Unitized(sqrt, m, u)) == 1.0
  {
    var norm, d := Length(sqrt, m, u), Dot(Range(m), u, u);
    var e := Unitized(sqrt, m, u);
    NormNonNegative(Range(m), u);
    DotUnitized(sqrt, m, u, e);
    DotSym(Range(m), u, e);
    DotUnitized(sqrt, m, u, u);
    assert Sq(norm) == d;
    Ratio(norm, d);
  }

  lemma Ratio(n: real, d: real)
    requires n > 0.0 && Sq(n) == d
    ensures Div(Div(d, n), n) == 1.0
  {
    assert d == n * n;
    assert d / n == n;
  }

  lemma DotUnitized(sqrt: real -> real, m: nat, u: Vec<int>, w: Vec<int>)
    requires Length(sqrt, m, u) > TOLERANCE
    ensures Dot(Range(m), Unitized(sqrt, m, u), w) == Div(Dot(Range(m), u, w), Length(sqrt, m, u))
  {
    var norm := Length(sqrt, m, u);
    forall i ensures Unitized(sqrt, m, u)(i) == Lin(1.0 / norm, u(i), 0.0, u(i)) { Scaled(u(i), norm); }
    DotLinear(Range(m), 1.0 / norm, u, 0.0, u, Unitized(sqrt, m, u), w);
    Scaled(Dot(Range(m), u, w), norm);
  }

  lemma Scaled(x: real, n: real)
    requires n != 0.0
    ensures Div(x, n) == Lin(1.0 / n, x, 0.0, x)
  {
  }

  /** Subtracting the part along b leaves <x, b> times that part less. */
  lemma DotLess(m: nat, x: Vec<int>, u: Vec<int>, d: real, b: Vec<int>)
    ensures Dot(Range(m), x, Less(u, d, b)) == LessEntry(Dot(Range(m), x, u), d, Dot(Range(m), x, b))
  {
    forall i ensures Less(u, d, b)(i) == Lin(1.0, u(i), -d, b(i)) { LessLin(u(i), d, b(i)); }
    DotLinearRight(Range(m), x, 1.0, u, -d, b, Less(u, d, b));
    LessLin(Dot(Range(m), x, u), d, Dot(Range(m), x, b));
  }

  lemma LessLin(x: real, d: real, y: real)
    ensures LessEntry(x, d, y) == Lin(1.0, x, -d, y)
  {
  }

  ghost predicate Apart(sqrt: real -> real, m: nat, a: Mat, l: nat, j: nat) {
    Dot(Range(m), Basis(sqrt, m, a, l), Basis(sqrt, m, a, j)) == if l == j then 1.0 else 0.0
  }

  /** A finished column is orthogonal to what is left of every later one. */
  lemma ResidualOrthogonal(sqrt: real -> real, m: nat, a: Mat, l: nat, t: nat, k: int)
    requires l < t && forall j: nat :: l <= j < t ==> Apart(sqrt, m, a, l, j)
    ensures Dot(Range(m), Basis(sqrt, m, a, l), Residual(sqrt, m, a, t, k)) == 0.0
  {
    var b, res := Bases(sqrt, m, a), Residuals(sqrt, m, a, k);
    forall j | l <= j < t
      ensures Removes(m, b, res, j) && Dot(Range(m), b(l), b(j)) == if l == j then 1.0 else 0.0
    {
      StepRemoves(sqrt, m, a, j, k);
      assert Apart(sqrt, m, a, l, j);
    }
    RemainsOrthogonal(m, b, res, l, t);
  }

  lemma {:induction false} BasisApart(sqrt: real -> real, m: nat, a: Mat, l: nat, t: nat)
    requires IsSqrt(sqrt) && l <= t && AllPivots(sqrt, m, a, t + 1)
    ensures Apart(sqrt, m, a, l, t)
  {
    assert Pivot(sqrt, m, a, t) > TOLERANCE;
    if l == t {
      UnitLength(sqrt, m, Residual(sqrt, m, a, l, l));
    } else {
      forall j: nat | l <= j < t ensures Apart(sqrt, m, a, l, j) {
        BasisApart(sqrt, m, a, l, j);
      }
      ResidualOrthogonal(sqrt, m, a, l, t, t);
      UnitizedOrthogonal(sqrt, m, Basis(sqrt, m, a, l), Residual(sqrt, m, a, t, t));
    }
  }

  lemma UnitizedOrthogonal(sqrt: real -> real, m: nat, x: Vec<int>, u: Vec<int>)
    requires Length(sqrt, m, u) > TOLERANCE && Dot(Range(m), x, u) == 0.0
    ensures Dot(Range(m), x, Unitized(sqrt, m, u)) == 0.0
  {
    DotUnitized(sqrt, m, u, x);
    DotSym(Range(m), x, Unitized(sqrt, m, u));
    DotSym(Range(m), x, u);
  }

  lemma ResultDot(sqrt: real -> real, m: nat, cols: nat, a: Mat, l: nat, k: nat)
    requires l < cols && k < cols
    ensures var q := Orthonormalised(sqrt, m, cols, a);
      Dot(Range(m), Col(q, l), Col(q, k)) == Dot(Range(m), Basis(sqrt, m, a, l), Basis(sqrt, m, a, k))
  {
    var q := Orthonormalised(sqrt, m, cols, a);
    DotExt(Range(m), Col(q, l), Col(q, k), Basis(sqrt, m, a, l), Basis(sqrt, m, a, k));
  }

  lemma ResultOrthonormal(sqrt: real -> real, m: nat, cols: nat, a: Mat)
    requires IsSqrt(sqrt) && AllPivots(sqrt, m, a, cols)
    ensures OrthonormalColumns(m, cols, Orthonormalised(sqrt, m, cols, a))
  {
    var q := Orthonormalised(sqrt, m, cols, a);
    forall l: nat, k: nat | l < cols && k < cols
      ensures Dot(Range(m), Col(q, l), Col(q, k)) == if l == k then 1.0 else 0.0
    {
      ResultDot(sqrt, m, cols, a, l, k);
      if l <= k {
        BasisApart(sqrt, m, a, l, k);
      } else {
        BasisApart(sqrt, m, a, k, l);
        DotSym(Range(m), Basis(sqrt, m, a, k), Basis(sqrt, m, a, l));
      }
    }
  }

  /** A column whose pivot was negligible is left far from unit length. */
  lemma ShortColumn(sqrt: real -> real, m: nat, cols: nat, a: Mat, j: nat)
    requires IsSqrt(sqrt) && j < cols && Pivot(sqrt, m, a, j) <= TOLERANCE
    ensures !OrthonormalColumns(m, cols, Orthonormalised(sqrt, m, cols, a))
  {
    ResultDot(sqrt, m, cols, a, j, j);
    ShortUnitized(sqrt, m, Residual(sqrt, m, a, j, j));
  }

  lemma ShortUnitized(sqrt: real -> real, m: nat, u: Vec<int>)
    requires IsSqrt(sqrt) && Length(sqrt, m, u) <= TOLERANCE
    ensures Dot(Range(m), Unitized(sqrt, m, u), Unitized(sqrt, m, u)) < 1.0
  {
    var norm, v := Length(sqrt, m, u), Unitized(sqrt, m, u);
    forall i ensures v(i) == u(i) { assert v(i) == ShrunkEntry(norm, u(i)); }
    DotExt(Range(m), v, v, u, u);
    NormNonNegative(Range(m), u);
    assert Sq(norm) == Dot(Range(m), u, u);
    MulMonotone(norm, TOLERANCE, norm);
    assert Mul(TOLERANCE, norm) < 1.0;
  }

  /** The result has orthonormal columns exactly when no pivot was negligible. */
  lemma OrthonormalIff(sqrt: real -> real, m: nat, cols: nat, a: Mat)
    requires IsSqrt(sqrt)
    ensures OrthonormalColumns(m, cols, Orthonormalised(sqrt, m, cols, a)) <==> AllPivots(sqrt, m, a, cols)
  {
    if AllPivots(sqrt, m, a, cols) {
      ResultOrthonormal(sqrt, m, cols, a);
    } else {
      var j: nat :| j < cols && Pivot(sqrt, m, a, j) <= TOLERANCE;
      ShortColumn(sqrt, m, cols, a, j);
    }
  }

  // ---------- the algorithm ----------

  ghost predicate HoldsColumns(q: array2<real>, rows: nat, cols: nat, c: Columns)
    reads q
  {
    q.Length0 == rows && q.Length1 == cols && forall i, k :: 0 <= i < rows && 0 <= k < cols ==> q[i, k] == c(k)(i)
  }

  function SetColumn(c: Columns, j: int, u: Vec<int>): Columns { k => if k == j then u else c(k) }

  /** The inner product of columns x and y of q. */
  method ColumnDot(q: array2<real>, rows: nat, cols: nat, x: nat, y: nat, ghost c: Columns) returns (dot: real)
    requires HoldsColumns(q, rows, cols, c) && x < cols && y < cols
    ensures dot == Dot(Range(rows), c(x), c(y))
  {
    dot := 0.0;
    for i := 0 to rows
      invariant dot == Dot(Range(i), c(x), c(y))
    {
      AccumulateDot(i, c(x), c(y));
      dot := dot + Mul(q[i, x], q[i, y]);
    }
  }

  method Normalise(sqrt: real -> real, q: array2<real>, rows: nat, cols: nat, j: nat, ghost c: Columns)
    requires HoldsColumns(q, rows, cols, c) && j < cols
    modifies q
    ensures HoldsColumns(q, rows, cols, SetColumn(c, j, Unitized(sqrt, rows, c(j))))
  {
    var normSq := ColumnDot(q, rows, cols, j, j, c);
    var norm := sqrt(normSq);
    ghost var u := Unitized(sqrt, rows, c(j));
    assert forall i :: u(i) == ShrunkEntry(norm, c(j)(i));
    if norm > TOLERANCE {
      for i := 0 to rows
        invariant forall t, k :: 0 <= t < rows && 0 <= k < cols ==> q[t, k] == if k == j && t < i then u(t) else c(k)(t)
      {
        q[i, j] := Div(q[i, j], norm);
      }
    }
  }

  method Project(q: array2<real>, rows: nat, cols: nat, j: nat, k: nat, ghost c: Columns)
    requires HoldsColumns(q, rows, cols, c) && j < k < cols
    modifies q
    ensures HoldsColumns(q, rows, cols, SetColumn(c, k, Less(c(k), Dot(Range(rows), c(j), c(k)), c(j))))
  {
    var dot := ColumnDot(q, rows, cols, j, k, c);
    ghost var u := Less(c(k), dot, c(j));
    assert forall i :: u(i) == LessEntry(c(k)(i), dot, c(j)(i));
    for i := 0 to rows
      invariant forall t, l :: 0 <= t < rows && 0 <= l < cols ==> q[t, l] == if l == k && t < i then u(t) else c(l)(t)
    {
      q[i, k] := LessEntry(q[i, k], dot, q[i, j]);
    }
  }

  method Copy(a: array2<real>, rows: nat, cols: nat, ghost f: Mat) returns (q: array2<real>)
    requires Holds(a, rows, cols, f)
    ensures fresh(q) && Holds(q, rows, cols, f)
  {
    q := new real[rows, cols];
    forall i, j | 0 <= i < rows && 0 <= j < cols { q[i, j] := a[i, j]; }
  }

  /** Column j is done, and the columns before k have had their part along it removed. */
  ghost function Midway(sqrt: real -> real, m: nat, a: Mat, j: nat, k: int): Columns {
    t => MidwayColumn(sqrt, m, a, j, k, t)
  }

  ghost function MidwayColumn(sqrt: real -> real, m: nat, a: Mat, j: nat, k: int, t: int): Vec<int> {
    if 0 <= t <= j then Basis(sqrt, m, a, t)
    else if t < k then Residual(sqrt, m, a, j + 1, t)
    else Residual(sqrt, m, a, j, t)
  }

  lemma MidwayNext(sqrt: real -> real, m: nat, a: Mat, j: nat, k: int, t: int)
    requires j < k
    ensures var c := Midway(sqrt, m, a, j, k);
      SetColumn(c, k, Less(c(k), Dot(Range(m), c(j), c(k)), c(j)))(t) == Midway(sqrt, m, a, j, k + 1)(t)
  {
    ResidualNext(sqrt, m, a, j, k);
  }

  lemma NormalisedColumn(sqrt: real -> real, m: nat, a: Mat, j: nat, t: nat)
    ensures var c := State(sqrt, m, a, j);
      SetColumn(c, j, Unitized(sqrt, m, c(j)))(t) == Midway(sqrt, m, a, j, j + 1)(t)
  {
  }

  method OrthogonaliseRest(sqrt: real -> real, q: array2<real>, rows: nat, cols: nat, j: nat, ghost a: Mat)
    requires j < cols && HoldsColumns(q, rows, cols, Midway(sqrt, rows, a, j, j + 1))
    modifies q
    ensures HoldsColumns(q, rows, cols, State(sqrt, rows, a, j + 1))
  {
    for k := j + 1 to cols
      invariant HoldsColumns(q, rows, cols, Midway(sqrt, rows, a, j, k))
    {
      Project(q, rows, cols, j, k, Midway(sqrt, rows, a, j, k));
      forall t | 0 <= t < cols { MidwayNext(sqrt, rows, a, j, k, t); }
    }
  }

  /** One turn of the sweep: column j is done, and the later ones lose their part along it. */
  method FinishColumn(sqrt: real -> real, q: array2<real>, rows: nat, cols: nat, j: nat, ghost a: Mat)
    requires j < cols && HoldsColumns(q, rows, cols, State(sqrt, rows, a, j))
    modifies q
    ensures HoldsColumns(q, rows, cols, State(sqrt, rows, a, j + 1))
  {
    Normalise(sqrt, q, rows, cols, j, State(sqrt, rows, a, j));
    forall t | 0 <= t < cols { NormalisedColumn(sqrt, rows, a, j, t); }
    OrthogonaliseRest(sqrt, q, rows, cols, j, a);
  }

  /** Modified Gram-Schmidt on a copy of a. */
  method QrDecomp(sqrt: real -> real, a: array2<real>, rows: nat, cols: nat, ghost f: Mat) returns (q: array2<real>)
    requires Holds(a, rows, cols, f)
    ensures fresh(q) && Holds(q, rows, cols, Orthonormalised(sqrt, rows, cols, f))
  {
    q := Copy(a, rows, cols, f);
    for j := 0 to cols
      invariant HoldsColumns(q, rows, cols, State(sqrt, rows, f, j))
    {
      FinishColumn(sqrt, q, rows, cols, j, f);
    }
  }
}
