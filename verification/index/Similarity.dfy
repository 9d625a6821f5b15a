/** The three n-gram similarities, from counts of shared and total n-grams. */
module Similarity {
  import opened Arith
  import opened Weights

  datatype Metric = Dice | Jaccard | Overlap

  function Min(a: nat, b: nat): nat { if a < b then a else b }

  function Ratio(x: int, y: int): real
    requires y != 0
  {
    x as real / y as real
  }

  /** The unrounded score of shared n-grams between q and d of them. */
  function Raw(metric: Metric, shared: nat, q: nat, d: nat): real
    requires q >= 1
  {
    match metric
    case Jaccard => if q + d - shared > 0 then Ratio(shared, q + d - shared) else 0.0
    case Overlap => if Min(q, d) > 0 then Ratio(shared, Min(q, d)) else 0.0
    case Dice => Ratio(2 * shared, q + d)
  }

  /** Dice is twice the shared n-grams over all, Jaccard the shared ones over the union, Overlap over the smaller
      side. */
  lemma MetricsAre(shared: nat, q: nat, d: nat)
    requires 1 <= shared <= q && shared <= d
    ensures Mul(Raw(Dice, shared, q, d), (q + d) as real) == 2.0 * shared as real
    ensures Mul(Raw(Jaccard, shared, q, d), (q + d - shared) as real) == shared as real
    ensures Mul(Raw(Overlap, shared, q, d), (if q <= d then q else d) as real) == shared as real
  {
  }

  /** Dice is 2 J / (1 + J), and Overlap is one exactly when all n-grams of one side are shared. */
  lemma MetricsRelated(shared: nat, q: nat, d: nat)
    requires 1 <= shared <= q && shared <= d
    ensures var j := Raw(Jaccard, shared, q, d);
      j > 0.0 && Mul(Raw(Dice, shared, q, d), 1.0 + j) == 2.0 * j
    ensures Raw(Overlap, shared, q, d) == 1.0 <==> shared == q || shared == d
  {
    MetricsAre(shared, q, d);
    MetricsOrdered(shared, q, d);
    FromJaccard(Raw(Dice, shared, q, d), Raw(Jaccard, shared, q, d), shared as real, (q + d) as real);
    FullOverlap(Raw(Overlap, shared, q, d), shared as real, Min(q, d) as real);
  }

  lemma FromJaccard(x: real, j: real, s: real, t: real)
    requires Mul(x, t) == 2.0 * s && Mul(j, t - s) == s && t > 0.0
    ensures Mul(x, 1.0 + j) == 2.0 * j
  {
    assert Mul(Mul(x, 1.0 + j), t) == Mul(Mul(x, t), 1.0 + j);
    assert Mul(2.0 * s, 1.0 + j) == 2.0 * (s + Mul(j, s));
    assert Mul(j, t - s) == Mul(j, t) - Mul(j, s);
    assert Mul(2.0 * j, t) == 2.0 * Mul(j, t);
    SameFactor(Mul(x, 1.0 + j), 2.0 * j, t);
  }

  lemma FullOverlap(x: real, s: real, m: real)
    requires Mul(x, m) == s && m > 0.0
    ensures x == 1.0 <==> s == m
  {
    if s == m {
      SameFactor(x, 1.0, m);
    }
  }

  /** Fractions compare like cross products. */
  lemma CrossProducts(a: int, b: int, c: int, d: int)
    requires b > 0 && d > 0
    ensures Ratio(a, b) <= Ratio(c, d) <==> a * d <= c * b
  {
  }

  /** The three metrics are ordered, and none leaves (0, 1]. */
  lemma MetricsOrdered(shared: nat, q: nat, d: nat)
    requires 1 <= shared <= q && shared <= d
    ensures 0.0 < Raw(Jaccard, shared, q, d) <= Raw(Dice, shared, q, d) <= Raw(Overlap, shared, q, d) <= 1.0
  {
    var s, m := shared, Min(q, d);
    QuotientPositive(s as real, (q + d - s) as real);
    JaccardBelowDice(s, q + d);
    CrossProducts(s, q + d - s, 2 * s, q + d);
    DiceBelowOverlap(s, m, q + d);
    CrossProducts(2 * s, q + d, s, m);
    CrossProducts(s, m, 1, 1);
  }

  lemma JaccardBelowDice(s: int, t: int)
    requires 0 <= s && 2 * s <= t
    ensures s * t <= (2 * s) * (t - s)
  {
  }

  lemma DiceBelowOverlap(s: int, m: int, t: int)
    requires 0 <= s && 2 * m <= t
    ensures (2 * s) * m <= s * t
  {
  }

  /** Before rounding, Dice and Jaccard order the documents for a query alike. */
  lemma SameOrder(q: nat, s: nat, d: nat, s': nat, d': nat)
    requires 1 <= s <= q && s <= d && 1 <= s' <= q && s' <= d'
    ensures Raw(Jaccard, s, q, d) <= Raw(Jaccard, s', q, d') <==> Raw(Dice, s, q, d) <= Raw(Dice, s', q, d')
  {
    CrossProducts(s, q + d - s, s', q + d' - s');
    CrossProducts(2 * s, q + d, 2 * s', q + d');
    Distribute(s, q + d', s');
    Distribute(s', q + d, s);
    assert (2 * s) * (q + d') == 2 * (s * (q + d'));
    assert (2 * s') * (q + d) == 2 * (s' * (q + d));
    assert s * s' == s' * s;
  }

  lemma Distribute(a: int, b: int, c: int)
    ensures a * (b - c) == a * b - a * c
  {
  }

  // ---------- rounding to four decimals ----------

  /** Half away from zero. */
  function Round(x: real): int {
    if x >= 0.0 then (x + 0.5).Floor else -((-x + 0.5).Floor)
  }

  function Round4(x: real): real { Round(x * 10000.0) as real / 10000.0 }

  /** Rounding never inverts an order. */
  lemma RoundMonotone(x: real, y: real)
    requires x <= y
    ensures Round4(x) <= Round4(y)
  {
    assert x * 10000.0 <= y * 10000.0;
    assert Round(x * 10000.0) <= Round(y * 10000.0);
  }

  predicate FourDecimals(x: real) { x * 10000.0 == (x * 10000.0).Floor as real }

  /** A rounded score has four decimals, and is the nearest such number, ties going up. */
  lemma RoundedIs(x: real)
    requires x >= 0.0
    ensures FourDecimals(Round4(x)) && Round4(x) - 0.00005 <= x < Round4(x) + 0.00005
  {
  }

  /** Rounding moves a score by at most half a unit of the fourth decimal. */
  lemma RoundNear(x: real)
    ensures -0.00005 <= Round4(x) - x <= 0.00005
  {
  }
}
