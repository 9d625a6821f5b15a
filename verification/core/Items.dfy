/** The stored items, and integer totals over a map of them. */
module Items {
  import opened Ranking

  datatype Option<+T> = None | Some(value: T)

  /** expiresAt is None for items that never expire. */
  datatype Item = Item(
    value: string, costMs: int, vector: seq<real>, accessCount: nat, lastAccessedAt: int, expiresAt: Option<int>)

  /** The total weight of the entries of a map. As in Sums, the detour through two functions
      keeps the solver from expanding totals; only the lemma TotalPull looks inside. */
  ghost function Total<V>(m: map<Key, V>, w: (Key, V) -> int): int
    decreases |m|, 2
  {
    if m == map[] then 0 else NonEmptyTotal(m, w)
  }

  ghost function NonEmptyTotal<V>(m: map<Key, V>, w: (Key, V) -> int): int
    requires m != map[]
    decreases |m|, 1
  {
    FirstAndRest(m, w)
  }

  ghost function FirstAndRest<V>(m: map<Key, V>, w: (Key, V) -> int): int
    requires m != map[]
    decreases |m|, 0
  {
    var k :| k in m;
    w(k, m[k]) + Total(m - {k}, w)
  }

  lemma {:induction false} TotalPull<V>(m: map<Key, V>, w: (Key, V) -> int, k: Key)
    requires k in m
    ensures Total(m, w) == w(k, m[k]) + Total(m - {k}, w)
    decreases |m|
  {
    assert Total(m, w) == NonEmptyTotal(m, w) == FirstAndRest(m, w);
    var l :| l in m && FirstAndRest(m, w) == w(l, m[l]) + Total(m - {l}, w);
    if l != k {
      TotalPull(m - {l}, w, k);
      TotalPull(m - {k}, w, l);
      assert m - {l} - {k} == m - {k} - {l};
    }
  }

  /** What an insertion or an overwrite does to the total. */
  lemma TotalUpdate<V>(m: map<Key, V>, w: (Key, V) -> int, k: Key, v: V)
    ensures Total(m[k := v], w) == Total(m, w) + w(k, v) - if k in m then w(k, m[k]) else 0
  {
    TotalPull(m[k := v], w, k);
    assert m[k := v] - {k} == m - {k};
    if k in m {
      TotalPull(m, w, k);
    } else {
      assert m - {k} == m;
    }
  }

  lemma {:induction false} TotalNonNegative<V>(m: map<Key, V>, w: (Key, V) -> int)
    requires forall k | k in m :: w(k, m[k]) >= 0
    ensures Total(m, w) >= 0
    decreases |m|
  {
    if m != map[] {
      var k :| k in m;
      TotalPull(m, w, k);
      TotalNonNegative(m - {k}, w);
    }
  }
}
