/** Sums over the values of a map, and the loops that compute them in any order. */
module MapSums {
  import opened Sums

  /** The sum of the values of a map. */
  ghost function SumOf<T>(m: map<T, real>): real
    decreases |m|, 2
  {
    if m == map[] then 0.0 else NonEmptySumOf(m)
  }

  ghost function NonEmptySumOf<T>(m: map<T, real>): real
    requires m != map[]
    decreases |m|, 1
  {
    FirstAndOthers(m)
  }

  ghost function FirstAndOthers<T>(m: map<T, real>): real
    requires m != map[]
    decreases |m|, 0
  {
    var x :| x in m;
    m[x] + SumOf(m - {x})
  }

  function Entry<T>(m: map<T, real>): Vec<T> { x => At(m, x) }

  lemma {:induction false} SumOfEntries<T>(m: map<T, real>)
    ensures SumOf(m) == Sum(m.Keys, Entry(m))
    decreases |m|
  {
    if m != map[] {
      assert SumOf(m) == NonEmptySumOf(m) == FirstAndOthers(m);
      var x :| x in m && FirstAndOthers(m) == m[x] + SumOf(m - {x});
      assert (m - {x}).Keys == m.Keys - {x};
      SumOfEntries(m - {x});
      Pull(m.Keys, Entry(m), x);
      Ext(m.Keys - {x}, Entry(m), Entry(m - {x}));
    }
  }

  lemma NoneSummed<T>(m: map<T, real>)
    ensures SumOf(m - m.Keys) == 0.0
  {
  }

  /** One more turn of a loop over the entries of m; todo are those still to come. */
  lemma OneMoreSummed<T>(m: map<T, real>, todo: set<T>, x: T)
    requires x in todo && x in m
    ensures SumOf(m - (todo - {x})) == SumOf(m - todo) + m[x]
  {
    var part, next := m - todo, m - (todo - {x});
    SumOfEntries(part);
    SumOfEntries(next);
    assert next.Keys - {x} == part.Keys;
    Pull(next.Keys, Entry(next), x);
    Ext(part.Keys, Entry(next), Entry(part));
  }

  /** Go reads a missing entry as zero. */
  function At<T>(m: map<T, real>, x: T): real { if x in m then m[x] else 0.0 }

  function Plus<T>(m: map<T, real>, d: map<T, real>): map<T, real> {
    map x | x in m.Keys + d.Keys :: At(m, x) + At(d, x)
  }

  /** The sum so far, when the entries of d in todo are still to come. */
  ghost predicate Adding<T(!new)>(m: map<T, real>, d: map<T, real>, todo: set<T>, r: map<T, real>) {
    && todo <= d.Keys && r.Keys == m.Keys + (d.Keys - todo)
    && forall x :: x in r ==> r[x] == At(m, x) + if x in todo then 0.0 else At(d, x)
  }

  lemma AddingDone<T(!new)>(m: map<T, real>, d: map<T, real>, r: map<T, real>)
    requires Adding(m, d, {}, r)
    ensures r == Plus(m, d)
  {
  }

  lemma AddingNext<T(!new)>(m: map<T, real>, d: map<T, real>, todo: set<T>, r: map<T, real>, x: T)
    requires Adding(m, d, todo, r) && x in todo
    ensures Adding(m, d, todo - {x}, r[x := At(r, x) + d[x]])
  {
  }

  /** Adds the entries of d to those of m, in any order. */
  method AddValues<T(==, !new)>(m: map<T, real>, d: map<T, real>) returns (r: map<T, real>)
    ensures r == Plus(m, d)
  {
    r := m;
    var todo := d.Keys;
    while todo != {}
      invariant Adding(m, d, todo, r)
      decreases |todo|
    {
      var x :| x in todo;
      AddingNext(m, d, todo, r, x);
      r := r[x := At(r, x) + d[x]];
      todo := todo - {x};
    }
    AddingDone(m, d, r);
  }

  /** An accumulator loop over a map, in any order. */
  method SumValues<T(==)>(m: map<T, real>) returns (sum: real)
    ensures sum == SumOf(m)
  {
    sum := 0.0;
    var todo := m.Keys;
    NoneSummed(m);
    while todo != {}
      invariant todo <= m.Keys && sum == SumOf(m - todo)
      decreases |todo|
    {
      var x :| x in todo;
      sum := sum + m[x];
      OneMoreSummed(m, todo, x);
      todo := todo - {x};
    }
    assert m - {} == m;
  }
}
