/** Ranked result lists: score descending, ties broken by key ascending. */
module Ranking {
  import opened Sorting

  type Key = string

  datatype ScoredKey = ScoredKey(key: Key, score: real)

  /** Go's lexicographic order on strings. */
  predicate KeyLess(a: Key, b: Key) {
    b != [] && (a == [] || a[0] < b[0] || (a[0] == b[0] && KeyLess(a[1..], b[1..])))
  }

  lemma {:induction false} KeyTotal(a: Key, b: Key)
    ensures a == b || KeyLess(a, b) || KeyLess(b, a)
    ensures !(KeyLess(a, b) && KeyLess(b, a)) && !KeyLess(a, a)
  {
    if a != [] && b != [] {
      KeyTotal(a[1..], b[1..]);
      assert a == [a[0]] + a[1..] && b == [b[0]] + b[1..];
    }
    if a != [] {
      KeyTotal(a[1..], a[1..]);
    }
  }

  lemma {:induction false} KeyTransitive(a: Key, b: Key, c: Key)
    requires KeyLess(a, b) && KeyLess(b, c)
    ensures KeyLess(a, c)
  {
    if a != [] && a[0] == b[0] == c[0] {
      KeyTransitive(a[1..], b[1..], c[1..]);
    }
  }

  /** a is a proper start of b, or smaller at the first place where they differ. */
  ghost predicate Lexicographic(a: Key, b: Key) { exists n :: DifferFrom(a, b, n) }

  ghost predicate DifferFrom(a: Key, b: Key, n: int) {
    0 <= n <= |a| && n < |b| && a[..n] == b[..n] && (n == |a| || a[n] < b[n])
  }

  lemma {:induction false} KeyLessIs(a: Key, b: Key)
    ensures KeyLess(a, b) <==> Lexicographic(a, b)
  {
    if a == [] || b == [] || a[0] != b[0] {
      if b != [] && (a == [] || a[0] < b[0]) {
        assert DifferFrom(a, b, 0);
      }
    } else {
      KeyLessIs(a[1..], b[1..]);
      if Lexicographic(a[1..], b[1..]) {
        var n :| DifferFrom(a[1..], b[1..], n);
        Shifted(a, b, n);
      }
      if Lexicographic(a, b) {
        var n :| DifferFrom(a, b, n);
        assert n > 0;
        Shifted(a, b, n - 1);
      }
    }
  }

  lemma Shifted(a: Key, b: Key, n: int)
    requires a != [] && b != [] && a[0] == b[0] && n >= 0
    ensures DifferFrom(a[1..], b[1..], n) <==> DifferFrom(a, b, n + 1)
  {
    if n + 1 <= |a| && n + 1 < |b| {
      assert a[..n + 1] == [a[0]] + a[1..][..n] && b[..n + 1] == [b[0]] + b[1..][..n];
      if a[..n + 1] == b[..n + 1] {
        assert a[1..][..n] == a[..n + 1][1..] == b[..n + 1][1..] == b[1..][..n];
      }
    }
  }

  /** The less function every search passes to sort.Slice. */
  predicate Before(x: ScoredKey, y: ScoredKey) {
    if x.score == y.score then KeyLess(x.key, y.key) else x.score > y.score
  }

  lemma BeforeTotal(x: ScoredKey, y: ScoredKey)
    ensures x == y || Before(x, y) || Before(y, x)
    ensures !(Before(x, y) && Before(y, x))
  {
    KeyTotal(x.key, y.key);
  }

  lemma BeforeTransitive(x: ScoredKey, y: ScoredKey, z: ScoredKey)
    requires Before(x, y) && Before(y, z)
    ensures Before(x, z)
  {
    if x.score == y.score == z.score {
      KeyTransitive(x.key, y.key, z.key);
    }
  }

  lemma BeforeWeakOrder()
    ensures StrictWeakOrder(Before)
  {
    forall x, y | Before(x, y) ensures !Before(y, x) {
      BeforeTotal(x, y);
    }
    forall x, y, z | !Before(x, y) && !Before(y, z) ensures !Before(x, z) {
      BeforeTotal(x, y);
      BeforeTotal(y, z);
      BeforeTotal(x, z);
      if y != x && y != z {
        BeforeTransitive(z, y, x);
      }
    }
  }

  ghost predicate Ordered(r: seq<ScoredKey>) {
    forall i, j :: 0 <= i < j < |r| ==> Before(r[i], r[j])
  }

  /** r holds exactly the entries of the score table m. */
  ghost predicate Lists(r: seq<ScoredKey>, m: map<Key, real>) {
    forall x :: x in r <==> x.key in m && m[x.key] == x.score
  }

  ghost predicate IsRanking(r: seq<ScoredKey>, m: map<Key, real>) {
    Ordered(r) && Lists(r, m)
  }

  /** There is only one way to rank a score table, whatever order its entries are read in. */
  lemma {:induction false} RankingUnique(r: seq<ScoredKey>, q: seq<ScoredKey>, m: map<Key, real>)
    requires IsRanking(r, m) && IsRanking(q, m)
    ensures r == q
  {
    assert forall x :: x in r <==> x in q;
    assert q == [] || q[0] in r;
    if r != [] {
      assert r[0] in q;
      SameHead(r, q);
      TailRanking(r, m);
      TailRanking(q, m);
      RankingUnique(r[1..], q[1..], m - {r[0].key});
      assert r == [r[0]] + r[1..] && q == [q[0]] + q[1..];
    }
  }

  lemma SameHead(r: seq<ScoredKey>, q: seq<ScoredKey>)
    requires Ordered(r) && Ordered(q) && r != [] && q != [] && r[0] in q && q[0] in r
    ensures r[0] == q[0]
  {
    var i :| 0 <= i < |r| && r[i] == q[0];
    var j :| 0 <= j < |q| && q[j] == r[0];
    assert i == 0 || Before(r[0], r[i]);
    assert j == 0 || Before(q[0], q[j]);
    BeforeTotal(r[0], q[0]);
  }

  lemma TailRanking(r: seq<ScoredKey>, m: map<Key, real>)
    requires IsRanking(r, m) && r != []
    ensures r[0].key in m && IsRanking(r[1..], m - {r[0].key})
  {
    var m' := m - {r[0].key};
    assert r[0] in r;
    forall x ensures x in r[1..] <==> x in r && x != r[0] {
      if x in r[1..] {
        var i :| 1 <= i < |r| && r[i] == x;
        assert Before(r[0], r[i]);
        BeforeTotal(r[0], x);
      }
    }
    forall x ensures x in r[1..] <==> x.key in m' && m'[x.key] == x.score {
      assert x in r ==> (x.key == r[0].key <==> x == r[0]);
    }
  }

  /** Some entry comes before every other one. */
  lemma {:induction false} BestExists(m: map<Key, real>) returns (k: Key)
    requires m != map[]
    ensures k in m && forall l :: l in m && l != k ==> Before(ScoredKey(k, m[k]), ScoredKey(l, m[l]))
    decreases |m|
  {
    var c :| c in m;
    var rest := m - {c};
    assert rest.Keys == m.Keys - {c};
    if rest == map[] {
      assert forall l :: l in m ==> l == c || l in rest;
      k := c;
    } else {
      assert |rest.Keys| < |m.Keys|;
      k := BestExists(rest);
      var x, y := ScoredKey(c, m[c]), ScoredKey(k, m[k]);
      BeforeTotal(x, y);
      forall l | l in m && l != c && l != k ensures Before(y, ScoredKey(l, m[l])) {
        assert l in rest && rest[l] == m[l];
      }
      if Before(x, y) {
        forall l | l in m && l != c && l != k ensures Before(x, ScoredKey(l, m[l])) {
          BeforeTransitive(x, y, ScoredKey(l, m[l]));
        }
        k := c;
      }
    }
  }

  lemma {:induction false} RankingExists(m: map<Key, real>) returns (r: seq<ScoredKey>)
    ensures IsRanking(r, m)
    decreases |m|
  {
    if m == map[] {
      r := [];
    } else {
      var k := BestExists(m);
      assert |(m - {k}).Keys| < |m.Keys|;
      var q := RankingExists(m - {k});
      r := [ScoredKey(k, m[k])] + q;
      forall i | 0 <= i < |q| ensures Before(r[0], q[i]) {
        assert q[i] in q;
      }
    }
  }

  /** The ranking of a score table. */
  ghost function Ranked(m: map<Key, real>): (r: seq<ScoredKey>)
    ensures IsRanking(r, m)
  {
    assert exists r :: IsRanking(r, m) by { var r := RankingExists(m); }
    var r :| IsRanking(r, m);
    r
  }

  lemma RankedNothing()
    ensures Ranked(map[]) == []
  {
    RankingUnique(Ranked(map[]), [], map[]);
  }

  /** No key is listed twice. */
  ghost predicate DistinctKeys(r: seq<ScoredKey>) {
    forall i, j :: 0 <= i < j < |r| ==> r[i].key != r[j].key
  }

  lemma RankingDistinct(r: seq<ScoredKey>, m: map<Key, real>)
    requires IsRanking(r, m)
    ensures DistinctKeys(r)
  {
    forall i, j | 0 <= i < j < |r| ensures r[i].key != r[j].key {
      assert r[i] in r && r[j] in r && Before(r[i], r[j]);
      BeforeTotal(r[i], r[j]);
    }
  }

  /** Sorting a listing of the scores, read in any order, gives the ranking. */
  method SortScores(ranked: seq<ScoredKey>, ghost m: map<Key, real>) returns (r: seq<ScoredKey>)
    requires Lists(ranked, m) && DistinctKeys(ranked)
    ensures r == Ranked(m)
  {
    BeforeWeakOrder();
    ghost var perm;
    r, perm := SortSlice(ranked, Before);
    assert forall x :: x in r <==> x in multiset(r);
    assert forall x :: x in ranked <==> x in multiset(ranked);
    forall i, j | 0 <= i < j < |r| ensures Before(r[i], r[j]) {
      BeforeTotal(r[i], r[j]);
      assert perm[i] != perm[j];
      assert ranked[perm[i]].key != ranked[perm[j]].key;
    }
    RankingUnique(r, Ranked(m), m);
  }

  /** The cut-off every search ends with; topK <= 0 means no limit. */
  function Truncate(r: seq<ScoredKey>, topK: int): seq<ScoredKey> {
    if topK > 0 && |r| > topK then r[..topK] else r
  }

  lemma TruncatedDistinct(m: map<Key, real>, topK: int)
    ensures DistinctKeys(Truncate(Ranked(m), topK))
  {
    RankingDistinct(Ranked(m), m);
  }

  /** x has the higher score, or the same and the lexicographically smaller key. */
  ghost predicate Better(x: ScoredKey, y: ScoredKey) {
    x.score > y.score || (x.score == y.score && Lexicographic(x.key, y.key))
  }

  lemma BeforeIsBetter(x: ScoredKey, y: ScoredKey)
    ensures Before(x, y) <==> Better(x, y)
  {
    KeyLessIs(x.key, y.key);
  }

  lemma {:induction false} RankingSize(r: seq<ScoredKey>, m: map<Key, real>)
    requires IsRanking(r, m)
    ensures |r| == |m|
    decreases |r|
  {
    assert forall key :: key in m ==> ScoredKey(key, m[key]) in r;
    if r == [] {
      assert m == map[];
    } else {
      TailRanking(r, m);
      RankingSize(r[1..], m - {r[0].key});
      assert m.Keys == (m - {r[0].key}).Keys + {r[0].key};
    }
  }

  /** The results are the best entries of the score table, best first, and as many as asked for. */
  lemma BestAreKept(m: map<Key, real>, topK: int)
    ensures var r := Truncate(Ranked(m), topK);
      && |r| == (if 0 < topK < |m| then topK else |m|)
      && (forall x :: x in r ==> x.key in m && m[x.key] == x.score)
      && (forall i, j :: 0 <= i < j < |r| ==> Better(r[i], r[j]))
      && forall x, key :: x in r && key in m && ScoredKey(key, m[key]) !in r ==> Better(x, ScoredKey(key, m[key]))
  {
    var all, r := Ranked(m), Truncate(Ranked(m), topK);
    RankingSize(all, m);
    assert forall x :: x in r ==> x in all;
    forall i, j | 0 <= i < j < |all| ensures Better(all[i], all[j]) {
      BeforeIsBetter(all[i], all[j]);
    }
    forall x, key | x in r && key in m && ScoredKey(key, m[key]) !in r ensures Better(x, ScoredKey(key, m[key])) {
      var y := ScoredKey(key, m[key]);
      assert y in all;
      var i :| 0 <= i < |r| && r[i] == x;
      var j :| 0 <= j < |all| && all[j] == y;
      assert all[i] == r[i] && r == all[..|r|];
    }
  }

  /** d comes before e, if e is listed at all. */
  ghost predicate Above(r: seq<ScoredKey>, d: Key, e: Key) {
    forall j :: 0 <= j < |r| && r[j].key == e ==> exists i :: 0 <= i < j && r[i].key == d
  }

  /** Whatever the limit, a higher score comes first. */
  lemma HigherIsAbove(m: map<Key, real>, topK: int, d: Key, e: Key)
    requires d in m && e in m && m[d] > m[e]
    ensures Above(Truncate(Ranked(m), topK), d, e)
  {
    var all, r := Ranked(m), Truncate(Ranked(m), topK);
    forall j | 0 <= j < |r| && r[j].key == e ensures exists i :: 0 <= i < j && r[i].key == d {
      assert r[j] == all[j] && all[j] in all && ScoredKey(d, m[d]) in all;
      var i :| 0 <= i < |all| && all[i] == ScoredKey(d, m[d]);
      assert i != j && !Before(all[j], all[i]);
      assert r[i].key == d;
    }
  }

  function KeysOf(r: seq<ScoredKey>): (ks: seq<Key>)
    ensures |ks| == |r| && forall i :: 0 <= i < |r| ==> ks[i] == r[i].key
  {
    seq(|r|, i requires 0 <= i < |r| => r[i].key)
  }

  /** The listing loop: reads a score table in map order. */
  method ListScores(scores: map<Key, real>) returns (ranked: seq<ScoredKey>)
    ensures Lists(ranked, scores) && DistinctKeys(ranked)
  {
    ranked := [];
    var todo := scores.Keys;
    while todo != {}
      invariant todo <= scores.Keys
      invariant forall x :: x in ranked <==> x.key in scores && x.key !in todo && scores[x.key] == x.score
      invariant DistinctKeys(ranked)
      decreases |todo|
    {
      var key :| key in todo;
      forall i | 0 <= i < |ranked| ensures ranked[i].key != key {
        assert ranked[i] in ranked;
      }
      ranked := ranked + [ScoredKey(key, scores[key])];
      todo := todo - {key};
    }
  }

  /** How a search turns its score table into results. */
  method RankAndTruncate(scores: map<Key, real>, topK: int) returns (r: seq<ScoredKey>)
    ensures r == Truncate(Ranked(scores), topK)
  {
    var ranked := ListScores(scores);
    r := SortScores(ranked, scores);
    if topK > 0 && |r| > topK {
      r := r[..topK];
    }
  }
}
