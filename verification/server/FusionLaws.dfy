/** What rank fusion promises. */
module FusionLaws {
  import opened Arith
  import opened Ranking
  import opened Fusion

  // ---------- the order of the lists does not matter ----------

  lemma {:induction false} SamePrefix(a: seq<seq<ScoredKey>>, b: seq<seq<ScoredKey>>, n: nat, k: real, key: Key)
    requires k > 0.0 && n <= |a| && n <= |b| && a[..n] == b[..n]
    ensures FusedScore(a, n, k, key) == FusedScore(b, n, k, key)
  {
    if n > 0 {
      assert a[n - 1] == a[..n][n - 1] == b[..n][n - 1] == b[n - 1];
      assert a[..n - 1] == a[..n][..n - 1] && b[..n - 1] == b[..n][..n - 1];
      SamePrefix(a, b, n - 1, k, key);
    }
  }

  function Whole(lists: seq<seq<ScoredKey>>, k: real, key: Key): real
    requires k > 0.0
  {
    FusedScore(lists, |lists|, k, key)
  }

  function ShareOf(list: seq<ScoredKey>, k: real, key: Key): real
    requires k > 0.0
  {
    ListShare(list, |list|, k, key)
  }

  /** Each list adds what its places are worth. */
  lemma LastList(lists: seq<seq<ScoredKey>>, list: seq<ScoredKey>, k: real, key: Key)
    requires k > 0.0
    ensures Whole(lists + [list], k, key) == Whole(lists, k, key) + ShareOf(list, k, key)
  {
    SamePrefix(lists + [list], lists, |lists|, k, key);
  }

  /** Any list may be taken out first. */
  lemma {:induction false} TakenOut(lists: seq<seq<ScoredKey>>, i: nat, k: real, key: Key)
    requires k > 0.0 && i < |lists|
    ensures Whole(lists, k, key) == Whole(lists[..i] + lists[i + 1..], k, key) + ShareOf(lists[i], k, key)
    decreases |lists|
  {
    var n := |lists| - 1;
    var front := lists[..n];
    assert lists == front + [lists[n]];
    LastList(front, lists[n], k, key);
    if i < n {
      TakenOut(front, i, k, key);
      LastList(front[..i] + front[i + 1..], lists[n], k, key);
      assert lists[..i] + lists[i + 1..] == front[..i] + front[i + 1..] + [lists[n]];
    } else {
      assert lists[..i] + lists[i + 1..] == front;
    }
  }

  lemma WithoutOne<T>(s: seq<T>, i: nat)
    requires i < |s|
    ensures multiset(s[..i] + s[i + 1..]) == multiset(s) - multiset{s[i]}
  {
    assert s == s[..i] + [s[i]] + s[i + 1..];
  }

  lemma Find<T>(s: seq<T>, x: T) returns (i: nat)
    requires x in multiset(s)
    ensures i < |s| && s[i] == x
  {
    assert x in s;
    i :| 0 <= i < |s| && s[i] == x;
  }

  lemma SameSize<T>(a: seq<T>, b: seq<T>)
    requires multiset(a) == multiset(b)
    ensures |a| == |b|
  {
    assert |multiset(a)| == |multiset(b)|;
  }

  lemma {:induction false} ScorePermuted(a: seq<seq<ScoredKey>>, b: seq<seq<ScoredKey>>, k: real, key: Key)
    requires k > 0.0 && multiset(a) == multiset(b)
    ensures Whole(a, k, key) == Whole(b, k, key)
    decreases |a|
  {
    SameSize(a, b);
    if a != [] {
      var i := Find(b, a[0]);
      WithoutOne(a, 0);
      WithoutOne(b, i);
      TakenOut(a, 0, k, key);
      TakenOut(b, i, k, key);
      ScorePermuted(a[..0] + a[1..], b[..i] + b[i + 1..], k, key);
    }
  }

  lemma KeysPermuted(a: seq<seq<ScoredKey>>, b: seq<seq<ScoredKey>>)
    requires forall list :: list in a ==> list in b
    ensures KeysIn(a) <= KeysIn(b)
  {
    forall key | key in KeysIn(a) ensures key in KeysIn(b) {
      var i, r :| 0 <= i < |a| && 0 <= r < |a[i]| && a[i][r].key == key;
      assert a[i] in a && a[i] in b;
      var j :| 0 <= j < |b| && b[j] == a[i];
      assert b[j][r].key == key;
    }
  }

  /** The fused scores, and so the results, do not depend on the order of the lists. */
  lemma OrderOfListsIrrelevant(a: seq<seq<ScoredKey>>, b: seq<seq<ScoredKey>>, k: real)
    requires k > 0.0 && multiset(a) == multiset(b)
    ensures FusedTable(a, k) == FusedTable(b, k)
  {
    assert forall list :: list in a <==> list in multiset(a);
    assert forall list :: list in b <==> list in multiset(b);
    KeysPermuted(a, b);
    KeysPermuted(b, a);
    forall key | key in KeysIn(a) ensures Whole(a, k, key) == Whole(b, k, key) {
      ScorePermuted(a, b, k, key);
    }
  }

  // ---------- what is better everywhere comes first ----------

  lemma {:induction false} ShareAt(list: seq<ScoredKey>, n: nat, k: real, r: nat)
    requires k > 0.0 && n <= |list| && DistinctKeys(list) && r < |list|
    ensures ListShare(list, n, k, list[r].key) == if r < n then Share(k, r) else 0.0
  {
    if n > 0 {
      ShareAt(list, n - 1, k, r);
      if r != n - 1 {
        assert list[n - 1].key != list[r].key;
      }
    }
  }

  /** In a list with distinct keys the key at place r gets 1 / (k + r + 1), and a key not listed nothing. */
  lemma PlacesAreWorth(list: seq<ScoredKey>, k: real, key: Key)
    requires k > 0.0 && DistinctKeys(list)
    ensures forall r :: 0 <= r < |list| && list[r].key == key ==>
      Mul(ShareOf(list, k, key), k + r as real + 1.0) == 1.0
    ensures (forall r :: 0 <= r < |list| ==> list[r].key != key) ==> ShareOf(list, k, key) == 0.0
  {
    forall r | 0 <= r < |list| && list[r].key == key ensures Mul(ShareOf(list, k, key), k + r as real + 1.0) == 1.0 {
      ShareAt(list, |list|, k, r);
      ShareIs(k, r);
    }
    if forall r :: 0 <= r < |list| ==> list[r].key != key {
      NotMentioned(list, |list|, k, key);
    }
  }

  lemma {:induction false} ShareNonNegative(list: seq<ScoredKey>, n: nat, k: real, key: Key)
    requires k > 0.0 && n <= |list|
    ensures ListShare(list, n, k, key) >= 0.0
  {
    if n > 0 {
      ShareNonNegative(list, n - 1, k, key);
    }
  }

  lemma ListFavours(list: seq<ScoredKey>, k: real, d: Key, e: Key)
    requires k > 0.0 && DistinctKeys(list) && Above(list, d, e)
    ensures ShareOf(list, k, e) <= ShareOf(list, k, d)
    ensures Mentions(list, |list|, e) ==> ShareOf(list, k, e) < ShareOf(list, k, d)
  {
    if Mentions(list, |list|, e) {
      var j :| 0 <= j < |list| && list[j].key == e;
      var h :| 0 <= h < j && list[h].key == d;
      ShareAt(list, |list|, k, j);
      ShareAt(list, |list|, k, h);
      SharesFall(k, h, j);
    } else {
      NotMentioned(list, |list|, k, e);
      ShareNonNegative(list, |list|, k, d);
    }
  }

  lemma {:induction false} ListsFavour(lists: seq<seq<ScoredKey>>, n: nat, k: real, d: Key, e: Key)
    requires k > 0.0 && n <= |lists|
    requires forall i :: 0 <= i < |lists| ==> DistinctKeys(lists[i]) && Above(lists[i], d, e)
    ensures FusedScore(lists, n, k, e) <= FusedScore(lists, n, k, d)
    ensures MentionedIn(lists, n, e) ==> FusedScore(lists, n, k, e) < FusedScore(lists, n, k, d)
  {
    if n > 0 {
      ListsFavour(lists, n - 1, k, d, e);
      ListFavours(lists[n - 1], k, d, e);
    }
  }

  ghost predicate Precedes(r: seq<ScoredKey>, d: Key, e: Key) {
    exists i, j :: 0 <= i < j < |r| && r[i].key == d && r[j].key == e
  }

  /** If d is above e in every list that has e, and e is in some list, d is fused above e. */
  lemma BetterEverywhere(lists: seq<seq<ScoredKey>>, k: real, d: Key, e: Key)
    requires k > 0.0 && MentionedIn(lists, |lists|, e)
    requires forall i :: 0 <= i < |lists| ==> DistinctKeys(lists[i]) && Above(lists[i], d, e)
    ensures Precedes(Ranked(FusedTable(lists, k)), d, e)
  {
    ListsFavour(lists, |lists|, k, d, e);
    var m := FusedTable(lists, k);
    KeysInAre(lists, e);
    KeysInAre(lists, d);
    HigherPrecedes(m, d, e);
  }

  lemma HigherPrecedes(m: map<Key, real>, d: Key, e: Key)
    requires d in m && e in m && m[d] > m[e]
    ensures Precedes(Ranked(m), d, e)
  {
    var r := Ranked(m);
    assert ScoredKey(d, m[d]) in r && ScoredKey(e, m[e]) in r;
    var i :| 0 <= i < |r| && r[i] == ScoredKey(d, m[d]);
    var j :| 0 <= j < |r| && r[j] == ScoredKey(e, m[e]);
    assert !Before(r[j], r[i]) && i != j;
  }

  /** Results have distinct keys, come strictly in order, and are a prefix of the unlimited results. */
  lemma ResultsOrdered(lists: seq<seq<ScoredKey>>, k: real, topK: int)
    requires k > 0.0
    ensures var all := Ranked(FusedTable(lists, k));
      var r := Truncate(all, topK);
      DistinctKeys(r) && Ordered(r) && r <= all && (topK > 0 ==> |r| <= topK) && (|r| < |all| ==> |r| == topK)
  {
    RankingDistinct(Ranked(FusedTable(lists, k)), FusedTable(lists, k));
  }

  // ---------- fusing a single list ----------

  /** A list by itself, with the shares of its places for scores. */
  ghost function Reranked(list: seq<ScoredKey>, k: real): (r: seq<ScoredKey>)
    requires k > 0.0
    ensures |r| == |list|
  {
    seq(|list|, i requires 0 <= i < |list| => ScoredKey(list[i].key, Share(k, i)))
  }

  /** Fusing one list keeps its keys in their order. */
  lemma SingleList(list: seq<ScoredKey>, k: real)
    requires k > 0.0 && DistinctKeys(list)
    ensures Ranked(FusedTable([list], k)) == Reranked(list, k)
    ensures KeysOf(Reranked(list, k)) == KeysOf(list)
  {
    var m, r := FusedTable([list], k), Reranked(list, k);
    forall i | 0 <= i < |list| ensures r[i].key in m && m[r[i].key] == r[i].score {
      assert [list][0][i].key == list[i].key;
      assert FusedScore([list], 1, k, list[i].key) ==
        FusedScore([list], 0, k, list[i].key) + ShareOf(list, k, list[i].key);
      ShareAt(list, |list|, k, i);
    }
    forall x ensures x in r <==> x.key in m && m[x.key] == x.score {
      if x.key in m && m[x.key] == x.score {
        var i, j :| 0 <= i < |[list]| && 0 <= j < |[list][i]| && [list][i][j].key == x.key;
        assert r[j] == x;
      }
    }
    forall i, j | 0 <= i < j < |r| ensures Before(r[i], r[j]) {
      SharesFall(k, i, j);
    }
    RankingUnique(Ranked(m), r, m);
  }

  lemma NoLists(k: real)
    requires k > 0.0
    ensures Ranked(FusedTable([], k)) == []
  {
    assert FusedTable([], k) == map[];
    RankedNothing();
  }

  /** Cutting a list at twice the limit, fusing it by itself and cutting it at the limit
      gives the keys of the list cut at the limit; also when there is no limit, or no list. */
  lemma FusedAlone(all: seq<ScoredKey>, k: real, topK: int)
    requires k > 0.0 && DistinctKeys(all)
    ensures var list := Truncate(all, 2 * topK);
      KeysOf(Truncate(Ranked(FusedTable(if list == [] then [] else [list], k)), topK)) == KeysOf(Truncate(all, topK))
  {
    var list := Truncate(all, 2 * topK);
    if list == [] {
      NoLists(k);
    } else {
      SingleList(list, k);
      CutKeys(Reranked(list, k), topK);
      CutKeys(list, topK);
      assert Truncate(list, topK) == Truncate(all, topK);
    }
  }

  lemma CutKeys(r: seq<ScoredKey>, topK: int)
    ensures KeysOf(Truncate(r, topK)) == if topK > 0 && |r| > topK then KeysOf(r)[..topK] else KeysOf(r)
  {
  }
}
