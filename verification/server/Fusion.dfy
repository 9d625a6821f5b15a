/** Reciprocal rank fusion of ranked lists. */
module Fusion {
  import opened Arith
  import opened Ranking

  const DEFAULT_RRF_K: real := 60.0

  function RrfK(k: real): (r: real)
    ensures r > 0.0 && r == if k <= 0.0 then 60.0 else k
  {
    if k <= 0.0 then DEFAULT_RRF_K else k
  }

  /** What the place after rank others is worth. */
  function Share(k: real, rank: nat): (r: real)
    requires k > 0.0
    ensures r > 0.0
  {
    1.0 / (k + (rank + 1) as real)
  }

  /** The place after rank others is worth 1 / (k + rank + 1). */
  lemma ShareIs(k: real, rank: nat)
    requires k > 0.0
    ensures Mul(Share(k, rank), k + rank as real + 1.0) == 1.0
  {
  }

  lemma SharesFall(k: real, i: nat, j: nat)
    requires k > 0.0 && i < j
    ensures Share(k, i) > Share(k, j)
  {
  }

  // ---------- fused scores ----------

  /** What the first n places of a list give to a key. */
  function ListShare(list: seq<ScoredKey>, n: nat, k: real, key: Key): real
    requires k > 0.0 && n <= |list|
  {
    if n == 0 then 0.0
    else ListShare(list, n - 1, k, key) + if list[n - 1].key == key then Share(k, n - 1) else 0.0
  }

  /** What the first n lists give to a key. */
  function FusedScore(lists: seq<seq<ScoredKey>>, n: nat, k: real, key: Key): real
    requires k > 0.0 && n <= |lists|
  {
    if n == 0 then 0.0 else FusedScore(lists, n - 1, k, key) + ListShare(lists[n - 1], |lists[n - 1]|, k, key)
  }

  ghost predicate Mentions(list: seq<ScoredKey>, n: nat, key: Key)
    requires n <= |list|
  {
    exists r :: 0 <= r < n && list[r].key == key
  }

  ghost predicate MentionedIn(lists: seq<seq<ScoredKey>>, n: nat, key: Key)
    requires n <= |lists|
  {
    exists i :: 0 <= i < n && Mentions(lists[i], |lists[i]|, key)
  }

  ghost function KeysIn(lists: seq<seq<ScoredKey>>): set<Key> {
    set i, r | 0 <= i < |lists| && 0 <= r < |lists[i]| :: lists[i][r].key
  }

  ghost function FusedTable(lists: seq<seq<ScoredKey>>, k: real): map<Key, real>
    requires k > 0.0
  {
    map key | key in KeysIn(lists) :: FusedScore(lists, |lists|, k, key)
  }

  lemma KeysInAre(lists: seq<seq<ScoredKey>>, key: Key)
    ensures key in KeysIn(lists) <==> MentionedIn(lists, |lists|, key)
  {
  }

  // ---------- the loops ----------

  /** The scores after the first i lists and n places of the next. */
  ghost predicate Fusing(lists: seq<seq<ScoredKey>>, k: real, i: nat, n: nat, scores: map<Key, real>)
    requires k > 0.0 && i < |lists| && n <= |lists[i]|
  {
    && (forall key :: key in scores <==> MentionedIn(lists, i, key) || Mentions(lists[i], n, key))
    && forall key :: key in scores ==> scores[key] == FusedScore(lists, i, k, key) + ListShare(lists[i], n, k, key)
  }

  ghost predicate Fused(lists: seq<seq<ScoredKey>>, k: real, i: nat, scores: map<Key, real>)
    requires k > 0.0 && i <= |lists|
  {
    && (forall key :: key in scores <==> MentionedIn(lists, i, key))
    && forall key :: key in scores ==> scores[key] == FusedScore(lists, i, k, key)
  }

  lemma {:induction false} NotMentioned(list: seq<ScoredKey>, n: nat, k: real, key: Key)
    requires k > 0.0 && n <= |list| && !Mentions(list, n, key)
    ensures ListShare(list, n, k, key) == 0.0
  {
    if n > 0 {
      assert !Mentions(list, n - 1, key);
      NotMentioned(list, n - 1, k, key);
    }
  }

  lemma {:induction false} NotFused(lists: seq<seq<ScoredKey>>, n: nat, k: real, key: Key)
    requires k > 0.0 && n <= |lists| && !MentionedIn(lists, n, key)
    ensures FusedScore(lists, n, k, key) == 0.0
  {
    if n > 0 {
      assert !MentionedIn(lists, n - 1, key);
      assert !Mentions(lists[n - 1], |lists[n - 1]|, key);
      NotFused(lists, n - 1, k, key);
      NotMentioned(lists[n - 1], |lists[n - 1]|, k, key);
    }
  }

  lemma FusingNext(lists: seq<seq<ScoredKey>>, k: real, i: nat, n: nat, scores: map<Key, real>)
    requires k > 0.0 && i < |lists| && n < |lists[i]| && Fusing(lists, k, i, n, scores)
    ensures var key := lists[i][n].key;
      Fusing(lists, k, i, n + 1, scores[key := (if key in scores then scores[key] else 0.0) + Share(k, n)])
  {
    var hit := lists[i][n].key;
    forall key ensures Mentions(lists[i], n + 1, key) <==> Mentions(lists[i], n, key) || key == hit {
      assert key == hit ==> lists[i][n].key == key;
    }
    if hit !in scores {
      NotFused(lists, i, k, hit);
      NotMentioned(lists[i], n, k, hit);
    }
  }

  lemma FusedStart(lists: seq<seq<ScoredKey>>, k: real, i: nat, scores: map<Key, real>)
    requires k > 0.0 && i < |lists| && Fused(lists, k, i, scores)
    ensures Fusing(lists, k, i, 0, scores)
  {
  }

  lemma FusedNext(lists: seq<seq<ScoredKey>>, k: real, i: nat, scores: map<Key, real>)
    requires k > 0.0 && i < |lists| && Fusing(lists, k, i, |lists[i]|, scores)
    ensures Fused(lists, k, i + 1, scores)
  {
  }

  lemma FusedAll(lists: seq<seq<ScoredKey>>, k: real, scores: map<Key, real>)
    requires k > 0.0 && Fused(lists, k, |lists|, scores)
    ensures scores == FusedTable(lists, k)
  {
  }

  method FuseList(lists: seq<seq<ScoredKey>>, k: real, i: nat, before: map<Key, real>) returns (scores: map<Key, real>)
    requires k > 0.0 && i < |lists| && Fused(lists, k, i, before)
    ensures Fused(lists, k, i + 1, scores)
  {
    scores := before;
    FusedStart(lists, k, i, scores);
    for rank := 0 to |lists[i]|
      invariant Fusing(lists, k, i, rank, scores)
    {
      var key := lists[i][rank].key;
      FusingNext(lists, k, i, rank, scores);
      scores := scores[key := (if key in scores then scores[key] else 0.0) + Share(k, rank)];
    }
    FusedNext(lists, k, i, scores);
  }

  method RRFMulti(rankLists: seq<seq<ScoredKey>>, topK: int, rrfK: real) returns (merged: seq<ScoredKey>)
    ensures merged == Truncate(Ranked(FusedTable(rankLists, RrfK(rrfK))), topK)
  {
    var k := if rrfK <= 0.0 then DEFAULT_RRF_K else rrfK;
    var scores: map<Key, real> := map[];
    for i := 0 to |rankLists|
      invariant Fused(rankLists, k, i, scores)
    {
      scores := FuseList(rankLists, k, i, scores);
    }
    FusedAll(rankLists, k, scores);
    merged := RankAndTruncate(scores, topK);
  }
}
