/** The character n-gram index: similarity of n-gram multisets. */
module Ngram {
  import opened Arith
  import opened Ranking
  import opened Items
  import opened Text
  import opened Postings
  import opened Extraction
  import opened Similarity

  function GramsOf(al: Alphabet, n: nat, text: string): seq<Word>
    requires n >= 1
  {
    AllGrams(n, Words(al, text))
  }

  /** The n-grams of every item of a snapshot. */
  function GramDocs(al: Alphabet, n: nat, items: map<Key, Item>): Docs
    requires n >= 1
  {
    map key | key in items :: GramsOf(al, n, items[key].value)
  }

  // ---------- scoring the documents by brute force ----------

  /** How many n-grams two lists share, as multisets. */
  function Common(q: seq<Word>, d: seq<Word>): nat { |multiset(q) * multiset(d)| }

  ghost function SharedCounts(docs: Docs, q: seq<Word>): map<Key, nat> {
    map key | key in Matching(docs, q) :: Common(q, docs[key])
  }

  ghost function Similarities(metric: Metric, docs: Docs, q: seq<Word>): map<Key, real>
    requires |q| >= 1
  {
    map key | key in Matching(docs, q) :: Round4(Raw(metric, Common(q, docs[key]), |q|, |docs[key]|))
  }

  lemma CommonBounds(q: seq<Word>, d: seq<Word>)
    ensures Common(q, d) <= |q| && Common(q, d) <= |d|
    ensures Common(q, d) >= 1 <==> exists ng :: ng in q && ng in d
  {
    var both := multiset(q) * multiset(d);
    assert |multiset(q)| == |both| + |multiset(q) - both|;
    assert |multiset(d)| == |both| + |multiset(d) - both|;
    if |both| >= 1 {
      var ng :| ng in both;
      assert ng in multiset(q) && ng in multiset(d);
      assert ng in q && ng in d;
    }
    if ng :| ng in q && ng in d {
      assert multiset(q)[ng] >= 1 && multiset(d)[ng] >= 1;
      assert both[ng] >= 1;
      assert |both[ng := 0]| == |both| - both[ng];
    }
  }

  /** The size of the multiset intersection, that of the union, and containment. */
  lemma CommonIs(q: seq<Word>, d: seq<Word>)
    ensures |multiset(q) + multiset(d) - multiset(q) * multiset(d)| == |q| + |d| - Common(q, d)
    ensures Common(q, d) == |q| <==> multiset(q) <= multiset(d)
    ensures Common(q, d) == |d| <==> multiset(d) <= multiset(q)
  {
    var a, b := multiset(q), multiset(d);
    var both := a * b;
    assert a == both + (a - both) && b == both + (b - both);
    assert a + b == both + (a + b - both);
    assert a <= b <==> a - both == multiset{};
    assert b <= a <==> b - both == multiset{};
  }

  /** raw is the metric of q and d: Dice times the sum of the sizes is twice the shared n-grams, Jaccard times the
      size of the union and Overlap times the smaller size are the shared ones. */
  ghost predicate Measures(metric: Metric, q: seq<Word>, d: seq<Word>, raw: real) {
    var a, b := multiset(q), multiset(d);
    match metric
    case Dice => Mul(raw, (|a| + |b|) as real) == 2.0 * |a * b| as real
    case Jaccard => Mul(raw, |a + b - a * b| as real) == |a * b| as real
    case Overlap => Mul(raw, (if |a| <= |b| then |a| else |b|) as real) == |a * b| as real
  }

  lemma RawMeasures(metric: Metric, q: seq<Word>, d: seq<Word>)
    requires 1 <= Common(q, d)
    ensures |q| >= 1 && Measures(metric, q, d, Raw(metric, Common(q, d), |q|, |d|))
  {
    CommonBounds(q, d);
    CommonIs(q, d);
    MetricsAre(Common(q, d), |q|, |d|);
    assert |multiset(q)| == |q| && |multiset(d)| == |d|;
  }

  /** An overlap is complete exactly when one side contains the other. */
  lemma FullOverlap(q: seq<Word>, d: seq<Word>)
    requires 1 <= Common(q, d)
    ensures |q| >= 1
    ensures Raw(Overlap, Common(q, d), |q|, |d|) == 1.0 <==> multiset(q) <= multiset(d) || multiset(d) <= multiset(q)
  {
    CommonBounds(q, d);
    CommonIs(q, d);
    MetricsRelated(Common(q, d), |q|, |d|);
  }

  /** Every result is for a document that shares an n-gram, and its score is its measure, rounded. */
  lemma ResultScores(metric: Metric, docs: Docs, q: seq<Word>, topK: int, x: ScoredKey) returns (raw: real)
    requires |q| >= 1 && x in Truncate(Ranked(Similarities(metric, docs, q)), topK)
    ensures x.key in docs && Measures(metric, q, docs[x.key], raw) && 0.0 < raw <= 1.0
    ensures FourDecimals(x.score) && x.score - 0.00005 <= raw < x.score + 0.00005
  {
    assert x in Ranked(Similarities(metric, docs, q));
    var d := docs[x.key];
    raw := Raw(metric, Common(q, d), |q|, |d|);
    CommonBounds(q, d);
    RawMeasures(metric, q, d);
    MetricsOrdered(Common(q, d), |q|, |d|);
    RoundedIs(raw);
  }

  /** Without a limit every document that shares an n-gram is a result. */
  lemma SharersFound(metric: Metric, docs: Docs, q: seq<Word>, topK: int, key: Key)
    requires |q| >= 1 && topK <= 0
    ensures (exists x :: x in Truncate(Ranked(Similarities(metric, docs, q)), topK) && x.key == key) <==>
      key in docs && exists ng :: ng in q && ng in docs[key]
  {
    var m := Similarities(metric, docs, q);
    if key in m {
      assert ScoredKey(key, m[key]) in Ranked(m);
    }
  }

  /** Two results that come in the opposite order of their unrounded scores have equal rounded ones. */
  lemma RoundingKeepsOrder(metric: Metric, docs: Docs, q: seq<Word>, i: nat, j: nat)
    requires |q| >= 1
    requires i < j < |Ranked(Similarities(metric, docs, q))|
    ensures var r := Ranked(Similarities(metric, docs, q));
      && r[i].key in docs && r[j].key in docs
      && (Raw(metric, Common(q, docs[r[i].key]), |q|, |docs[r[i].key]|) >=
           Raw(metric, Common(q, docs[r[j].key]), |q|, |docs[r[j].key]|)
          || r[i].score == r[j].score)
  {
    var m := Similarities(metric, docs, q);
    var r := Ranked(m);
    assert r[i] in r && r[j] in r && Before(r[i], r[j]);
    var x, y := Raw(metric, Common(q, docs[r[i].key]), |q|, |docs[r[i].key]|),
      Raw(metric, Common(q, docs[r[j].key]), |q|, |docs[r[j].key]|);
    if x < y {
      RoundMonotone(x, y);
    }
  }

  // ---------- counting by postings ----------

  /** The n-grams counted so far are those not in rest. */
  ghost predicate Counting(docs: Docs, q: seq<Word>, rest: multiset<Word>, counts: map<Key, nat>) {
    && (forall ng :: rest[ng] == 0 || rest[ng] == multiset(q)[ng])
    && counts.Keys == Reached(docs, q, rest)
    && forall key :: key in counts ==> counts[key] + |rest * multiset(docs[key])| == Common(q, docs[key])
  }

  ghost function Reached(docs: Docs, q: seq<Word>, rest: multiset<Word>): set<Key> {
    set key | key in docs && exists ng :: ng in q && ng !in rest && ng in docs[key]
  }

  /** What an n-gram that occurs qFreq times in the query adds to the documents in its postings. */
  function Shares(qFreq: nat, postings: map<Key, nat>): map<Key, nat> {
    map key | key in postings :: if qFreq < postings[key] then qFreq else postings[key]
  }

  function CountAt(m: map<Key, nat>, key: Key): nat { if key in m then m[key] else 0 }

  function PlusCounts(m: map<Key, nat>, d: map<Key, nat>): map<Key, nat> {
    map key | key in m.Keys + d.Keys :: CountAt(m, key) + CountAt(d, key)
  }

  lemma PlusNext(m: map<Key, nat>, d: map<Key, nat>, todo: set<Key>, key: Key)
    requires key in todo && key in d
    ensures var r := PlusCounts(m, d - todo);
      PlusCounts(m, d - (todo - {key})) == r[key := CountAt(r, key) + d[key]]
  {
  }

  /** Adds the counts of d to those of m, in any order. */
  method AddCounts(m: map<Key, nat>, d: map<Key, nat>) returns (r: map<Key, nat>)
    ensures r == PlusCounts(m, d)
  {
    r := m;
    var todo := d.Keys;
    while todo != {}
      invariant todo <= d.Keys && r == PlusCounts(m, d - todo)
      decreases |todo|
    {
      var key :| key in todo;
      PlusNext(m, d, todo, key);
      r := r[key := CountAt(r, key) + d[key]];
      todo := todo - {key};
    }
    assert d - {} == d;
  }

  /** Taking one n-gram out of a multiset takes its shared occurrences out of the intersection. */
  lemma TakeOut(rest: multiset<Word>, d: multiset<Word>, ng: Word)
    ensures |rest * d| == |rest[ng := 0] * d| + if rest[ng] < d[ng] then rest[ng] else d[ng]
  {
    assert rest[ng := 0] * d == (rest * d)[ng := 0];
  }

  ghost predicate AreShares(docs: Docs, q: seq<Word>, ng: Word, shares: map<Key, nat>) {
    shares.Keys == Containing(docs, ng) &&
    forall key :: key in shares ==> shares[key] == Min(multiset(q)[ng], multiset(docs[key])[ng])
  }

  lemma CountedKey(docs: Docs, q: seq<Word>, rest: multiset<Word>, ng: Word, counts: map<Key, nat>,
                   shares: map<Key, nat>, key: Key)
    requires Counting(docs, q, rest, counts) && AreShares(docs, q, ng, shares) && ng in rest && key in docs
    ensures CountAt(counts, key) + CountAt(shares, key) + |rest[ng := 0] * multiset(docs[key])| == Common(q, docs[key])
  {
    var d := multiset(docs[key]);
    TakeOut(rest, d, ng);
    if key !in counts {
      assert forall t :: t in docs[key] <==> t in d;
      forall t ensures (rest * d)[t] == (multiset(q) * d)[t] {
        assert t in q <==> t in multiset(q);
      }
      assert rest * d == multiset(q) * d;
    }
  }

  lemma ReachedNext(docs: Docs, q: seq<Word>, rest: multiset<Word>, ng: Word)
    requires ng in q && ng in rest
    ensures Reached(docs, q, rest[ng := 0]) == Reached(docs, q, rest) + Containing(docs, ng)
  {
  }

  lemma CountingNext(docs: Docs, q: seq<Word>, rest: multiset<Word>, ng: Word, counts: map<Key, nat>,
                     shares: map<Key, nat>)
    requires Counting(docs, q, rest, counts) && AreShares(docs, q, ng, shares) && ng in q && ng in rest
    ensures Counting(docs, q, rest[ng := 0], PlusCounts(counts, shares))
  {
    ReachedNext(docs, q, rest, ng);
    var r := PlusCounts(counts, shares);
    forall key | key in r ensures r[key] + |rest[ng := 0] * multiset(docs[key])| == Common(q, docs[key]) {
      CountedKey(docs, q, rest, ng, counts, shares, key);
    }
  }

  lemma SharesAre(docs: Docs, q: seq<Word>, inv: Inverted, ng: Word)
    requires Indexes(inv, docs)
    ensures ng in inv ==> AreShares(docs, q, ng, Shares(multiset(q)[ng], inv[ng]))
    ensures ng !in inv ==> AreShares(docs, q, ng, map[])
  {
    InIndex(inv, docs, ng);
    if ng in inv {
      PostingsKeys(inv, docs, ng);
    }
  }

  lemma CountedAll(docs: Docs, q: seq<Word>, counts: map<Key, nat>)
    requires Counting(docs, q, multiset{}, counts)
    ensures counts == SharedCounts(docs, q)
  {
  }

  /** Counts one n-gram of the query in every document. */
  method CountGram(inv: Inverted, ng: Word, qFreq: nat, counts: map<Key, nat>, ghost docs: Docs, ghost q: seq<Word>,
                   ghost rest: multiset<Word>)
    returns (r: map<Key, nat>)
    requires Indexes(inv, docs) && Counting(docs, q, rest, counts) && ng in q && ng in rest && qFreq == multiset(q)[ng]
    ensures Counting(docs, q, rest[ng := 0], r)
  {
    SharesAre(docs, q, inv, ng);
    var shares := if ng in inv then Shares(qFreq, inv[ng]) else map[];
    CountingNext(docs, q, rest, ng, counts, shares);
    r := AddCounts(counts, shares);
  }

  /** The n-grams still to be counted keep all their occurrences in rest. */
  ghost predicate Remains(q: seq<Word>, todo: set<Word>, rest: multiset<Word>) {
    todo <= ToSet(q) && forall ng :: rest[ng] == if ng in todo then multiset(q)[ng] else 0
  }

  lemma CountingStart(docs: Docs, q: seq<Word>)
    ensures Remains(q, ToSet(q), multiset(q)) && Counting(docs, q, multiset(q), map[])
  {
  }

  /** Counts the shared n-grams of every document, in any order of the query's n-grams. */
  method CountShared(inv: Inverted, qCounts: map<Word, nat>, ghost docs: Docs, ghost q: seq<Word>)
    returns (shared: map<Key, nat>)
    requires Indexes(inv, docs) && qCounts == Counts(q)
    ensures shared == SharedCounts(docs, q)
  {
    CountingStart(docs, q);
    shared := map[];
    var todo := qCounts.Keys;
    ghost var rest := multiset(q);
    while todo != {}
      invariant Remains(q, todo, rest) && Counting(docs, q, rest, shared)
      decreases |todo|
    {
      var ng :| ng in todo;
      shared := CountGram(inv, ng, qCounts[ng], shared, docs, q, rest);
      todo, rest := todo - {ng}, rest[ng := 0];
    }
    assert rest == multiset{};
    CountedAll(docs, q, shared);
  }

  /** The listing loop: scores of zero are left out. */
  function ScoreTable(metric: Metric, shared: map<Key, nat>, lenQ: nat, lengths: map<Key, nat>): map<Key, real>
    requires lenQ >= 1 && shared.Keys <= lengths.Keys
  {
    map key | key in shared && Raw(metric, shared[key], lenQ, lengths[key]) > 0.0 ::
      Round4(Raw(metric, shared[key], lenQ, lengths[key]))
  }

  /** No score is zero before rounding. */
  lemma TableIsSimilarities(metric: Metric, docs: Docs, q: seq<Word>)
    requires |q| >= 1
    ensures ScoreTable(metric, SharedCounts(docs, q), |q|, Lengths(docs)) == Similarities(metric, docs, q)
  {
    forall key | key in Matching(docs, q)
      ensures Raw(metric, Common(q, docs[key]), |q|, |docs[key]|) > 0.0
    {
      SimilarityBounds(metric, docs, q, key);
    }
  }

  lemma SimilarityBounds(metric: Metric, docs: Docs, q: seq<Word>, key: Key)
    requires |q| >= 1 && key in Matching(docs, q)
    ensures 0.0 < Raw(metric, Common(q, docs[key]), |q|, |docs[key]|) <= 1.0
  {
    CommonBounds(q, docs[key]);
    MetricsOrdered(Common(q, docs[key]), |q|, |docs[key]|);
  }

  // ---------- the index ----------

  /** The fields that follow from the documents; none of them is without n-grams. */
  ghost predicate Derived(docs: Docs, inv: Inverted, counts: map<Key, nat>) {
    Indexes(inv, docs) && counts == Lengths(docs) && forall key :: key in docs ==> docs[key] != []
  }

  lemma LengthsWith(docs: Docs, key: Key, ngrams: seq<Word>)
    ensures Lengths(docs[key := ngrams]) == Lengths(docs)[key := |ngrams|]
    ensures Lengths(docs - {key}) == Lengths(docs) - {key}
  {
  }

  /** The documents after key has been indexed with these n-grams. */
  function Entered(docs: Docs, key: Key, ngrams: seq<Word>): Docs {
    if ngrams == [] then docs - {key} else docs[key := ngrams]
  }

  lemma EnteredOver(docs: Docs, key: Key, ngrams: seq<Word>)
    ensures WithTokens(docs[key := ngrams]) == Entered(WithTokens(docs), key, ngrams)
  {
  }

  lemma EnteredItem(al: Alphabet, n: nat, items: map<Key, Item>, todo: set<Key>, key: Key)
    requires n >= 1 && key in todo && key in items
    ensures WithTokens(GramDocs(al, n, items - (todo - {key}))) ==
      Entered(WithTokens(GramDocs(al, n, items - todo)), key, GramsOf(al, n, items[key].value))
  {
    var ngrams := GramsOf(al, n, items[key].value);
    assert GramDocs(al, n, items - (todo - {key})) == GramDocs(al, n, items - todo)[key := ngrams];
    EnteredOver(GramDocs(al, n, items - todo), key, ngrams);
  }

  class NgramIndex {
    const n: nat
    const al: Alphabet
    var invertedIndex: Inverted
    var docNgramCount: map<Key, nat>
    var docNgrams: Docs

    ghost predicate Valid()
      reads this
    {
      n >= 1 && Derived(docNgrams, invertedIndex, docNgramCount)
    }

    constructor (al: Alphabet, n: int)
      ensures Valid() && docNgrams == map[] && this.al == al && this.n == if n <= 0 then 3 else n
    {
      this.al, this.n := al, SizeOf(n);
      invertedIndex, docNgramCount, docNgrams := map[], map[], map[];
    }

    method RemoveDocument(key: Key)
      requires Valid()
      modifies this
      ensures Valid() && docNgrams == old(docNgrams) - {key}
    {
      if key in docNgrams {
        LengthsWith(docNgrams, key, []);
        invertedIndex := RemovePostings(invertedIndex, key, docNgrams[key], docNgrams);
        docNgramCount, docNgrams := docNgramCount - {key}, docNgrams - {key};
      } else {
        NothingToDrop(docNgrams, key);
      }
    }

    /** A document without n-grams is not kept. */
    method IndexDocument(key: Key, value: string)
      requires Valid()
      modifies this
      ensures Valid() && docNgrams == Entered(old(docNgrams), key, GramsOf(al, n, value))
    {
      RemoveDocument(key);
      var ngrams := ExtractNgrams(al, value, n);
      if |ngrams| == 0 {
        return;
      }
      Enter(key, ngrams);
    }

    method Enter(key: Key, ngrams: seq<Word>)
      requires Valid() && key !in docNgrams && ngrams != []
      modifies this
      ensures Valid() && docNgrams == old(docNgrams)[key := ngrams]
    {
      LengthsWith(docNgrams, key, ngrams);
      invertedIndex := AddPostings(invertedIndex, key, ngrams, docNgrams);
      docNgramCount, docNgrams := docNgramCount[key := |ngrams|], docNgrams[key := ngrams];
    }

    /** Reads the items in any order. */
    method Rebuild(items: map<Key, Item>)
      requires n >= 1
      modifies this
      ensures Valid() && docNgrams == WithTokens(GramDocs(al, n, items))
    {
      invertedIndex, docNgramCount, docNgrams := map[], map[], map[];
      var todo := items.Keys;
      while todo != {}
        invariant Valid() && todo <= items.Keys
        invariant docNgrams == WithTokens(GramDocs(al, n, items - todo))
        decreases |todo|
      {
        var key :| key in todo;
        EnteredItem(al, n, items, todo, key);
        IndexDocument(key, items[key].value);
        todo := todo - {key};
      }
      assert items - {} == items;
    }

    /** Every document that shares an n-gram with the query, by the chosen similarity. */
    method SearchWithMetric(query: string, topK: int, metric: Metric) returns (ranked: seq<ScoredKey>)
      requires Valid()
      ensures var q := GramsOf(al, n, query);
        ranked == if q == [] then [] else Truncate(Ranked(Similarities(metric, docNgrams, q)), topK)
    {
      var qNgrams := ExtractNgrams(al, query, n);
      if |qNgrams| == 0 {
        return [];
      }
      var qCounts := CountTokens(qNgrams);
      var sharedCounts := CountShared(invertedIndex, qCounts, docNgrams, qNgrams);
      TableIsSimilarities(metric, docNgrams, qNgrams);
      if |sharedCounts| == 0 {
        RankedNothing();
        assert Similarities(metric, docNgrams, qNgrams) == map[];
        return [];
      }
      ranked := RankAndTruncate(ScoreTable(metric, sharedCounts, |qNgrams|, docNgramCount), topK);
    }

    method Search(query: string, topK: int) returns (ranked: seq<ScoredKey>)
      requires Valid()
      ensures var q := GramsOf(al, n, query);
        ranked == if q == [] then [] else Truncate(Ranked(Similarities(Dice, docNgrams, q)), topK)
    {
      ranked := SearchWithMetric(query, topK, Dice);
    }
  }
}
