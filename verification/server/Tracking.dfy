/** How the indexes follow the store: the state of the service as a value, and its steps. */
module Tracking {
  import opened Ranking
  import opened Items
  import opened Text
  import opened Postings
  import opened Store
  import opened Answers
  import Ngram
  import Lsa

  /** The items, the documents each index holds if it is there, and the keys lost to expiry
      that an index may still hold. */
  datatype View = View(
    data: Data, bm25: Option<Docs>, ngram: Option<Docs>, tfidf: Option<Docs>, lsa: Option<set<Key>>, lost: set<Key>)

  function At(docs: Docs, key: Key): seq<Word> { if key in docs then docs[key] else [] }

  /** The index holds exactly what it should for every live key; any other key it holds is a lost one. */
  ghost predicate Agrees(docs: Docs, expected: Docs, lost: set<Key>) {
    (forall key :: key in expected ==> At(docs, key) == expected[key]) && docs.Keys <= expected.Keys + lost
  }

  ghost predicate Follows(docs: Option<Docs>, expected: Docs, lost: set<Key>) {
    docs.Some? ==> Agrees(docs.value, expected, lost)
  }

  /** BM25 also holds the documents without tokens. */
  ghost predicate HoldsAll(v: View) { v.bm25.Some? ==> v.data.Keys <= v.bm25.value.Keys }

  /** The latent index holds no documents, or all live ones. */
  ghost predicate LsaFollows(v: View) {
    v.lsa.Some? ==> v.lsa.value <= v.data.Keys + v.lost && (v.lsa.value == {} || v.data.Keys <= v.lsa.value)
  }

  ghost predicate Consistent(al: Alphabet, n: nat, v: View)
    requires n >= 1
  {
    && v.lost !! v.data.Keys
    && Follows(v.bm25, TokensOf(al, v.data), v.lost) && HoldsAll(v)
    && Follows(v.tfidf, TokensOf(al, v.data), v.lost)
    && Follows(v.ngram, Ngram.GramDocs(al, n, v.data), v.lost)
    && LsaFollows(v)
  }

  /** Nothing is stored or indexed. */
  ghost predicate Empty(v: View) {
    && v.data == map[] && v.lost == {} && v.bm25 in {None, Some(map[])} && v.ngram in {None, Some(map[])}
    && v.tfidf in {None, Some(map[])} && v.lsa in {None, Some({})}
  }

  lemma EmptyIsConsistent(al: Alphabet, n: nat, v: View)
    requires n >= 1 && Empty(v)
    ensures Consistent(al, n, v)
  {
  }

  // ---------- one index ----------

  lemma FollowsPut(docs: Option<Docs>, expected: Docs, lost: set<Key>, key: Key, tokens: seq<Word>)
    requires Follows(docs, expected, lost)
    ensures Follows(WithDoc(docs, key, tokens), expected[key := tokens], lost - {key})
    ensures Follows(WithGrams(docs, key, tokens), expected[key := tokens], lost - {key})
  {
  }

  lemma FollowsDrop(docs: Option<Docs>, expected: Docs, lost: set<Key>, key: Key)
    requires Follows(docs, expected, lost)
    ensures Follows(Without(docs, key), expected - {key}, lost)
  {
  }

  lemma FollowsLoss(docs: Option<Docs>, expected: Docs, fewer: Docs, lost: set<Key>)
    requires Follows(docs, expected, lost) && fewer.Keys <= expected.Keys
    requires forall key :: key in fewer ==> fewer[key] == expected[key]
    ensures Follows(docs, fewer, lost + (expected.Keys - fewer.Keys))
  {
  }

  lemma FollowsRebuild(expected: Docs)
    ensures Follows(Some(expected), expected, {}) && Follows(Some(WithTokens(expected)), expected, {})
  {
  }

  // ---------- the steps of the service ----------

  function WithDoc(docs: Option<Docs>, key: Key, tokens: seq<Word>): Option<Docs> {
    if docs.Some? then Some(docs.value[key := tokens]) else None
  }

  function WithGrams(docs: Option<Docs>, key: Key, ngrams: seq<Word>): Option<Docs> {
    if docs.Some? then Some(Ngram.Entered(docs.value, key, ngrams)) else None
  }

  function Without(docs: Option<Docs>, key: Key): Option<Docs> {
    if docs.Some? then Some(docs.value - {key}) else None
  }

  /** The documents of a rebuilt latent index: none at all if there is no token. */
  ghost function LatentKeys(al: Alphabet, data: Data): set<Key> {
    if Lsa.AllTokens(TokensOf(al, data)) == {} then {} else data.Keys
  }

  ghost function RebuiltLsa(al: Alphabet, v: View, data: Data): Option<set<Key>> {
    if v.lsa.Some? then Some(LatentKeys(al, data)) else None
  }

  /** A successful Set. */
  ghost function AfterSet(al: Alphabet, n: nat, v: View, key: Key, item: Item): View
    requires n >= 1
  {
    var tokens, data := Tokenize(al, item.value), v.data[key := item];
    View(data, WithDoc(v.bm25, key, tokens), WithGrams(v.ngram, key, Ngram.GramsOf(al, n, item.value)),
         WithDoc(v.tfidf, key, tokens), RebuiltLsa(al, v, data), v.lost - {key})
  }

  /** A successful Delete. */
  ghost function AfterDelete(al: Alphabet, v: View, key: Key): View {
    var data := v.data - {key};
    View(data, Without(v.bm25, key), Without(v.ngram, key), Without(v.tfidf, key), RebuiltLsa(al, v, data), v.lost)
  }

  /** Items may be touched or lost, but no value changes. */
  ghost predicate Shrinks(data: Data, fewer: Data) {
    fewer.Keys <= data.Keys && forall key :: key in fewer ==> fewer[key].value == data[key].value
  }

  /** Any number of lookups, or a sweep of the expired items: no index hears of it. */
  ghost function AfterLoss(v: View, fewer: Data): View {
    v.(data := fewer, lost := v.lost + (v.data.Keys - fewer.Keys))
  }

  /** All indexes rebuilt from the store. */
  ghost function AfterRebuild(al: Alphabet, n: nat, v: View): View
    requires n >= 1
  {
    View(v.data,
         if v.bm25.Some? then Some(TokensOf(al, v.data)) else None,
         if v.ngram.Some? then Some(WithTokens(Ngram.GramDocs(al, n, v.data))) else None,
         if v.tfidf.Some? then Some(WithTokens(TokensOf(al, v.data))) else None,
         RebuiltLsa(al, v, v.data), {})
  }

  /** The callback of the embedder: only a lookup if the item is gone, else a new vector and new indexes. */
  ghost predicate AfterEmbedding(al: Alphabet, n: nat, max: int, v: View, key: Key, vector: seq<real>, now: int,
                                 later: int, v': View)
    requires n >= 1
  {
    var data := AfterGet(v.data, key, now, later);
    match Lookup(v.data, key, now, later)
    case None => v' == AfterLoss(v, data)
    case Some(item) => v' == AfterRebuild(al, n, v.(data := Effect(max, data, SetOp(key, item.(vector := vector)))))
  }

  /** The callback gives a live item that still fits the new vector and one access more, and changes no other item;
      nothing is lost from the indexes' account but an item that had expired. */
  lemma EmbeddingStores(al: Alphabet, n: nat, max: int, v: View, key: Key, vector: seq<real>, now: int, later: int,
                        v': View)
    requires n >= 1 && AfterEmbedding(al, n, max, v, key, vector, now, later, v')
    ensures forall k :: k in v.data && k != key ==> k in v'.data && v'.data[k] == v.data[k]
    ensures key in v'.data <==> key in v.data && !Expired(v.data[key], now)
    ensures key in v'.data ==>
      var item := v.data[key].(accessCount := v.data[key].accessCount + 1, lastAccessedAt := later);
      v'.data[key] ==
        if Bytes(AfterGet(v.data, key, now, later)[key := item.(vector := vector)]) <= max then item.(vector := vector)
        else item
    ensures key in v'.data ==> v'.lost == {}
  {
  }

  lemma DocsWith(al: Alphabet, n: nat, data: Data, key: Key, item: Item)
    requires n >= 1
    ensures TokensOf(al, data[key := item]) == TokensOf(al, data)[key := Tokenize(al, item.value)]
    ensures Ngram.GramDocs(al, n, data[key := item]) ==
      Ngram.GramDocs(al, n, data)[key := Ngram.GramsOf(al, n, item.value)]
  {
  }

  lemma DocsWithout(al: Alphabet, n: nat, data: Data, key: Key)
    requires n >= 1
    ensures TokensOf(al, data - {key}) == TokensOf(al, data) - {key}
    ensures Ngram.GramDocs(al, n, data - {key}) == Ngram.GramDocs(al, n, data) - {key}
  {
  }

  lemma SetKeepsConsistent(al: Alphabet, n: nat, v: View, key: Key, item: Item)
    requires n >= 1 && Consistent(al, n, v)
    ensures Consistent(al, n, AfterSet(al, n, v, key, item))
  {
    DocsWith(al, n, v.data, key, item);
    FollowsPut(v.bm25, TokensOf(al, v.data), v.lost, key, Tokenize(al, item.value));
    FollowsPut(v.tfidf, TokensOf(al, v.data), v.lost, key, Tokenize(al, item.value));
    FollowsPut(v.ngram, Ngram.GramDocs(al, n, v.data), v.lost, key, Ngram.GramsOf(al, n, item.value));
  }

  lemma DeleteKeepsConsistent(al: Alphabet, n: nat, v: View, key: Key)
    requires n >= 1 && Consistent(al, n, v)
    ensures Consistent(al, n, AfterDelete(al, v, key))
  {
    DocsWithout(al, n, v.data, key);
    FollowsDrop(v.bm25, TokensOf(al, v.data), v.lost, key);
    FollowsDrop(v.tfidf, TokensOf(al, v.data), v.lost, key);
    FollowsDrop(v.ngram, Ngram.GramDocs(al, n, v.data), v.lost, key);
  }

  lemma DocsShrink(al: Alphabet, n: nat, data: Data, fewer: Data)
    requires n >= 1 && Shrinks(data, fewer)
    ensures forall key :: key in TokensOf(al, fewer) ==> TokensOf(al, fewer)[key] == TokensOf(al, data)[key]
    ensures forall key :: key in Ngram.GramDocs(al, n, fewer) ==>
      Ngram.GramDocs(al, n, fewer)[key] == Ngram.GramDocs(al, n, data)[key]
  {
  }

  lemma LossKeepsConsistent(al: Alphabet, n: nat, v: View, fewer: Data)
    requires n >= 1 && Consistent(al, n, v) && Shrinks(v.data, fewer)
    ensures Consistent(al, n, AfterLoss(v, fewer))
  {
    DocsShrink(al, n, v.data, fewer);
    FollowsLoss(v.bm25, TokensOf(al, v.data), TokensOf(al, fewer), v.lost);
    FollowsLoss(v.tfidf, TokensOf(al, v.data), TokensOf(al, fewer), v.lost);
    FollowsLoss(v.ngram, Ngram.GramDocs(al, n, v.data), Ngram.GramDocs(al, n, fewer), v.lost);
  }

  lemma RebuildKeepsConsistent(al: Alphabet, n: nat, v: View)
    requires n >= 1
    ensures Consistent(al, n, AfterRebuild(al, n, v))
  {
    FollowsRebuild(TokensOf(al, v.data));
    FollowsRebuild(Ngram.GramDocs(al, n, v.data));
  }

  /** The item a Set request asks for; a positive time to live counts from now, in milliseconds. */
  function NewItem(value: string, costMs: int, vector: seq<real>, ttlMs: int, now: int): Item {
    Item(value, costMs, vector, 0, 0, if ttlMs > 0 then Some(now + ttlMs) else None)
  }

  /** An item that has been set is found, as it was set, until its time to live is over, or forever without one. */
  lemma TimeToLive(data: Data, key: Key, value: string, costMs: int, vector: seq<real>, ttlMs: int, now: int, t: int,
                   later: int)
    ensures var found := Lookup(data[key := NewItem(value, costMs, vector, ttlMs, now)], key, t, later);
      && (found.Some? <==> ttlMs <= 0 || t <= now + ttlMs)
      && (found.Some? ==>
           && found.value.value == value && found.value.costMs == costMs && found.value.vector == vector
           && found.value.accessCount == 1 && found.value.lastAccessedAt == later)
  {
  }

  lemma GetShrinks(data: Data, key: Key, now: int, later: int)
    ensures Shrinks(data, AfterGet(data, key, now, later))
  {
  }

  lemma AccessedShrinks(data: Data, scored: seq<ScoredKey>, clock: Clock, after: Data)
    requires Accessed(data, scored, clock, after)
    ensures Shrinks(data, after)
  {
    forall key | key in after ensures after[key].value == data[key].value {
      if x :| x in scored && x.key == key {
        var i :| 0 <= i < |scored| && scored[i] == x;
        assert scored[i].key in data;
      }
    }
  }

  // ---------- results ----------

  /** Every result is for a live key or a lost one. */
  ghost predicate Known(v: View, scored: seq<ScoredKey>) {
    forall x :: x in scored ==> x.key in v.data || x.key in v.lost
  }

  /** A search looks up the results found, which it knows, each once. */
  ghost predicate AfterSearch(v: View, found: seq<ScoredKey>, clock: Clock, v': View) {
    DistinctKeys(found) && Known(v, found) && Accessed(v.data, found, clock, v'.data) && v' == AfterLoss(v, v'.data)
  }

  /** Results that are not live are for lost keys and are shown without a value. */
  ghost predicate StraysLost(v: View, out: seq<SearchResult>) {
    forall i :: 0 <= i < |out| && out[i].key !in v.data ==> out[i].key in v.lost && out[i].value == None
  }

  lemma AnswersKnown(v: View, scored: seq<ScoredKey>, clock: Clock, out: seq<SearchResult>)
    requires Known(v, scored) && Answered(v.data, scored, clock, out)
    ensures StraysLost(v, out)
  {
    forall i | 0 <= i < |out| && out[i].key !in v.data ensures out[i].key in v.lost && out[i].value == None {
      assert scored[i] in scored;
    }
  }

  /** The results of a search by an index that agrees with the store are known. */
  lemma TableKnown(v: View, docs: Docs, expected: Docs, m: map<Key, real>, topK: int)
    requires Agrees(docs, expected, v.lost) && expected.Keys == v.data.Keys && m.Keys <= docs.Keys
    ensures Known(v, Truncate(Ranked(m), topK))
  {
    forall x | x in Truncate(Ranked(m), topK) ensures x.key in v.data || x.key in v.lost {
      assert x in Ranked(m);
    }
  }
}
