/** Runs of index operations: an incrementally maintained index is the index of the final documents. */
module Runs {
  import opened Ranking
  import opened Items
  import opened Text
  import opened Postings
  import Bm25
  import Tfidf
  import Ngram

  datatype Op = Index(key: Key, value: string) | Remove(key: Key) | RebuildAll(items: map<Key, Item>)

  type Values = map<Key, string>

  function ValuesOf(items: map<Key, Item>): Values { map key | key in items :: items[key].value }

  /** The documents that ought to be indexed. */
  function After(vals: Values, op: Op): Values {
    match op
    case Index(key, value) => vals[key := value]
    case Remove(key) => vals - {key}
    case RebuildAll(items) => ValuesOf(items)
  }

  function AfterAll(vals: Values, ops: seq<Op>): Values {
    if ops == [] then vals else After(AfterAll(vals, ops[..|ops| - 1]), ops[|ops| - 1])
  }

  lemma AfterLast(vals: Values, ops: seq<Op>, i: nat)
    requires i < |ops|
    ensures AfterAll(vals, ops[..i + 1]) == After(AfterAll(vals, ops[..i]), ops[i])
  {
    assert ops[..i + 1][..i] == ops[..i];
  }

  function TokenDocs(al: Alphabet, vals: Values): Docs { map key | key in vals :: Tokenize(al, vals[key]) }

  function GramValues(al: Alphabet, n: nat, vals: Values): Docs
    requires n >= 1
  {
    WithTokens(GramMap(al, n, vals))
  }

  function GramMap(al: Alphabet, n: nat, vals: Values): Docs
    requires n >= 1
  {
    map key | key in vals :: Ngram.GramsOf(al, n, vals[key])
  }

  // ---------- BM25 ----------

  /** The documents determine every field, but for a stale average of no documents. */
  lemma Bm25Determined(a: Bm25.Bm25Index, b: Bm25.Bm25Index)
    requires a.Valid() && b.Valid() && a.docTokens == b.docTokens
    ensures a.invertedIndex == b.invertedIndex && a.docLengths == b.docLengths
    ensures a.docCount == b.docCount && a.totalTokens == b.totalTokens
    ensures a.docCount > 0 ==> a.avgDocLength == b.avgDocLength
  {
    IndexUnique(a.invertedIndex, b.invertedIndex, a.docTokens);
  }

  function Bm25Next(al: Alphabet, docs: Docs, op: Op): Docs {
    match op
    case Index(key, value) => docs[key := Tokenize(al, value)]
    case Remove(key) => docs - {key}
    case RebuildAll(items) => TokensOf(al, items)
  }

  lemma Bm25Tracks(al: Alphabet, vals: Values, op: Op)
    ensures Bm25Next(al, TokenDocs(al, vals), op) == TokenDocs(al, After(vals, op))
  {
  }

  method StepBm25(index: Bm25.Bm25Index, op: Op)
    requires index.Valid()
    modifies index
    ensures index.Valid() && index.docTokens == Bm25Next(index.al, old(index.docTokens), op)
  {
    match op
    case Index(key, value) => index.IndexDocument(key, value);
    case Remove(key) => index.RemoveDocument(key);
    case RebuildAll(items) => index.Rebuild(items);
  }

  /** After any run the index holds exactly the final documents, as Rebuild of them would. */
  method RunBm25(index: Bm25.Bm25Index, ops: seq<Op>, ghost vals: Values)
    requires index.Valid() && index.docTokens == TokenDocs(index.al, vals)
    modifies index
    ensures index.Valid() && index.docTokens == TokenDocs(index.al, AfterAll(vals, ops))
  {
    for i := 0 to |ops|
      invariant index.Valid() && index.docTokens == TokenDocs(index.al, AfterAll(vals, ops[..i]))
    {
      AfterLast(vals, ops, i);
      Bm25Tracks(index.al, AfterAll(vals, ops[..i]), ops[i]);
      StepBm25(index, ops[i]);
    }
    assert ops[..|ops|] == ops;
  }

  /** A run and a rebuild from the final items end in the same state. */
  method Bm25RunIsRebuild(run: Bm25.Bm25Index, rebuilt: Bm25.Bm25Index, ops: seq<Op>, items: map<Key, Item>)
    requires run != rebuilt && run.Valid() && rebuilt.Valid() && run.al == rebuilt.al && run.docTokens == map[]
    requires ValuesOf(items) == AfterAll(map[], ops)
    modifies run, rebuilt
    ensures run.docTokens == rebuilt.docTokens && run.invertedIndex == rebuilt.invertedIndex
    ensures run.docLengths == rebuilt.docLengths && run.docCount == rebuilt.docCount
      && run.totalTokens == rebuilt.totalTokens
    ensures run.docCount > 0 ==> run.avgDocLength == rebuilt.avgDocLength
  {
    RunBm25(run, ops, map[]);
    rebuilt.Rebuild(items);
    assert TokensOf(run.al, items) == TokenDocs(run.al, ValuesOf(items));
    Bm25Determined(run, rebuilt);
  }

  // ---------- n-grams ----------

  lemma NgramDetermined(a: Ngram.NgramIndex, b: Ngram.NgramIndex)
    requires a.Valid() && b.Valid() && a.docNgrams == b.docNgrams
    ensures a.invertedIndex == b.invertedIndex && a.docNgramCount == b.docNgramCount
  {
    IndexUnique(a.invertedIndex, b.invertedIndex, a.docNgrams);
  }

  function NgramNext(al: Alphabet, n: nat, docs: Docs, op: Op): Docs
    requires n >= 1
  {
    match op
    case Index(key, value) => Ngram.Entered(docs, key, Ngram.GramsOf(al, n, value))
    case Remove(key) => docs - {key}
    case RebuildAll(items) => WithTokens(Ngram.GramDocs(al, n, items))
  }

  lemma GramMaps(al: Alphabet, n: nat, vals: Values, key: Key, value: string)
    requires n >= 1
    ensures GramMap(al, n, vals[key := value]) == GramMap(al, n, vals)[key := Ngram.GramsOf(al, n, value)]
    ensures GramMap(al, n, vals - {key}) == GramMap(al, n, vals) - {key}
  {
  }

  lemma WithTokensLess(docs: Docs, key: Key)
    ensures WithTokens(docs - {key}) == WithTokens(docs) - {key}
  {
  }

  lemma NgramTracks(al: Alphabet, n: nat, vals: Values, op: Op)
    requires n >= 1
    ensures NgramNext(al, n, GramValues(al, n, vals), op) == GramValues(al, n, After(vals, op))
  {
    match op
    case Index(key, value) =>
      GramMaps(al, n, vals, key, value);
      Ngram.EnteredOver(GramMap(al, n, vals), key, Ngram.GramsOf(al, n, value));
    case Remove(key) =>
      GramMaps(al, n, vals, key, "");
      WithTokensLess(GramMap(al, n, vals), key);
    case RebuildAll(items) =>
      assert GramMap(al, n, ValuesOf(items)) == Ngram.GramDocs(al, n, items);
  }

  method StepNgram(index: Ngram.NgramIndex, op: Op)
    requires index.Valid()
    modifies index
    ensures index.Valid() && index.docNgrams == NgramNext(index.al, index.n, old(index.docNgrams), op)
  {
    match op
    case Index(key, value) => index.IndexDocument(key, value);
    case Remove(key) => index.RemoveDocument(key);
    case RebuildAll(items) => index.Rebuild(items);
  }

  method RunNgram(index: Ngram.NgramIndex, ops: seq<Op>, ghost vals: Values)
    requires index.Valid() && index.docNgrams == GramValues(index.al, index.n, vals)
    modifies index
    ensures index.Valid() && index.docNgrams == GramValues(index.al, index.n, AfterAll(vals, ops))
  {
    for i := 0 to |ops|
      invariant index.Valid() && index.docNgrams == GramValues(index.al, index.n, AfterAll(vals, ops[..i]))
    {
      AfterLast(vals, ops, i);
      NgramTracks(index.al, index.n, AfterAll(vals, ops[..i]), ops[i]);
      StepNgram(index, ops[i]);
    }
    assert ops[..|ops|] == ops;
  }

  method NgramRunIsRebuild(run: Ngram.NgramIndex, rebuilt: Ngram.NgramIndex, ops: seq<Op>, items: map<Key, Item>)
    requires run != rebuilt && run.Valid() && rebuilt.Valid() && run.al == rebuilt.al && run.n == rebuilt.n
    requires run.docNgrams == map[] && ValuesOf(items) == AfterAll(map[], ops)
    modifies run, rebuilt
    ensures run.docNgrams == rebuilt.docNgrams && run.invertedIndex == rebuilt.invertedIndex
    ensures run.docNgramCount == rebuilt.docNgramCount
  {
    RunNgram(run, ops, map[]);
    rebuilt.Rebuild(items);
    assert GramMap(run.al, run.n, ValuesOf(items)) == Ngram.GramDocs(run.al, run.n, items);
    NgramDetermined(run, rebuilt);
  }

  // ---------- TF-IDF ----------

  /** The token-less documents added one by one since the last rebuild and still there. */
  function Blank(al: Alphabet, blanks: set<Key>, op: Op): set<Key> {
    match op
    case Index(key, value) => if Tokenize(al, value) == [] then blanks + {key} else blanks - {key}
    case Remove(key) => blanks - {key}
    case RebuildAll(items) => {}
  }

  function Blanks(al: Alphabet, ops: seq<Op>): set<Key> {
    if ops == [] then {} else Blank(al, Blanks(al, ops[..|ops| - 1]), ops[|ops| - 1])
  }

  /** The indexed documents: those with tokens, and the blanks. */
  ghost predicate WithBlanks(al: Alphabet, docs: Docs, vals: Values, blanks: set<Key>) {
    && blanks <= vals.Keys
    && (forall key :: key in blanks ==> Tokenize(al, vals[key]) == [])
    && docs == map key | key in vals && (Tokenize(al, vals[key]) != [] || key in blanks) :: Tokenize(al, vals[key])
  }

  function TfidfNext(al: Alphabet, docs: Docs, op: Op): Docs {
    match op
    case Index(key, value) => docs[key := Tokenize(al, value)]
    case Remove(key) => docs - {key}
    case RebuildAll(items) => WithTokens(TokensOf(al, items))
  }

  lemma TfidfTracks(al: Alphabet, docs: Docs, vals: Values, blanks: set<Key>, op: Op)
    requires WithBlanks(al, docs, vals, blanks)
    ensures WithBlanks(al, TfidfNext(al, docs, op), After(vals, op), Blank(al, blanks, op))
  {
    match op
    case Index(key, value) => BlanksWith(al, docs, vals, blanks, key, value);
    case Remove(key) =>
    case RebuildAll(items) =>
  }

  lemma BlanksWith(al: Alphabet, docs: Docs, vals: Values, blanks: set<Key>, key: Key, value: string)
    requires WithBlanks(al, docs, vals, blanks)
    ensures WithBlanks(al, docs[key := Tokenize(al, value)], vals[key := value], Blank(al, blanks, Index(key, value)))
  {
  }

  method StepTfidf(index: Tfidf.TfidfIndex, op: Op)
    requires index.Valid()
    modifies index
    ensures index.Valid() && index.docTokens == TfidfNext(index.al, old(index.docTokens), op)
  {
    match op
    case Index(key, value) => index.IndexDocument(key, value);
    case Remove(key) => index.RemoveDocument(key);
    case RebuildAll(items) => index.Rebuild(items);
  }

  method RunTfidf(index: Tfidf.TfidfIndex, ops: seq<Op>)
    requires index.Valid() && index.docTokens == map[]
    modifies index
    ensures index.Valid() && WithBlanks(index.al, index.docTokens, AfterAll(map[], ops), Blanks(index.al, ops))
  {
    for i := 0 to |ops|
      invariant index.Valid()
      invariant WithBlanks(index.al, index.docTokens, AfterAll(map[], ops[..i]), Blanks(index.al, ops[..i]))
    {
      AfterLast(map[], ops, i);
      assert ops[..i + 1][..i] == ops[..i];
      TfidfTracks(index.al, index.docTokens, AfterAll(map[], ops[..i]), Blanks(index.al, ops[..i]), ops[i]);
      StepTfidf(index, ops[i]);
    }
    assert ops[..|ops|] == ops;
  }

  /** The document count exceeds that of a rebuilt index by exactly the blanks. */
  lemma BlanksAreCounted(al: Alphabet, docs: Docs, vals: Values, blanks: set<Key>)
    requires WithBlanks(al, docs, vals, blanks)
    ensures |docs| == |WithTokens(TokenDocs(al, vals))| + |blanks|
    ensures docs - blanks == WithTokens(TokenDocs(al, vals))
  {
    var rebuilt := WithTokens(TokenDocs(al, vals));
    assert docs.Keys == rebuilt.Keys + blanks && rebuilt.Keys !! blanks;
    assert |docs.Keys| == |rebuilt.Keys| + |blanks|;
    assert |docs| == |docs.Keys| && |rebuilt| == |rebuilt.Keys|;
  }

  /** A run counts exactly the blanks more than a rebuild from the final items and has the same postings;
      without blanks they agree altogether. */
  method TfidfRunAndRebuild(run: Tfidf.TfidfIndex, rebuilt: Tfidf.TfidfIndex, ops: seq<Op>, items: map<Key, Item>)
    requires run != rebuilt && run.Valid() && rebuilt.Valid() && run.al == rebuilt.al && run.p == rebuilt.p
    requires run.docTokens == map[] && ValuesOf(items) == AfterAll(map[], ops)
    modifies run, rebuilt
    ensures run.docCount == rebuilt.docCount + |Blanks(run.al, ops)|
    ensures run.invertedIndex == rebuilt.invertedIndex
    ensures Blanks(run.al, ops) == {} ==> run.docTokens == rebuilt.docTokens && run.docNorms == rebuilt.docNorms
  {
    RunTfidf(run, ops);
    rebuilt.Rebuild(items);
    BlanksOverRebuilt(run.al, run.docTokens, items, Blanks(run.al, ops));
    BlanksHaveNoPostings(run.al, run.docTokens, items, Blanks(run.al, ops), run.invertedIndex);
    IndexUnique(run.invertedIndex, rebuilt.invertedIndex, rebuilt.docTokens);
  }

  lemma BlanksHaveNoPostings(al: Alphabet, docs: Docs, items: map<Key, Item>, blanks: set<Key>, inv: Inverted)
    requires WithBlanks(al, docs, ValuesOf(items), blanks) && Indexes(inv, docs)
    ensures Indexes(inv, WithTokens(TokensOf(al, items)))
  {
    forall tok, key ensures Tf(inv, tok, key) == Occurrences(WithTokens(TokensOf(al, items)), tok, key) {
      assert Tf(inv, tok, key) == Occurrences(docs, tok, key);
    }
  }

  lemma BlanksOverRebuilt(al: Alphabet, docs: Docs, items: map<Key, Item>, blanks: set<Key>)
    requires WithBlanks(al, docs, ValuesOf(items), blanks)
    ensures |docs| == |WithTokens(TokensOf(al, items))| + |blanks|
    ensures blanks == {} ==> docs == WithTokens(TokensOf(al, items))
  {
    assert TokensOf(al, items) == TokenDocs(al, ValuesOf(items));
    BlanksAreCounted(al, docs, ValuesOf(items), blanks);
    assert docs - {} == docs;
  }
}
