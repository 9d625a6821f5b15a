/** The TF-IDF index: cosine similarity with cached document norms. */
module Tfidf {
  import opened Arith
  import opened Sums
  import opened MapSums
  import opened Oracles
  import opened Ranking
  import opened Items
  import opened Text
  import opened Postings
  import opened Weights

  /** The weight of a token that occurs count times. */
  function Weight(ln: real -> real, docCount: nat, df: nat, count: nat): real {
    Mul(TfWeight(ln, count), Idf(ln, docCount, df))
  }

  // ---------- vectors ----------

  /** A document as a vector over all tokens. */
  ghost function DocVector(p: Maths, docs: Docs, key: Key): Vec<Word> { tok => DocEntry(p, docs, key, tok) }

  ghost function DocEntry(p: Maths, docs: Docs, key: Key, tok: Word): real {
    if key in docs && tok in docs[key] then Weight(p.ln, |docs|, Df(docs, tok), Occurrences(docs, tok, key)) else 0.0
  }

  /** The query as a vector; tokens in no document count as zero. */
  ghost function QueryVector(p: Maths, docs: Docs, q: seq<Word>): Vec<Word> { tok => QueryEntry(p, docs, q, tok) }

  ghost function QueryEntry(p: Maths, docs: Docs, q: seq<Word>, tok: Word): real {
    if tok in q && Containing(docs, tok) != {} then Weight(p.ln, |docs|, Df(docs, tok), multiset(q)[tok]) else 0.0
  }

  /** The squared weights of a document's tokens. */
  ghost function Squares(p: Maths, docs: Docs, key: Key): map<Word, real>
    requires key in docs
  {
    map tok | tok in ToSet(docs[key]) :: Sq(DocEntry(p, docs, key, tok))
  }

  /** The squared weights of the query's tokens. */
  ghost function QuerySquares(p: Maths, docs: Docs, q: seq<Word>): map<Word, real> {
    map tok | tok in ToSet(q) :: Sq(QueryEntry(p, docs, q, tok))
  }

  /** The part of an inner product that the tokens in done make up; as in Sums, two detours keep
      the solver from expanding it. */
  ghost function PartInner(p: Maths, docs: Docs, q: seq<Word>, done: set<Word>, key: Key): real
    decreases |done|, 2
  {
    if done == {} then 0.0 else NonEmptyInner(p, docs, q, done, key)
  }

  ghost function NonEmptyInner(p: Maths, docs: Docs, q: seq<Word>, done: set<Word>, key: Key): real
    requires done != {}
    decreases |done|, 1
  {
    FirstAndRestInner(p, docs, q, done, key)
  }

  ghost function FirstAndRestInner(p: Maths, docs: Docs, q: seq<Word>, done: set<Word>, key: Key): real
    requires done != {}
    decreases |done|, 0
  {
    var tok :| tok in done;
    Part(p, docs, q, tok, key) + PartInner(p, docs, q, done - {tok}, key)
  }

  ghost function Part(p: Maths, docs: Docs, q: seq<Word>, tok: Word, key: Key): real {
    Mul(QueryEntry(p, docs, q, tok), DocEntry(p, docs, key, tok))
  }

  lemma {:induction false} PartInnerIs(p: Maths, docs: Docs, q: seq<Word>, done: set<Word>, key: Key)
    ensures PartInner(p, docs, q, done, key) == Dot(done, QueryVector(p, docs, q), DocVector(p, docs, key))
    decreases |done|
  {
    if done != {} {
      assert PartInner(p, docs, q, done, key) == NonEmptyInner(p, docs, q, done, key) ==
        FirstAndRestInner(p, docs, q, done, key);
      var tok :| tok in done && FirstAndRestInner(p, docs, q, done, key) ==
        Part(p, docs, q, tok, key) + PartInner(p, docs, q, done - {tok}, key);
      PartInnerIs(p, docs, q, done - {tok}, key);
      var u, d := QueryVector(p, docs, q), DocVector(p, docs, key);
      Pull(done, Times(u, d), tok);
      assert Times(u, d)(tok) == Mul(u(tok), d(tok)) == Part(p, docs, q, tok, key);
    }
  }

  ghost function DocNormSq(p: Maths, docs: Docs, key: Key): real
    requires key in docs
  {
    SumOf(Squares(p, docs, key))
  }

  ghost function Norms(p: Maths, docs: Docs): map<Key, real> {
    map key | key in docs :: p.sqrt(DocNormSq(p, docs, key))
  }

  ghost function QueryNormSq(p: Maths, docs: Docs, q: seq<Word>): real { SumOf(QuerySquares(p, docs, q)) }

  ghost function QueryDot(p: Maths, docs: Docs, q: seq<Word>, key: Key): real { PartInner(p, docs, q, ToSet(q), key) }

  // ---------- the same as inner products of vectors ----------

  lemma SumOfSquares(s: set<Word>, d: Vec<Word>, m: map<Word, real>)
    requires m.Keys == s && forall tok | tok in s :: m[tok] == Sq(d(tok))
    ensures SumOf(m) == Dot(s, d, d)
  {
    SumOfEntries(m);
    Ext(s, Entry(m), Times(d, d));
  }

  lemma DocNormIsDot(p: Maths, docs: Docs, key: Key)
    requires key in docs
    ensures DocNormSq(p, docs, key) == Dot(ToSet(docs[key]), DocVector(p, docs, key), DocVector(p, docs, key))
  {
    SumOfSquares(ToSet(docs[key]), DocVector(p, docs, key), Squares(p, docs, key));
  }

  lemma QueryNormIsDot(p: Maths, docs: Docs, q: seq<Word>)
    ensures QueryNormSq(p, docs, q) == Dot(ToSet(q), QueryVector(p, docs, q), QueryVector(p, docs, q))
  {
    SumOfSquares(ToSet(q), QueryVector(p, docs, q), QuerySquares(p, docs, q));
  }

  ghost function Cosine(p: Maths, docs: Docs, q: seq<Word>, key: Key): real
    requires key in docs
  {
    Over(QueryDot(p, docs, q, key), Mul(p.sqrt(QueryNormSq(p, docs, q)), p.sqrt(DocNormSq(p, docs, key))))
  }

  ghost function Cosines(p: Maths, docs: Docs, q: seq<Word>): map<Key, real> {
    map key | key in Matching(docs, q) :: Cosine(p, docs, q, key)
  }

  // ---------- every score is a cosine in (0, 1] ----------

  lemma WeightPositive(p: Maths, docs: Docs, tok: Word, count: nat)
    requires IsMaths(p) && count >= 1
    ensures Weight(p.ln, |docs|, Df(docs, tok), count) > 0.0
  {
    DfBound(docs, tok);
    IdfPositive(p.ln, |docs|, Df(docs, tok));
    TfWeightPositive(p.ln, count);
    MulPositive(TfWeight(p.ln, count), Idf(p.ln, |docs|, Df(docs, tok)));
  }

  lemma EntriesNonNegative(p: Maths, docs: Docs, q: seq<Word>, key: Key, tok: Word)
    requires IsMaths(p)
    ensures DocEntry(p, docs, key, tok) >= 0.0 && QueryEntry(p, docs, q, tok) >= 0.0
    ensures key in docs && tok in docs[key] ==> DocEntry(p, docs, key, tok) > 0.0
    ensures tok in q && Containing(docs, tok) != {} ==> QueryEntry(p, docs, q, tok) > 0.0
  {
    if key in docs && tok in docs[key] {
      WeightPositive(p, docs, tok, Occurrences(docs, tok, key));
    }
    if tok in q {
      WeightPositive(p, docs, tok, multiset(q)[tok]);
    }
  }

  /** Any document with a token has a positive norm, so the zero-norm skip is dead code. */
  lemma DocNormPositive(p: Maths, docs: Docs, key: Key, tok: Word)
    requires IsMaths(p) && key in docs && tok in docs[key]
    ensures DocNormSq(p, docs, key) > 0.0
  {
    var d := DocVector(p, docs, key);
    EntriesNonNegative(p, docs, [], key, tok);
    DocNormIsDot(p, docs, key);
    SquarePositive(ToSet(docs[key]), d, tok);
  }

  lemma SquarePositive(s: set<Word>, d: Vec<Word>, tok: Word)
    requires tok in s && d(tok) > 0.0
    ensures Dot(s, d, d) > 0.0
  {
    forall t | t in s ensures Times(d, d)(t) >= 0.0 {
      SqNonNegative(d(t));
      assert Times(d, d)(t) == Sq(d(t));
    }
    MulPositive(d(tok), d(tok));
    Positive(s, Times(d, d), tok);
  }

  lemma QueryNormPositive(p: Maths, docs: Docs, q: seq<Word>, key: Key, tok: Word)
    requires IsMaths(p) && key in docs && tok in docs[key] && tok in q
    ensures QueryNormSq(p, docs, q) > 0.0
  {
    assert key in Containing(docs, tok);
    EntriesNonNegative(p, docs, q, key, tok);
    QueryNormIsDot(p, docs, q);
    SquarePositive(ToSet(q), QueryVector(p, docs, q), tok);
  }

  lemma InnerPositive(p: Maths, docs: Docs, q: seq<Word>, key: Key, tok: Word)
    requires IsMaths(p) && key in docs && tok in docs[key] && tok in q
    ensures QueryDot(p, docs, q, key) > 0.0
  {
    var u, d := QueryVector(p, docs, q), DocVector(p, docs, key);
    forall t | t in ToSet(q) ensures Times(u, d)(t) >= 0.0 {
      EntriesNonNegative(p, docs, q, key, t);
      MulMonotone(0.0, u(t), d(t));
    }
    assert key in Containing(docs, tok);
    EntriesNonNegative(p, docs, q, key, tok);
    MulPositive(u(tok), d(tok));
    PartInnerIs(p, docs, q, ToSet(q), key);
    Positive(ToSet(q), Times(u, d), tok);
  }

  /** A vector that vanishes outside s has no more length on any other set than on s. */
  lemma Supported(s: set<Word>, t: set<Word>, d: Vec<Word>)
    requires forall x | x in t - s :: d(x) == 0.0
    ensures Dot(t, d, d) <= Dot(s, d, d)
  {
    var both := t * s;
    forall x | x in t + s ensures Times(d, d)(x) >= 0.0 {
      SqNonNegative(d(x));
      assert Times(d, d)(x) == Sq(d(x));
    }
    SplitZero(both, t, Times(d, d));
    SubsetSum(both, s, Times(d, d));
  }

  lemma {:induction false} SplitZero(s: set<Word>, t: set<Word>, f: Vec<Word>)
    requires s <= t && forall x | x in t - s :: f(x) == 0.0
    ensures Sum(t, f) == Sum(s, f)
    decreases |t - s|
  {
    if x :| x in t && x !in s {
      Pull(t, f, x);
      assert t - {x} - s == t - s - {x};
      SplitZero(s, t - {x}, f);
    } else {
      assert s == t;
    }
  }

  /** Cauchy-Schwarz: an inner product never exceeds the product of the norms. */
  lemma CosineBounds(p: Maths, docs: Docs, q: seq<Word>, key: Key)
    requires IsMaths(p) && key in Matching(docs, q)
    ensures 0.0 < Cosine(p, docs, q, key) <= 1.0
    ensures p.sqrt(QueryNormSq(p, docs, q)) > 0.0 && p.sqrt(DocNormSq(p, docs, key)) > 0.0
  {
    var tok :| tok in q && tok in docs[key];
    var u, d := QueryVector(p, docs, q), DocVector(p, docs, key);
    var x, y, z := QueryNormSq(p, docs, q), DocNormSq(p, docs, key), Dot(ToSet(q), d, d);
    QueryNormPositive(p, docs, q, key, tok);
    DocNormPositive(p, docs, key, tok);
    InnerPositive(p, docs, q, key, tok);
    SqrtPositive(p.sqrt, x);
    SqrtPositive(p.sqrt, y);
    DocNormIsDot(p, docs, key);
    QueryNormIsDot(p, docs, q);
    PartInnerIs(p, docs, q, ToSet(q), key);
    CauchySchwarz(ToSet(q), u, d);
    Supported(ToSet(docs[key]), ToSet(q), d);
    Normalised(QueryDot(p, docs, q, key), x, z, y, p.sqrt(x), p.sqrt(y));
  }

  lemma Normalised(a: real, x: real, z: real, y: real, rx: real, ry: real)
    requires a > 0.0 && rx > 0.0 && ry > 0.0 && Sq(rx) == x && Sq(ry) == y
    requires Sq(a) <= Mul(x, z) && z <= y
    ensures 0.0 < Over(a, Mul(rx, ry)) <= 1.0
  {
    SqNonNegative(rx);
    MulMonotone(z, y, x);
    assert Mul(z, x) == Mul(x, z) && Mul(y, x) == Sq(Mul(rx, ry)) by { SqOfProduct(rx, ry); }
    MulPositive(rx, ry);
    SqLess(a, Mul(rx, ry));
    Fraction(a, Mul(rx, ry));
  }

  lemma Fraction(a: real, b: real)
    requires 0.0 < a <= b
    ensures 0.0 < Over(a, b) <= 1.0
  {
  }

  // ---------- what a score is ----------

  /** An entry is (1 + ln count) ln x, with x (df + 0.5) == N + 1. */
  lemma EntriesAre(p: Maths, docs: Docs, q: seq<Word>, key: Key, tok: Word, x: real)
    requires key in docs && tok in docs[key]
    requires Mul(x, |set k | k in docs && tok in docs[k]| as real + 0.5) == |docs| as real + 1.0
    ensures DocVector(p, docs, key)(tok) == Mul(1.0 + p.ln(multiset(docs[key])[tok] as real), p.ln(x))
    ensures tok in q ==> QueryVector(p, docs, q)(tok) == Mul(1.0 + p.ln(multiset(q)[tok] as real), p.ln(x))
  {
    assert (set k | k in docs && tok in docs[k]) == Containing(docs, tok);
    assert key in Containing(docs, tok);
    SmoothedIs(|docs|, Df(docs, tok));
    SameFactor(x, Smoothed(|docs|, Df(docs, tok)), Df(docs, tok) as real + 0.5);
  }

  /** Times both lengths, the score of a matching document is the inner product of the vectors. */
  lemma CosineIs(p: Maths, docs: Docs, q: seq<Word>, key: Key)
    requires IsMaths(p) && key in Matching(docs, q)
    ensures var u, d := QueryVector(p, docs, q), DocVector(p, docs, key);
      Mul(Cosine(p, docs, q, key), Mul(p.sqrt(Dot(ToSet(q), u, u)), p.sqrt(Dot(ToSet(docs[key]), d, d)))) ==
        Dot(ToSet(q), u, d)
  {
    CosineBounds(p, docs, q, key);
    DocNormIsDot(p, docs, key);
    QueryNormIsDot(p, docs, q);
    PartInnerIs(p, docs, q, ToSet(q), key);
    var l := Mul(p.sqrt(QueryNormSq(p, docs, q)), p.sqrt(DocNormSq(p, docs, key)));
    MulPositive(p.sqrt(QueryNormSq(p, docs, q)), p.sqrt(DocNormSq(p, docs, key)));
    OverTimes(QueryDot(p, docs, q, key), l);
  }

  lemma OverTimes(x: real, y: real)
    requires y != 0.0
    ensures Mul(Over(x, y), y) == x
  {
  }

  /** A document scores one, the most there is, for its own tokens in any order. */
  lemma OwnCosine(p: Maths, docs: Docs, q: seq<Word>, key: Key)
    requires IsMaths(p) && key in docs && q != [] && multiset(q) == multiset(docs[key])
    ensures key in Matching(docs, q) && Cosine(p, docs, q, key) == 1.0
  {
    SameTokens(q, docs[key]);
    assert q[0] in q && q[0] in docs[key];
    OwnVector(p, docs, q, key);
    DocNormPositive(p, docs, key, q[0]);
    DocNormIsDot(p, docs, key);
    SqrtPositive(p.sqrt, DocNormSq(p, docs, key));
    CosineIs(p, docs, q, key);
    OnlyOne(Cosine(p, docs, q, key), p.sqrt(DocNormSq(p, docs, key)), DocNormSq(p, docs, key));
  }

  /** The query's vector is then that of the document. */
  lemma OwnVector(p: Maths, docs: Docs, q: seq<Word>, key: Key)
    requires key in docs && multiset(q) == multiset(docs[key])
    ensures var u, d := QueryVector(p, docs, q), DocVector(p, docs, key);
      Dot(ToSet(q), u, u) == Dot(ToSet(q), u, d) == Dot(ToSet(docs[key]), d, d)
  {
    var u, d := QueryVector(p, docs, q), DocVector(p, docs, key);
    SameTokens(q, docs[key]);
    forall tok | tok in ToSet(q) ensures u(tok) == d(tok) {
      assert key in Containing(docs, tok);
    }
    DotExt(ToSet(q), u, u, d, d);
    DotExt(ToSet(q), u, d, d, d);
  }

  lemma OnlyOne(x: real, r: real, n: real)
    requires r > 0.0 && Sq(r) == n && Mul(x, Mul(r, r)) == n
    ensures x == 1.0
  {
    MulPositive(r, r);
    SameFactor(x, 1.0, Mul(r, r));
  }

  lemma SameTokens(q: seq<Word>, d: seq<Word>)
    requires multiset(q) == multiset(d)
    ensures ToSet(q) == ToSet(d) && forall tok :: tok in q <==> tok in d
  {
    assert forall tok :: tok in q <==> tok in multiset(q);
    assert forall tok :: tok in d <==> tok in multiset(d);
  }

  /** No shared token, no length: such a query finds nothing. */
  lemma NoMatchingTokens(p: Maths, docs: Docs, q: seq<Word>)
    requires IsMaths(p)
    ensures QueryNormSq(p, docs, q) == 0.0 <==> Matching(docs, q) == {}
  {
    if key :| key in Matching(docs, q) {
      var tok :| tok in q && tok in docs[key];
      QueryNormPositive(p, docs, q, key, tok);
    } else {
      var u := QueryVector(p, docs, q);
      forall tok | tok in ToSet(q) ensures Times(u, u)(tok) == 0.0 {
        assert forall key :: key in docs && tok in docs[key] ==> key in Matching(docs, q);
        assert Containing(docs, tok) == {};
      }
      QueryNormIsDot(p, docs, q);
      SumZero(ToSet(q), Times(u, u));
    }
  }

  // ---------- the loops ----------

  lemma DfFromPostings(inv: Inverted, docs: Docs, tok: Word, key: Key)
    requires Indexes(inv, docs) && key in docs && tok in docs[key]
    ensures tok in inv && |inv[tok]| == Df(docs, tok)
  {
    assert key in Containing(docs, tok);
    InIndex(inv, docs, tok);
    PostingsKeys(inv, docs, tok);
    assert |inv[tok]| == |inv[tok].Keys|;
  }

  /** The squared weights of counted tokens, from the current postings. */
  function CurrentSquares(p: Maths, inv: Inverted, docCount: nat, tfMap: map<Word, nat>): map<Word, real>
    requires tfMap.Keys <= inv.Keys
  {
    map tok | tok in tfMap :: Sq(Weight(p.ln, docCount, |inv[tok]|, tfMap[tok]))
  }

  /** The postings give every token of a document the weight a scan of the documents does. */
  lemma PostingsGive(p: Maths, inv: Inverted, docs: Docs, key: Key)
    requires Indexes(inv, docs) && key in docs
    ensures Counts(docs[key]).Keys <= inv.Keys
    ensures CurrentSquares(p, inv, |docs|, Counts(docs[key])) == Squares(p, docs, key)
  {
    forall tok | tok in docs[key] ensures tok in inv && |inv[tok]| == Df(docs, tok) {
      DfFromPostings(inv, docs, tok, key);
    }
  }

  /** The norm of one document, from its tokens and the current postings. */
  method DocNorm(p: Maths, inv: Inverted, docCount: nat, tokens: seq<Word>, ghost docs: Docs, ghost key: Key)
    returns (norm: real)
    requires Indexes(inv, docs) && docCount == |docs| && key in docs && docs[key] == tokens
    ensures norm == p.sqrt(DocNormSq(p, docs, key))
  {
    PostingsGive(p, inv, docs, key);
    var tfMap := CountTokens(tokens);
    var sumSq := SumValues(CurrentSquares(p, inv, docCount, tfMap));
    norm := p.sqrt(sumSq);
  }

  /** The norms of the documents in done. */
  ghost predicate NormsOf(p: Maths, docs: Docs, done: set<Key>, norms: map<Key, real>) {
    norms.Keys == done <= docs.Keys && forall key :: key in norms ==> norms[key] == p.sqrt(DocNormSq(p, docs, key))
  }

  lemma NormsOfAll(p: Maths, docs: Docs, norms: map<Key, real>)
    requires NormsOf(p, docs, docs.Keys, norms)
    ensures norms == Norms(p, docs)
  {
  }

  lemma NormsOfNext(p: Maths, docs: Docs, todo: set<Key>, norms: map<Key, real>, key: Key, norm: real)
    requires NormsOf(p, docs, docs.Keys - todo, norms) && key in todo && todo <= docs.Keys
    requires norm == p.sqrt(DocNormSq(p, docs, key))
    ensures NormsOf(p, docs, docs.Keys - (todo - {key}), norms[key := norm])
  {
  }

  method AllNorms(p: Maths, inv: Inverted, docCount: nat, docs: Docs) returns (norms: map<Key, real>)
    requires Counted(docs, inv, docCount)
    ensures norms == Norms(p, docs)
  {
    norms := map[];
    if docCount > 0 {
      var todo := docs.Keys;
      while todo != {}
        invariant todo <= docs.Keys && NormsOf(p, docs, docs.Keys - todo, norms)
        decreases |todo|
      {
        var key :| key in todo;
        var norm := DocNorm(p, inv, docCount, docs[key], docs, key);
        NormsOfNext(p, docs, todo, norms, key, norm);
        norms := norms[key := norm];
        todo := todo - {key};
      }
      NormsOfAll(p, docs, norms);
    }
  }

  // ---------- searching by postings ----------

  lemma PartNext(p: Maths, docs: Docs, q: seq<Word>, done: set<Word>, tok: Word, key: Key)
    requires tok !in done
    ensures PartInner(p, docs, q, done + {tok}, key) == PartInner(p, docs, q, done, key) + Part(p, docs, q, tok, key)
  {
    PartInnerIs(p, docs, q, done, key);
    PartInnerIs(p, docs, q, done + {tok}, key);
    Push(done, Times(QueryVector(p, docs, q), DocVector(p, docs, key)), tok);
  }

  lemma NoPart(p: Maths, docs: Docs, q: seq<Word>, tok: Word, key: Key)
    requires key !in Containing(docs, tok)
    ensures Part(p, docs, q, tok, key) == 0.0
  {
  }

  ghost function Sharing(docs: Docs, toks: set<Word>): set<Key> {
    set key | key in docs && exists tok :: tok in toks && tok in docs[key]
  }

  lemma SharingNext(docs: Docs, done: set<Word>, tok: Word)
    ensures Sharing(docs, done + {tok}) == Sharing(docs, done) + Containing(docs, tok)
  {
  }

  lemma {:induction false} NothingShared(p: Maths, docs: Docs, q: seq<Word>, done: set<Word>, key: Key)
    requires key !in Sharing(docs, done)
    ensures PartInner(p, docs, q, done, key) == 0.0
    decreases |done|
  {
    if done != {} {
      var tok :| tok in done;
      NoPart(p, docs, q, tok, key);
      NothingShared(p, docs, q, done - {tok}, key);
      PartNext(p, docs, q, done - {tok}, tok, key);
      assert done - {tok} + {tok} == done;
    }
  }

  /** The inner products when the query tokens in done have been credited to every document. */
  ghost predicate Credited(p: Maths, docs: Docs, q: seq<Word>, done: set<Word>, dots: map<Key, real>) {
    && dots.Keys == Sharing(docs, done)
    && forall key :: key in dots ==> dots[key] == PartInner(p, docs, q, done, key)
  }

  /** What tok adds to the documents in its postings. */
  function Parts(ln: real -> real, qWeight: real, idf: real, postings: map<Key, nat>): map<Key, real> {
    map key | key in postings :: Mul(qWeight, Mul(TfWeight(ln, postings[key]), idf))
  }

  ghost predicate AreParts(p: Maths, docs: Docs, q: seq<Word>, tok: Word, parts: map<Key, real>) {
    parts.Keys == Containing(docs, tok) && forall key :: key in parts ==> parts[key] == Part(p, docs, q, tok, key)
  }

  lemma PartsAre(p: Maths, docs: Docs, q: seq<Word>, inv: Inverted, tok: Word, parts: map<Key, real>)
    requires Indexes(inv, docs) && tok in inv && tok in q
    requires parts == Parts(p.ln, QueryEntry(p, docs, q, tok), Idf(p.ln, |docs|, |inv[tok]|), inv[tok])
    ensures AreParts(p, docs, q, tok, parts)
  {
    PostingsKeys(inv, docs, tok);
    assert |inv[tok]| == |inv[tok].Keys|;
  }

  lemma CreditedKey(p: Maths, docs: Docs, q: seq<Word>, done: set<Word>, tok: Word,
                    dots: map<Key, real>, parts: map<Key, real>, key: Key)
    requires Credited(p, docs, q, done, dots) && AreParts(p, docs, q, tok, parts) && tok !in done
    ensures At(dots, key) + At(parts, key) == PartInner(p, docs, q, done + {tok}, key)
  {
    PartNext(p, docs, q, done, tok, key);
    if key !in parts {
      NoPart(p, docs, q, tok, key);
    }
    if key !in dots {
      NothingShared(p, docs, q, done, key);
    }
  }

  lemma CreditNext(p: Maths, docs: Docs, q: seq<Word>, done: set<Word>, tok: Word, dots: map<Key, real>,
                   parts: map<Key, real>)
    requires Credited(p, docs, q, done, dots) && AreParts(p, docs, q, tok, parts) && tok !in done
    ensures Credited(p, docs, q, done + {tok}, Plus(dots, parts))
  {
    var r := Plus(dots, parts);
    SharingNext(docs, done, tok);
    forall key | key in r ensures r[key] == PartInner(p, docs, q, done + {tok}, key) {
      CreditedKey(p, docs, q, done, tok, dots, parts, key);
    }
  }

  /** The state of the loop over the query's tokens; todo are those still to come. */
  ghost predicate Crediting(p: Maths, docs: Docs, q: seq<Word>, todo: set<Word>, dots: map<Key, real>, qNormSq: real) {
    todo <= ToSet(q) && Credited(p, docs, q, ToSet(q) - todo, dots) && qNormSq == SumOf(QuerySquares(p, docs, q) - todo)
  }

  lemma CreditingStart(p: Maths, docs: Docs, q: seq<Word>)
    ensures Crediting(p, docs, q, ToSet(q), map[], 0.0)
  {
  }

  lemma QueryWeightIs(p: Maths, inv: Inverted, docs: Docs, q: seq<Word>, tok: Word)
    requires Indexes(inv, docs) && tok in inv && tok in q
    ensures QueryEntry(p, docs, q, tok) == Weight(p.ln, |docs|, |inv[tok]|, multiset(q)[tok])
  {
    PostingsKeys(inv, docs, tok);
    InIndex(inv, docs, tok);
    assert |inv[tok]| == |inv[tok].Keys|;
  }

  lemma CreditingNext(p: Maths, docs: Docs, q: seq<Word>, todo: set<Word>, dots: map<Key, real>, qNormSq: real,
                      tok: Word, parts: map<Key, real>)
    requires Crediting(p, docs, q, todo, dots, qNormSq) && tok in todo && AreParts(p, docs, q, tok, parts)
    ensures Crediting(p, docs, q, todo - {tok}, Plus(dots, parts), qNormSq + Sq(QueryEntry(p, docs, q, tok)))
  {
    CreditNext(p, docs, q, ToSet(q) - todo, tok, dots, parts);
    OneMoreSummed(QuerySquares(p, docs, q), todo, tok);
    assert ToSet(q) - (todo - {tok}) == ToSet(q) - todo + {tok};
  }

  /** Credits one query token: every document in its postings gets its part. */
  method CreditToken(p: Maths, inv: Inverted, docCount: nat, tok: Word, qCount: nat, dots: map<Key, real>,
                     qNormSq: real, ghost docs: Docs, ghost q: seq<Word>, ghost todo: set<Word>)
    returns (r: map<Key, real>, s: real)
    requires Indexes(inv, docs) && docCount == |docs| && qCount == multiset(q)[tok]
    requires Crediting(p, docs, q, todo, dots, qNormSq) && tok in todo
    ensures Crediting(p, docs, q, todo - {tok}, r, s)
  {
    InIndex(inv, docs, tok);
    var qWeight, parts: map<Key, real> := 0.0, map[];
    if tok in inv {
      var idf := Idf(p.ln, docCount, |inv[tok]|);
      qWeight := Mul(TfWeight(p.ln, qCount), idf);
      parts := Parts(p.ln, qWeight, idf, inv[tok]);
      QueryWeightIs(p, inv, docs, q, tok);
      PartsAre(p, docs, q, inv, tok, parts);
    }
    CreditingNext(p, docs, q, todo, dots, qNormSq, tok, parts);
    s := qNormSq + Sq(qWeight);
    r := AddValues(dots, parts);
  }

  /** Credits all tokens of the query, in any order. */
  method CreditQuery(p: Maths, inv: Inverted, docCount: nat, qTf: map<Word, nat>, ghost docs: Docs, ghost q: seq<Word>)
    returns (dots: map<Key, real>, qNormSq: real)
    requires Indexes(inv, docs) && docCount == |docs| && qTf == Counts(q)
    ensures Crediting(p, docs, q, {}, dots, qNormSq)
  {
    CreditingStart(p, docs, q);
    dots, qNormSq := map[], 0.0;
    var todo := qTf.Keys;
    while todo != {}
      invariant todo <= qTf.Keys && Crediting(p, docs, q, todo, dots, qNormSq)
      decreases |todo|
    {
      var tok :| tok in todo;
      dots, qNormSq := CreditToken(p, inv, docCount, tok, qTf[tok], dots, qNormSq, docs, q, todo);
      todo := todo - {tok};
    }
  }

  /** The listing loop: documents of zero norm are skipped. */
  function CosineTable(dots: map<Key, real>, norms: map<Key, real>, qNorm: real): map<Key, real>
    requires dots.Keys <= norms.Keys
  {
    map key | key in dots && norms[key] != 0.0 :: Over(dots[key], Mul(qNorm, norms[key]))
  }

  lemma CreditedAll(p: Maths, docs: Docs, q: seq<Word>, dots: map<Key, real>, qNormSq: real)
    requires Crediting(p, docs, q, {}, dots, qNormSq)
    ensures qNormSq == QueryNormSq(p, docs, q) && dots.Keys == Matching(docs, q)
  {
    var squares := QuerySquares(p, docs, q);
    assert squares - {} == squares && ToSet(q) - {} == ToSet(q);
    assert Sharing(docs, ToSet(q)) == Matching(docs, q);
  }

  lemma CosineOf(p: Maths, docs: Docs, q: seq<Word>, dots: map<Key, real>, qNormSq: real, key: Key)
    requires IsMaths(p) && Crediting(p, docs, q, {}, dots, qNormSq)
    requires key in dots && key in Matching(docs, q) && qNormSq == QueryNormSq(p, docs, q)
    ensures Norms(p, docs)[key] > 0.0
    ensures Cosines(p, docs, q)[key] == Over(dots[key], Mul(p.sqrt(qNormSq), Norms(p, docs)[key]))
  {
    CosineBounds(p, docs, q, key);
    assert ToSet(q) - {} == ToSet(q);
  }

  ghost predicate Entries(dots: map<Key, real>, norms: map<Key, real>, qNorm: real, cosines: map<Key, real>) {
    && dots.Keys == cosines.Keys && dots.Keys <= norms.Keys
    && forall key :: key in dots ==> norms[key] > 0.0 && cosines[key] == Over(dots[key], Mul(qNorm, norms[key]))
  }

  lemma TableIs(dots: map<Key, real>, norms: map<Key, real>, qNorm: real, cosines: map<Key, real>)
    requires Entries(dots, norms, qNorm, cosines)
    ensures CosineTable(dots, norms, qNorm) == cosines
  {
  }

  lemma CosineEntries(p: Maths, docs: Docs, q: seq<Word>, dots: map<Key, real>, qNormSq: real)
    requires IsMaths(p) && Crediting(p, docs, q, {}, dots, qNormSq)
    ensures Entries(dots, Norms(p, docs), p.sqrt(qNormSq), Cosines(p, docs, q))
  {
    CreditedAll(p, docs, q, dots, qNormSq);
    forall key | key in dots
      ensures Norms(p, docs)[key] > 0.0
      ensures Cosines(p, docs, q)[key] == Over(dots[key], Mul(p.sqrt(qNormSq), Norms(p, docs)[key]))
    {
      CosineOf(p, docs, q, dots, qNormSq, key);
    }
  }

  /** No document is skipped: the table holds the cosine of every document that shares a token. */
  lemma TableIsCosines(p: Maths, docs: Docs, q: seq<Word>, dots: map<Key, real>, qNormSq: real)
    requires IsMaths(p) && Crediting(p, docs, q, {}, dots, qNormSq)
    ensures dots.Keys <= Norms(p, docs).Keys
    ensures CosineTable(dots, Norms(p, docs), p.sqrt(qNormSq)) == Cosines(p, docs, q)
  {
    CosineEntries(p, docs, q, dots, qNormSq);
    TableIs(dots, Norms(p, docs), p.sqrt(qNormSq), Cosines(p, docs, q));
  }

  lemma NothingFound(p: Maths, docs: Docs, q: seq<Word>, topK: int)
    requires IsMaths(p) && p.sqrt(QueryNormSq(p, docs, q)) == 0.0
    ensures Truncate(Ranked(Cosines(p, docs, q)), topK) == []
  {
    if QueryNormSq(p, docs, q) != 0.0 {
      QueryNormIsDot(p, docs, q);
      NormNonNegative(ToSet(q), QueryVector(p, docs, q));
      SqrtPositive(p.sqrt, QueryNormSq(p, docs, q));
    }
    NoMatchingTokens(p, docs, q);
    RankedNothing();
    assert Cosines(p, docs, q) == map[];
  }

  /** The documents read when todo are still to come; those without tokens are not counted. */
  ghost predicate Collected(al: Alphabet, items: map<Key, Item>, todo: set<Key>, docs: Docs) {
    todo <= items.Keys && docs == WithTokens(TokensOf(al, items - todo))
  }

  lemma CollectedNext(al: Alphabet, items: map<Key, Item>, todo: set<Key>, docs: Docs, key: Key, tokens: seq<Word>)
    requires Collected(al, items, todo, docs) && key in todo && tokens == Tokenize(al, items[key].value)
    ensures key !in docs
    ensures Collected(al, items, todo - {key}, if |tokens| == 0 then docs else docs[key := tokens])
  {
    OneMoreItem(al, items, todo, key);
  }

  /** Rebuild's loop over the items, in any order. */
  method Collect(al: Alphabet, items: map<Key, Item>) returns (inv: Inverted, docs: Docs, count: nat)
    ensures docs == WithTokens(TokensOf(al, items)) && Counted(docs, inv, count)
  {
    inv, docs, count := map[], map[], 0;
    var todo := items.Keys;
    while todo != {}
      invariant Collected(al, items, todo, docs) && Counted(docs, inv, count)
      decreases |todo|
    {
      var key :| key in todo;
      var tokens := Tokenize(al, items[key].value);
      CollectedNext(al, items, todo, docs, key, tokens);
      if |tokens| != 0 {
        inv, count := Put(inv, docs, count, key, tokens);
        docs := docs[key := tokens];
      }
      todo := todo - {key};
    }
    assert items - {} == items;
  }

  class TfidfIndex {
    const p: Maths
    const al: Alphabet
    var invertedIndex: Inverted
    var docTokens: Docs
    var docNorms: map<Key, real>
    var docCount: nat

    /** Every cached norm is the norm computed from the current documents. */
    ghost predicate Valid()
      reads this
    {
      IsMaths(p) && Counted(docTokens, invertedIndex, docCount) && docNorms == Norms(p, docTokens)
    }

    constructor (al: Alphabet, p: Maths)
      requires IsMaths(p)
      ensures Valid() && docTokens == map[] && this.al == al && this.p == p
    {
      this.al, this.p := al, p;
      invertedIndex, docTokens, docNorms, docCount := map[], map[], map[], 0;
    }

    method RecomputeNorms()
      requires IsMaths(p) && Counted(docTokens, invertedIndex, docCount)
      modifies this`docNorms
      ensures Valid()
    {
      docNorms := AllNorms(p, invertedIndex, docCount, docTokens);
    }

    /** Documents without tokens are left out. */
    method Rebuild(items: map<Key, Item>)
      requires IsMaths(p)
      modifies this
      ensures Valid() && docTokens == WithTokens(TokensOf(al, items))
    {
      invertedIndex, docTokens, docCount := Collect(al, items);
      RecomputeNorms();
    }

    /** A document without tokens counts here. */
    method IndexDocument(key: Key, value: string)
      requires Valid()
      modifies this
      ensures Valid() && docTokens == old(docTokens)[key := Tokenize(al, value)]
    {
      Enter(key, Tokenize(al, value));
      RecomputeNorms();
    }

    method Enter(key: Key, tokens: seq<Word>)
      requires Counted(docTokens, invertedIndex, docCount)
      modifies this`invertedIndex, this`docTokens, this`docCount
      ensures docTokens == old(docTokens)[key := tokens] && Counted(docTokens, invertedIndex, docCount)
    {
      invertedIndex, docCount := Put(invertedIndex, docTokens, docCount, key, tokens);
      docTokens := docTokens[key := tokens];
    }

    method RemoveDocument(key: Key)
      requires Valid()
      modifies this
      ensures Valid() && docTokens == old(docTokens) - {key}
    {
      if key in docTokens {
        Withdraw(key);
        RecomputeNorms();
      } else {
        NothingToDrop(docTokens, key);
      }
    }

    method Withdraw(key: Key)
      requires Counted(docTokens, invertedIndex, docCount)
      modifies this`invertedIndex, this`docTokens, this`docCount
      ensures docTokens == old(docTokens) - {key} && Counted(docTokens, invertedIndex, docCount)
    {
      invertedIndex, docCount := Drop(invertedIndex, docTokens, docCount, key);
      docTokens := docTokens - {key};
    }

    /** Every document that shares a token with the query, by its cosine. */
    method Search(query: string, topK: int) returns (ranked: seq<ScoredKey>)
      requires Valid()
      ensures ranked == Truncate(Ranked(Cosines(p, docTokens, Tokenize(al, query))), topK)
    {
      ghost var docs := docTokens;
      var qTokens := Tokenize(al, query);
      if |qTokens| == 0 || docCount == 0 {
        RankedNothing();
        assert Cosines(p, docs, qTokens) == map[];
        return [];
      }
      var qTfMap := CountTokens(qTokens);
      var dotProducts, qNormSq := CreditQuery(p, invertedIndex, docCount, qTfMap, docs, qTokens);
      CreditedAll(p, docs, qTokens, dotProducts, qNormSq);
      var qNorm := p.sqrt(qNormSq);
      if qNorm == 0.0 {
        NothingFound(p, docs, qTokens, topK);
        return [];
      }
      TableIsCosines(p, docs, qTokens, dotProducts, qNormSq);
      ranked := RankAndTruncate(CosineTable(dotProducts, docNorms, qNorm), topK);
    }
  }
}
