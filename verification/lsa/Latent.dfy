/** Searching in the latent space: what the index fields say about a query. */
module Latent {
  import opened Arith
  import opened Oracles
  import opened InnerProducts
  import opened Ranking
  import opened Text
  import opened Postings
  import opened Weights

  /** The result of a rebuild, row by row. */
  datatype Model = Model(
    terms: seq<Word>, termIDF: seq<real>, uMatrix: seq<seq<real>>, sigmaInv: seq<real>, docVectors: seq<seq<real>>)

  /** Two tables that number the same things. */
  ghost predicate Inverse<T>(list: seq<T>, index: map<T, nat>) {
    && (forall i :: 0 <= i < |list| ==> list[i] in index && index[list[i]] == i)
    && forall x :: x in index ==> index[x] < |list| && list[index[x]] == x
  }

  ghost predicate UnitOrZero(v: seq<real>) { Inner(v, v) == 1.0 || Inner(v, v) == 0.0 }

  /** All loops of Search stay in bounds. */
  ghost predicate WellShaped(m: Model, docCount: nat) {
    && |m.termIDF| == |m.terms| == |m.uMatrix|
    && |m.docVectors| == docCount
    && |m.sigmaInv| <= |m.terms| && |m.sigmaInv| <= docCount
    && (forall i :: 0 <= i < |m.uMatrix| ==> |m.uMatrix[i]| == |m.sigmaInv|)
    && forall d :: 0 <= d < docCount ==> |m.docVectors[d]| == |m.sigmaInv| && UnitOrZero(m.docVectors[d])
  }

  // ---------- the query in the latent space ----------

  /** The query over the vocabulary of the last rebuild. */
  function QueryTerms(ln: real -> real, m: Model, q: seq<Word>): (v: seq<real>)
    requires |m.termIDF| == |m.terms|
    ensures |v| == |m.terms|
  {
    seq(|m.terms|, i requires 0 <= i < |m.terms| =>
      if m.terms[i] in q then Mul(TfWeight(ln, multiset(q)[m.terms[i]]), m.termIDF[i]) else 0.0)
  }

  function ColumnOf(rows: seq<seq<real>>, j: nat): (c: seq<real>)
    requires forall i :: 0 <= i < |rows| ==> j < |rows[i]|
    ensures |c| == |rows|
  {
    seq(|rows|, i requires 0 <= i < |rows| => rows[i][j])
  }

  function Coordinate(m: Model, v: seq<real>, j: nat): real
    requires |v| == |m.uMatrix| && j < |m.sigmaInv|
    requires forall i :: 0 <= i < |m.uMatrix| ==> |m.uMatrix[i]| == |m.sigmaInv|
  {
    Mul(Inner(v, ColumnOf(m.uMatrix, j)), m.sigmaInv[j])
  }

  function Projected(m: Model, v: seq<real>): (c: seq<real>)
    requires |v| == |m.uMatrix| && forall i :: 0 <= i < |m.uMatrix| ==> |m.uMatrix[i]| == |m.sigmaInv|
    ensures |c| == |m.sigmaInv|
  {
    seq(|m.sigmaInv|, j requires 0 <= j < |m.sigmaInv| => Coordinate(m, v, j))
  }

  /** The positive cosines of the documents with a unit vector. */
  ghost function PositiveCosines(m: Model, index: map<Key, nat>, unit: seq<real>): map<Key, real>
    requires WellShaped(m, |index|) && |unit| == |m.sigmaInv|
    requires forall key :: key in index ==> index[key] < |index|
  {
    map key | key in index && Inner(unit, m.docVectors[index[key]]) > 0.0 :: Inner(unit, m.docVectors[index[key]])
  }

  /** What a search ought to return. */
  ghost function Found(p: Maths, m: Model, index: map<Key, nat>, q: seq<Word>, topK: int): seq<ScoredKey>
    requires WellShaped(m, |index|)
    requires forall key :: key in index ==> index[key] < |index|
  {
    var latent := Projected(m, QueryTerms(p.ln, m, q));
    var norm := p.sqrt(Inner(latent, latent));
    if norm == 0.0 then [] else Truncate(Ranked(PositiveCosines(m, index, Divided(latent, norm))), topK)
  }

  /** Cauchy-Schwarz: no cosine exceeds one. */
  lemma FoundBounds(p: Maths, m: Model, index: map<Key, nat>, q: seq<Word>, topK: int, x: ScoredKey)
    requires IsSqrt(p.sqrt) && WellShaped(m, |index|)
    requires forall key :: key in index ==> index[key] < |index|
    requires x in Found(p, m, index, q, topK)
    ensures x.key in index && 0.0 < x.score <= 1.0
  {
    var latent := Projected(m, QueryTerms(p.ln, m, q));
    var norm := p.sqrt(Inner(latent, latent));
    var cosines := PositiveCosines(m, index, Divided(latent, norm));
    assert x in Ranked(cosines);
    UnitLength(p.sqrt, latent, norm);
    UnitBound(Divided(latent, norm), m.docVectors[index[x.key]]);
  }

  /** The cosine of a document with the projected query, times the length of the latter, is their inner product. */
  lemma CosineTimes(p: Maths, m: Model, index: map<Key, nat>, latent: seq<real>, norm: real, key: Key)
    requires WellShaped(m, |index|) && |latent| == |m.sigmaInv| && norm > 0.0
    requires key in index && index[key] < |index|
    ensures var x := Inner(Divided(latent, norm), m.docVectors[index[key]]);
      Mul(x, norm) == Inner(latent, m.docVectors[index[key]]) && (Mul(x, norm) > 0.0 <==> x > 0.0)
  {
    DividedLeft(latent, norm, m.docVectors[index[key]], |latent|);
    SameSigns(Inner(Divided(latent, norm), m.docVectors[index[key]]), norm);
  }

  /** A score is the inner product of the projected query and the document vector, over the length of the former. */
  lemma FoundScore(p: Maths, m: Model, index: map<Key, nat>, q: seq<Word>, topK: int, x: ScoredKey)
    requires IsSqrt(p.sqrt) && WellShaped(m, |index|)
    requires forall key :: key in index ==> index[key] < |index|
    requires x in Found(p, m, index, q, topK)
    ensures var latent := Projected(m, QueryTerms(p.ln, m, q));
      x.key in index && Mul(x.score, p.sqrt(Inner(latent, latent))) == Inner(latent, m.docVectors[index[x.key]])
  {
    var latent := Projected(m, QueryTerms(p.ln, m, q));
    var norm := p.sqrt(Inner(latent, latent));
    InnerNonNegative(latent);
    RootZero(p.sqrt, Inner(latent, latent));
    assert x in Ranked(PositiveCosines(m, index, Divided(latent, norm)));
    CosineTimes(p, m, index, latent, norm, x.key);
  }

  /** Without a limit the documents found are those on the query's side. */
  lemma FoundWhen(p: Maths, m: Model, index: map<Key, nat>, q: seq<Word>, topK: int, key: Key)
    requires IsSqrt(p.sqrt) && WellShaped(m, |index|)
    requires forall key :: key in index ==> index[key] < |index|
    requires topK <= 0 && key in index
    ensures (exists x :: x in Found(p, m, index, q, topK) && x.key == key) <==>
      Inner(Projected(m, QueryTerms(p.ln, m, q)), m.docVectors[index[key]]) > 0.0
  {
    var latent := Projected(m, QueryTerms(p.ln, m, q));
    var norm := p.sqrt(Inner(latent, latent));
    InnerNonNegative(latent);
    RootZero(p.sqrt, Inner(latent, latent));
    if norm == 0.0 {
      ZeroInner(latent, m.docVectors[index[key]], |latent|);
    } else {
      var cosines := PositiveCosines(m, index, Divided(latent, norm));
      CosineTimes(p, m, index, latent, norm, key);
      assert forall x :: x in Ranked(cosines) ==> x.key in cosines;
      assert key in cosines ==> ScoredKey(key, cosines[key]) in Ranked(cosines);
    }
  }

  lemma {:induction false} ZeroInner(a: seq<real>, b: seq<real>, n: nat)
    requires |a| == |b| && n <= |a| && forall i :: 0 <= i < |a| ==> a[i] == 0.0
    ensures InnerTo(a, b, n) == 0.0
  {
    if n > 0 {
      ZeroInner(a, b, n - 1);
      assert Mul(0.0, b[n - 1]) == 0.0;
    }
  }

  lemma {:induction false} DividedLeft(a: seq<real>, r: real, b: seq<real>, n: nat)
    requires r != 0.0 && |a| == |b| && n <= |a|
    ensures Mul(InnerTo(Divided(a, r), b, n), r) == InnerTo(a, b, n)
  {
    if n > 0 {
      DividedLeft(a, r, b, n - 1);
      DividedLeftTerm(InnerTo(Divided(a, r), b, n - 1), a[n - 1], r, b[n - 1]);
    }
  }

  lemma DividedLeftTerm(s: real, x: real, r: real, y: real)
    requires r != 0.0
    ensures Mul(s + Mul(Div(x, r), y), r) == Mul(s, r) + Mul(x, y)
  {
  }

  lemma SameSigns(x: real, r: real)
    requires r > 0.0
    ensures Mul(x, r) > 0.0 <==> x > 0.0
  {
  }

  // ---------- the loops ----------

  /** The query's weights, with zero for the tokens in todo. */
  ghost predicate Weighed(ln: real -> real, m: Model, q: seq<Word>, todo: set<Word>, qVec: seq<real>)
    requires |m.termIDF| == |m.terms|
  {
    |qVec| == |m.terms| && forall i :: 0 <= i < |qVec| ==>
      qVec[i] == if m.terms[i] in todo then 0.0 else QueryTerms(ln, m, q)[i]
  }

  lemma WeighedNext(ln: real -> real, m: Model, q: seq<Word>, termToIdx: map<Word, nat>, todo: set<Word>,
                    qVec: seq<real>, tok: Word)
    requires Inverse(m.terms, termToIdx) && |m.termIDF| == |m.terms| && Weighed(ln, m, q, todo, qVec) && tok in q
    ensures tok in termToIdx ==> var i := termToIdx[tok];
      Weighed(ln, m, q, todo - {tok}, qVec[i := Mul(TfWeight(ln, multiset(q)[tok]), m.termIDF[i])])
    ensures tok !in termToIdx ==> Weighed(ln, m, q, todo - {tok}, qVec)
  {
  }

  /** The query tokens with an index entry, in any order. */
  method WeighQuery(ln: real -> real, qTf: map<Word, nat>, m: Model, termToIdx: map<Word, nat>, ghost q: seq<Word>)
    returns (qVec: seq<real>)
    requires qTf == Counts(q) && Inverse(m.terms, termToIdx) && |m.termIDF| == |m.terms|
    ensures qVec == QueryTerms(ln, m, q)
  {
    qVec := seq(|m.terms|, i => 0.0);
    var todo := qTf.Keys;
    while todo != {}
      invariant todo <= qTf.Keys && Weighed(ln, m, q, todo, qVec)
      decreases |todo|
    {
      var tok :| tok in todo;
      WeighedNext(ln, m, q, termToIdx, todo, qVec, tok);
      if tok in termToIdx {
        var i := termToIdx[tok];
        qVec := qVec[i := Mul(TfWeight(ln, qTf[tok]), m.termIDF[i])];
      }
      todo := todo - {tok};
    }
  }

  /** One coordinate; terms that are not in the query are skipped. */
  method ProjectOn(m: Model, qVec: seq<real>, j: nat) returns (val: real)
    requires |qVec| == |m.uMatrix| && j < |m.sigmaInv|
    requires forall i :: 0 <= i < |m.uMatrix| ==> |m.uMatrix[i]| == |m.sigmaInv|
    ensures val == Coordinate(m, qVec, j)
  {
    ghost var column := ColumnOf(m.uMatrix, j);
    var dot := 0.0;
    for i := 0 to |qVec|
      invariant dot == InnerTo(qVec, column, i)
    {
      if qVec[i] != 0.0 {
        dot := dot + Mul(qVec[i], m.uMatrix[i][j]);
      }
    }
    val := Mul(dot, m.sigmaInv[j]);
  }

  method Project(m: Model, qVec: seq<real>) returns (qLSA: seq<real>, qNormSq: real)
    requires |qVec| == |m.uMatrix| && forall i :: 0 <= i < |m.uMatrix| ==> |m.uMatrix[i]| == |m.sigmaInv|
    ensures qLSA == Projected(m, qVec) && qNormSq == Inner(qLSA, qLSA)
  {
    qLSA, qNormSq := [], 0.0;
    for j := 0 to |m.sigmaInv|
      invariant qLSA == Projected(m, qVec)[..j] && qNormSq == Inner(qLSA, qLSA)
    {
      var val := ProjectOn(m, qVec, j);
      InnerMore(qLSA, val);
      qLSA, qNormSq := qLSA + [val], qNormSq + Mul(val, val);
    }
  }

  lemma InnerMore(a: seq<real>, x: real)
    ensures Inner(a + [x], a + [x]) == Inner(a, a) + Mul(x, x)
  {
    InnerPrefix(a, x, |a|);
  }

  lemma {:induction false} InnerPrefix(a: seq<real>, x: real, n: nat)
    requires n <= |a|
    ensures InnerTo(a + [x], a + [x], n) == InnerTo(a, a, n)
  {
    if n > 0 {
      InnerPrefix(a, x, n - 1);
    }
  }

  method InnerLoop(a: seq<real>, b: seq<real>) returns (sum: real)
    requires |a| == |b|
    ensures sum == Inner(a, b)
  {
    sum := 0.0;
    for j := 0 to |a|
      invariant sum == InnerTo(a, b, j)
    {
      sum := sum + Mul(a[j], b[j]);
    }
  }

  /** Divides the projected query by its length, in place. */
  method DivideBy(a: seq<real>, norm: real) returns (r: seq<real>)
    requires norm != 0.0
    ensures r == Divided(a, norm)
  {
    r := a;
    for j := 0 to |a|
      invariant |r| == |a|
      invariant forall i :: 0 <= i < |a| ==> r[i] == if i < j then Divided(a, norm)[i] else a[i]
    {
      r := r[j := Div(r[j], norm)];
    }
  }

  /** The documents before docIdx have been listed. */
  ghost predicate Listed(m: Model, docKeys: seq<Key>, unit: seq<real>, docIdx: nat, ranked: seq<ScoredKey>)
    requires WellShaped(m, |docKeys|) && |unit| == |m.sigmaInv| && docIdx <= |docKeys|
  {
    && DistinctKeys(ranked)
    && forall x :: x in ranked <==> exists d :: 0 <= d < docIdx && x == Hit(m, docKeys, unit, d) && x.score > 0.0
  }

  function Hit(m: Model, docKeys: seq<Key>, unit: seq<real>, d: nat): ScoredKey
    requires d < |docKeys| == |m.docVectors| && |m.docVectors[d]| == |unit|
  {
    ScoredKey(docKeys[d], Inner(unit, m.docVectors[d]))
  }

  lemma ListedNext(m: Model, docKeys: seq<Key>, index: map<Key, nat>, unit: seq<real>, docIdx: nat,
                   ranked: seq<ScoredKey>)
    requires WellShaped(m, |docKeys|) && |unit| == |m.sigmaInv| && docIdx < |docKeys| && Inverse(docKeys, index)
    requires Listed(m, docKeys, unit, docIdx, ranked)
    ensures var x := Hit(m, docKeys, unit, docIdx);
      Listed(m, docKeys, unit, docIdx + 1, if x.score > 0.0 then ranked + [x] else ranked)
  {
    var x := Hit(m, docKeys, unit, docIdx);
    forall i | 0 <= i < |ranked| ensures ranked[i].key != x.key {
      assert ranked[i] in ranked;
    }
    var r := if x.score > 0.0 then ranked + [x] else ranked;
    forall y ensures y in r <==> exists d :: 0 <= d < docIdx + 1 && y == Hit(m, docKeys, unit, d) && y.score > 0.0 {
      assert y in r <==> y in ranked || (y == x && x.score > 0.0);
    }
  }

  lemma ListedAll(m: Model, docKeys: seq<Key>, index: map<Key, nat>, unit: seq<real>, ranked: seq<ScoredKey>)
    requires WellShaped(m, |docKeys|) && |unit| == |m.sigmaInv| && Inverse(docKeys, index) && |index| == |docKeys|
    requires Listed(m, docKeys, unit, |docKeys|, ranked)
    ensures Lists(ranked, PositiveCosines(m, index, unit))
  {
    var cosines := PositiveCosines(m, index, unit);
    forall x ensures x in ranked <==> x.key in cosines && cosines[x.key] == x.score {
      if x.key in cosines && cosines[x.key] == x.score {
        assert x == Hit(m, docKeys, unit, index[x.key]);
      }
    }
  }

  /** The cosines of all documents, in index order. */
  method ListCosines(m: Model, docKeys: seq<Key>, ghost index: map<Key, nat>, unit: seq<real>)
    returns (ranked: seq<ScoredKey>)
    requires WellShaped(m, |docKeys|) && |unit| == |m.sigmaInv| && Inverse(docKeys, index) && |index| == |docKeys|
    ensures Lists(ranked, PositiveCosines(m, index, unit)) && DistinctKeys(ranked)
  {
    ranked := [];
    for docIdx := 0 to |docKeys|
      invariant Listed(m, docKeys, unit, docIdx, ranked)
    {
      var cosine := InnerLoop(unit, m.docVectors[docIdx]);
      ListedNext(m, docKeys, index, unit, docIdx, ranked);
      if cosine > 0.0 {
        ranked := ranked + [ScoredKey(docKeys[docIdx], cosine)];
      }
    }
    ListedAll(m, docKeys, index, unit, ranked);
  }

  /** The steps of Search once the query has tokens and the index has documents. */
  method SearchModel(p: Maths, m: Model, docKeys: seq<Key>, ghost index: map<Key, nat>, termToIdx: map<Word, nat>,
                     qTokens: seq<Word>, topK: int)
    returns (ranked: seq<ScoredKey>)
    requires Inverse(m.terms, termToIdx) && Inverse(docKeys, index) && |index| == |docKeys| && WellShaped(m, |docKeys|)
    ensures ranked == Found(p, m, index, qTokens, topK)
  {
    var qTfMap := CountTokens(qTokens);
    var qVec := WeighQuery(p.ln, qTfMap, m, termToIdx, qTokens);
    var qLSA, qNormSq := Project(m, qVec);
    var qNorm := p.sqrt(qNormSq);
    if qNorm == 0.0 {
      return [];
    }
    var unit := DivideBy(qLSA, qNorm);
    ranked := ListCosines(m, docKeys, index, unit);
    ranked := SortScores(ranked, PositiveCosines(m, index, unit));
    if topK > 0 && |ranked| > topK {
      ranked := ranked[..topK];
    }
  }
}
