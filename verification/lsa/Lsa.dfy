/** The latent semantic index: rebuilt as a whole, searched by cosine. */
module Lsa {
  import opened Arith
  import opened Sums
  import opened Oracles
  import opened InnerProducts
  import opened Ranking
  import opened Items
  import opened Text
  import opened Postings
  import opened Weights
  import opened Tfidf
  import opened Matrix
  import opened Sampling
  import opened Svd
  import opened Latent

  const DEFAULT_LSA_DIM: nat := 64

  // ---------- the term-document matrix ----------

  ghost function AllTokens(docs: Docs): set<Word> { set key, tok | key in docs && tok in docs[key] :: tok }

  /** Row i and column j hold the weight of term i in document j. */
  ghost function TermMatrix(p: Maths, docs: Docs, terms: seq<Word>, docKeys: seq<Key>): Mat {
    (i, j) => TermEntry(p, docs, terms, docKeys, i, j)
  }

  ghost function TermEntry(p: Maths, docs: Docs, terms: seq<Word>, docKeys: seq<Key>, i: int, j: int): real {
    if 0 <= i < |terms| && 0 <= j < |docKeys| then DocEntry(p, docs, docKeys[j], terms[i]) else 0.0
  }

  /** Documents without tokens do not affect the postings of the others. */
  lemma SameFrequencies(docs: Docs, tok: Word)
    ensures Containing(WithTokens(docs), tok) == Containing(docs, tok)
  {
  }

  /** Numbers the elements of a set, in any order. */
  method Enumerate<T(==)>(s: set<T>) returns (list: seq<T>, index: map<T, nat>)
    ensures Inverse(list, index) && index.Keys == s && |list| == |s|
  {
    list, index := [], map[];
    var todo := s;
    while todo != {}
      invariant Inverse(list, index) && index.Keys !! todo && index.Keys + todo == s && |list| + |todo| == |s|
      decreases |todo|
    {
      var x :| x in todo;
      index, list := index[x := |list|], list + [x];
      todo := todo - {x};
    }
  }

  method TermIdfs(ln: real -> real, inv: Inverted, terms: seq<Word>, n: nat) returns (termIDF: seq<real>)
    requires forall tok :: tok in terms ==> tok in inv
    ensures |termIDF| == |terms| && forall i :: 0 <= i < |terms| ==> termIDF[i] == Idf(ln, n, |inv[terms[i]]|)
  {
    termIDF := [];
    for i := 0 to |terms|
      invariant |termIDF| == i && forall j :: 0 <= j < i ==> termIDF[j] == Idf(ln, n, |inv[terms[j]]|)
    {
      termIDF := termIDF + [Idf(ln, n, |inv[terms[i]]|)];
    }
  }

  /** The entries the postings of one term give to its row. */
  function PostingRow(ln: real -> real, idf: real, postings: map<Key, nat>, docKeyToIdx: map<Key, nat>,
                      ghost docKeys: seq<Key>): map<nat, real>
    requires Inverse(docKeys, docKeyToIdx)
  {
    map docKey | docKey in postings && docKey in docKeyToIdx ::
      docKeyToIdx[docKey] := Mul(TfWeight(ln, postings[docKey]), idf)
  }

  lemma PostingRowIs(p: Maths, docs: Docs, inv: Inverted, terms: seq<Word>, docKeys: seq<Key>,
                     docKeyToIdx: map<Key, nat>, i: nat, idf: real, row: map<nat, real>, j: nat)
    requires Indexes(inv, WithTokens(docs)) && Inverse(docKeys, docKeyToIdx) && docKeyToIdx.Keys == docs.Keys
    requires i < |terms| && terms[i] in inv && idf == Idf(p.ln, |docs|, |inv[terms[i]]|)
    requires row == PostingRow(p.ln, idf, inv[terms[i]], docKeyToIdx, docKeys) && j < |docKeys|
    ensures TermEntry(p, docs, terms, docKeys, i, j) == if j in row then row[j] else 0.0
  {
    var tok, key := terms[i], docKeys[j];
    PostingsKeys(inv, WithTokens(docs), tok);
    SameFrequencies(docs, tok);
    assert |inv[tok]| == |inv[tok].Keys|;
    assert key in Containing(docs, tok) <==> tok in docs[key];
    if key in inv[tok] {
      assert docKeyToIdx[key] in row;
    }
  }

  /** Writes entries into a row, in any order. */
  method FillRow(a: array2<real>, r: nat, row: map<nat, real>)
    requires r < a.Length0 && forall j :: j in row ==> j < a.Length1
    modifies a
    ensures forall i, j :: 0 <= i < a.Length0 && 0 <= j < a.Length1 ==>
      a[i, j] == if i == r && j in row then row[j] else old(a[i, j])
  {
    var todo := row.Keys;
    while todo != {}
      invariant todo <= row.Keys
      invariant forall i, j :: 0 <= i < a.Length0 && 0 <= j < a.Length1 ==>
        a[i, j] == if i == r && j in row && j !in todo then row[j] else old(a[i, j])
      decreases |todo|
    {
      var j :| j in todo;
      a[r, j] := row[j];
      todo := todo - {j};
    }
  }

  method FillMatrix(p: Maths, inv: Inverted, terms: seq<Word>, termIDF: seq<real>, docKeyToIdx: map<Key, nat>,
                    docKeys: seq<Key>, ghost docs: Docs)
    returns (a: array2<real>)
    requires Indexes(inv, WithTokens(docs)) && Inverse(docKeys, docKeyToIdx) && docKeyToIdx.Keys == docs.Keys
    requires |termIDF| == |terms| && forall i :: 0 <= i < |terms| ==>
      terms[i] in inv && termIDF[i] == Idf(p.ln, |docs|, |inv[terms[i]]|)
    ensures fresh(a) && Holds(a, |terms|, |docKeys|, TermMatrix(p, docs, terms, docKeys))
  {
    a := Zeros(|terms|, |docKeys|);
    for termIdx := 0 to |terms|
      invariant forall i, j :: 0 <= i < |terms| && 0 <= j < |docKeys| ==>
        a[i, j] == if i < termIdx then TermEntry(p, docs, terms, docKeys, i, j) else 0.0
    {
      var idf := termIDF[termIdx];
      var row := PostingRow(p.ln, idf, inv[terms[termIdx]], docKeyToIdx, docKeys);
      forall j: nat | j < |docKeys|
        ensures TermEntry(p, docs, terms, docKeys, termIdx, j) == if j in row then row[j] else 0.0
      {
        PostingRowIs(p, docs, inv, terms, docKeys, docKeyToIdx, termIdx, idf, row, j);
      }
      FillRow(a, termIdx, row);
    }
  }

  // ---------- the factors, row by row ----------

  function DrawNumber(i: int, k: int, j: int): int { i * k + j }

  /** The test matrix: the draws of the random source, row after row. */
  ghost function Omega(normal: int -> real, k: nat): Mat { (i, j) => normal(DrawNumber(i, k, j)) }

  /** Every entry has a draw of its own, and the first n rows take the first n k draws. */
  lemma DrawsDistinct(n: nat, k: nat, i: nat, j: nat, i': nat, j': nat)
    requires i < n && j < k && i' < n && j' < k
    ensures 0 <= DrawNumber(i, k, j) < n * k
    ensures DrawNumber(i, k, j) == DrawNumber(i', k, j') ==> i == i' && j == j'
  {
    Scaled(i + 1, n, k);
    if i < i' {
      Scaled(i + 1, i', k);
    } else if i' < i {
      Scaled(i' + 1, i, k);
    }
  }

  lemma Scaled(a: nat, b: nat, k: nat)
    requires a <= b
    ensures a * k <= b * k
  {
  }

  method DrawOmega(normal: int -> real, n: nat, k: nat) returns (omega: array2<real>)
    ensures fresh(omega) && Holds(omega, n, k, Omega(normal, k))
  {
    omega := Zeros(n, k);
    for i := 0 to n
      invariant forall u, j :: 0 <= u < i && 0 <= j < k ==> omega[u, j] == normal(DrawNumber(u, k, j))
    {
      for j := 0 to k
        invariant forall u, t :: 0 <= u <= i && 0 <= t < k && (u < i || t < j) ==>
          omega[u, t] == normal(DrawNumber(u, k, t))
      {
        omega[i, j] := normal(DrawNumber(i, k, j));
      }
    }
  }

  ghost predicate RowsHold(rows: seq<seq<real>>, m: nat, k: nat, f: Mat) {
    |rows| == m && forall i :: 0 <= i < m ==> |rows[i]| == k && forall j :: 0 <= j < k ==> rows[i][j] == f(i, j)
  }

  lemma HeldColumn(rows: seq<seq<real>>, m: nat, k: nat, f: Mat, j: nat)
    requires RowsHold(rows, m, k, f) && j < k
    ensures forall i | 0 <= i < m :: Component(ColumnOf(rows, j))(i) == Col(f, j)(i)
  {
  }

  method RowsOf(a: array2<real>, m: nat, k: nat, ghost f: Mat) returns (rows: seq<seq<real>>)
    requires Holds(a, m, k, f)
    ensures RowsHold(rows, m, k, f)
  {
    rows := [];
    for i := 0 to m
      invariant RowsHold(rows, i, k, f)
    {
      rows := rows + [seq(k, j requires 0 <= j < k reads a => a[i, j])];
    }
  }

  /** The inverse of a singular value; negligible ones count as zero. */
  function InverseOf(s: real): real { if s > TOLERANCE then Div(1.0, s) else 0.0 }

  method Inverses(s: array<real>, k: nat) returns (sigmaInv: seq<real>)
    requires s.Length == k
    ensures |sigmaInv| == k && forall i :: 0 <= i < k ==> sigmaInv[i] == InverseOf(s[i])
  {
    sigmaInv := [];
    for i := 0 to k
      invariant |sigmaInv| == i && forall j :: 0 <= j < i ==> sigmaInv[j] == InverseOf(s[j])
    {
      sigmaInv := sigmaInv + [InverseOf(s[i])];
    }
  }

  /** A document's row of V times the singular values, and that row at unit length. */
  ghost function Embedding(v: Mat, s: seq<real>, d: int): seq<real> { seq(|s|, j => ScaledEntry(v, s, d, j)) }

  ghost function ScaledEntry(v: Mat, s: seq<real>, d: int, j: int): real {
    if 0 <= j < |s| then Mul(v(d, j), s[j]) else 0.0
  }

  function AtUnitLength(sqrt: real -> real, a: seq<real>): seq<real> {
    var norm := sqrt(Inner(a, a));
    if norm > 0.0 then Divided(a, norm) else a
  }

  /** Folding in: seen along column j of the left factor and divided by the singular value, column d of the matrix is
      entry j of row d of the right factor. */
  lemma FoldedEntry(m: nat, n: nat, k: nat, a: Mat, q: Mat, w: Mat, s: seq<real>, d: int, j: int)
    requires |s| == k && 0 <= j < k
    ensures Mul(Dot(Range(m), Col(a, d), Col(Product(k, q, w), j)), InverseOf(s[j])) ==
      RightVectors(k, Small(m, q, a), w, s)(d, j)
  {
    var b, x, y := Small(m, q, a), Col(a, d), Col(w, j);
    forall l ensures Col(b, d)(l) == ApplyT(q, Range(m), x)(l) { SmallColumn(m, q, a, l, d); }
    assert Image(k, b, w, j)(d) == Dot(Range(k), Col(b, d), y);
    DotExt(Range(k), Col(b, d), y, ApplyT(q, Range(m), x), y);
    Adjoint(Range(m), Range(k), x, q, y);
    DotExt(Range(m), x, Apply(q, Range(k), y), x, Col(Product(k, q, w), j));
    if s[j] > TOLERANCE {
      MulInverse(Image(k, b, w, j)(d), s[j]);
    } else {
      ZeroProducts(1.0, Image(k, b, w, j)(d));
    }
  }

  lemma MulInverse(x: real, y: real)
    requires y != 0.0
    ensures Mul(x, Div(1.0, y)) == Div(x, y)
  {
  }

  /** An embedding keeps the images of its document in the directions that are not dropped. */
  lemma EmbeddingEntry(k: nat, b: Mat, w: Mat, s: seq<real>, d: int, j: int)
    requires |s| == k && 0 <= j < k
    ensures ScaledEntry(RightVectors(k, b, w, s), s, d, j) == Kept(s, Images(k, b, w, d))(j)
  {
    if s[j] > TOLERANCE {
      DivMul(Image(k, b, w, j)(d), s[j]);
    } else {
      ZeroProducts(1.0, s[j]);
    }
  }

  lemma DivMul(x: real, y: real)
    requires y != 0.0
    ensures Mul(Div(x, y), y) == x
  {
  }

  /** Embeddings fall short of the inner products of the documents' columns of b, the projected matrix,
      by exactly what the dropped directions carry. */
  lemma EmbeddingsInner(m: nat, n: nat, k: nat, a: Mat, q: Mat, w: Mat, s: seq<real>, d: int, e: int)
    requires Decomposition(m, n, k, a, q, w, s)
    ensures var b := Small(m, q, a);
      var v := RightVectors(k, b, w, s);
      Inner(Embedding(v, s, d), Embedding(v, s, e)) + Dot(Dropped(s), Images(k, b, w, d), Images(k, b, w, e))
        == Dot(Range(k), Col(b, d), Col(b, e))
  {
    var b := Small(m, q, a);
    var v := RightVectors(k, b, w, s);
    var x, y := Embedding(v, s, d), Embedding(v, s, e);
    var x', y' := Images(k, b, w, d), Images(k, b, w, e);
    forall j | j in Range(k) ensures Component(x)(j) == Kept(s, x')(j) && Component(y)(j) == Kept(s, y')(j) {
      EmbeddingEntry(k, b, w, s, d, j);
      EmbeddingEntry(k, b, w, s, e, j);
    }
    InnerIsDot(x, y, k);
    DotExt(Range(k), Component(x), Component(y), Kept(s, x'), Kept(s, y'));
    KeptAndDropped(s, x', y');
    ImagesKeepInner(k, b, w, d, e);
  }

  ghost predicate KeepsInner(k: nat, n: nat, b: Mat, w: Mat, s: seq<real>) {
    var v := RightVectors(k, b, w, s);
    forall d, e :: 0 <= d < n && 0 <= e < n ==>
      Inner(Embedding(v, s, d), Embedding(v, s, e)) == Dot(Range(k), Col(b, d), Col(b, e))
  }

  /** Inner products are kept between all documents exactly when no positive singular value is negligible. */
  lemma EmbeddingsKeepInner(m: nat, n: nat, k: nat, a: Mat, q: Mat, w: Mat, s: seq<real>)
    requires Decomposition(m, n, k, a, q, w, s)
    ensures KeepsInner(k, n, Small(m, q, a), w, s) <==> NoneDropped(s)
  {
    var b := Small(m, q, a);
    if NoneDropped(s) {
      forall d, e | 0 <= d < n && 0 <= e < n
        ensures Inner(Embedding(RightVectors(k, b, w, s), s, d), Embedding(RightVectors(k, b, w, s), s, e)) ==
          Dot(Range(k), Col(b, d), Col(b, e))
      {
        EmbeddingsInner(m, n, k, a, q, w, s, d, e);
        NothingCarried(k, n, b, w, s, Images(k, b, w, d), e);
      }
    } else {
      var j: nat :| j < k && s[j] != 0.0 && s[j] <= TOLERANCE;
      var d := SomethingCarried(k, n, b, w, s, j);
      EmbeddingsInner(m, n, k, a, q, w, s, d, d);
    }
  }

  /** A document vector has length one, or is zero; times the length of the embedding it is the embedding. */
  lemma AtUnitLengthIs(sqrt: real -> real, a: seq<real>)
    requires IsSqrt(sqrt)
    ensures |AtUnitLength(sqrt, a)| == |a| && UnitOrZero(AtUnitLength(sqrt, a))
    ensures forall j :: 0 <= j < |a| ==> Mul(AtUnitLength(sqrt, a)[j], sqrt(Inner(a, a))) == a[j]
  {
    InnerNonNegative(a);
    RootZero(sqrt, Inner(a, a));
    var norm := sqrt(Inner(a, a));
    if norm > 0.0 {
      UnitLength(sqrt, a, norm);
      forall j | 0 <= j < |a| ensures Mul(AtUnitLength(sqrt, a)[j], norm) == a[j] { DivMul(a[j], norm); }
    } else {
      ZeroProducts(0.0, 0.0);
    }
  }

  ghost function RowOf(v: Mat, d: int, k: nat): (r: seq<real>)
    ensures |r| == k && forall j :: 0 <= j < k ==> r[j] == v(d, j)
  {
    seq(k, j => v(d, j))
  }

  /** A row of the right factor and its embedding at unit length are on the same side, unless the embedding has no
      length. */
  lemma SelfSeen(sqrt: real -> real, v: Mat, s: seq<real>, d: int)
    requires IsSqrt(sqrt) && forall j :: 0 <= j < |s| && v(d, j) != 0.0 ==> s[j] > 0.0
    ensures var u := AtUnitLength(sqrt, Embedding(v, s, d));
      Inner(RowOf(v, d, |s|), u) > 0.0 <==> Inner(u, u) == 1.0
  {
    var a, e, u := RowOf(v, d, |s|), Embedding(v, s, d), AtUnitLength(sqrt, Embedding(v, s, d));
    var norm := sqrt(Inner(e, e));
    InnerNonNegative(e);
    RootZero(sqrt, Inner(e, e));
    InnerSymmetric(a, u);
    if norm > 0.0 {
      UnitLength(sqrt, e, norm);
      DividedLeft(e, norm, a, |e|);
      SameSigns(Inner(u, a), norm);
      ScaledSeen(v, s, d);
    } else {
      ZeroInner(e, a, |e|);
    }
  }

  lemma ScaledSeen(v: Mat, s: seq<real>, d: int)
    requires forall j :: 0 <= j < |s| && v(d, j) != 0.0 ==> s[j] > 0.0
    requires Inner(Embedding(v, s, d), Embedding(v, s, d)) != 0.0
    ensures Inner(Embedding(v, s, d), RowOf(v, d, |s|)) > 0.0
  {
    var a, e := RowOf(v, d, |s|), Embedding(v, s, d);
    var f, g := Component(e), Component(a);
    InnerNonNegative(e);
    InnerIsDot(e, a, |s|);
    forall j | j in Range(|s|) ensures Times(f, g)(j) >= 0.0 && (f(j) != 0.0 ==> Times(f, g)(j) > 0.0) {
      WeightedSquare(v(d, j), s[j]);
    }
    var j :| 0 <= j < |e| && e[j] != 0.0;
    Positive(Range(|s|), Times(f, g), j);
  }

  lemma WeightedSquare(x: real, y: real)
    requires x != 0.0 ==> y > 0.0
    ensures Mul(Mul(x, y), x) >= 0.0 && (Mul(x, y) != 0.0 ==> Mul(Mul(x, y), x) > 0.0)
  {
    if x != 0.0 {
      SqNonNegative(x);
      MulPositive(Sq(x), y);
      assert Mul(Mul(x, y), x) == Mul(Sq(x), y);
    }
  }

  method EmbedDocument(sqrt: real -> real, v: array2<real>, s: array<real>, d: nat, n: nat, k: nat, ghost f: Mat)
    returns (vec: seq<real>)
    requires Holds(v, n, k, f) && s.Length == k && d < n
    ensures vec == AtUnitLength(sqrt, Embedding(f, s[..], d))
  {
    vec := [];
    var normSq := 0.0;
    for j := 0 to k
      invariant vec == Embedding(f, s[..], d)[..j] && normSq == Inner(vec, vec)
    {
      var val := Mul(v[d, j], s[j]);
      InnerMore(vec, val);
      vec, normSq := vec + [val], normSq + Mul(val, val);
    }
    assert vec == Embedding(f, s[..], d);
    var norm := sqrt(normSq);
    if norm > 0.0 {
      vec := DivideBy(vec, norm);
    }
  }

  method Embed(sqrt: real -> real, v: array2<real>, s: array<real>, n: nat, k: nat, ghost f: Mat)
    returns (docVectors: seq<seq<real>>)
    requires Holds(v, n, k, f) && s.Length == k
    ensures |docVectors| == n && forall d :: 0 <= d < n ==> docVectors[d] == AtUnitLength(sqrt, Embedding(f, s[..], d))
  {
    docVectors := [];
    for d := 0 to n
      invariant |docVectors| == d && forall i :: 0 <= i < d ==>
        docVectors[i] == AtUnitLength(sqrt, Embedding(f, s[..], i))
    {
      var vec := EmbedDocument(sqrt, v, s, d, n, k, f);
      docVectors := docVectors + [vec];
    }
  }

  /** The factors of the matrix f, as the index keeps them. */
  ghost predicate Factored(sqrt: real -> real, normal: int -> real, rows: nat, n: nat, k: nat, f: Mat,
                           uMatrix: seq<seq<real>>, sigmaInv: seq<real>, docVectors: seq<seq<real>>,
                           w: Mat, s: seq<real>)
  {
    var q := SampledBasis(sqrt, rows, n, k, f, Omega(normal, k), SVD_POWER_ITERS);
    && Decomposition(rows, n, k, f, q, w, s)
    && Factors(k, Powered(rows, n, f, Omega(normal, k), 4), q, PowerUpper(sqrt, rows, n, k, f, Omega(normal, k), 4))
    && RowsHold(uMatrix, rows, k, Product(k, q, w))
    && |sigmaInv| == |s| == k && (forall i :: 0 <= i < k ==> sigmaInv[i] == InverseOf(s[i]))
    && |docVectors| == n
    && forall d :: 0 <= d < n ==>
      docVectors[d] == AtUnitLength(sqrt, Embedding(RightVectors(k, Small(rows, q, f), w, s), s, d))
  }

  method Factor(sqrt: real -> real, trig: Trig, normal: int -> real, a: array2<real>, rows: nat, n: nat, k: nat,
                ghost f: Mat)
    returns (uMatrix: seq<seq<real>>, sigmaInv: seq<real>, docVectors: seq<seq<real>>, ghost w: Mat, ghost s: seq<real>)
    requires IsSqrt(sqrt) && IsTrig(trig) && Holds(a, rows, n, f)
    ensures |docVectors| == n && forall d :: 0 <= d < n ==> |docVectors[d]| == k && UnitOrZero(docVectors[d])
    ensures Factored(sqrt, normal, rows, n, k, f, uMatrix, sigmaInv, docVectors, w, s)
  {
    var omega := DrawOmega(normal, n, k);
    ghost var q := SampledBasis(sqrt, rows, n, k, f, Omega(normal, k), SVD_POWER_ITERS);
    var u, sigma, v;
    u, sigma, v, w := ComputeTruncatedSVD(sqrt, trig, a, omega, rows, n, k, SVD_POWER_ITERS, f, Omega(normal, k));
    s := sigma[..];
    uMatrix := RowsOf(u, rows, k, Product(k, q, w));
    sigmaInv := Inverses(sigma, k);
    docVectors := Embed(sqrt, v, sigma, n, k, RightVectors(k, Small(rows, q, f), w, s));
    forall d | 0 <= d < n ensures |docVectors[d]| == k && UnitOrZero(docVectors[d]) {
      AtUnitLengthIs(sqrt, Embedding(RightVectors(k, Small(rows, q, f), w, s), s, d));
    }
  }

  // ---------- the index ----------

  /** What a rebuild computes from the documents; w and s come out of the decomposition. */
  ghost predicate Built(p: Maths, normal: int -> real, docs: Docs, docKeys: seq<Key>, m: Model, w: Mat, s: seq<real>) {
    && Factored(p.sqrt, normal, |m.terms|, |docKeys|, |m.sigmaInv|, TermMatrix(p, docs, m.terms, docKeys),
                m.uMatrix, m.sigmaInv, m.docVectors, w, s)
    && |m.termIDF| == |m.terms| && forall i :: 0 <= i < |m.terms| ==>
       m.termIDF[i] == Idf(p.ln, |docs|, Df(docs, m.terms[i]))
  }

  lemma BuiltIsWellShaped(p: Maths, normal: int -> real, docs: Docs, docKeys: seq<Key>, m: Model, w: Mat, s: seq<real>)
    requires IsMaths(p) && Built(p, normal, docs, docKeys, m, w, s)
    requires |m.sigmaInv| <= |m.terms| && |m.sigmaInv| <= |docKeys|
    ensures WellShaped(m, |docKeys|)
  {
    var k, n := |m.sigmaInv|, |docKeys|;
    var a := TermMatrix(p, docs, m.terms, docKeys);
    var q := SampledBasis(p.sqrt, |m.terms|, n, k, a, Omega(normal, k), SVD_POWER_ITERS);
    var v := RightVectors(k, Small(|m.terms|, q, a), w, s);
    forall d | 0 <= d < n ensures |m.docVectors[d]| == k && UnitOrZero(m.docVectors[d]) {
      AtUnitLengthIs(p.sqrt, Embedding(v, s, d));
    }
  }

  /** The right factor: row d is what the decomposition says of document d. */
  ghost function RightFactorOf(p: Maths, normal: int -> real, docs: Docs, docKeys: seq<Key>, m: Model, w: Mat,
                               s: seq<real>): Mat
  {
    var k, a := |m.sigmaInv|, TermMatrix(p, docs, m.terms, docKeys);
    var q := SampledBasis(p.sqrt, |m.terms|, |docKeys|, k, a, Omega(normal, k), SVD_POWER_ITERS);
    RightVectors(k, Small(|m.terms|, q, a), w, s)
  }

  /** Projected like a query, the text of a document is its row of the right factor. */
  ghost predicate FoldsIn(p: Maths, docs: Docs, docKeys: seq<Key>, m: Model, v: Mat)
    requires WellShaped(m, |docKeys|) && forall d :: 0 <= d < |docKeys| ==> docKeys[d] in docs
  {
    forall d :: 0 <= d < |docKeys| ==>
      Projected(m, QueryTerms(p.ln, m, docs[docKeys[d]])) == RowOf(v, d, |m.sigmaInv|)
  }

  lemma OwnWeights(p: Maths, normal: int -> real, docs: Docs, docKeys: seq<Key>, m: Model, w: Mat, s: seq<real>, d: nat)
    requires Built(p, normal, docs, docKeys, m, w, s) && d < |docKeys| && docKeys[d] in docs
    ensures var v := QueryTerms(p.ln, m, docs[docKeys[d]]);
      forall i :: 0 <= i < |m.terms| ==> v[i] == TermMatrix(p, docs, m.terms, docKeys)(i, d)
  {
  }

  lemma BuiltFoldsIn(p: Maths, normal: int -> real, docs: Docs, docKeys: seq<Key>, m: Model, w: Mat, s: seq<real>)
    requires Built(p, normal, docs, docKeys, m, w, s) && WellShaped(m, |docKeys|)
    requires forall d :: 0 <= d < |docKeys| ==> docKeys[d] in docs
    ensures FoldsIn(p, docs, docKeys, m, RightFactorOf(p, normal, docs, docKeys, m, w, s))
  {
    forall d | 0 <= d < |docKeys|
      ensures Projected(m, QueryTerms(p.ln, m, docs[docKeys[d]])) ==
        RowOf(RightFactorOf(p, normal, docs, docKeys, m, w, s), d, |m.sigmaInv|)
    {
      forall j | 0 <= j < |m.sigmaInv|
        ensures Coordinate(m, QueryTerms(p.ln, m, docs[docKeys[d]]), j) ==
          RightFactorOf(p, normal, docs, docKeys, m, w, s)(d, j)
      {
        CoordinateFolds(p, normal, docs, docKeys, m, w, s, d, j);
      }
    }
  }

  lemma CoordinateFolds(p: Maths, normal: int -> real, docs: Docs, docKeys: seq<Key>, m: Model, w: Mat, s: seq<real>,
                        d: nat, j: nat)
    requires Built(p, normal, docs, docKeys, m, w, s) && WellShaped(m, |docKeys|) && j < |m.sigmaInv|
    requires d < |docKeys| && docKeys[d] in docs
    ensures Coordinate(m, QueryTerms(p.ln, m, docs[docKeys[d]]), j) ==
      RightFactorOf(p, normal, docs, docKeys, m, w, s)(d, j)
  {
    var rows, k, a := |m.terms|, |m.sigmaInv|, TermMatrix(p, docs, m.terms, docKeys);
    var q := SampledBasis(p.sqrt, rows, |docKeys|, k, a, Omega(normal, k), SVD_POWER_ITERS);
    var x, u := QueryTerms(p.ln, m, docs[docKeys[d]]), ColumnOf(m.uMatrix, j);
    OwnWeights(p, normal, docs, docKeys, m, w, s, d);
    InnerIsDot(x, u, rows);
    HeldColumn(m.uMatrix, rows, k, Product(k, q, w), j);
    DotExt(Range(rows), Component(x), Component(u), Col(a, d), Col(Product(k, q, w), j));
    FoldedEntry(rows, |docKeys|, k, a, q, w, s, d, j);
  }

  /** The rank is at most the number of terms and of documents. */
  function Rank(dimK: nat, m: nat, n: nat): (k: nat)
    ensures k <= dimK && k <= m && k <= n && (k == dimK || k == m || k == n)
  {
    var k := if dimK > m then m else dimK;
    if k > n then n else k
  }

  method BuildModel(p: Maths, trig: Trig, normal: int -> real, dimK: nat, inv: Inverted, terms: seq<Word>,
                    docKeys: seq<Key>, docKeyToIdx: map<Key, nat>, ghost docs: Docs)
    returns (m: Model, ghost w: Mat, ghost s: seq<real>)
    requires IsMaths(p) && IsTrig(trig)
    requires Indexes(inv, WithTokens(docs)) && Inverse(docKeys, docKeyToIdx) && docKeyToIdx.Keys == docs.Keys
    requires |docKeys| == |docs| && forall tok :: tok in terms ==> tok in inv
    ensures m.terms == terms && |m.sigmaInv| == Rank(dimK, |terms|, |docKeys|)
    ensures Built(p, normal, docs, docKeys, m, w, s)
  {
    var termIDF := TermIdfs(p.ln, inv, terms, |docKeys|);
    FrequenciesOf(inv, docs, terms);
    var matrixA := FillMatrix(p, inv, terms, termIDF, docKeyToIdx, docKeys, docs);
    var k := Rank(dimK, |terms|, |docKeys|);
    var uMatrix, sigmaInv, docVectors;
    uMatrix, sigmaInv, docVectors, w, s :=
      Factor(p.sqrt, trig, normal, matrixA, |terms|, |docKeys|, k, TermMatrix(p, docs, terms, docKeys));
    m := Model(terms, termIDF, uMatrix, sigmaInv, docVectors);
  }

  lemma FrequenciesOf(inv: Inverted, docs: Docs, terms: seq<Word>)
    requires Indexes(inv, WithTokens(docs)) && forall tok :: tok in terms ==> tok in inv
    ensures forall tok :: tok in terms ==> |inv[tok]| == Df(docs, tok)
  {
    forall tok | tok in terms ensures |inv[tok]| == Df(docs, tok) {
      PostingsKeys(inv, WithTokens(docs), tok);
      SameFrequencies(docs, tok);
      assert |inv[tok]| == |inv[tok].Keys|;
    }
  }

  lemma TermsAreTokens(inv: Inverted, docs: Docs)
    requires Indexes(inv, WithTokens(docs))
    ensures inv.Keys == AllTokens(docs)
  {
    forall tok ensures tok in inv <==> tok in AllTokens(docs) {
      InIndex(inv, WithTokens(docs), tok);
      SameFrequencies(docs, tok);
      if tok in AllTokens(docs) {
        var key :| key in docs && tok in docs[key];
        assert key in Containing(docs, tok);
      } else {
        assert Containing(docs, tok) == {};
      }
    }
  }

  /** All fields a rebuild replaces. */
  datatype Fields = Fields(docKeys: seq<Key>, docKeyToIdx: map<Key, nat>, termToIdx: map<Word, nat>, model: Model)

  const EMPTY: Fields := Fields([], map[], map[], Model([], [], [], [], []))

  ghost predicate Coherent(x: Fields) {
    && Inverse(x.docKeys, x.docKeyToIdx) && |x.docKeyToIdx| == |x.docKeys|
    && Inverse(x.model.terms, x.termToIdx)
    && WellShaped(x.model, |x.docKeys|)
  }

  /** The fields after a rebuild from the documents; without any token they are empty. */
  ghost predicate Rebuilt(dimK: nat, docs: Docs, x: Fields) {
    && Coherent(x)
    && x.termToIdx.Keys == AllTokens(docs)
    && x.docKeyToIdx.Keys == (if x.termToIdx == map[] then {} else docs.Keys)
    && |x.model.sigmaInv| == Rank(dimK, |x.model.terms|, |x.docKeys|)
  }

  /** Unless they are empty, they are computed from the documents. */
  ghost predicate Computed(p: Maths, normal: int -> real, docs: Docs, x: Fields, w: Mat, s: seq<real>) {
    x.model.terms != [] ==> Built(p, normal, docs, x.docKeys, x.model, w, s)
  }

  /** Then the text of a document, taken as a query, is its row of the right factor. */
  ghost predicate FoldsInAll(p: Maths, normal: int -> real, docs: Docs, x: Fields, w: Mat, s: seq<real>)
    requires Coherent(x)
  {
    x.model.terms != [] ==>
      && (forall d :: 0 <= d < |x.docKeys| ==> x.docKeys[d] in docs)
      && FoldsIn(p, docs, x.docKeys, x.model, RightFactorOf(p, normal, docs, x.docKeys, x.model, w, s))
  }

  lemma ComputedFoldsIn(p: Maths, normal: int -> real, dimK: nat, docs: Docs, x: Fields, w: Mat, s: seq<real>)
    requires Rebuilt(dimK, docs, x) && Computed(p, normal, docs, x, w, s)
    ensures FoldsInAll(p, normal, docs, x, w, s)
  {
    if x.model.terms != [] {
      assert x.model.terms[0] in x.termToIdx;
      forall d | 0 <= d < |x.docKeys| ensures x.docKeys[d] in docs {
        assert x.docKeys[d] in x.docKeyToIdx;
      }
      BuiltFoldsIn(p, normal, docs, x.docKeys, x.model, w, s);
    }
  }

  /** Searching without a limit for the text of a document finds the document, exactly when its vector has any
      length. */
  lemma OwnTextFound(p: Maths, normal: int -> real, dimK: nat, docs: Docs, x: Fields, w: Mat, s: seq<real>, key: Key,
                     topK: int)
    requires IsMaths(p) && Rebuilt(dimK, docs, x) && Computed(p, normal, docs, x, w, s)
    requires x.model.terms != [] && key in x.docKeyToIdx && topK <= 0
    ensures var u := x.model.docVectors[x.docKeyToIdx[key]];
      key in docs && ((exists hit :: hit in Results(p, x, docs[key], topK) && hit.key == key) <==> Inner(u, u) == 1.0)
  {
    ComputedFoldsIn(p, normal, dimK, docs, x, w, s);
    var d := x.docKeyToIdx[key];
    assert x.docKeys[d] == key;
    OwnRowSeen(p, normal, docs, x.docKeys, x.model, w, s, d);
    ResultsWhen(p, x, docs[key], topK, key);
  }

  /** Without a limit the results are the documents on the query's side. */
  lemma ResultsWhen(p: Maths, x: Fields, q: seq<Word>, topK: int, key: Key)
    requires IsMaths(p) && Coherent(x) && x.model.terms != [] && key in x.docKeyToIdx && topK <= 0
    ensures (exists hit :: hit in Results(p, x, q, topK) && hit.key == key) <==>
      Inner(Projected(x.model, QueryTerms(p.ln, x.model, q)), x.model.docVectors[x.docKeyToIdx[key]]) > 0.0
  {
    if q == [] {
      NothingSeen(p, x.model, x.model.docVectors[x.docKeyToIdx[key]]);
    } else {
      FoundWhen(p, x.model, x.docKeyToIdx, q, topK, key);
    }
  }

  lemma NothingSeen(p: Maths, m: Model, u: seq<real>)
    requires |m.termIDF| == |m.terms| == |m.uMatrix| && |u| == |m.sigmaInv|
    requires forall i :: 0 <= i < |m.uMatrix| ==> |m.uMatrix[i]| == |m.sigmaInv|
    ensures Inner(Projected(m, QueryTerms(p.ln, m, [])), u) == 0.0
  {
    var v := QueryTerms(p.ln, m, []);
    forall j | 0 <= j < |m.sigmaInv| ensures Coordinate(m, v, j) == 0.0 {
      ZeroInner(v, ColumnOf(m.uMatrix, j), |v|);
      ZeroProducts(1.0, m.sigmaInv[j]);
      assert Mul(0.0, m.sigmaInv[j]) == 0.0;
    }
    ZeroInner(Projected(m, v), u, |u|);
  }

  lemma OwnRowSeen(p: Maths, normal: int -> real, docs: Docs, docKeys: seq<Key>, m: Model, w: Mat, s: seq<real>, d: nat)
    requires IsMaths(p) && Built(p, normal, docs, docKeys, m, w, s) && WellShaped(m, |docKeys|) && d < |docKeys|
    ensures Inner(RowOf(RightFactorOf(p, normal, docs, docKeys, m, w, s), d, |m.sigmaInv|), m.docVectors[d]) > 0.0 <==>
      Inner(m.docVectors[d], m.docVectors[d]) == 1.0
  {
    var v := RightFactorOf(p, normal, docs, docKeys, m, w, s);
    forall j | 0 <= j < |s| && v(d, j) != 0.0 ensures s[j] > 0.0 {
    }
    SelfSeen(p.sqrt, v, s, d);
  }

  method Compute(p: Maths, trig: Trig, normal: int -> real, dimK: nat, inv: Inverted, keySet: set<Key>,
                 ghost docs: Docs)
    returns (x: Fields, ghost w: Mat, ghost s: seq<real>)
    requires IsMaths(p) && IsTrig(trig) && Indexes(inv, WithTokens(docs)) && keySet == docs.Keys
    ensures Rebuilt(dimK, docs, x)
    ensures Computed(p, normal, docs, x, w, s)
  {
    TermsAreTokens(inv, docs);
    w, s := (i, j) => 0.0, [];
    if |keySet| == 0 || |inv| == 0 {
      return EMPTY, w, s;
    }
    var docKeys, docKeyToIdx := Enumerate(keySet);
    var terms, termToIdx := Enumerate(inv.Keys);
    TermsIndexed(terms, termToIdx, inv);
    var m;
    m, w, s := BuildModel(p, trig, normal, dimK, inv, terms, docKeys, docKeyToIdx, docs);
    BuiltIsWellShaped(p, normal, docs, docKeys, m, w, s);
    x := Fields(docKeys, docKeyToIdx, termToIdx, m);
  }

  lemma TermsIndexed(terms: seq<Word>, termToIdx: map<Word, nat>, inv: Inverted)
    requires Inverse(terms, termToIdx) && termToIdx.Keys == inv.Keys
    ensures forall tok :: tok in terms ==> tok in inv
  {
  }

  class LSAIndex {
    const dimK: nat
    const p: Maths
    const trig: Trig
    const normal: int -> real
    const al: Alphabet
    const tfidf: TfidfIndex
    var fields: Fields

    ghost predicate Valid()
      reads this
    {
      dimK >= 1 && IsMaths(p) && IsTrig(trig) && tfidf.p == p && tfidf.al == al && Coherent(fields)
    }

    constructor (al: Alphabet, p: Maths, trig: Trig, normal: int -> real, dimK: int)
      requires IsMaths(p) && IsTrig(trig)
      ensures Valid() && fields == EMPTY && fresh(tfidf)
      ensures this.al == al && this.p == p && this.trig == trig && this.normal == normal
      ensures this.dimK == if dimK <= 0 then 64 else dimK
    {
      this.al, this.p, this.trig, this.normal := al, p, trig, normal;
      this.dimK := if dimK <= 0 then DEFAULT_LSA_DIM else dimK;
      tfidf := new TfidfIndex(al, p);
      fields := EMPTY;
    }

    method Rebuild(items: map<Key, Item>) returns (ghost w: Mat, ghost s: seq<real>)
      requires Valid()
      modifies this, tfidf
      ensures Valid() && Rebuilt(dimK, TokensOf(al, items), fields)
      ensures Computed(p, normal, TokensOf(al, items), fields, w, s)
      ensures FoldsInAll(p, normal, TokensOf(al, items), fields, w, s)
    {
      tfidf.Rebuild(items);
      fields, w, s := Compute(p, trig, normal, dimK, tfidf.invertedIndex, items.Keys, TokensOf(al, items));
      ComputedFoldsIn(p, normal, dimK, TokensOf(al, items), fields, w, s);
    }

    method Search(query: string, topK: int) returns (ranked: seq<ScoredKey>)
      requires Valid()
      ensures ranked == Results(p, fields, Tokenize(al, query), topK)
    {
      if |fields.model.docVectors| == 0 || |fields.model.uMatrix| == 0 {
        return [];
      }
      var qTokens := Tokenize(al, query);
      if |qTokens| == 0 {
        return [];
      }
      ranked := SearchModel(p, fields.model, fields.docKeys, fields.docKeyToIdx, fields.termToIdx, qTokens, topK);
    }
  }

  ghost function Results(p: Maths, x: Fields, q: seq<Word>, topK: int): seq<ScoredKey>
    requires Coherent(x)
  {
    if x.docKeys == [] || x.model.terms == [] || q == [] then [] else Found(p, x.model, x.docKeyToIdx, q, topK)
  }

  /** Every score is a cosine in (0, 1], of a document indexed by the last rebuild. */
  lemma ResultBounds(p: Maths, x: Fields, q: seq<Word>, topK: int, hit: ScoredKey)
    requires IsMaths(p) && Coherent(x) && hit in Results(p, x, q, topK)
    ensures hit.key in x.docKeyToIdx && 0.0 < hit.score <= 1.0
  {
    FoundBounds(p, x.model, x.docKeyToIdx, q, topK, hit);
  }

  lemma ResultsDistinct(p: Maths, x: Fields, q: seq<Word>, topK: int)
    requires Coherent(x)
    ensures DistinctKeys(Results(p, x, q, topK))
  {
    if x.docKeys != [] && x.model.terms != [] && q != [] {
      var latent := Projected(x.model, QueryTerms(p.ln, x.model, q));
      var norm := p.sqrt(Inner(latent, latent));
      if norm != 0.0 {
        TruncatedDistinct(PositiveCosines(x.model, x.docKeyToIdx, Divided(latent, norm)), topK);
      }
    }
  }
}
