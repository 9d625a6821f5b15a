/** The smoothed inverse document frequency shared by BM25, TF-IDF and LSA. */
module Weights {
  import opened Arith
  import opened Oracles
  import opened Postings
  import opened Text

  function Smoothed(docCount: nat, df: nat): real {
    (docCount as real - df as real + 0.5) / (df as real + 0.5) + 1.0
  }

  function Idf(ln: real -> real, docCount: nat, df: nat): real {
    ln(Smoothed(docCount, df))
  }

  /** A token in no more documents than there are has positive weight. */
  lemma IdfPositive(ln: real -> real, docCount: nat, df: nat)
    requires IsLn(ln) && df <= docCount
    ensures Idf(ln, docCount, df) > 0.0
  {
    QuotientPositive(docCount as real - df as real + 0.5, df as real + 0.5);
    assert Rises(ln, 1.0, Smoothed(docCount, df));
  }

  /** The logarithm is taken of (N + 1) / (df + 0.5). */
  lemma SmoothedIs(docCount: nat, df: nat)
    ensures Mul(Smoothed(docCount, df), df as real + 0.5) == docCount as real + 1.0
  {
  }

  /** Of two tokens the one in fewer documents weighs more, strictly. */
  lemma RarerWeighsMore(ln: real -> real, docCount: nat, df: nat, df': nat)
    requires IsLn(ln) && df < df' <= docCount
    ensures Idf(ln, docCount, df) > Idf(ln, docCount, df')
  {
    var x, y := Smoothed(docCount, df), Smoothed(docCount, df');
    SmoothedIs(docCount, df);
    SmoothedIs(docCount, df');
    QuotientPositive(docCount as real - df' as real + 0.5, df' as real + 0.5);
    MulPositive(y, (df' - df) as real);
    assert Mul(y, df' as real + 0.5) == Mul(y, df as real + 0.5) + Mul(y, (df' - df) as real);
    if x <= y {
      MulMonotone(x, y, df as real + 0.5);
      assert false;
    }
    assert Rises(ln, y, x);
  }

  lemma QuotientPositive(x: real, y: real)
    requires x > 0.0 && y > 0.0
    ensures x / y > 0.0
  {
  }

  ghost function Df(docs: Docs, tok: Word): nat { |Containing(docs, tok)| }

  /** A token is never in more documents than there are. */
  lemma DfBound(docs: Docs, tok: Word)
    ensures Df(docs, tok) <= |docs|
  {
    SubsetSize(Containing(docs, tok), docs.Keys);
    assert |docs.Keys| == |docs|;
  }

  lemma {:induction false} SubsetSize<T>(s: set<T>, t: set<T>)
    requires s <= t
    ensures |s| <= |t|
    decreases |s|
  {
    if s != {} {
      var x :| x in s;
      SubsetSize(s - {x}, t - {x});
    }
  }

  /** Sublinear term frequency, for at least one occurrence. */
  function TfWeight(ln: real -> real, count: nat): real
  {
    1.0 + ln(count as real)
  }

  /** One occurrence weighs one, and count of them ln(count) more: strictly more for more occurrences. */
  lemma TfWeightIs(ln: real -> real, count: nat, count': nat)
    requires IsLn(ln) && 1 <= count < count'
    ensures TfWeight(ln, 1) == 1.0
    ensures TfWeight(ln, count) - TfWeight(ln, 1) == ln(count as real)
    ensures TfWeight(ln, count) < TfWeight(ln, count')
  {
    assert Rises(ln, count as real, count' as real);
  }

  lemma TfWeightPositive(ln: real -> real, count: nat)
    requires IsLn(ln) && count >= 1
    ensures TfWeight(ln, count) >= 1.0
  {
    if count > 1 {
      assert Rises(ln, 1.0, count as real);
    }
  }
}
