/** Cosine similarity of two vectors. */
module Cosine {
  import opened Arith
  import opened Oracles
  import opened InnerProducts

  /** The cosine, with zero for vectors of different dimension, of no dimension or of no length. */
  function Similarity(sqrt: real -> real, a: seq<real>, b: seq<real>): real {
    if |a| != |b| || |a| == 0 then 0.0
    else
      var denom := Mul(sqrt(Inner(a, a)), sqrt(Inner(b, b)));
      if denom == 0.0 then 0.0 else Div(Inner(a, b), denom)
  }

  method CosineSimilarity(sqrt: real -> real, a: seq<real>, b: seq<real>) returns (r: real)
    ensures r == Similarity(sqrt, a, b)
  {
    if |a| != |b| || |a| == 0 {
      return 0.0;
    }
    var dot, normA, normB := 0.0, 0.0, 0.0;
    for i := 0 to |a|
      invariant dot == InnerTo(a, b, i) && normA == InnerTo(a, a, i) && normB == InnerTo(b, b, i)
    {
      dot, normA, normB := dot + Mul(a[i], b[i]), normA + Mul(a[i], a[i]), normB + Mul(b[i], b[i]);
    }
    var denom := Mul(sqrt(normA), sqrt(normB));
    if denom == 0.0 {
      return 0.0;
    }
    r := Div(dot, denom);
  }

  /** Times the product of the lengths, the similarity of two vectors of one dimension is their inner product. */
  lemma SimilarityIs(sqrt: real -> real, a: seq<real>, b: seq<real>)
    requires IsSqrt(sqrt)
    ensures if |a| != |b| then Similarity(sqrt, a, b) == 0.0
      else Mul(Similarity(sqrt, a, b), Mul(sqrt(Inner(a, a)), sqrt(Inner(b, b)))) == Inner(a, b)
  {
    if |a| == |b| > 0 {
      var d := Mul(sqrt(Inner(a, a)), sqrt(Inner(b, b)));
      if d != 0.0 {
        assert Mul(Div(Inner(a, b), d), d) == Inner(a, b);
      } else {
        NoLength(sqrt, a, b);
      }
    }
  }

  /** If one of the vectors has no length, the inner product is zero too. */
  lemma NoLength(sqrt: real -> real, a: seq<real>, b: seq<real>)
    requires IsSqrt(sqrt) && |a| == |b| && Mul(sqrt(Inner(a, a)), sqrt(Inner(b, b))) == 0.0
    ensures Inner(a, b) == 0.0
  {
    ListCauchySchwarz(a, b);
    InnerNonNegative(a);
    InnerNonNegative(b);
    SqOfProduct(sqrt(Inner(a, a)), sqrt(Inner(b, b)));
    SqNonNegative(Inner(a, b));
  }

  lemma SimilaritySymmetric(sqrt: real -> real, a: seq<real>, b: seq<real>)
    ensures Similarity(sqrt, a, b) == Similarity(sqrt, b, a)
  {
    if |a| == |b| {
      InnerSymmetric(a, b);
    }
  }

  /** Cauchy-Schwarz: similarities lie in [-1, 1]. */
  lemma SimilarityBounds(sqrt: real -> real, a: seq<real>, b: seq<real>)
    requires IsSqrt(sqrt)
    ensures -1.0 <= Similarity(sqrt, a, b) <= 1.0
  {
    if |a| == |b| {
      ListCauchySchwarz(a, b);
      InnerNonNegative(a);
      InnerNonNegative(b);
      var d := Mul(sqrt(Inner(a, a)), sqrt(Inner(b, b)));
      SqOfProduct(sqrt(Inner(a, a)), sqrt(Inner(b, b)));
      MulMonotone(0.0, sqrt(Inner(a, a)), sqrt(Inner(b, b)));
      FractionWithin(Inner(a, b), d);
    }
  }

  lemma FractionWithin(x: real, d: real)
    requires d >= 0.0 && Sq(x) <= Sq(d)
    ensures d != 0.0 ==> -1.0 <= Div(x, d) <= 1.0
  {
    assert Sq(-x) == Sq(x);
    SqLess(x, d);
    SqLess(-x, d);
  }

  lemma One(d: real)
    requires d != 0.0
    ensures Div(d, d) == 1.0
  {
  }

  /** A vector is fully similar to itself, unless it has no length. */
  lemma SelfSimilarity(sqrt: real -> real, a: seq<real>)
    requires IsSqrt(sqrt)
    ensures Similarity(sqrt, a, a) == if forall i :: 0 <= i < |a| ==> a[i] == 0.0 then 0.0 else 1.0
  {
    InnerNonNegative(a);
    RootZero(sqrt, Inner(a, a));
    var d := Mul(sqrt(Inner(a, a)), sqrt(Inner(a, a)));
    assert d == Sq(sqrt(Inner(a, a))) == Inner(a, a);
    if d != 0.0 {
      One(d);
    }
  }
}
