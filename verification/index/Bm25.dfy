/** The BM25 index: incremental postings with derived counters. */
module Bm25 {
  import opened Arith
  import opened MapSums
  import opened Oracles
  import opened Ranking
  import opened Items
  import opened Text
  import opened Postings
  import opened Weights

  const BM25_K1: real := 1.5
  const BM25_B: real := 0.75

  // ---------- scoring the documents by brute force ----------

  function DocLength(key: Key, tokens: seq<Word>): int { |tokens| }

  ghost function TotalTokens(docs: Docs): int { Total(docs, DocLength) }

  ghost function Average(docs: Docs): real {
    if docs == map[] then 0.0 else TotalTokens(docs) as real / |docs| as real
  }

  /** The length normalisation: 1 - b + b dl / avg. */
  function LengthFactor(b: real, dl: nat, avg: real): real
    requires avg > 0.0
  {
    1.0 - b + b * dl as real / avg
  }

  function Denominator(k1: real, b: real, tf: nat, dl: nat, avg: real): real
    requires avg > 0.0
  {
    tf as real + k1 * LengthFactor(b, dl, avg)
  }

  /** infinity stands for what a division by zero gives; nothing is assumed of it. */
  datatype Params = Params(ln: real -> real, k1: real, b: real, infinity: real)

  /** How much tf occurrences in a document of dl tokens count; the fallback for a zero average is never taken. */
  function Saturation(p: Params, tf: nat, dl: nat, avg: real): real {
    if avg > 0.0
    then Quotient(p.infinity, Mul(tf as real, p.k1 + 1.0), Denominator(p.k1, p.b, tf, dl, avg))
    else tf as real
  }

  function Quotient(infinity: real, x: real, y: real): real { if y == 0.0 then infinity else x / y }

  /** No division by zero occurs when these documents are scored. */
  ghost predicate Scorable(p: Params, docs: Docs) {
    forall key, tok :: key in docs && tok in docs[key] && Average(docs) > 0.0 ==>
      Denominator(p.k1, p.b, Occurrences(docs, tok, key), |docs[key]|, Average(docs)) != 0.0
  }

  /** What one occurrence of tok in the query adds to the score of a document. */
  ghost function Gain(p: Params, docs: Docs, tok: Word, key: Key): real
  {
    if key in docs && tok in docs[key] then Mul(Idf(p.ln, |docs|, Df(docs, tok)), Share(p, docs, tok, key)) else 0.0
  }

  ghost function Share(p: Params, docs: Docs, tok: Word, key: Key): real
    requires key in docs
  {
    Saturation(p, Occurrences(docs, tok, key), |docs[key]|, Average(docs))
  }

  ghost function Score(p: Params, docs: Docs, q: seq<Word>, key: Key): real
  {
    if q == [] then 0.0 else Score(p, docs, q[..|q| - 1], key) + Gain(p, docs, q[|q| - 1], key)
  }

  /** The score of every document that shares a token with the query. */
  ghost function BruteForce(p: Params, docs: Docs, q: seq<Word>): map<Key, real>
  {
    map key | key in Matching(docs, q) :: Score(p, docs, q, key)
  }

  lemma {:induction false} NoMatchNoScore(p: Params, docs: Docs, q: seq<Word>, key: Key)
    requires key !in Matching(docs, q)
    ensures Score(p, docs, q, key) == 0.0
  {
    if q != [] {
      var front, tok := q[..|q| - 1], q[|q| - 1];
      assert tok in q && forall t :: t in front ==> t in q;
      NoMatchNoScore(p, docs, front, key);
    }
  }

  // ---------- signs and bounds ----------

  lemma AveragePositive(docs: Docs, key: Key)
    requires key in docs && docs[key] != []
    ensures Average(docs) > 0.0
  {
    TotalPull(docs, DocLength, key);
    TotalNonNegative(docs - {key}, DocLength);
    QuotientPositive(TotalTokens(docs) as real, |docs| as real);
  }

  lemma FactorPositive(b: real, dl: nat, avg: real)
    requires 0.0 < b <= 1.0 && dl >= 1 && avg > 0.0
    ensures LengthFactor(b, dl, avg) > 0.0
  {
    MulPositive(b, dl as real);
    QuotientPositive(b * dl as real, avg);
  }

  /** With b at most one, a matching token counts strictly between 0 and k1 + 1. */
  lemma SaturationBounds(p: Params, tf: nat, dl: nat, avg: real)
    requires p.k1 > 0.0 && 0.0 < p.b <= 1.0 && tf >= 1 && dl >= 1 && avg > 0.0
    ensures Denominator(p.k1, p.b, tf, dl, avg) > tf as real
    ensures 0.0 < Saturation(p, tf, dl, avg) < p.k1 + 1.0
  {
    FactorPositive(p.b, dl, avg);
    MulPositive(p.k1, LengthFactor(p.b, dl, avg));
    var d := Denominator(p.k1, p.b, tf, dl, avg);
    assert d > tf as real;
    FractionBounds(p.infinity, tf as real, p.k1 + 1.0, d);
  }

  lemma FractionBounds(infinity: real, t: real, c: real, d: real)
    requires 0.0 < t < d && c > 0.0
    ensures 0.0 < Quotient(infinity, Mul(t, c), d) < c
  {
    MulPositive(t, c);
    var x := Quotient(infinity, Mul(t, c), d);
    QuotientPositive(Mul(t, c), d);
    MulPositive(d - t, c);
    assert Mul(x, d) == Mul(t, c);
    assert Mul(c - x, d) == Mul(d - t, c);
    if c - x <= 0.0 {
      MulMonotone(c - x, 0.0, d);
      assert false;
    }
  }

  /** The parameters for which no length normalisation can reach zero. */
  predicate Bounded(p: Params) { p.k1 > 0.0 && p.b > 0.0 && Mul(p.k1, p.b - 1.0) <= 1.0 }

  lemma DenominatorSplits(p: Params, tf: nat, dl: nat, avg: real)
    requires avg > 0.0
    ensures Denominator(p.k1, p.b, tf, dl, avg) == tf as real - Mul(p.k1, p.b - 1.0) + Mul(p.k1, p.b * dl as real / avg)
  {
  }

  lemma SaturationPositive(p: Params, tf: nat, dl: nat, avg: real)
    requires Bounded(p) && tf >= 1 && dl >= 1 && avg > 0.0
    ensures Denominator(p.k1, p.b, tf, dl, avg) > 0.0
    ensures Saturation(p, tf, dl, avg) > 0.0
  {
    MulPositive(p.b, dl as real);
    QuotientPositive(p.b * dl as real, avg);
    MulPositive(p.k1, p.b * dl as real / avg);
    DenominatorSplits(p, tf, dl, avg);
    MulPositive(tf as real, p.k1 + 1.0);
    QuotientPositive(Mul(tf as real, p.k1 + 1.0), Denominator(p.k1, p.b, tf, dl, avg));
  }

  lemma ScorableWhenBounded(p: Params, docs: Docs)
    requires Bounded(p)
    ensures Scorable(p, docs)
  {
    forall key, tok | key in docs && tok in docs[key] && Average(docs) > 0.0
      ensures Denominator(p.k1, p.b, Occurrences(docs, tok, key), |docs[key]|, Average(docs)) != 0.0
    {
      SaturationPositive(p, Occurrences(docs, tok, key), |docs[key]|, Average(docs));
    }
  }

  /** Then the scores do not depend on what stands for a division by zero. */
  lemma {:induction false} ScoresFinite(p: Params, infinity: real, docs: Docs, q: seq<Word>, key: Key)
    requires Scorable(p, docs)
    ensures Score(p, docs, q, key) == Score(p.(infinity := infinity), docs, q, key)
  {
    if q != [] {
      ScoresFinite(p, infinity, docs, q[..|q| - 1], key);
    }
  }

  lemma GainPositive(p: Params, docs: Docs, tok: Word, key: Key)
    requires IsLn(p.ln) && Bounded(p) && key in docs && tok in docs[key]
    ensures Gain(p, docs, tok, key) > 0.0
  {
    AveragePositive(docs, key);
    SaturationPositive(p, Occurrences(docs, tok, key), |docs[key]|, Average(docs));
    DfBound(docs, tok);
    IdfPositive(p.ln, |docs|, Df(docs, tok));
    MulPositive(Idf(p.ln, |docs|, Df(docs, tok)), Share(p, docs, tok, key));
  }

  /** Every document in a score table has a positive score. */
  lemma {:induction false} ScorePositive(p: Params, docs: Docs, q: seq<Word>, key: Key)
    requires IsLn(p.ln) && Bounded(p) && key in docs
    ensures Score(p, docs, q, key) >= 0.0
    ensures key in Matching(docs, q) ==> Score(p, docs, q, key) > 0.0
  {
    if q != [] {
      var front, tok := q[..|q| - 1], q[|q| - 1];
      ScorePositive(p, docs, front, key);
      assert forall t :: t in q <==> t in front || t == tok;
      if tok in docs[key] {
        GainPositive(p, docs, tok, key);
      }
    }
  }

  // ---------- b above one ----------

  ghost predicate SaturatesWithin(p: Params, docs: Docs) {
    forall key, tok :: key in docs && tok in docs[key] && Average(docs) > 0.0 ==>
      var tf := Occurrences(docs, tok, key);
      && Denominator(p.k1, p.b, tf, |docs[key]|, Average(docs)) != 0.0
      && 0.0 < Saturation(p, tf, |docs[key]|, Average(docs)) < p.k1 + 1.0
  }

  lemma WithinWhenBounded(p: Params, docs: Docs)
    requires p.k1 > 0.0 && 0.0 < p.b <= 1.0
    ensures SaturatesWithin(p, docs)
  {
    forall key, tok | key in docs && tok in docs[key] && Average(docs) > 0.0
      ensures var tf := Occurrences(docs, tok, key);
        && Denominator(p.k1, p.b, tf, |docs[key]|, Average(docs)) != 0.0
        && 0.0 < Saturation(p, tf, |docs[key]|, Average(docs)) < p.k1 + 1.0
    {
      SaturationBounds(p, Occurrences(docs, tok, key), |docs[key]|, Average(docs));
    }
  }

  /** The letters x and y, which lower-casing leaves alone in texts of x, y and blanks. */
  ghost predicate HasLetters(al: Alphabet) {
    && al.letterOrDigit('x') && al.letterOrDigit('y') && !al.letterOrDigit(' ')
    && forall s :: (forall i :: 0 <= i < |s| ==> s[i] in {'x', 'y', ' '}) ==> al.lower(s) == s
  }

  /** The constructor accepts every positive b, but only b <= 1 keeps all counts in range, whatever is stored. */
  lemma WithinIffBounded(al: Alphabet, p: Params)
    requires HasLetters(al) && p.k1 > 0.0 && p.b > 0.0
    ensures (forall items :: SaturatesWithin(p, TokensOf(al, items))) <==> p.b <= 1.0
  {
    if p.b <= 1.0 {
      forall items ensures SaturatesWithin(p, TokensOf(al, items)) {
        WithinWhenBounded(p, TokensOf(al, items));
      }
    } else {
      QuotientPositive(p.b, p.b - 1.0);
      var items := ShortBesideLong(al, p.b / (p.b - 1.0));
      TooShort(p, TokensOf(al, items));
    }
  }

  /** The text of n words y. */
  function Repeated(n: nat): string { if n == 0 then [] else ['y', ' '] + Repeated(n - 1) }

  lemma {:induction false} RepeatedFields(keep: char -> bool, n: nat)
    requires keep('y') && !keep(' ')
    ensures |Fields(Repeated(n), keep, [])| == n
    ensures forall i :: 0 <= i < |Repeated(n)| ==> Repeated(n)[i] in {'x', 'y', ' '}
  {
    if n > 0 {
      RepeatedFields(keep, n - 1);
      var s, blank := Repeated(n), [' '] + Repeated(n - 1);
      assert s[1..] == blank && blank[1..] == Repeated(n - 1) && [] + [s[0]] == ['y'];
      assert Fields(s, keep, []) == Fields(blank, keep, ['y']);
      assert Fields(blank, keep, ['y']) == [['y']] + Fields(blank[1..], keep, []);
    }
  }

  function TextItem(text: string): Item { Item(text, 0, [], 0, 0, None) }

  lemma TwoTexts(al: Alphabet, n: nat) returns (items: map<Key, Item>, long: seq<Word>)
    requires HasLetters(al)
    ensures |long| == n && TokensOf(al, items) == map["a" := ["x"], "b" := long]
  {
    items := map["a" := TextItem("x"), "b" := TextItem(Repeated(n))];
    long := Tokenize(al, Repeated(n));
    RepeatedFields(al.letterOrDigit, n);
    SingleWord("x", al.letterOrDigit, []);
    assert [] + "x" == "x";
  }

  /** One token beside a text of more than twice x tokens. */
  lemma ShortBesideLong(al: Alphabet, x: real) returns (items: map<Key, Item>)
    requires HasLetters(al) && x >= 0.0
    ensures var docs := TokensOf(al, items);
      "a" in docs && docs["a"] == ["x"] && Average(docs) > x
  {
    var n := (2.0 * x).Floor + 1;
    var long;
    items, long := TwoTexts(al, n);
    LongBeside(n, long);
  }

  lemma LongBeside(n: nat, long: seq<Word>)
    requires |long| == n
    ensures var docs: Docs := map["a" := ["x"], "b" := long];
      Average(docs) == (n + 1) as real / 2.0
  {
    var none: Docs := map[];
    var one: Docs := none["a" := ["x"]];
    var docs: Docs := map["a" := ["x"], "b" := long];
    assert docs == one["b" := long];
    TotalUpdate(none, DocLength, "a", ["x"]);
    TotalUpdate(one, DocLength, "b", long);
    assert TotalTokens(docs) == n + 1 && |docs| == 2;
  }

  /** Once the average exceeds x / c, x over it is less than c. */
  lemma LessThanShare(x: real, c: real, avg: real)
    requires x > 0.0 && c > 0.0 && avg > x / c
    ensures x / c > 0.0 && avg > 0.0 && x / avg < c
  {
    QuotientPositive(x, c);
    MulPositive(avg - x / c, c);
    assert Mul(avg - x / c, c) == Mul(avg, c) - x;
    var y := x / avg;
    assert Mul(y, avg) == x;
    if y >= c {
      MulMonotone(c, y, avg);
      assert false;
    }
  }

  lemma TooShort(p: Params, docs: Docs)
    requires p.k1 > 0.0 && p.b > 1.0 && "a" in docs && docs["a"] == ["x"]
    requires Average(docs) > p.b / (p.b - 1.0)
    ensures !SaturatesWithin(p, docs)
  {
    var avg := Average(docs);
    LessThanShare(p.b, p.b - 1.0, avg);
    assert Occurrences(docs, "x", "a") == 1 && "x" in docs["a"];
    var d := Denominator(p.k1, p.b, 1, 1, avg);
    MulMonotone(LengthFactor(p.b, 1, avg), 0.0, p.k1);
    assert Mul(LengthFactor(p.b, 1, avg), p.k1) == p.k1 * LengthFactor(p.b, 1, avg);
    assert d <= 1.0;
    if d != 0.0 {
      OutOfRange(p.k1 + 1.0, d);
    }
  }

  lemma OutOfRange(c: real, d: real)
    requires c > 0.0 && d <= 1.0 && d != 0.0
    ensures !(0.0 < 1 as real * c / d < c)
  {
  }

  // ---------- when every score is positive ----------

  /** Whatever is asked, every document that shares a token with it scores above zero. */
  ghost predicate AllPositive(p: Params, docs: Docs) {
    forall q, key :: key in Matching(docs, q) ==> Score(p, docs, q, key) > 0.0
  }

  /** With larger parameters a short document among long ones scores below zero. */
  lemma ShortIsNegative(p: Params, docs: Docs)
    requires IsLn(p.ln) && p.k1 > 0.0 && p.b > 0.0 && Mul(p.k1, p.b - 1.0) > 1.0
    requires "a" in docs && docs["a"] == ["x"]
    requires Average(docs) > Mul(p.k1, p.b) / (Mul(p.k1, p.b - 1.0) - 1.0)
    ensures "a" in Matching(docs, ["x"]) && Score(p, docs, ["x"], "a") < 0.0
  {
    var avg, c := Average(docs), Mul(p.k1, p.b - 1.0) - 1.0;
    MulPositive(p.k1, p.b);
    LessThanShare(Mul(p.k1, p.b), c, avg);
    DenominatorSplits(p, 1, 1, avg);
    assert Mul(p.k1, p.b * 1 as real / avg) == Mul(p.k1, p.b) / avg;
    assert Occurrences(docs, "x", "a") == 1 && "x" in docs["a"];
    NegativeQuotient(p.infinity, p.k1 + 1.0, Denominator(p.k1, p.b, 1, 1, avg));
    DfBound(docs, "x");
    IdfPositive(p.ln, |docs|, Df(docs, "x"));
    NegativeMul(Idf(p.ln, |docs|, Df(docs, "x")), Share(p, docs, "x", "a"));
    assert ["x"][..0] == [];
    assert Score(p, docs, ["x"], "a") == Score(p, docs, [], "a") + Gain(p, docs, "x", "a");
  }

  lemma NegativeQuotient(infinity: real, c: real, d: real)
    requires c > 0.0 && d < 0.0
    ensures Quotient(infinity, Mul(1 as real, c), d) < 0.0
  {
  }

  lemma NegativeMul(x: real, y: real)
    requires x > 0.0 && y < 0.0
    ensures Mul(x, y) < 0.0
  {
  }

  /** Scores are positive, whatever is stored and asked, exactly for these parameters. */
  lemma PositiveIffBounded(al: Alphabet, p: Params)
    requires HasLetters(al) && IsLn(p.ln) && p.k1 > 0.0 && p.b > 0.0
    ensures (forall items :: AllPositive(p, TokensOf(al, items))) <==> Mul(p.k1, p.b - 1.0) <= 1.0
  {
    if Mul(p.k1, p.b - 1.0) <= 1.0 {
      forall items, q, key | key in Matching(TokensOf(al, items), q)
        ensures Score(p, TokensOf(al, items), q, key) > 0.0
      {
        ScorePositive(p, TokensOf(al, items), q, key);
      }
    } else {
      var x := Mul(p.k1, p.b) / (Mul(p.k1, p.b - 1.0) - 1.0);
      MulPositive(p.k1, p.b);
      QuotientPositive(Mul(p.k1, p.b), Mul(p.k1, p.b - 1.0) - 1.0);
      var items := ShortBesideLong(al, x);
      ShortIsNegative(p, TokensOf(al, items));
      assert !AllPositive(p, TokensOf(al, items));
    }
  }

  // ---------- what a score is worth ----------

  /** Saturation is tf (k1 + 1) over tf + k1 (1 - b + b dl / avg). */
  lemma SaturationIs(p: Params, tf: nat, dl: nat, avg: real)
    requires avg > 0.0 && tf as real + p.k1 * (1.0 - p.b + p.b * dl as real / avg) != 0.0
    ensures Mul(Saturation(p, tf, dl, avg), tf as real + p.k1 * (1.0 - p.b + p.b * dl as real / avg)) ==
      Mul(tf as real, p.k1 + 1.0)
  {
    QuotientTimes(p.infinity, Mul(tf as real, p.k1 + 1.0), Denominator(p.k1, p.b, tf, dl, avg));
  }

  lemma QuotientTimes(infinity: real, x: real, y: real)
    requires y != 0.0
    ensures Mul(Quotient(infinity, x, y), y) == x
  {
  }

  /** More occurrences count more exactly when the length factor is positive, which b <= 1 ensures, or the
      denominator changes its sign. */
  lemma MoreOccurrencesCountMore(p: Params, tf: nat, tf': nat, dl: nat, avg: real)
    requires p.k1 > 0.0 && p.b > 0.0 && 1 <= tf < tf' && avg > 0.0
    requires Denominator(p.k1, p.b, tf, dl, avg) != 0.0 && Denominator(p.k1, p.b, tf', dl, avg) != 0.0
    ensures Saturation(p, tf, dl, avg) < Saturation(p, tf', dl, avg) <==>
      || LengthFactor(p.b, dl, avg) > 0.0
      || Denominator(p.k1, p.b, tf, dl, avg) < 0.0 < Denominator(p.k1, p.b, tf', dl, avg)
  {
    var n := Mul(p.k1, LengthFactor(p.b, dl, avg));
    SaturationOver(p, tf, dl, avg, n);
    SaturationOver(p, tf', dl, avg, n);
    SaturationsCompared(Saturation(p, tf, dl, avg), Saturation(p, tf', dl, avg), tf as real, tf' as real, n,
                        p.k1 + 1.0);
    SameSign(n, 1.0, LengthFactor(p.b, dl, avg), p.k1);
  }

  lemma SaturationOver(p: Params, tf: nat, dl: nat, avg: real, n: real)
    requires avg > 0.0 && n == Mul(p.k1, LengthFactor(p.b, dl, avg)) && Denominator(p.k1, p.b, tf, dl, avg) != 0.0
    ensures Denominator(p.k1, p.b, tf, dl, avg) == tf as real + n
    ensures Mul(Saturation(p, tf, dl, avg), tf as real + n) == Mul(tf as real, p.k1 + 1.0)
  {
    QuotientTimes(p.infinity, Mul(tf as real, p.k1 + 1.0), Denominator(p.k1, p.b, tf, dl, avg));
  }

  /** Fractions t c / (t + n) are ordered as t is, exactly when n is positive or there is a pole between them. */
  lemma SaturationsCompared(x: real, y: real, t: real, u: real, n: real, c: real)
    requires 0.0 < t < u && t + n != 0.0 && u + n != 0.0 && c > 0.0
    requires Mul(x, t + n) == Mul(t, c) && Mul(y, u + n) == Mul(u, c)
    ensures x < y <==> n > 0.0 || t + n < 0.0 < u + n
  {
    TermsMoved(x, y, t, u, n, c);
    TermsLeft(x, t, n, c);
    if t + n > 0.0 {
      SameSign(c - x, t + n, n, c);
      SameSign(y - x, u + n, c - x, u - t);
    } else {
      OtherSign(c - x, t + n, n, c);
      MulPositive(u - t, c - x);
      if u + n > 0.0 {
        SameSign(y - x, u + n, c - x, u - t);
      } else {
        OtherSign(y - x, u + n, c - x, u - t);
      }
    }
  }

  lemma OtherSign(x: real, a: real, y: real, b: real)
    requires a < 0.0 && b > 0.0 && (Mul(x, a) == Mul(y, b) || Mul(x, a) == Mul(b, y))
    ensures x < 0.0 <==> y > 0.0
    ensures x > 0.0 <==> y < 0.0
  {
    assert Mul(x, a) == Mul(-x, -a) && Mul(y, b) == Mul(b, y);
    SameSign(-x, -a, y, b);
    assert Mul(x, -a) == -Mul(x, a) && Mul(-y, b) == -Mul(y, b);
    SameSign(x, -a, -y, b);
  }

  lemma TermsMoved(x: real, y: real, t: real, u: real, n: real, c: real)
    requires Mul(x, t + n) == Mul(t, c) && Mul(y, u + n) == Mul(u, c)
    ensures Mul(y - x, u + n) == Mul(u - t, c - x)
  {
  }

  lemma TermsLeft(x: real, t: real, n: real, c: real)
    requires Mul(x, t + n) == Mul(t, c)
    ensures Mul(c - x, t + n) == Mul(n, c)
  {
  }

  lemma SameSign(x: real, a: real, y: real, b: real)
    requires a > 0.0 && b > 0.0 && (Mul(x, a) == Mul(y, b) || Mul(x, a) == Mul(b, y))
    ensures x > 0.0 <==> y > 0.0
  {
    if x > 0.0 { MulPositive(x, a); }
    if y > 0.0 { MulPositive(y, b); }
  }

  /** In a longer document the same occurrences count less, unless the denominator changes its sign. */
  lemma LongerCountsLess(p: Params, tf: nat, dl: nat, dl': nat, avg: real)
    requires p.k1 > 0.0 && p.b > 0.0 && tf >= 1 && dl < dl' && avg > 0.0
    requires Denominator(p.k1, p.b, tf, dl, avg) != 0.0 && Denominator(p.k1, p.b, tf, dl', avg) != 0.0
    ensures Saturation(p, tf, dl', avg) < Saturation(p, tf, dl, avg) <==>
      !(Denominator(p.k1, p.b, tf, dl, avg) < 0.0 < Denominator(p.k1, p.b, tf, dl', avg))
  {
    var c := Mul(tf as real, p.k1 + 1.0);
    QuotientTimes(p.infinity, c, Denominator(p.k1, p.b, tf, dl, avg));
    QuotientTimes(p.infinity, c, Denominator(p.k1, p.b, tf, dl', avg));
    DenominatorGrows(p, tf, dl, dl', avg);
    MulPositive(tf as real, p.k1 + 1.0);
    QuotientsCompared(Saturation(p, tf, dl, avg), Saturation(p, tf, dl', avg), Denominator(p.k1, p.b, tf, dl, avg),
                      Denominator(p.k1, p.b, tf, dl', avg), c);
  }

  /** Fractions c / d fall as d rises, except across the pole. */
  lemma QuotientsCompared(x: real, y: real, d: real, e: real, c: real)
    requires d < e && d != 0.0 && e != 0.0 && c > 0.0 && Mul(x, d) == c == Mul(y, e)
    ensures y < x <==> !(d < 0.0 < e)
  {
    assert Mul(1.0, c) == c;
    assert Mul(x - y, d) == Mul(y, e - d);
    if d > 0.0 {
      SameSign(y, e, 1.0, c);
      SameSign(x - y, d, y, e - d);
    } else {
      OtherSign(x, d, 1.0, c);
      if e > 0.0 {
        SameSign(y, e, 1.0, c);
      } else {
        OtherSign(y, e, 1.0, c);
        OtherSign(x - y, d, y, e - d);
      }
    }
  }

  lemma DenominatorGrows(p: Params, tf: nat, dl: nat, dl': nat, avg: real)
    requires p.k1 > 0.0 && p.b > 0.0 && dl < dl' && avg > 0.0
    ensures Denominator(p.k1, p.b, tf, dl, avg) < Denominator(p.k1, p.b, tf, dl', avg)
  {
    MulPositive(p.b, (dl' - dl) as real);
    QuotientPositive(p.b * (dl' - dl) as real, avg);
    MulPositive(p.k1, p.b * (dl' - dl) as real / avg);
    assert p.b * dl' as real / avg == p.b * dl as real / avg + p.b * (dl' - dl) as real / avg;
  }

  /** The score of one token, written out. */
  lemma SingleTokenScore(p: Params, docs: Docs, tok: Word, key: Key, tf: nat, dl: nat, avg: real, x: real)
    requires key in docs && tok in docs[key] && tf == multiset(docs[key])[tok] && dl == |docs[key]|
    requires Mul(x, |set k | k in docs && tok in docs[k]| as real + 0.5) == |docs| as real + 1.0
    requires avg == Average(docs) > 0.0 && tf as real + p.k1 * (1.0 - p.b + p.b * dl as real / avg) != 0.0
    ensures Mul(Score(p, docs, [tok], key), tf as real + p.k1 * (1.0 - p.b + p.b * dl as real / avg)) ==
      Mul(p.ln(x), Mul(tf as real, p.k1 + 1.0))
  {
    SaturationIs(p, tf, dl, avg);
    SingleToken(p, docs, tok, key, x);
    Regroup(p.ln(x), Saturation(p, tf, dl, avg), tf as real + p.k1 * (1.0 - p.b + p.b * dl as real / avg));
  }

  lemma SingleToken(p: Params, docs: Docs, tok: Word, key: Key, x: real)
    requires key in docs && tok in docs[key]
    requires Mul(x, |set k | k in docs && tok in docs[k]| as real + 0.5) == |docs| as real + 1.0
    ensures Score(p, docs, [tok], key) ==
      Mul(p.ln(x), Saturation(p, multiset(docs[key])[tok], |docs[key]|, Average(docs)))
  {
    assert (set k | k in docs && tok in docs[k]) == Containing(docs, tok);
    SmoothedIs(|docs|, Df(docs, tok));
    SameFactor(x, Smoothed(|docs|, Df(docs, tok)), Df(docs, tok) as real + 0.5);
    assert [tok][..0] == [];
    assert Score(p, docs, [tok], key) == Score(p, docs, [], key) + Gain(p, docs, tok, key);
  }

  lemma Regroup(x: real, y: real, z: real)
    ensures Mul(Mul(x, y), z) == Mul(x, Mul(y, z))
  {
  }

  /** The scores of the parts of a query add up. */
  lemma {:induction false} ScoreAdds(p: Params, docs: Docs, q: seq<Word>, r: seq<Word>, key: Key)
    ensures Score(p, docs, q + r, key) == Score(p, docs, q, key) + Score(p, docs, r, key)
  {
    if r == [] {
      assert q + r == q;
    } else {
      assert (q + r)[..|q + r| - 1] == q + r[..|r| - 1] && (q + r)[|q + r| - 1] == r[|r| - 1];
      ScoreAdds(p, docs, q, r[..|r| - 1], key);
    }
  }

  /** What the documents a and b score for each token of the query decides between them. */
  lemma {:induction false} TokenwiseBetter(p: Params, docs: Docs, q: seq<Word>, a: Key, b: Key)
    requires forall tok :: tok in q ==> Gain(p, docs, tok, b) < Gain(p, docs, tok, a)
    ensures if q == [] then Score(p, docs, q, b) == Score(p, docs, q, a)
      else Score(p, docs, q, b) < Score(p, docs, q, a)
  {
    if q != [] {
      TokenwiseBetter(p, docs, q[..|q| - 1], a, b);
    }
  }

  lemma GainsCompared(p: Params, docs: Docs, tok: Word, a: Key, b: Key)
    requires IsLn(p.ln) && a in docs && b in docs && tok in docs[a] && tok in docs[b]
    requires Share(p, docs, tok, b) < Share(p, docs, tok, a)
    ensures Gain(p, docs, tok, b) < Gain(p, docs, tok, a)
  {
    DfBound(docs, tok);
    IdfPositive(p.ln, |docs|, Df(docs, tok));
    var idf := Idf(p.ln, |docs|, Df(docs, tok));
    TimesLess(idf, Share(p, docs, tok, b), Share(p, docs, tok, a));
  }

  lemma TimesLess(x: real, y: real, z: real)
    requires x > 0.0 && y < z
    ensures Mul(x, y) < Mul(x, z)
  {
    MulPositive(x, z - y);
  }

  /** Of two documents of the same length, the one with more of the query's only token comes first, whatever the
      limit. */
  lemma MoreOccurrencesFirst(p: Params, docs: Docs, q: seq<Word>, tok: Word, topK: int, a: Key, b: Key)
    requires IsLn(p.ln) && p.k1 > 0.0 && p.b > 0.0 && q != [] && forall t :: t in q ==> t == tok
    requires a in docs && b in docs && |docs[a]| == |docs[b]|
    requires multiset(docs[a])[tok] > multiset(docs[b])[tok] >= 1
    requires p.b <= 1.0 || (Average(docs) > 0.0 && LengthFactor(p.b, |docs[a]|, Average(docs)) > 0.0)
    ensures Above(Truncate(Ranked(BruteForce(p, docs, q)), topK), a, b)
  {
    var tf, tf', dl, avg := multiset(docs[b])[tok], multiset(docs[a])[tok], |docs[a]|, Average(docs);
    assert tok in docs[a] && tok in docs[b] && q[0] in q;
    AveragePositive(docs, a);
    if p.b <= 1.0 {
      FactorPositive(p.b, dl, avg);
    }
    MulPositive(p.k1, LengthFactor(p.b, dl, avg));
    assert Denominator(p.k1, p.b, tf, dl, avg) == tf as real + Mul(p.k1, LengthFactor(p.b, dl, avg));
    assert Denominator(p.k1, p.b, tf', dl, avg) == tf' as real + Mul(p.k1, LengthFactor(p.b, dl, avg));
    MoreOccurrencesCountMore(p, tf, tf', dl, avg);
    GainsCompared(p, docs, tok, a, b);
    BetterFirst(p, docs, q, tok, topK, a, b);
  }

  /** And of two documents with the same number of occurrences, the shorter one. */
  lemma ShorterFirst(p: Params, docs: Docs, q: seq<Word>, tok: Word, topK: int, a: Key, b: Key)
    requires IsLn(p.ln) && p.k1 > 0.0 && p.b > 0.0 && q != [] && forall t :: t in q ==> t == tok
    requires a in docs && b in docs && |docs[a]| < |docs[b]|
    requires multiset(docs[a])[tok] == multiset(docs[b])[tok] >= 1
    requires Bounded(p) ||
      (Average(docs) > 0.0 && Denominator(p.k1, p.b, multiset(docs[a])[tok], |docs[a]|, Average(docs)) > 0.0)
    ensures Above(Truncate(Ranked(BruteForce(p, docs, q)), topK), a, b)
  {
    var tf, dl, avg := multiset(docs[a])[tok], |docs[a]|, Average(docs);
    assert tok in docs[a] && tok in docs[b] && q[0] in q;
    AveragePositive(docs, a);
    if Bounded(p) {
      SaturationPositive(p, tf, dl, avg);
    }
    DenominatorGrows(p, tf, dl, |docs[b]|, avg);
    LongerCountsLess(p, tf, dl, |docs[b]|, avg);
    GainsCompared(p, docs, tok, a, b);
    BetterFirst(p, docs, q, tok, topK, a, b);
  }

  lemma BetterFirst(p: Params, docs: Docs, q: seq<Word>, tok: Word, topK: int, a: Key, b: Key)
    requires q != [] && tok in q && forall t :: t in q ==> t == tok
    requires a in docs && b in docs && tok in docs[a] && tok in docs[b]
    requires Gain(p, docs, tok, b) < Gain(p, docs, tok, a)
    ensures Above(Truncate(Ranked(BruteForce(p, docs, q)), topK), a, b)
  {
    TokenwiseBetter(p, docs, q, a, b);
    HigherIsAbove(BruteForce(p, docs, q), topK, a, b);
  }

  // ---------- scoring by postings ----------

  /** What a token of the query adds to the documents in its postings. */
  function Parts(p: Params, idf: real, postings: map<Key, nat>, lengths: map<Key, nat>, avg: real): map<Key, real>
    requires postings.Keys <= lengths.Keys
  {
    map key | key in postings :: Mul(idf, Saturation(p, postings[key], lengths[key], avg))
  }

  ghost predicate AreGains(p: Params, docs: Docs, tok: Word, parts: map<Key, real>) {
    parts.Keys == Containing(docs, tok) && forall key :: key in parts ==> parts[key] == Gain(p, docs, tok, key)
  }

  lemma PartsAreGains(p: Params, docs: Docs, tok: Word, postings: map<Key, nat>, parts: map<Key, real>)
    requires postings.Keys == Containing(docs, tok)
    requires forall key :: key in postings ==> postings[key] == Occurrences(docs, tok, key)
    requires parts == Parts(p, Idf(p.ln, |docs|, |postings|), postings, Lengths(docs), Average(docs))
    ensures AreGains(p, docs, tok, parts)
  {
    assert |postings| == |postings.Keys|;
  }

  /** scores holds the brute-force scores of the query. */
  ghost predicate Tabulates(p: Params, docs: Docs, q: seq<Word>, scores: map<Key, real>) {
    scores.Keys == Matching(docs, q) && forall key :: key in scores ==> scores[key] == Score(p, docs, q, key)
  }

  lemma CreditKey(p: Params, docs: Docs, q: seq<Word>, tok: Word, scores: map<Key, real>, parts: map<Key, real>,
                  key: Key)
    requires Tabulates(p, docs, q, scores) && AreGains(p, docs, tok, parts)
    ensures At(scores, key) + At(parts, key) == Score(p, docs, q + [tok], key)
  {
    assert (q + [tok])[..|q|] == q;
    if key !in scores {
      NoMatchNoScore(p, docs, q, key);
    }
  }

  lemma MatchingMore(docs: Docs, q: seq<Word>, tok: Word)
    ensures Matching(docs, q + [tok]) == Matching(docs, q) + Containing(docs, tok)
  {
  }

  /** Adding the gains of one more token to the scores gives the scores of the longer query. */
  lemma CreditNext(p: Params, docs: Docs, q: seq<Word>, tok: Word, scores: map<Key, real>, parts: map<Key, real>)
    requires Tabulates(p, docs, q, scores) && AreGains(p, docs, tok, parts)
    ensures Tabulates(p, docs, q + [tok], Plus(scores, parts))
  {
    var r := Plus(scores, parts);
    MatchingMore(docs, q, tok);
    forall key | key in r ensures r[key] == Score(p, docs, q + [tok], key) {
      CreditKey(p, docs, q, tok, scores, parts, key);
    }
  }

  /** The inner loop of Search: credits every document in the postings of tok, in any order. */
  method CreditPostings(p: Params, tok: Word, postings: map<Key, nat>, lengths: map<Key, nat>, docCount: nat, avg: real,
                        scores: map<Key, real>, ghost docs: Docs, ghost q: seq<Word>)
    returns (r: map<Key, real>)
    requires Tabulates(p, docs, q, scores)
    requires lengths == Lengths(docs) && docCount == |docs| && (docs != map[] ==> avg == Average(docs))
    requires postings.Keys == Containing(docs, tok)
    requires forall key :: key in postings ==> postings[key] == Occurrences(docs, tok, key)
    ensures Tabulates(p, docs, q + [tok], r)
  {
    var parts := Parts(p, Idf(p.ln, docCount, |postings|), postings, lengths, avg);
    PartsAreGains(p, docs, tok, postings, parts);
    CreditNext(p, docs, q, tok, scores, parts);
    r := AddValues(scores, parts);
  }

  // ---------- the index ----------

  /** The fields that follow from the documents. */
  ghost predicate Derived(docs: Docs, inv: Inverted, lengths: map<Key, nat>, count: nat, total: int) {
    Counted(docs, inv, count) && lengths == Lengths(docs) && total == TotalTokens(docs)
  }

  function LengthAt(docs: Docs, key: Key): nat { if key in docs then |docs[key]| else 0 }

  lemma TotalsWith(docs: Docs, key: Key, tokens: seq<Word>)
    ensures TotalTokens(docs[key := tokens]) == TotalTokens(docs) - LengthAt(docs, key) + |tokens|
    ensures Lengths(docs[key := tokens]) == Lengths(docs)[key := |tokens|]
  {
    TotalUpdate(docs, DocLength, key, tokens);
  }

  lemma TotalsWithout(docs: Docs, key: Key)
    requires key in docs
    ensures TotalTokens(docs - {key}) == TotalTokens(docs) - |docs[key]|
    ensures Lengths(docs - {key}) == Lengths(docs) - {key}
  {
    TotalPull(docs, DocLength, key);
  }

  class Bm25Index {
    const p: Params
    const al: Alphabet
    var invertedIndex: Inverted
    var docLengths: map<Key, nat>
    var docTokens: Docs
    var avgDocLength: real
    var docCount: nat
    var totalTokens: int

    /** Everything is derived from docTokens; only the average may be stale, while there are no documents. */
    ghost predicate Valid()
      reads this
    {
      && p.k1 > 0.0 && p.b > 0.0
      && Derived(docTokens, invertedIndex, docLengths, docCount, totalTokens)
      && (docCount > 0 ==> avgDocLength == Average(docTokens))
    }

    constructor (al: Alphabet, ln: real -> real, k1: real, b: real, infinity: real)
      ensures Valid() && docTokens == map[] && this.al == al
      ensures p == Params(ln, if k1 <= 0.0 then 1.5 else k1, if b <= 0.0 then 0.75 else b, infinity)
    {
      this.al := al;
      p := Params(ln, if k1 <= 0.0 then BM25_K1 else k1, if b <= 0.0 then BM25_B else b, infinity);
      invertedIndex, docLengths, docTokens := map[], map[], map[];
      avgDocLength, docCount, totalTokens := 0.0, 0, 0;
    }

    method UpdateAverage()
      requires docCount == |docTokens| && totalTokens == TotalTokens(docTokens)
      modifies this`avgDocLength
      ensures docCount > 0 ==> avgDocLength == Average(docTokens)
    {
      if docCount > 0 {
        avgDocLength := totalTokens as real / docCount as real;
      } else {
        avgDocLength := 0.0;
      }
    }

    method IndexDocument(key: Key, value: string)
      requires Valid()
      modifies this
      ensures Valid() && docTokens == old(docTokens)[key := Tokenize(al, value)]
    {
      var tokens := Tokenize(al, value);
      TotalsWith(docTokens, key, tokens);
      var total := totalTokens - LengthAt(docTokens, key) + |tokens|;
      invertedIndex, docCount := Put(invertedIndex, docTokens, docCount, key, tokens);
      totalTokens, docLengths, docTokens := total, docLengths[key := |tokens|], docTokens[key := tokens];
      UpdateAverage();
    }

    method RemoveDocument(key: Key)
      requires Valid()
      modifies this
      ensures Valid() && docTokens == old(docTokens) - {key}
    {
      if key in docTokens {
        Withdraw(key);
        UpdateAverage();
      } else {
        NothingToDrop(docTokens, key);
      }
    }

    method Withdraw(key: Key)
      requires Derived(docTokens, invertedIndex, docLengths, docCount, totalTokens) && key in docTokens
      modifies this`invertedIndex, this`docLengths, this`docTokens, this`docCount, this`totalTokens
      ensures docTokens == old(docTokens) - {key}
      ensures Derived(docTokens, invertedIndex, docLengths, docCount, totalTokens)
    {
      TotalsWithout(docTokens, key);
      var total := totalTokens - |docTokens[key]|;
      invertedIndex, docCount := Drop(invertedIndex, docTokens, docCount, key);
      totalTokens, docLengths, docTokens := total, docLengths - {key}, docTokens - {key};
    }

    /** The average is left as it was. */
    method Clear()
      requires p.k1 > 0.0 && p.b > 0.0
      modifies this
      ensures Valid() && docTokens == map[] && avgDocLength == old(avgDocLength)
    {
      invertedIndex, docLengths, docTokens := map[], map[], map[];
      totalTokens, docCount := 0, 0;
    }

    /** Reads the items in any order; without items the average stays what it was. */
    method Rebuild(items: map<Key, Item>)
      requires Valid()
      modifies this
      ensures Valid() && docTokens == TokensOf(al, items)
      ensures items == map[] ==> avgDocLength == old(avgDocLength)
    {
      Clear();
      var todo := items.Keys;
      while todo != {}
        invariant Valid() && todo <= items.Keys
        invariant docTokens == TokensOf(al, items - todo)
        invariant items == map[] ==> avgDocLength == old(avgDocLength)
        decreases |todo|
      {
        var key :| key in todo;
        IndexDocument(key, items[key].value);
        OneMoreItem(al, items, todo, key);
        todo := todo - {key};
      }
      assert items - {} == items;
    }

    /** Adds the contribution of one query token to the scores. */
    method Credit(tok: Word, scores: map<Key, real>, ghost q: seq<Word>) returns (r: map<Key, real>)
      requires Valid() && Tabulates(p, docTokens, q, scores)
      ensures Tabulates(p, docTokens, q + [tok], r)
    {
      InIndex(invertedIndex, docTokens, tok);
      if tok in invertedIndex {
        PostingsKeys(invertedIndex, docTokens, tok);
        r := CreditPostings(p, tok, invertedIndex[tok], docLengths, docCount, avgDocLength, scores, docTokens, q);
      } else {
        r := scores;
        CreditNext(p, docTokens, q, tok, scores, map[]);
        assert Plus(scores, map[]) == scores;
      }
    }

    /** Scores by postings what a scan of all documents would. */
    method Search(query: string, topK: int) returns (ranked: seq<ScoredKey>)
      requires Valid()
      ensures ranked == Truncate(Ranked(BruteForce(p, docTokens, Tokenize(al, query))), topK)
    {
      var qTokens := Tokenize(al, query);
      var scores: map<Key, real> := map[];
      for i := 0 to |qTokens|
        invariant Tabulates(p, docTokens, qTokens[..i], scores)
      {
        scores := Credit(qTokens[i], scores, qTokens[..i]);
        assert qTokens[..i + 1] == qTokens[..i] + [qTokens[i]];
      }
      assert qTokens[..|qTokens|] == qTokens;
      assert scores == BruteForce(p, docTokens, qTokens);
      ranked := RankAndTruncate(scores, topK);
    }
  }
}
