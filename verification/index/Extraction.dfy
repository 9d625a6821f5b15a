/** Character n-grams of a text. */
module Extraction {
  import opened Text

  const DEFAULT_N: nat := 3

  /** All runs of n characters of a word, left to right. */
  function Windows(n: nat, w: Word): seq<Word>
    requires n >= 1
  {
    if |w| < n then [] else [w[..n]] + Windows(n, w[1..])
  }

  /** A word shorter than n is kept as one gram. */
  function WordGrams(n: nat, w: Word): seq<Word>
    requires n >= 1
  {
    if |w| == 0 then [] else if |w| < n then [w] else Windows(n, w)
  }

  /** The grams of all words, in order. */
  function AllGrams(n: nat, words: seq<Word>): seq<Word>
    requires n >= 1
    decreases |words|, 1
  {
    if words == [] then [] else GramsToLast(n, words)
  }

  function GramsToLast(n: nat, words: seq<Word>): seq<Word>
    requires n >= 1 && words != []
    decreases |words|, 0
  {
    AllGrams(n, words[..|words| - 1]) + WordGrams(n, words[|words| - 1])
  }

  lemma LastWord(n: nat, ws: seq<Word>, w: Word)
    requires n >= 1
    ensures AllGrams(n, ws + [w]) == AllGrams(n, ws) + WordGrams(n, w)
  {
  }

  function SizeOf(n: int): (size: nat)
    ensures size >= 1 && size == if n <= 0 then 3 else n
  {
    if n <= 0 then DEFAULT_N else n
  }

  lemma SliceOfTail(w: Word, i: nat, j: nat)
    requires 1 <= i <= j <= |w|
    ensures w[1..][i - 1..j - 1] == w[i..j]
  {
  }

  /** Window i starts at position i. */
  lemma {:induction false} WindowAt(n: nat, w: Word, i: nat)
    requires n >= 1 && i + n <= |w|
    ensures |Windows(n, w)| == |w| - n + 1 && Windows(n, w)[i] == w[i..i + n]
  {
    if |w| > n {
      WindowAt(n, w[1..], if i > 0 then i - 1 else 0);
      if i > 0 {
        SliceOfTail(w, i, i + n);
      }
    } else {
      assert w[..n] == w && Windows(n, w[1..]) == [];
    }
  }

  lemma WindowCount(n: nat, w: Word)
    requires n >= 1
    ensures |Windows(n, w)| == if |w| < n then 0 else |w| - n + 1
  {
  }

  /** A word of n characters or more gives its windows, a shorter one itself, and an empty one nothing. */
  lemma GramsAre(n: nat, w: Word)
    requires n >= 1
    ensures |w| < n ==> WordGrams(n, w) == if w == "" then [] else [w]
    ensures |w| >= n ==> |WordGrams(n, w)| == |w| - n + 1
    ensures forall i :: 0 <= i <= |w| - n ==> WordGrams(n, w)[i] == w[i..i + n]
  {
    WindowCount(n, w);
    forall i | 0 <= i <= |w| - n ensures WordGrams(n, w)[i] == w[i..i + n] {
      WindowAt(n, w, i);
    }
  }

  /** The windows of one word, appended to those of the words before it. */
  method AppendWindows(ngrams: seq<Word>, n: nat, runes: Word) returns (r: seq<Word>)
    requires 1 <= n <= |runes|
    ensures r == ngrams + Windows(n, runes)
  {
    r := ngrams;
    WindowCount(n, runes);
    for i := 0 to |runes| - n + 1
      invariant r == ngrams + Windows(n, runes)[..i]
    {
      WindowAt(n, runes, i);
      r := r + [runes[i..i + n]];
    }
  }

  /** The grams of one word, appended to those of the words before it. */
  method AppendWord(ngrams: seq<Word>, n: nat, runes: Word) returns (r: seq<Word>)
    requires n >= 1
    ensures r == ngrams + WordGrams(n, runes)
  {
    if |runes| == 0 {
      return ngrams;
    }
    if |runes| < n {
      return ngrams + [runes];
    }
    r := AppendWindows(ngrams, n, runes);
  }

  lemma OneMoreWord(n: nat, words: seq<Word>, i: nat)
    requires n >= 1 && i < |words|
    ensures AllGrams(n, words[..i + 1]) == AllGrams(n, words[..i]) + WordGrams(n, words[i])
  {
    LastWord(n, words[..i], words[i]);
    assert words[..i + 1] == words[..i] + [words[i]];
  }

  method ExtractNgrams(al: Alphabet, text: string, n: int) returns (ngrams: seq<Word>)
    ensures ngrams == AllGrams(SizeOf(n), Words(al, text))
  {
    var words := Words(al, text);
    ngrams := [];
    for i := 0 to |words|
      invariant ngrams == AllGrams(SizeOf(n), words[..i])
    {
      OneMoreWord(SizeOf(n), words, i);
      ngrams := AppendWord(ngrams, SizeOf(n), words[i]);
    }
    assert words[..|words|] == words;
  }
}
