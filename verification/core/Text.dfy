/** Lower-casing and splitting of text. */
module Text {

  type Word = string

  /** Unicode's case folding and character classes, as far as the store uses them. */
  datatype Alphabet = Alphabet(lower: string -> string, letterOrDigit: char -> bool, space: char -> bool)

  /** The blank is white space, and letters and digits are not. */
  ghost predicate IsAlphabet(al: Alphabet) {
    al.space(' ') && forall c :: al.letterOrDigit(c) ==> !al.space(c)
  }

  /** strings.FieldsFunc: the maximal runs of characters to keep; word is the run being read. */
  function Fields(s: string, keep: char -> bool, word: Word): seq<Word> {
    if s == [] then Flush(word)
    else if keep(s[0]) then Fields(s[1..], keep, word + [s[0]])
    else Flush(word) + Fields(s[1..], keep, [])
  }

  function Flush(word: Word): seq<Word> { if word == [] then [] else [word] }

  function Tokenize(al: Alphabet, text: string): seq<Word> {
    Fields(al.lower(text), al.letterOrDigit, [])
  }

  /** Letters and digits are kept, everything else becomes a blank. */
  function Normalize(al: Alphabet, s: string): string {
    if s == [] then []
    else [if al.letterOrDigit(s[0]) then s[0] else ' '] + Normalize(al, s[1..])
  }

  /** The words of the n-gram extractor: strings.Fields of the normalised text. */
  function Words(al: Alphabet, text: string): seq<Word> {
    Fields(Normalize(al, al.lower(text)), c => !al.space(c), [])
  }

  /** Both ways of splitting text find the same words. */
  lemma {:induction false} NormalizedFields(al: Alphabet, s: string, word: Word)
    requires IsAlphabet(al)
    ensures Fields(Normalize(al, s), c => !al.space(c), word) == Fields(s, al.letterOrDigit, word)
  {
    if s != [] {
      assert Normalize(al, s)[1..] == Normalize(al, s[1..]);
      if al.letterOrDigit(s[0]) {
        NormalizedFields(al, s[1..], word + [s[0]]);
      } else {
        NormalizedFields(al, s[1..], []);
      }
    }
  }

  lemma WordsAreTokens(al: Alphabet, text: string)
    requires IsAlphabet(al)
    ensures Words(al, text) == Tokenize(al, text)
  {
    NormalizedFields(al, al.lower(text), []);
  }

  /** Any character that is not kept separates: no word crosses it, and none is lost. */
  lemma {:induction false} SplitAt(a: string, c: char, b: string, keep: char -> bool, word: Word)
    requires !keep(c)
    ensures Fields(a + [c] + b, keep, word) == Fields(a, keep, word) + Fields(b, keep, [])
  {
    var s := a + [c] + b;
    if a == [] {
      assert s[0] == c && s[1..] == b;
    } else {
      assert s[0] == a[0] && s[1..] == a[1..] + [c] + b;
      SplitAt(a[1..], c, b, keep, if keep(a[0]) then word + [a[0]] else []);
    }
  }

  /** Texts that differ only in case have the same words. */
  lemma CaseIrrelevant(al: Alphabet, s: string, t: string)
    requires al.lower(s) == al.lower(t)
    ensures Tokenize(al, s) == Tokenize(al, t) && Words(al, s) == Words(al, t)
  {
  }

  /** A text that is a single word yields that word. */
  lemma {:induction false} SingleWord(s: string, keep: char -> bool, word: Word)
    requires forall i :: 0 <= i < |s| ==> keep(s[i])
    ensures Fields(s, keep, word) == Flush(word + s)
  {
    if s == [] {
      assert word + s == word;
    } else {
      SingleWord(s[1..], keep, word + [s[0]]);
      assert word + [s[0]] + s[1..] == word + s;
    }
  }
}
