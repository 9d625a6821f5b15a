/** Typo tolerance: how many n-grams a few edits can destroy. */
module TypoTolerance {
  import opened Ranking
  import opened Text
  import opened Postings
  import opened Extraction
  import opened Similarity
  import opened Ngram

  /** Replaces, inserts or deletes one character of a text. */
  datatype Edit = Edit(before: string, removed: string, added: string, after: string)

  ghost predicate Applies(e: Edit, text: string) {
    |e.removed| <= 1 && |e.added| <= 1 && text == e.before + e.removed + e.after
  }

  ghost function Edited(e: Edit): string { e.before + e.added + e.after }

  /** The edits, one after the other, turn the text s into t. */
  ghost predicate Turns(es: seq<Edit>, s: string, t: string) {
    if es == [] then s == t
    else Applies(es[0], s) && Turns(es[1..], Edited(es[0]), t)
  }

  /** The n-grams of a text whose words are the runs of characters to keep. */
  ghost function GramsIn(n: nat, keep: char -> bool, text: string): seq<Word>
    requires n >= 1
  {
    AllGrams(n, Fields(text, keep, []))
  }

  ghost function Lost(a: seq<Word>, b: seq<Word>): nat { |multiset(a) - multiset(b)| }

  // ---------- windows under an edit ----------

  lemma FirstWindow(n: nat, w: Word)
    requires n >= 1
    ensures |w| >= n ==> multiset(Windows(n, w)) == multiset{w[..n]} + multiset(Windows(n, w[1..]))
    ensures |w| < n ==> multiset(Windows(n, w)) == multiset{}
  {
  }

  /** A longer word that starts alike has the first window too; b is what is to be kept beside. */
  lemma FirstWindowKept(n: nat, x: Word, w: Word, b: multiset<Word>)
    requires 1 <= n <= |x| && n <= |w| && w[..n] == x[..n]
    requires multiset(Windows(n, x[1..])) + b <= multiset(Windows(n, w[1..]))
    ensures multiset(Windows(n, x)) + b <= multiset(Windows(n, w))
  {
    FirstWindow(n, x);
    FirstWindow(n, w);
  }

  lemma Tails(n: nat, x: Word, c: Word, y: Word)
    requires 1 <= n <= |x|
    ensures (x + c + y)[1..] == x[1..] + c + y && (x + c + y)[..n] == x[..n]
  {
  }

  lemma {:induction false} WindowsAfter(n: nat, u: Word, y: Word)
    requires n >= 1
    ensures multiset(Windows(n, y)) <= multiset(Windows(n, u + y))
  {
    if u != [] {
      var w := u + y;
      WindowsAfter(n, u[1..], y);
      assert w[1..] == u[1..] + y;
      FirstWindow(n, w);
      FirstWindow(n, y);
    } else {
      assert u + y == y;
    }
  }

  /** Windows that miss the middle of a word survive any change to it. */
  lemma {:induction false} WindowsAround(n: nat, x: Word, c: Word, y: Word)
    requires n >= 1
    ensures multiset(Windows(n, x)) + multiset(Windows(n, y)) <= multiset(Windows(n, x + c + y))
  {
    if |x| >= n {
      WindowsAround(n, x[1..], c, y);
      Tails(n, x, c, y);
      FirstWindowKept(n, x, x + c + y, multiset(Windows(n, y)));
    } else {
      WindowsAfter(n, x + c, y);
      FirstWindow(n, x);
    }
  }

  lemma MultisetBounds(a: multiset<Word>, b: multiset<Word>, c: multiset<Word>)
    ensures |a - b| <= |a|
    ensures c <= a && c <= b ==> |a - b| <= |a| - |c|
  {
    assert a == (a - b) + (a * b);
    assert |a| == |a - b| + |a * b|;
    if c <= a && c <= b {
      assert a * b == c + (a * b - c);
    }
  }

  // ---------- lists of words ----------

  lemma OneWordMore(n: nat, a: seq<Word>, front: seq<Word>, w: Word)
    requires n >= 1 && AllGrams(n, a + front) == AllGrams(n, a) + AllGrams(n, front)
    ensures AllGrams(n, a + (front + [w])) == AllGrams(n, a) + AllGrams(n, front + [w])
  {
    LastWord(n, front, w);
    LastWord(n, a + front, w);
    Associative(a, front, [w]);
    Associative(AllGrams(n, a), AllGrams(n, front), WordGrams(n, w));
  }

  lemma Associative(x: seq<Word>, y: seq<Word>, z: seq<Word>)
    ensures x + y + z == x + (y + z)
  {
  }

  lemma {:induction false} GramsOfLists(n: nat, a: seq<Word>, b: seq<Word>)
    requires n >= 1
    ensures AllGrams(n, a + b) == AllGrams(n, a) + AllGrams(n, b)
  {
    if b == [] {
      assert a + b == a;
    } else {
      GramsOfLists(n, a, b[..|b| - 1]);
      OneWordMore(n, a, b[..|b| - 1], b[|b| - 1]);
      assert b[..|b| - 1] + [b[|b| - 1]] == b;
    }
  }

  lemma Reorder(a: seq<Word>, b: seq<Word>, c: seq<Word>)
    ensures multiset(a + b + c) == multiset(a + c) + multiset(b)
  {
    assert multiset(a + b + c) == multiset(a) + multiset(b) + multiset(c);
    assert multiset(a + c) == multiset(a) + multiset(c);
  }

  /** What two collections share does not count as lost. */
  lemma Cancel(r: multiset<Word>, a: multiset<Word>, b: multiset<Word>, x: multiset<Word>, y: multiset<Word>)
    requires x == r + a && y == r + b
    ensures x - y == a - b
  {
  }

  // ---------- a text around an edit ----------

  /** The words that p finishes, and the one it leaves open; word is the run being read. */
  ghost function Closed(p: string, keep: char -> bool, word: Word): seq<Word> {
    if p == [] then []
    else if keep(p[0]) then Closed(p[1..], keep, word + [p[0]])
    else Flush(word) + Closed(p[1..], keep, [])
  }

  ghost function Open(p: string, keep: char -> bool, word: Word): Word {
    if p == [] then word else Open(p[1..], keep, if keep(p[0]) then word + [p[0]] else [])
  }

  /** The end of a word that q starts with, and the words after it. */
  ghost function Head(q: string, keep: char -> bool): Word {
    if q != [] && keep(q[0]) then [q[0]] + Head(q[1..], keep) else []
  }

  ghost function Rest(q: string, keep: char -> bool): seq<Word> {
    if q == [] then [] else if keep(q[0]) then Rest(q[1..], keep) else Fields(q[1..], keep, [])
  }

  lemma {:induction false} FieldsAfter(p: string, r: string, keep: char -> bool, word: Word)
    ensures Fields(p + r, keep, word) == Closed(p, keep, word) + Fields(r, keep, Open(p, keep, word))
  {
    if p == [] {
      assert p + r == r;
    } else {
      assert (p + r)[1..] == p[1..] + r && (p + r)[0] == p[0];
      FieldsAfter(p[1..], r, keep, if keep(p[0]) then word + [p[0]] else []);
    }
  }

  lemma {:induction false} FieldsBefore(q: string, keep: char -> bool, word: Word)
    ensures Fields(q, keep, word) == Flush(word + Head(q, keep)) + Rest(q, keep)
  {
    if q != [] && keep(q[0]) {
      FieldsBefore(q[1..], keep, word + [q[0]]);
      assert word + [q[0]] + Head(q[1..], keep) == word + Head(q, keep);
    } else {
      assert word + Head(q, keep) == word;
    }
  }

  /** The words that c, at most one character, makes of the open word x and the end y. */
  ghost function Middle(keep: char -> bool, x: Word, c: string, y: Word): seq<Word> {
    if c != [] && !keep(c[0]) then Flush(x) + Flush(y) else Flush(x + c + y)
  }

  lemma FieldsAround(p: string, c: string, q: string, keep: char -> bool)
    requires |c| <= 1
    ensures Fields(p + c + q, keep, []) ==
      Closed(p, keep, []) + Middle(keep, Open(p, keep, []), c, Head(q, keep)) + Rest(q, keep)
  {
    var x := Open(p, keep, []);
    assert p + c + q == p + (c + q);
    FieldsAfter(p, c + q, keep, []);
    if c == [] {
      assert c + q == q && x + c == x;
      FieldsBefore(q, keep, x);
    } else {
      assert (c + q)[1..] == q && [c[0]] == c && [] + Head(q, keep) == Head(q, keep);
      FieldsBefore(q, keep, if keep(c[0]) then x + c else []);
    }
  }

  lemma GramsOfFlush(n: nat, w: Word)
    requires n >= 1
    ensures AllGrams(n, Flush(w)) == WordGrams(n, w)
    ensures multiset(Windows(n, w)) <= multiset(WordGrams(n, w))
    ensures |WordGrams(n, w)| == if 0 < |w| < n then 1 else |Windows(n, w)|
  {
    LastWord(n, [], w);
    assert [] + [w] == [w];
  }

  /** Whatever c is, the windows of x and y are there, and at most n grams beside them. */
  lemma MiddleKeeps(n: nat, keep: char -> bool, x: Word, c: string, y: Word)
    requires n >= 1 && |c| <= 1
    ensures var g := AllGrams(n, Middle(keep, x, c, y));
      && multiset(Windows(n, x)) + multiset(Windows(n, y)) <= multiset(g)
      && |g| <= |Windows(n, x)| + |Windows(n, y)| + n
  {
    if c != [] && !keep(c[0]) {
      GramsOfFlush(n, x);
      GramsOfFlush(n, y);
      GramsOfLists(n, Flush(x), Flush(y));
    } else {
      GramsOfFlush(n, x + c + y);
      WindowsAround(n, x, c, y);
      WindowCount(n, x + c + y);
      WindowCount(n, x);
      WindowCount(n, y);
    }
  }

  /** Changing, splitting or joining words at one place destroys at most n grams. */
  lemma MiddleLoses(n: nat, keep: char -> bool, x: Word, c: string, d: string, y: Word)
    requires n >= 1 && |c| <= 1 && |d| <= 1
    ensures Lost(AllGrams(n, Middle(keep, x, c, y)), AllGrams(n, Middle(keep, x, d, y))) <= n
  {
    var a, b := AllGrams(n, Middle(keep, x, c, y)), AllGrams(n, Middle(keep, x, d, y));
    MiddleKeeps(n, keep, x, c, y);
    MiddleKeeps(n, keep, x, d, y);
    MultisetBounds(multiset(a), multiset(b), multiset(Windows(n, x)) + multiset(Windows(n, y)));
  }

  lemma GramsAround(n: nat, a: seq<Word>, m: seq<Word>, b: seq<Word>)
    requires n >= 1
    ensures multiset(AllGrams(n, a + m + b)) == multiset(AllGrams(n, a) + AllGrams(n, b)) + multiset(AllGrams(n, m))
  {
    GramsOfLists(n, a + m, b);
    GramsOfLists(n, a, m);
    Reorder(AllGrams(n, a), AllGrams(n, m), AllGrams(n, b));
  }

  /** One edit of one character anywhere in a text destroys at most n of its n-grams. */
  lemma OneEdit(n: nat, keep: char -> bool, e: Edit, text: string)
    requires n >= 1 && Applies(e, text)
    ensures Lost(GramsIn(n, keep, text), GramsIn(n, keep, Edited(e))) <= n
  {
    var a, b := Closed(e.before, keep, []), Rest(e.after, keep);
    var x, y := Open(e.before, keep, []), Head(e.after, keep);
    var c, d := Middle(keep, x, e.removed, y), Middle(keep, x, e.added, y);
    FieldsAround(e.before, e.removed, e.after, keep);
    FieldsAround(e.before, e.added, e.after, keep);
    GramsAround(n, a, c, b);
    GramsAround(n, a, d, b);
    MiddleLoses(n, keep, x, e.removed, e.added, y);
    Cancel(multiset(AllGrams(n, a) + AllGrams(n, b)), multiset(AllGrams(n, c)), multiset(AllGrams(n, d)),
           multiset(GramsIn(n, keep, text)), multiset(GramsIn(n, keep, Edited(e))));
  }

  lemma LostAlong(a: multiset<Word>, b: multiset<Word>, c: multiset<Word>)
    ensures |a - c| <= |a - b| + |b - c|
  {
    var x, y := a - c, (a - b) + (b - c);
    assert forall ng :: x[ng] <= y[ng];
    assert y == x + (y - x);
    assert |x + (y - x)| == |x| + |y - x|;
  }

  /** The q-gram lemma: d edits destroy at most n d n-grams. */
  lemma {:induction false} EditsLose(n: nat, keep: char -> bool, es: seq<Edit>, s: string, t: string)
    requires n >= 1 && Turns(es, s, t)
    ensures Lost(GramsIn(n, keep, s), GramsIn(n, keep, t)) <= n * |es|
  {
    if es == [] {
      assert multiset(GramsIn(n, keep, s)) - multiset(GramsIn(n, keep, t)) == multiset{};
    } else {
      var u := Edited(es[0]);
      OneEdit(n, keep, es[0], s);
      EditsLose(n, keep, es[1..], u, t);
      LostAlong(multiset(GramsIn(n, keep, s)), multiset(GramsIn(n, keep, u)), multiset(GramsIn(n, keep, t)));
      OneMore(n, |es|);
    }
  }

  lemma OneMore(n: nat, k: nat)
    requires k >= 1
    ensures n * k == n + n * (k - 1)
  {
  }

  // ---------- what a misspelt query finds ----------

  lemma SharedAtLeast(q: seq<Word>, d: seq<Word>)
    ensures Common(q, d) + Lost(d, q) == |d|
  {
  }

  /** A document with more than n d n-grams is among the results of any query d edits of the lower-cased text away. */
  lemma MisspeltQueryFinds(al: Alphabet, n: nat, docs: Docs, key: Key, value: string, query: string, es: seq<Edit>,
                           metric: Metric)
    requires IsAlphabet(al) && n >= 1 && key in docs && docs[key] == GramsOf(al, n, value)
    requires Turns(es, al.lower(value), al.lower(query)) && |docs[key]| > n * |es|
    ensures var q := GramsOf(al, n, query);
      && q != []
      && Common(q, docs[key]) >= |docs[key]| - n * |es|
      && exists x :: x in Ranked(Similarities(metric, docs, q)) && x.key == key
  {
    var q := GramsOf(al, n, query);
    WordsAreTokens(al, value);
    WordsAreTokens(al, query);
    EditsLose(n, al.letterOrDigit, es, al.lower(value), al.lower(query));
    SharedAtLeast(q, docs[key]);
    CommonBounds(q, docs[key]);
    var ng :| ng in q && ng in docs[key];
    var m := Similarities(metric, docs, q);
    assert key in m;
    assert ScoredKey(key, m[key]) in Ranked(m);
  }

  function Mapped(low: char -> char, s: string): string { seq(|s|, i requires 0 <= i < |s| => low(s[i])) }

  /** The lower-case mapping works on one character at a time. */
  ghost predicate Runewise(al: Alphabet) { exists low :: LowersBy(al, low) }

  ghost predicate LowersBy(al: Alphabet, low: char -> char) { forall s :: al.lower(s) == Mapped(low, s) }

  lemma LowerOfParts(al: Alphabet, a: string, b: string, c: string)
    requires Runewise(al)
    ensures al.lower(a + b + c) == al.lower(a) + al.lower(b) + al.lower(c)
    ensures |al.lower(b)| == |b|
  {
    var low :| LowersBy(al, low);
    assert Mapped(low, a + b + c) == Mapped(low, a) + Mapped(low, b) + Mapped(low, c);
  }

  ghost function LowerEdit(al: Alphabet, e: Edit): Edit {
    Edit(al.lower(e.before), al.lower(e.removed), al.lower(e.added), al.lower(e.after))
  }

  ghost function LowerEdits(al: Alphabet, es: seq<Edit>): seq<Edit> {
    if es == [] then [] else [LowerEdit(al, es[0])] + LowerEdits(al, es[1..])
  }

  lemma {:induction false} LowerTurns(al: Alphabet, es: seq<Edit>, s: string, t: string)
    requires Runewise(al) && Turns(es, s, t)
    ensures Turns(LowerEdits(al, es), al.lower(s), al.lower(t)) && |LowerEdits(al, es)| == |es|
  {
    if es != [] {
      var e := es[0];
      LowerOfParts(al, e.before, e.removed, e.after);
      LowerOfParts(al, e.before, e.added, e.after);
      LowerTurns(al, es[1..], Edited(e), t);
      assert LowerEdits(al, es)[1..] == LowerEdits(al, es[1..]);
    }
  }

  /** The same for edits of the text as it was written. */
  lemma MisspeltTextFinds(al: Alphabet, n: nat, docs: Docs, key: Key, value: string, query: string, es: seq<Edit>,
                          metric: Metric)
    requires IsAlphabet(al) && Runewise(al) && n >= 1 && key in docs && docs[key] == GramsOf(al, n, value)
    requires Turns(es, value, query) && |docs[key]| > n * |es|
    ensures var q := GramsOf(al, n, query);
      && q != []
      && Common(q, docs[key]) >= |docs[key]| - n * |es|
      && exists x :: x in Ranked(Similarities(metric, docs, q)) && x.key == key
  {
    LowerTurns(al, es, value, query);
    MisspeltQueryFinds(al, n, docs, key, value, query, LowerEdits(al, es), metric);
  }

  lemma NoGramsOfNothing(al: Alphabet, n: nat)
    requires Runewise(al) && n >= 1
    ensures GramsOf(al, n, "") == []
  {
    var low :| LowersBy(al, low);
    assert al.lower("") == Mapped(low, "") == "";
    assert Words(al, "") == [];
  }

  // ---------- the bound is sharp ----------

  /** The words ws have length 2 n - 1; vs are these with every middle character replaced by one not in any of them. */
  ghost predicate Spoilt(n: nat, ws: seq<Word>, vs: seq<Word>)
    requires n >= 1
  {
    && |vs| == |ws|
    && (forall i :: 0 <= i < |ws| ==> |ws[i]| == |vs[i]| == 2 * n - 1)
    && (forall i :: 0 <= i < |ws| ==> ws[i][..n - 1] == vs[i][..n - 1] && ws[i][n..] == vs[i][n..])
    && (forall i, j :: 0 <= i < |ws| && 0 <= j < |ws| ==> vs[j][n - 1] !in ws[i])
  }

  function Same(n: nat, c: char): Word { seq(n, i => c) }

  /** There are such words for every n, every number of words and any two characters. */
  lemma SpoiltWords(n: nat, d: nat, x: char, y: char) returns (ws: seq<Word>, vs: seq<Word>)
    requires n >= 1 && x != y
    ensures Spoilt(n, ws, vs) && |ws| == d
    ensures forall i, c :: 0 <= i < d && (c in ws[i] || c in vs[i]) ==> c in {x, y}
  {
    ws := seq(d, i => Same(2 * n - 1, x));
    vs := seq(d, i => Same(2 * n - 1, x)[n - 1 := y]);
  }

  /** The text of the words, each followed by a blank. */
  ghost function Joined(ws: seq<Word>): string {
    if ws == [] then [] else ws[0] + [' '] + Joined(ws[1..])
  }

  ghost predicate AreWords(keep: char -> bool, ws: seq<Word>) {
    !keep(' ') && forall i :: 0 <= i < |ws| ==> ws[i] != [] && forall c :: c in ws[i] ==> keep(c)
  }

  lemma {:induction false} KeptRun(keep: char -> bool, w: Word, r: string, word: Word)
    requires forall c :: c in w ==> keep(c)
    ensures Fields(w + r, keep, word) == Fields(r, keep, word + w)
  {
    if w == [] {
      assert w + r == r && word + w == word;
    } else {
      assert (w + r)[1..] == w[1..] + r && word + [w[0]] + w[1..] == word + w;
      KeptRun(keep, w[1..], r, word + [w[0]]);
    }
  }

  lemma {:induction false} FieldsOfJoined(keep: char -> bool, ws: seq<Word>)
    requires AreWords(keep, ws)
    ensures Fields(Joined(ws), keep, []) == ws
  {
    if ws != [] {
      var r := [' '] + Joined(ws[1..]);
      assert Joined(ws) == ws[0] + r && r[1..] == Joined(ws[1..]) && [] + ws[0] == ws[0];
      KeptRun(keep, ws[0], r, []);
      FieldsOfJoined(keep, ws[1..]);
      assert Fields(r, keep, ws[0]) == [ws[0]] + Fields(r[1..], keep, []);
    }
  }

  lemma {:induction false} JoinedParts(ws: seq<Word>, vs: seq<Word>)
    ensures Joined(ws + vs) == Joined(ws) + Joined(vs)
  {
    if ws == [] {
      assert ws + vs == vs;
    } else {
      assert (ws + vs)[1..] == ws[1..] + vs && (ws + vs)[0] == ws[0];
      JoinedParts(ws[1..], vs);
    }
  }

  /** Replaces the middle of word i of the text whose words before the i-th are spoilt. */
  ghost function Spoil(n: nat, ws: seq<Word>, vs: seq<Word>, i: nat): Edit
    requires n >= 1 && Spoilt(n, ws, vs) && i < |ws|
  {
    Edit(Joined(vs[..i]) + ws[i][..n - 1], [ws[i][n - 1]], [vs[i][n - 1]], ws[i][n..] + [' '] + Joined(ws[i + 1..]))
  }

  /** The edits that replace the middles of the words from the i-th on. */
  ghost function Spoils(n: nat, ws: seq<Word>, vs: seq<Word>, i: nat): seq<Edit>
    requires n >= 1 && Spoilt(n, ws, vs) && i <= |ws|
    decreases |ws| - i
  {
    if i == |ws| then [] else [Spoil(n, ws, vs, i)] + Spoils(n, ws, vs, i + 1)
  }

  lemma Regroup(a: string, l: string, m: string, r: string, blank: string, rest: string)
    ensures a + (l + m + r + blank + rest) == a + l + m + (r + blank + rest)
    ensures a + (l + m + r + blank) + rest == a + l + m + (r + blank + rest)
  {
  }

  lemma OneSpoilt(n: nat, ws: seq<Word>, vs: seq<Word>, i: nat)
    requires n >= 1 && Spoilt(n, ws, vs) && i < |ws|
    ensures Applies(Spoil(n, ws, vs, i), Joined(vs[..i]) + Joined(ws[i..]))
    ensures Edited(Spoil(n, ws, vs, i)) == Joined(vs[..i + 1]) + Joined(ws[i + 1..])
  {
    var w, v := ws[i], vs[i];
    assert w == w[..n - 1] + [w[n - 1]] + w[n..];
    assert v == w[..n - 1] + [v[n - 1]] + w[n..];
    assert ws[i..][1..] == ws[i + 1..];
    Regroup(Joined(vs[..i]), w[..n - 1], [w[n - 1]], w[n..], [' '], Joined(ws[i + 1..]));
    Regroup(Joined(vs[..i]), w[..n - 1], [v[n - 1]], w[n..], [' '], Joined(ws[i + 1..]));
    OneJoined(vs, i);
  }

  lemma OneJoined(vs: seq<Word>, i: nat)
    requires i < |vs|
    ensures Joined(vs[..i + 1]) == Joined(vs[..i]) + (vs[i] + [' '])
  {
    assert vs[..i + 1] == vs[..i] + [vs[i]];
    JoinedParts(vs[..i], [vs[i]]);
    assert Joined([vs[i]]) == vs[i] + [' '] + Joined([]);
  }

  lemma {:induction false} SpoilsTurn(n: nat, ws: seq<Word>, vs: seq<Word>, i: nat)
    requires n >= 1 && Spoilt(n, ws, vs) && i <= |ws|
    ensures Turns(Spoils(n, ws, vs, i), Joined(vs[..i]) + Joined(ws[i..]), Joined(vs))
    ensures |Spoils(n, ws, vs, i)| == |ws| - i
    decreases |ws| - i
  {
    if i == |ws| {
      assert vs[..i] == vs && ws[i..] == [] && Joined(vs) + [] == Joined(vs);
    } else {
      OneSpoilt(n, ws, vs, i);
      SpoilsTurn(n, ws, vs, i + 1);
      assert Spoils(n, ws, vs, i)[1..] == Spoils(n, ws, vs, i + 1);
    }
  }

  lemma {:induction false} CountGrams(n: nat, ws: seq<Word>)
    requires n >= 1 && forall i :: 0 <= i < |ws| ==> |ws[i]| == 2 * n - 1
    ensures |AllGrams(n, ws)| == n * |ws|
  {
    if ws != [] {
      var front, w := ws[..|ws| - 1], ws[|ws| - 1];
      assert ws == front + [w];
      CountGrams(n, front);
      LastWord(n, front, w);
      WindowCount(n, w);
      OneMore(n, |ws|);
    }
  }

  /** Every gram of a word of length 2 n - 1 covers the middle one of its characters. */
  lemma MiddleCovered(n: nat, w: Word, ng: Word)
    requires n >= 1 && |w| == 2 * n - 1 && ng in WordGrams(n, w)
    ensures w[n - 1] in ng && forall c :: c in ng ==> c in w
  {
    WindowCount(n, w);
    var i :| 0 <= i < n && Windows(n, w)[i] == ng;
    WindowAt(n, w, i);
    assert ng[n - 1 - i] == w[n - 1];
  }

  lemma {:induction false} GramOfSome(n: nat, ws: seq<Word>, ng: Word) returns (i: nat)
    requires n >= 1 && ng in AllGrams(n, ws)
    ensures i < |ws| && ng in WordGrams(n, ws[i])
    decreases |ws|
  {
    var front, w := ws[..|ws| - 1], ws[|ws| - 1];
    assert ws == front + [w];
    LastWord(n, front, w);
    if ng in WordGrams(n, w) {
      i := |ws| - 1;
    } else {
      i := GramOfSome(n, front, ng);
    }
  }

  lemma NotInBoth(n: nat, ws: seq<Word>, vs: seq<Word>, ng: Word)
    requires n >= 1 && Spoilt(n, ws, vs)
    ensures !(ng in AllGrams(n, vs) && ng in AllGrams(n, ws))
  {
    if ng in AllGrams(n, vs) && ng in AllGrams(n, ws) {
      var j := GramOfSome(n, vs, ng);
      var i := GramOfSome(n, ws, ng);
      MiddleCovered(n, vs[j], ng);
      MiddleCovered(n, ws[i], ng);
      assert false;
    }
  }

  /** Texts of spoilt words: n d n-grams, and d edits leave none of them. */
  lemma BoundIsSharp(n: nat, keep: char -> bool, ws: seq<Word>, vs: seq<Word>)
    requires n >= 1 && Spoilt(n, ws, vs) && AreWords(keep, ws) && AreWords(keep, vs)
    ensures Turns(Spoils(n, ws, vs, 0), Joined(ws), Joined(vs)) && |Spoils(n, ws, vs, 0)| == |ws|
    ensures |GramsIn(n, keep, Joined(ws))| == n * |Spoils(n, ws, vs, 0)|
    ensures Common(GramsIn(n, keep, Joined(vs)), GramsIn(n, keep, Joined(ws))) == 0
  {
    FieldsOfJoined(keep, ws);
    FieldsOfJoined(keep, vs);
    SpoilsTurn(n, ws, vs, 0);
    assert ws[0..] == ws && vs[..0] == [] && [] + Joined(ws) == Joined(ws);
    CountGrams(n, ws);
    CommonBounds(AllGrams(n, vs), AllGrams(n, ws));
    if ng :| ng in AllGrams(n, vs) && ng in AllGrams(n, ws) {
      NotInBoth(n, ws, vs, ng);
    }
  }
}
