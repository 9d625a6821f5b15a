/** Inverted indexes: token -> key -> number of occurrences. */
module Postings {
  import opened Ranking
  import opened Items
  import opened Text

  type Docs = map<Key, seq<Word>>
  type Inverted = map<Word, map<Key, nat>>

  /** The documents of a snapshot of the store. */
  function TokensOf(al: Alphabet, items: map<Key, Item>): Docs {
    map key | key in items :: Tokenize(al, items[key].value)
  }

  lemma OneMoreItem(al: Alphabet, items: map<Key, Item>, todo: set<Key>, key: Key)
    requires key in items && key in todo
    ensures TokensOf(al, items - (todo - {key})) == TokensOf(al, items - todo)[key := Tokenize(al, items[key].value)]
  {
  }

  /** The documents that have tokens. */
  function WithTokens(docs: Docs): Docs { map key | key in docs && docs[key] != [] :: docs[key] }

  function Lengths(docs: Docs): map<Key, nat> { map key | key in docs :: |docs[key]| }

  function ToSet(tokens: seq<Word>): set<Word> { set tok | tok in tokens }

  /** The term frequencies of a token list. */
  function Counts(tokens: seq<Word>): map<Word, nat> { map tok | tok in ToSet(tokens) :: multiset(tokens)[tok] }

  method CountTokens(tokens: seq<Word>) returns (counts: map<Word, nat>)
    ensures counts == Counts(tokens)
  {
    counts := map[];
    for i := 0 to |tokens|
      invariant counts == Counts(tokens[..i])
    {
      var tok := tokens[i];
      assert tokens[..i + 1] == tokens[..i] + [tok];
      counts := counts[tok := (if tok in counts then counts[tok] else 0) + 1];
    }
    assert tokens[..|tokens|] == tokens;
  }

  /** What the index says, and what a scan of the documents finds. */
  function Tf(inv: Inverted, tok: Word, key: Key): nat {
    if tok in inv && key in inv[tok] then inv[tok][key] else 0
  }

  function Occurrences(docs: Docs, tok: Word, key: Key): nat {
    if key in docs then multiset(docs[key])[tok] else 0
  }

  /** No postings list is empty and no count is zero. */
  ghost predicate Tidy(inv: Inverted) {
    && (forall tok :: tok in inv ==> inv[tok] != map[])
    && (forall tok, key :: tok in inv && key in inv[tok] ==> inv[tok][key] > 0)
  }

  /** The index of exactly these documents. */
  ghost predicate Indexes(inv: Inverted, docs: Docs) {
    && Tidy(inv)
    && forall tok, key :: Tf(inv, tok, key) == Occurrences(docs, tok, key)
  }

  /** The documents determine the index. */
  lemma IndexUnique(inv: Inverted, inv': Inverted, docs: Docs)
    requires Indexes(inv, docs) && Indexes(inv', docs)
    ensures inv == inv'
  {
    forall tok ensures tok in inv <==> tok in inv' {
      InIndex(inv, docs, tok);
      InIndex(inv', docs, tok);
    }
    forall tok | tok in inv ensures inv[tok] == inv'[tok] {
      assert forall key :: Tf(inv, tok, key) == Tf(inv', tok, key);
      assert forall key :: key in inv[tok] <==> Tf(inv, tok, key) > 0;
      assert forall key :: key in inv'[tok] <==> Tf(inv', tok, key) > 0;
    }
  }

  /** The documents that contain a token. */
  ghost function Containing(docs: Docs, tok: Word): set<Key> {
    set key | key in docs && tok in docs[key]
  }

  /** The documents that share a token with a query. */
  ghost function Matching(docs: Docs, q: seq<Word>): set<Key> {
    set key | key in docs && exists tok :: tok in q && tok in docs[key]
  }

  lemma PostingsKeys(inv: Inverted, docs: Docs, tok: Word)
    requires Indexes(inv, docs) && tok in inv
    ensures inv[tok].Keys == Containing(docs, tok)
    ensures forall key :: key in inv[tok] ==> key in docs && inv[tok][key] == multiset(docs[key])[tok]
  {
    forall key ensures key in inv[tok] <==> key in Containing(docs, tok) {
      assert Tf(inv, tok, key) == Occurrences(docs, tok, key);
    }
    forall key | key in inv[tok] ensures key in docs && inv[tok][key] == multiset(docs[key])[tok] {
      assert Tf(inv, tok, key) == Occurrences(docs, tok, key);
    }
  }

  lemma InIndex(inv: Inverted, docs: Docs, tok: Word)
    requires Indexes(inv, docs)
    ensures tok in inv <==> Containing(docs, tok) != {}
  {
    if tok in inv {
      PostingsKeys(inv, docs, tok);
    } else {
      forall key ensures key !in Containing(docs, tok) {
        assert Tf(inv, tok, key) == Occurrences(docs, tok, key);
      }
    }
  }

  /** The counts left when the given tokens of a document have been struck out. */
  ghost function Struck(docs: Docs, key: Key, tokens: seq<Word>, tok: Word, k: Key): nat {
    if k == key && tok in tokens then 0 else Occurrences(docs, tok, k)
  }

  ghost predicate StruckOut(inv: Inverted, docs: Docs, key: Key, tokens: seq<Word>) {
    Tidy(inv) && forall tok, k :: Tf(inv, tok, k) == Struck(docs, key, tokens, tok, k)
  }

  /** Strikes one token of a document out; an empty postings list goes with it. */
  function Strike(inv: Inverted, key: Key, tok: Word): Inverted {
    if tok !in inv then inv
    else
      var postings := inv[tok] - {key};
      if |postings| == 0 then inv - {tok} else inv[tok := postings]
  }

  lemma StrikeCounts(inv: Inverted, key: Key, tok: Word, t: Word, k: Key)
    ensures Tf(Strike(inv, key, tok), t, k) == if t == tok && k == key then 0 else Tf(inv, t, k)
  {
  }

  lemma StrikeTidy(inv: Inverted, key: Key, tok: Word)
    requires Tidy(inv)
    ensures Tidy(Strike(inv, key, tok))
  {
  }

  lemma StrikeNext(inv: Inverted, docs: Docs, key: Key, tokens: seq<Word>, tok: Word)
    requires StruckOut(inv, docs, key, tokens)
    ensures StruckOut(Strike(inv, key, tok), docs, key, tokens + [tok])
  {
    StrikeTidy(inv, key, tok);
    forall t, k ensures Tf(Strike(inv, key, tok), t, k) == Struck(docs, key, tokens + [tok], t, k) {
      StrikeCounts(inv, key, tok, t, k);
    }
  }

  lemma StruckAll(inv: Inverted, docs: Docs, key: Key)
    requires key in docs && StruckOut(inv, docs, key, docs[key])
    ensures Indexes(inv, docs - {key})
  {
  }

  /** Removes the postings of a document. */
  method RemovePostings(inv: Inverted, key: Key, tokens: seq<Word>, ghost docs: Docs) returns (r: Inverted)
    requires Indexes(inv, docs) && key in docs && docs[key] == tokens
    ensures Indexes(r, docs - {key})
  {
    r := inv;
    for i := 0 to |tokens|
      invariant StruckOut(r, docs, key, tokens[..i])
    {
      assert tokens[..i + 1] == tokens[..i] + [tokens[i]];
      StrikeNext(r, docs, key, tokens[..i], tokens[i]);
      r := Strike(r, key, tokens[i]);
    }
    assert tokens[..|tokens|] == tokens;
    StruckAll(r, docs, key);
  }

  /** Adds the postings of a new document. */
  method AddPostings(inv: Inverted, key: Key, tokens: seq<Word>, ghost docs: Docs) returns (r: Inverted)
    requires Indexes(inv, docs) && key !in docs
    ensures Indexes(r, docs[key := tokens])
  {
    r := inv;
    for i := 0 to |tokens|
      invariant Indexes(r, docs[key := tokens[..i]])
    {
      var tok := tokens[i];
      assert tokens[..i + 1] == tokens[..i] + [tok];
      ghost var before := r;
      if tok !in r {
        r := r[tok := map[]];
      }
      r := r[tok := r[tok][key := (if key in r[tok] then r[tok][key] else 0) + 1]];
      Posted(before, key, tok, r);
      forall t, k ensures Tf(r, t, k) == Occurrences(docs[key := tokens[..i + 1]], t, k) {
        OneMoreToken(docs, key, tokens[..i], tok, t, k);
      }
    }
    assert tokens[..|tokens|] == tokens;
  }

  lemma Posted(inv: Inverted, key: Key, tok: Word, r: Inverted)
    requires Tidy(inv)
    requires r == inv[tok := (if tok in inv then inv[tok] else map[])[key := Tf(inv, tok, key) + 1]]
    ensures Tidy(r)
    ensures forall t, k :: Tf(r, t, k) == Tf(inv, t, k) + if t == tok && k == key then 1 else 0
  {
    assert key in r[tok];
  }

  lemma OneMoreToken(docs: Docs, key: Key, tokens: seq<Word>, tok: Word, t: Word, k: Key)
    ensures Occurrences(docs[key := tokens + [tok]], t, k) ==
      Occurrences(docs[key := tokens], t, k) + if t == tok && k == key then 1 else 0
  {
  }

  // ---------- entering and removing documents ----------

  ghost predicate Counted(docs: Docs, inv: Inverted, count: nat) { Indexes(inv, docs) && count == |docs| }

  lemma Resized(docs: Docs, key: Key, tokens: seq<Word>)
    ensures |docs[key := tokens]| == |docs| + if key in docs then 0 else 1
    ensures key in docs ==> |docs - {key}| == |docs| - 1
  {
  }

  /** Enters a document, over its previous version if there is one. */
  method Put(inv: Inverted, docs: Docs, count: nat, key: Key, tokens: seq<Word>) returns (inv': Inverted, count': nat)
    requires Counted(docs, inv, count)
    ensures Counted(docs[key := tokens], inv', count')
  {
    Resized(docs, key, tokens);
    assert (docs - {key})[key := tokens] == docs[key := tokens];
    inv' := inv;
    if key in docs {
      inv' := RemovePostings(inv, key, docs[key], docs);
      count' := count;
    } else {
      NothingToDrop(docs, key);
      count' := count + 1;
    }
    inv' := AddPostings(inv', key, tokens, docs - {key});
  }

  /** Removes a document, if it is there. */
  method Drop(inv: Inverted, docs: Docs, count: nat, key: Key) returns (inv': Inverted, count': nat)
    requires Counted(docs, inv, count)
    ensures Counted(docs - {key}, inv', count')
  {
    inv', count' := inv, count;
    if key in docs {
      Resized(docs, key, docs[key]);
      inv' := RemovePostings(inv, key, docs[key], docs);
      count' := count - 1;
    } else {
      NothingToDrop(docs, key);
    }
  }

  lemma NothingToDrop(docs: Docs, key: Key)
    requires key !in docs
    ensures docs - {key} == docs
  {
  }
}
