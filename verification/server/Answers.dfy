/** Answers to searches: results enriched with the stored values. */
module Answers {
  import opened Ranking
  import opened Items
  import opened Store

  /** Value is None when the key is not, or no longer, in the store. */
  datatype SearchResult = SearchResult(key: Key, value: Option<string>, score: real)

  /** The clock as the calls read it: reading 2 i when result i is looked up, then reading 2 i + 1. */
  type Clock = nat -> int

  function Get(data: Data, key: Key, clock: Clock, i: nat): Data { AfterGet(data, key, clock(2 * i), clock(2 * i + 1)) }

  /** The store after the first n results have been looked up. */
  ghost function Looked(data: Data, scored: seq<ScoredKey>, clock: Clock, n: nat): Data
    requires n <= |scored|
  {
    if n == 0 then data else Get(Looked(data, scored, clock, n - 1), scored[n - 1].key, clock, n - 1)
  }

  function AnswerTo(data: Data, x: ScoredKey, now: int): SearchResult {
    SearchResult(x.key, if x.key in data && !Expired(data[x.key], now) then Some(data[x.key].value) else None, x.score)
  }

  ghost predicate Answered(data: Data, scored: seq<ScoredKey>, clock: Clock, out: seq<SearchResult>) {
    |out| == |scored| && forall i :: 0 <= i < |out| ==> out[i] == AnswerTo(data, scored[i], clock(2 * i))
  }

  /** A key that has not been looked up yet is as it was. */
  lemma {:induction false} NotYetLooked(data: Data, scored: seq<ScoredKey>, clock: Clock, n: nat, key: Key)
    requires n <= |scored| && forall i :: 0 <= i < n ==> scored[i].key != key
    ensures var after := Looked(data, scored, clock, n);
      (key in after <==> key in data) && (key in data ==> after[key] == data[key])
  {
    if n > 0 {
      NotYetLooked(data, scored, clock, n - 1, key);
    }
  }

  /** A key that has been looked up once was counted once, or removed if it had expired. */
  lemma {:induction false} LookedOnce(data: Data, scored: seq<ScoredKey>, clock: Clock, n: nat, i: nat)
    requires DistinctKeys(scored) && i < n <= |scored|
    ensures var key, after := scored[i].key, Looked(data, scored, clock, n);
      (key in after <==> key in data && !Expired(data[key], clock(2 * i))) &&
      (key in after ==> after[key] == Touched(data[key], clock(2 * i + 1)))
  {
    if i == n - 1 {
      NotYetLooked(data, scored, clock, n - 1, scored[i].key);
    } else {
      LookedOnce(data, scored, clock, n - 1, i);
      assert scored[i].key != scored[n - 1].key;
    }
  }

  /** What a search leaves of the store: live results have one access more, results that have
      expired are gone, everything else is untouched; the byte count is right either way. */
  ghost predicate Accessed(data: Data, scored: seq<ScoredKey>, clock: Clock, after: Data) {
    && after.Keys <= data.Keys
    && (forall i :: 0 <= i < |scored| && scored[i].key in data ==>
        if Expired(data[scored[i].key], clock(2 * i)) then scored[i].key !in after
        else scored[i].key in after && after[scored[i].key] == Touched(data[scored[i].key], clock(2 * i + 1)))
    && forall key :: key in data && (forall x :: x in scored ==> x.key != key) ==>
       key in after && after[key] == data[key]
  }

  /** An item that is gone afterwards was looked up once it had expired. */
  lemma GoneHasExpired(data: Data, scored: seq<ScoredKey>, clock: Clock, after: Data, key: Key) returns (i: nat)
    requires Accessed(data, scored, clock, after) && key in data && key !in after
    ensures Expired(data[key], clock(2 * i))
  {
    assert exists x :: x in scored && x.key == key;
    var x :| x in scored && x.key == key;
    i :| 0 <= i < |scored| && scored[i] == x;
    assert scored[i].key in data;
  }

  lemma {:induction false} LookedWithin(data: Data, scored: seq<ScoredKey>, clock: Clock, n: nat)
    requires n <= |scored|
    ensures Looked(data, scored, clock, n).Keys <= data.Keys
  {
    if n > 0 {
      LookedWithin(data, scored, clock, n - 1);
    }
  }

  lemma LookedIsAccessed(data: Data, scored: seq<ScoredKey>, clock: Clock)
    requires DistinctKeys(scored)
    ensures Accessed(data, scored, clock, Looked(data, scored, clock, |scored|))
  {
    LookedWithin(data, scored, clock, |scored|);
    forall i | 0 <= i < |scored| && scored[i].key in data
      ensures var after := Looked(data, scored, clock, |scored|);
        if Expired(data[scored[i].key], clock(2 * i)) then scored[i].key !in after
        else scored[i].key in after && after[scored[i].key] == Touched(data[scored[i].key], clock(2 * i + 1))
    {
      LookedOnce(data, scored, clock, |scored|, i);
    }
    forall key | key in data && (forall x :: x in scored ==> x.key != key)
      ensures var after := Looked(data, scored, clock, |scored|); key in after && after[key] == data[key]
    {
      NotYetLooked(data, scored, clock, |scored|, key);
    }
  }

  /** The first n results, each as the lookups before it have left the store. */
  ghost predicate InTurn(data: Data, scored: seq<ScoredKey>, clock: Clock, n: nat, out: seq<SearchResult>) {
    |out| == n <= |scored| &&
    forall i :: 0 <= i < n ==> out[i] == AnswerTo(Looked(data, scored, clock, i), scored[i], clock(2 * i))
  }

  lemma OneMoreInTurn(data: Data, scored: seq<ScoredKey>, clock: Clock, n: nat, out: seq<SearchResult>, x: SearchResult)
    requires InTurn(data, scored, clock, n, out) && n < |scored|
    requires x == AnswerTo(Looked(data, scored, clock, n), scored[n], clock(2 * n))
    ensures InTurn(data, scored, clock, n + 1, out + [x])
  {
  }

  /** With distinct keys every result shows what the store held at first. */
  lemma InTurnIsAnswered(data: Data, scored: seq<ScoredKey>, clock: Clock, out: seq<SearchResult>)
    requires DistinctKeys(scored) && InTurn(data, scored, clock, |scored|, out)
    ensures Answered(data, scored, clock, out)
  {
    forall i | 0 <= i < |out| ensures out[i] == AnswerTo(data, scored[i], clock(2 * i)) {
      NotYetLooked(data, scored, clock, i, scored[i].key);
    }
  }

  /** A result whose item has not expired shows its value. */
  lemma AnswerShows(data: Data, scored: seq<ScoredKey>, clock: Clock, out: seq<SearchResult>, key: Key)
    requires Answered(data, scored, clock, out) && key in data && exists x :: x in scored && x.key == key
    requires forall i: nat :: !Expired(data[key], clock(2 * i))
    ensures exists i :: 0 <= i < |out| && out[i].key == key && out[i].value == Some(data[key].value)
  {
    var x :| x in scored && x.key == key;
    var i: nat :| i < |scored| && scored[i] == x;
    assert out[i] == AnswerTo(data, x, clock(2 * i));
  }

  /** Looks one result up. */
  method AnswerOne(x: ScoredKey, e: Engine, clock: Clock, i: nat) returns (result: SearchResult)
    requires e.Valid()
    modifies e
    ensures e.Valid() && e.data == Get(old(e.data), x.key, clock, i) && result == AnswerTo(old(e.data), x, clock(2 * i))
  {
    var item := e.Get(x.key, clock(2 * i), clock(2 * i + 1));
    var val := match item case Some(y) => Some(y.value) case None => None;
    result := SearchResult(x.key, val, x.score);
  }

  lemma LookedNext(data: Data, scored: seq<ScoredKey>, clock: Clock, n: nat)
    requires n < |scored|
    ensures Looked(data, scored, clock, n + 1) == Get(Looked(data, scored, clock, n), scored[n].key, clock, n)
  {
  }

  lemma DistinctAnswers(data: Data, scored: seq<ScoredKey>, clock: Clock, after: Data, out: seq<SearchResult>)
    requires after == Looked(data, scored, clock, |scored|) && InTurn(data, scored, clock, |scored|, out)
    ensures DistinctKeys(scored) ==> Accessed(data, scored, clock, after) && Answered(data, scored, clock, out)
  {
    if DistinctKeys(scored) {
      LookedIsAccessed(data, scored, clock);
      InTurnIsAnswered(data, scored, clock, out);
    }
  }

  method ToProtoResults(scored: seq<ScoredKey>, e: Engine, clock: Clock) returns (out: seq<SearchResult>)
    requires e.Valid()
    modifies e
    ensures e.Valid() && e.data == Looked(old(e.data), scored, clock, |scored|)
    ensures InTurn(old(e.data), scored, clock, |scored|, out)
    ensures forall i :: 0 <= i < |scored| ==> out[i].key == scored[i].key && out[i].score == scored[i].score
    ensures DistinctKeys(scored) ==>
      Accessed(old(e.data), scored, clock, e.data) && Answered(old(e.data), scored, clock, out)
  {
    out := [];
    ghost var start := e.data;
    for i := 0 to |scored|
      invariant e.Valid() && e.data == Looked(start, scored, clock, i) && InTurn(start, scored, clock, i, out)
    {
      LookedNext(start, scored, clock, i);
      var result := AnswerOne(scored[i], e, clock, i);
      OneMoreInTurn(start, scored, clock, i, out, result);
      out := out + [result];
    }
    DistinctAnswers(start, scored, clock, e.data, out);
  }
}
