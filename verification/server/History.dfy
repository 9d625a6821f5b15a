/** Histories of the service: what each call does to its state, and why a key is lost. */
module History {
  import opened Ranking
  import opened Items
  import opened Store
  import opened Answers
  import opened Tracking
  import Requests
  import Similarity
  import Text

  datatype Call =
    | SetCall(key: Key, value: string, costMs: int, vector: seq<real>, ttlMs: int, now: int)
    | GetCall(key: Key, now: int, later: int)
    | DeleteCall(key: Key)
    | SurfaceCall(query: string, topK: int, metric: Similarity.Metric, clock: Clock)
    | Bm25Call(query: string, topK: int, clock: Clock)
    | TfidfCall(query: string, topK: int, clock: Clock)
    | LsaCall(query: string, topK: int, clock: Clock)
    | VectorCall(query: string, queryVector: seq<real>, topK: int, embedding: Option<seq<real>>, clock: Clock)
    | HybridCall(req: Requests.HybridRequest, embedding: Option<seq<real>>, clock: Clock)
    | SweepCall(now: int)
    | EmbeddedCall(key: Key, vector: seq<real>, now: int, later: int)

  predicate IsSearch(call: Call) {
    call.SurfaceCall? || call.Bm25Call? || call.TfidfCall? || call.LsaCall? || call.VectorCall? || call.HybridCall?
  }

  /** t is a reading of the clock that the call compares with expiry times. */
  ghost predicate Checks(call: Call, t: int) {
    if IsSearch(call) then exists i: nat :: t == call.clock(2 * i)
    else !call.SetCall? && !call.DeleteCall? && t == call.now
  }

  /** The call, whose search found these results, takes the service from v to v'. */
  ghost predicate Serves(al: Text.Alphabet, n: nat, max: int, v: View, call: Call, found: seq<ScoredKey>, v': View)
    requires n >= 1
  {
    (if IsSearch(call) then AfterSearch(v, found, call.clock, v')
     else found == [] && Changes(al, n, max, v, call, v'))
  }

  /** A call that is not a search takes the service from v to v'. */
  ghost predicate Changes(al: Text.Alphabet, n: nat, max: int, v: View, call: Call, v': View)
    requires n >= 1 && !IsSearch(call)
  {
    match call
    case SetCall(key, value, costMs, vector, ttlMs, now) =>
      var item := NewItem(value, costMs, vector, ttlMs, now);
      v' == if Bytes(v.data[key := item]) <= max then AfterSet(al, n, v, key, item) else v
    case GetCall(key, now, later) => v' == AfterLoss(v, AfterGet(v.data, key, now, later))
    case DeleteCall(key) => v' == if key in v.data then AfterDelete(al, v, key) else v
    case SweepCall(now) => v' == AfterLoss(v, Unexpired(v.data, now))
    case EmbeddedCall(key, vector, now, later) => AfterEmbedding(al, n, max, v, key, vector, now, later, v')
  }

  /** Whatever is called, the indexes keep following the store. */
  lemma ServesKeepsConsistent(al: Text.Alphabet, n: nat, max: int, v: View, call: Call, found: seq<ScoredKey>, v': View)
    requires n >= 1 && Consistent(al, n, v) && Serves(al, n, max, v, call, found, v')
    ensures Consistent(al, n, v')
  {
    if IsSearch(call) {
      AccessedShrinks(v.data, found, call.clock, v'.data);
      LossKeepsConsistent(al, n, v, v'.data);
    } else {
      ChangesKeepsConsistent(al, n, max, v, call, v');
    }
  }

  lemma ChangesKeepsConsistent(al: Text.Alphabet, n: nat, max: int, v: View, call: Call, v': View)
    requires n >= 1 && Consistent(al, n, v) && !IsSearch(call) && Changes(al, n, max, v, call, v')
    ensures Consistent(al, n, v')
  {
    match call
    case SetCall(key, value, costMs, vector, ttlMs, now) =>
      SetKeepsConsistent(al, n, v, key, NewItem(value, costMs, vector, ttlMs, now));
    case GetCall(key, now, later) =>
      GetShrinks(v.data, key, now, later);
      LossKeepsConsistent(al, n, v, v'.data);
    case DeleteCall(key) => DeleteKeepsConsistent(al, n, v, key);
    case SweepCall(now) => LossKeepsConsistent(al, n, v, v'.data);
    case EmbeddedCall(key, vector, now, later) =>
      GetShrinks(v.data, key, now, later);
      LossKeepsConsistent(al, n, v, AfterGet(v.data, key, now, later));
      RebuildKeepsConsistent(al, n, v.(data := v'.data));
  }

  // ---------- why a key is lost ----------

  /** The call found the item of this key expired, by its own reading of the clock, and dropped it. */
  ghost predicate Expires(v: View, call: Call, v': View, key: Key) {
    key in v.data && key !in v'.data && exists t :: Checks(call, t) && Expired(v.data[key], t)
  }

  lemma SearchExpires(v: View, call: Call, found: seq<ScoredKey>, v': View, key: Key)
    requires IsSearch(call) && AfterSearch(v, found, call.clock, v') && key in v.data && key !in v'.data
    ensures Expires(v, call, v', key)
  {
    var i := GoneHasExpired(v.data, found, call.clock, v'.data, key);
    assert Checks(call, call.clock(2 * i));
  }

  /** A key becomes lost only by expiring. */
  lemma OnlyExpiryLoses(al: Text.Alphabet, n: nat, max: int, v: View, call: Call, found: seq<ScoredKey>, v': View,
                        key: Key)
    requires n >= 1 && Serves(al, n, max, v, call, found, v') && key in v'.lost && key !in v.lost
    ensures Expires(v, call, v', key)
  {
    if IsSearch(call) {
      SearchExpires(v, call, found, v', key);
    } else {
      match call
      case SetCall(_, _, _, _, _, _) =>
      case GetCall(k, now, later) => assert Checks(call, now);
      case DeleteCall(_) =>
      case SweepCall(now) => assert Checks(call, now);
      case EmbeddedCall(k, vector, now, later) => assert Checks(call, now);
    }
  }

  /** A lost key is found again only by being set, or forgotten by a rebuild of all indexes. */
  lemma OnlySetOrRebuildFinds(al: Text.Alphabet, n: nat, max: int, v: View, call: Call, found: seq<ScoredKey>, v': View,
                              key: Key)
    requires n >= 1 && Serves(al, n, max, v, call, found, v') && key in v.lost && key !in v'.lost
    ensures (call.SetCall? && call.key == key && key in v'.data) || (call.EmbeddedCall? && v'.lost == {})
  {
  }

  // ---------- runs ----------

  /** The calls, the results the searches among them found, and the states before, between and after them. */
  datatype Run = Run(calls: seq<Call>, found: seq<seq<ScoredKey>>, views: seq<View>)

  ghost predicate Shaped(r: Run) { |r.found| == |r.calls| && |r.views| == |r.calls| + 1 }

  ghost predicate ServesAt(al: Text.Alphabet, n: nat, max: int, r: Run, i: nat)
    requires n >= 1 && Shaped(r) && i < |r.calls|
  {
    Serves(al, n, max, r.views[i], r.calls[i], r.found[i], r.views[i + 1])
  }

  ghost predicate IsRun(al: Text.Alphabet, n: nat, max: int, r: Run)
    requires n >= 1
  {
    Shaped(r) && forall i: nat :: i < |r.calls| ==> ServesAt(al, n, max, r, i)
  }

  ghost function Last(r: Run): View
    requires Shaped(r)
  {
    r.views[|r.calls|]
  }

  /** The run up to its m-th state. */
  ghost function Until(r: Run, m: nat): (u: Run)
    requires Shaped(r) && m <= |r.calls|
    ensures Shaped(u)
  {
    Run(r.calls[..m], r.found[..m], r.views[..m + 1])
  }

  ghost function Extended(r: Run, call: Call, found: seq<ScoredKey>, v: View): Run {
    Run(r.calls + [call], r.found + [found], r.views + [v])
  }

  lemma RunExtends(al: Text.Alphabet, n: nat, max: int, r: Run, call: Call, found: seq<ScoredKey>, v: View)
    requires n >= 1 && IsRun(al, n, max, r) && Serves(al, n, max, Last(r), call, found, v)
    ensures IsRun(al, n, max, Extended(r, call, found, v)) && Last(Extended(r, call, found, v)) == v
  {
    var e := Extended(r, call, found, v);
    forall i: nat | i < |e.calls| ensures ServesAt(al, n, max, e, i) {
      if i < |r.calls| {
        assert ServesAt(al, n, max, r, i);
      }
    }
  }

  lemma UntilIsRun(al: Text.Alphabet, n: nat, max: int, r: Run, m: nat)
    requires n >= 1 && IsRun(al, n, max, r) && m <= |r.calls|
    ensures IsRun(al, n, max, Until(r, m)) && Last(Until(r, m)) == r.views[m]
  {
    forall i: nat | i < m ensures ServesAt(al, n, max, Until(r, m), i) {
      assert ServesAt(al, n, max, r, i);
    }
  }

  lemma {:induction false} RunKeepsConsistent(al: Text.Alphabet, n: nat, max: int, r: Run, i: nat)
    requires n >= 1 && IsRun(al, n, max, r) && Consistent(al, n, r.views[0]) && i < |r.views|
    ensures Consistent(al, n, r.views[i])
  {
    if i > 0 {
      RunKeepsConsistent(al, n, max, r, i - 1);
      assert ServesAt(al, n, max, r, i - 1);
      ServesKeepsConsistent(al, n, max, r.views[i - 1], r.calls[i - 1], r.found[i - 1], r.views[i]);
    }
  }

  // ---------- what has expired in a run ----------

  /** Some call of the run found the item expired and dropped it; since then it has been neither live nor forgotten. */
  ghost predicate HasExpired(r: Run, key: Key)
    requires Shaped(r)
  {
    exists i: nat :: i < |r.calls| && ExpiresAt(r, i, key)
  }

  ghost predicate ExpiresAt(r: Run, i: nat, key: Key)
    requires Shaped(r) && i < |r.calls|
  {
    Expires(r.views[i], r.calls[i], r.views[i + 1], key) && StaysLost(r.views, i + 1, key)
  }

  ghost predicate StaysLost(views: seq<View>, i: int, key: Key) {
    forall j :: 0 <= i <= j < |views| ==> key in views[j].lost && key !in views[j].data
  }

  /** In a run that starts with no key lost, every lost key has expired. */
  lemma {:induction false} LostHasExpired(al: Text.Alphabet, n: nat, max: int, r: Run, key: Key)
    requires n >= 1 && IsRun(al, n, max, r) && Consistent(al, n, r.views[0]) && r.views[0].lost == {}
    requires key in Last(r).lost
    ensures HasExpired(r, key)
    decreases |r.calls|
  {
    var m := |r.calls| - 1;
    var v, v' := r.views[m], r.views[m + 1];
    assert ServesAt(al, n, max, r, m);
    RunKeepsConsistent(al, n, max, r, m + 1);
    if key !in v.lost {
      OnlyExpiryLoses(al, n, max, v, r.calls[m], r.found[m], v', key);
      assert ExpiresAt(r, m, key);
    } else {
      UntilIsRun(al, n, max, r, m);
      LostHasExpired(al, n, max, Until(r, m), key);
      var i: nat :| i < m && ExpiresAt(Until(r, m), i, key);
      ExtendLoss(r.views, m, i + 1, key);
      assert ExpiresAt(r, i, key);
    }
  }

  lemma ExtendLoss(views: seq<View>, m: nat, i: nat, key: Key)
    requires |views| == m + 2 && i <= m && StaysLost(views[..m + 1], i, key)
    requires key in views[m + 1].lost && key !in views[m + 1].data
    ensures StaysLost(views, i, key)
  {
    forall j | i <= j < |views| ensures key in views[j].lost && key !in views[j].data {
      if j < m + 1 {
        assert views[..m + 1][j] == views[j];
      }
    }
  }

  /** Some index holds the key. */
  ghost predicate Held(v: View, key: Key) {
    || (v.bm25.Some? && key in v.bm25.value) || (v.ngram.Some? && key in v.ngram.value)
    || (v.tfidf.Some? && key in v.tfidf.value) || (v.lsa.Some? && key in v.lsa.value)
  }

  /** Whatever an index holds beyond the live keys has expired. */
  lemma StrayKeysHaveExpired(al: Text.Alphabet, n: nat, max: int, r: Run, key: Key)
    requires n >= 1 && IsRun(al, n, max, r) && Consistent(al, n, r.views[0]) && r.views[0].lost == {}
    requires Held(Last(r), key) && key !in Last(r).data
    ensures HasExpired(r, key)
  {
    RunKeepsConsistent(al, n, max, r, |r.calls|);
    LostHasExpired(al, n, max, r, key);
  }

  /** Every key that an index holds at the end beyond the live ones has expired. */
  ghost predicate StraysExpired(r: Run)
    requires Shaped(r)
  {
    forall key :: Held(Last(r), key) && key !in Last(r).data ==> HasExpired(r, key)
  }

  lemma AllHaveExpired(al: Text.Alphabet, n: nat, max: int, r: Run)
    requires n >= 1 && IsRun(al, n, max, r) && Consistent(al, n, r.views[0]) && r.views[0].lost == {}
    ensures StraysExpired(r)
  {
    forall key | Held(Last(r), key) && key !in Last(r).data ensures HasExpired(r, key) {
      StrayKeysHaveExpired(al, n, max, r, key);
    }
  }

  // ---------- access counts ----------

  /** A Set of the key that the store accepts. */
  ghost predicate Stores(max: int, v: View, call: Call, key: Key) {
    call.SetCall? && call.key == key &&
    Bytes(v.data[key := NewItem(call.value, call.costMs, call.vector, call.ttlMs, call.now)]) <= max
  }

  /** The call looks the key up: a Get, the embedder's callback, or a search that returns it. */
  ghost predicate Names(call: Call, found: seq<ScoredKey>, key: Key) {
    || ((call.GetCall? || call.EmbeddedCall?) && call.key == key)
    || (IsSearch(call) && exists x :: x in found && x.key == key)
  }

  /** How many of the calls from the i-th to the j-th look the key up. */
  ghost function Lookups(r: Run, i: nat, j: nat, key: Key): nat
    requires Shaped(r) && j <= |r.calls|
  {
    if j <= i then 0 else Lookups(r, i, j - 1, key) + if Names(r.calls[j - 1], r.found[j - 1], key) then 1 else 0
  }

  lemma SearchCounts(v: View, found: seq<ScoredKey>, clock: Clock, v': View, key: Key)
    requires AfterSearch(v, found, clock, v') && key in v'.data
    ensures key in v.data
    ensures v'.data[key].accessCount ==
      v.data[key].accessCount + if exists x :: x in found && x.key == key then 1 else 0
  {
    if x :| x in found && x.key == key {
      var i :| 0 <= i < |found| && found[i] == x;
      assert found[i].key in v.data;
    }
  }

  /** A call that does not set the key counts one access if it looks it up, and keeps the count otherwise. */
  lemma CallCounts(al: Text.Alphabet, n: nat, max: int, v: View, call: Call, found: seq<ScoredKey>, v': View, key: Key)
    requires n >= 1 && Serves(al, n, max, v, call, found, v') && !Stores(max, v, call, key) && key in v'.data
    ensures key in v.data
    ensures v'.data[key].accessCount == v.data[key].accessCount + if Names(call, found, key) then 1 else 0
  {
    if IsSearch(call) {
      SearchCounts(v, found, call.clock, v', key);
    }
  }

  /** While the key is not set anew, its count grows by exactly the calls that look it up. */
  lemma {:induction false} CountGrows(al: Text.Alphabet, n: nat, max: int, r: Run, i: nat, j: nat, key: Key)
    requires n >= 1 && IsRun(al, n, max, r) && i <= j <= |r.calls| && key in r.views[j].data
    requires forall t :: i <= t < j ==> !Stores(max, r.views[t], r.calls[t], key)
    ensures key in r.views[i].data
    ensures r.views[j].data[key].accessCount == r.views[i].data[key].accessCount + Lookups(r, i, j, key)
  {
    if i < j {
      assert ServesAt(al, n, max, r, j - 1);
      CallCounts(al, n, max, r.views[j - 1], r.calls[j - 1], r.found[j - 1], r.views[j], key);
      CountGrows(al, n, max, r, i, j - 1, key);
    }
  }

  /** The access count of a live item is the number of lookups since its last successful Set. */
  lemma CountSinceSet(al: Text.Alphabet, n: nat, max: int, r: Run, i: nat, key: Key)
    requires n >= 1 && IsRun(al, n, max, r) && i < |r.calls| && Stores(max, r.views[i], r.calls[i], key)
    requires forall t :: i < t < |r.calls| ==> !Stores(max, r.views[t], r.calls[t], key)
    requires key in Last(r).data
    ensures Last(r).data[key].accessCount == Lookups(r, i + 1, |r.calls|, key)
  {
    assert ServesAt(al, n, max, r, i);
    CountGrows(al, n, max, r, i + 1, |r.calls|, key);
  }
}
