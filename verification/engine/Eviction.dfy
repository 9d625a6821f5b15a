/** Cost-aware eviction: items are removed in the order of their priority until enough memory is free. */
module Eviction {
  import opened Arith
  import opened Ranking
  import opened Items
  import opened Store
  import opened Heap

  function Priority(costMs: int, accessCount: nat): real { costMs as real / (accessCount + 1) as real }

  function PriorityOf(item: Item): real { Priority(item.costMs, item.accessCount) }

  /** The priority, times one more than the accesses, is the cost. */
  lemma PriorityIs(costMs: int, accessCount: nat)
    ensures Mul(Priority(costMs, accessCount), accessCount as real + 1.0) == costMs as real
  {
  }

  /** Being read more often lowers the priority, so that of two equally costly items
      the one in more frequent use is evicted first; only a free item is indifferent. */
  lemma AccessLowersPriority(costMs: int, a: nat, b: nat)
    requires a < b
    ensures Priority(costMs, b) < Priority(costMs, a) <==> costMs > 0
    ensures Priority(costMs, b) == Priority(costMs, a) <==> costMs == 0
  {
    var x, y := Priority(costMs, a), Priority(costMs, b);
    var c, n, m := costMs as real, (a + 1) as real, (b + 1) as real;
    assert x * n == c && y * m == c;
    assert (x - y) * m == x * (m - n);
    Signs(x, n, c);
    Signs(x, m - n, x * (m - n));
    Signs(x - y, m, x * (m - n));
  }

  lemma Signs(x: real, n: real, c: real)
    requires n > 0.0 && x * n == c
    ensures (x > 0.0 <==> c > 0.0) && (x == 0.0 <==> c == 0.0)
  {
  }

  // ---------- what an eviction run does ----------

  ghost function Keys(order: seq<Key>): set<Key> { set key | key in order }

  /** order lists items of data by priority, least first, before all items it does not list. */
  ghost predicate PriorityOrder(data: Data, order: seq<Key>) {
    && (forall i :: 0 <= i < |order| ==> order[i] in data)
    && (forall i, j :: 0 <= i < j < |order| ==>
         order[i] != order[j] && PriorityOf(data[order[i]]) <= PriorityOf(data[order[j]]))
    && forall i, key :: 0 <= i < |order| && key in data && key !in order ==>
       PriorityOf(data[order[i]]) <= PriorityOf(data[key])
  }

  /** Every eviction was necessary: before it, too much memory was in use. */
  ghost predicate Needed(data: Data, order: seq<Key>, target: int) {
    forall i :: 0 <= i < |order| ==> Bytes(data - Keys(order[..i])) > target
  }

  /** The items in order have been evicted. */
  ghost predicate Evicted(start: Data, order: seq<Key>, target: int, data: Data) {
    data == start - Keys(order) && PriorityOrder(start, order) && Needed(start, order, target)
  }

  lemma NothingEvicted(data: Data, target: int)
    ensures Evicted(data, [], target, data)
  {
  }

  lemma OrderExtends(start: Data, order: seq<Key>, key: Key)
    requires PriorityOrder(start, order) && key in start && key !in order
    requires forall k :: k in start && k !in order ==> PriorityOf(start[key]) <= PriorityOf(start[k])
    ensures PriorityOrder(start, order + [key])
  {
  }

  lemma NeededExtends(start: Data, order: seq<Key>, key: Key, target: int)
    requires Needed(start, order, target) && Bytes(start - Keys(order)) > target
    ensures Needed(start, order + [key], target)
  {
    var longer := order + [key];
    forall i | 0 <= i < |longer| ensures Bytes(start - Keys(longer[..i])) > target {
      assert longer[..i] == order[..i];
      assert order[..|order|] == order;
    }
  }

  lemma EvictedNext(start: Data, order: seq<Key>, target: int, data: Data, key: Key)
    requires Evicted(start, order, target, data) && key in data && Bytes(data) > target
    requires forall k :: k in data ==> PriorityOf(data[key]) <= PriorityOf(data[k])
    ensures Evicted(start, order + [key], target, data - {key})
    ensures |data - {key}| < |data|
  {
    assert forall k :: k in start && k !in order ==> k in data && data[k] == start[k];
    OrderExtends(start, order, key);
    NeededExtends(start, order, key, target);
    assert Keys(order + [key]) == Keys(order) + {key};
    assert (data - {key}).Keys == data.Keys - {key};
  }

  // ---------- one pass ----------

  ghost predicate Candidates(data: Data, h: seq<Candidate>) {
    && (forall c :: c in h ==> c.key in data && c.priority == PriorityOf(data[c.key]))
    && forall key :: key in data ==> Candidate(key, PriorityOf(data[key])) in h
  }

  method ListCandidates(items: Data) returns (h: seq<Candidate>)
    ensures Candidates(items, h)
  {
    h := [];
    var todo := items.Keys;
    while todo != {}
      invariant todo <= items.Keys && Candidates(items - todo, h)
      decreases |todo|
    {
      var key :| key in todo;
      OneMoreCandidate(items, todo, h, key);
      h := h + [Candidate(key, PriorityOf(items[key]))];
      todo := todo - {key};
    }
    assert items - {} == items;
  }

  lemma OneMoreCandidate(items: Data, todo: set<Key>, h: seq<Candidate>, key: Key)
    requires todo <= items.Keys && Candidates(items - todo, h) && key in todo
    ensures Candidates(items - (todo - {key}), h + [Candidate(key, PriorityOf(items[key]))])
  {
    var c := Candidate(key, PriorityOf(items[key]));
    assert forall x :: x in h + [c] <==> x in h || x == c;
    forall k | k in items - (todo - {key}) ensures Candidate(k, PriorityOf(items[k])) in h + [c] {
      assert k == key || k in items - todo;
    }
  }

  /** The key of an item with the least priority, found with a heap. */
  method LeastKey(items: Data) returns (key: Key)
    requires items != map[]
    ensures key in items && forall k :: k in items ==> PriorityOf(items[key]) <= PriorityOf(items[k])
  {
    var candidates := ListCandidates(items);
    var heap := new EvictionHeap(candidates);
    heap.Init();
    ghost var some :| some in items;
    assert Candidate(some, PriorityOf(items[some])) in multiset(candidates);
    var c := heap.Pop();
    key := c.key;
    LeastCandidate(items, candidates, c);
  }

  lemma LeastCandidate(items: Data, h: seq<Candidate>, c: Candidate)
    requires Candidates(items, h) && c in multiset(h) && forall x :: x in multiset(h) ==> c.priority <= x.priority
    ensures c.key in items && forall k :: k in items ==> PriorityOf(items[c.key]) <= PriorityOf(items[k])
  {
  }

  lemma EvictedBeforeSurvivors(start: Data, order: seq<Key>, target: int, data: Data)
    requires Evicted(start, order, target, data)
    ensures data.Keys <= start.Keys && forall key :: key in data ==> data[key] == start[key]
    ensures forall k, l :: k in start && k !in data && l in data ==> PriorityOf(start[k]) <= PriorityOf(data[l])
  {
    forall k, l | k in start && k !in data && l in data ensures PriorityOf(start[k]) <= PriorityOf(data[l]) {
      assert k in order && l !in order;
    }
  }

  /** Without interference, eviction ends with enough memory free or nothing left, and removes
      a shortest prefix of the items in priority order: no evicted item has a higher priority
      than a survivor, and survivors are untouched. */
  method Evict(e: Engine, target: int) returns (ghost order: seq<Key>)
    requires e.Valid()
    modifies e
    ensures e.Valid() && Evicted(old(e.data), order, target, e.data)
    ensures e.memoryUsed <= target || e.data == map[]
    ensures e.data.Keys <= old(e.data).Keys && forall key :: key in e.data ==> e.data[key] == old(e.data)[key]
    ensures forall k, l :: k in old(e.data) && k !in e.data && l in e.data ==>
      PriorityOf(old(e.data)[k]) <= PriorityOf(e.data[l])
  {
    order := [];
    ghost var start := e.data;
    NothingEvicted(start, target);
    while e.memoryUsed > target
      invariant e.Valid() && Evicted(start, order, target, e.data)
      decreases |e.data|
    {
      var items := e.Items();
      if |items| == 0 {
        break;
      }
      var key := LeastKey(items);
      EvictedNext(start, order, target, items, key);
      order := order + [key];
      var _ := e.Delete(key);
    }
    EvictedBeforeSurvivors(start, order, target, e.data);
  }

  /** Each pass frees memory. */
  lemma EachPassFrees(data: Data, order: seq<Key>, i: nat)
    requires PriorityOrder(data, order) && i < |order|
    ensures Bytes(data - Keys(order[..i + 1])) < Bytes(data - Keys(order[..i]))
  {
    var left := data - Keys(order[..i]);
    assert order[..i + 1] == order[..i] + [order[i]];
    assert left - {order[i]} == data - Keys(order[..i + 1]);
    BytesLess(left, order[i]);
  }
}
