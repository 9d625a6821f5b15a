/** The store: items under a memory limit, with expiry. */
module Store {
  import opened Ranking
  import opened Items

  type Data = map<Key, Item>

  /** The size of an item record on a 64-bit platform. */
  const ITEM_BYTES: int := 112

  function ItemSize(key: Key, item: Item): int {
    |key| + |item.value| + 4 * |item.vector| + ITEM_BYTES
  }

  ghost function Bytes(data: Data): int { Total(data, ItemSize) }

  predicate Expired(item: Item, now: int) { item.expiresAt.Some? && now > item.expiresAt.value }

  function Touched(item: Item, later: int): Item {
    item.(accessCount := item.accessCount + 1, lastAccessedAt := later)
  }

  /** The locked operations; later is the second clock reading of a Get. */
  datatype Op =
    | SetOp(key: Key, item: Item)
    | GetOp(key: Key, now: int, later: int)
    | DeleteOp(key: Key)
    | SweepOp(now: int)

  /** What an operation ought to do, under a limit of max bytes. */
  ghost function Effect(max: int, data: Data, op: Op): Data {
    match op
    case SetOp(key, item) => if Bytes(data[key := item]) <= max then data[key := item] else data
    case GetOp(key, now, later) => AfterGet(data, key, now, later)
    case DeleteOp(key) => data - {key}
    case SweepOp(now) => Unexpired(data, now)
  }

  function AfterGet(data: Data, key: Key, now: int, later: int): Data {
    if key !in data then data
    else if Expired(data[key], now) then data - {key}
    else data[key := Touched(data[key], later)]
  }

  function Lookup(data: Data, key: Key, now: int, later: int): Option<Item> {
    if key in data && !Expired(data[key], now) then Some(Touched(data[key], later)) else None
  }

  function Unexpired(data: Data, now: int): Data { map key | key in data && !Expired(data[key], now) :: data[key] }

  // ---------- byte accounting ----------

  /** An empty record takes 112 bytes; a longer key or value adds its characters, a longer vector four bytes each,
      and nothing else counts. */
  lemma SizesAdd(key: Key, item: Item, k: Key, v: string, w: seq<real>, other: Item)
    ensures ItemSize(key + k, item.(value := item.value + v, vector := item.vector + w)) ==
      ItemSize(key, item) + |k| + |v| + 4 * |w|
    ensures ItemSize("", item.(value := "", vector := [])) == 112
    ensures ItemSize(key, other.(value := item.value, vector := item.vector)) == ItemSize(key, item)
  {
  }

  lemma SizePositive(key: Key, item: Item)
    ensures ItemSize(key, item) >= ITEM_BYTES
  {
  }

  function SizeAt(data: Data, key: Key): int { if key in data then ItemSize(key, data[key]) else 0 }

  lemma BytesWith(data: Data, key: Key, item: Item)
    ensures Bytes(data[key := item]) == Bytes(data) + ItemSize(key, item) - SizeAt(data, key)
    ensures Bytes(data - {key}) == Bytes(data) - SizeAt(data, key)
  {
    TotalUpdate(data, ItemSize, key, item);
    if key in data {
      TotalPull(data, ItemSize, key);
    } else {
      assert data - {key} == data;
    }
  }

  lemma {:induction false} BytesNonNegative(data: Data)
    ensures Bytes(data) >= ITEM_BYTES * |data|
    decreases |data|
  {
    if data != map[] {
      var key :| key in data;
      TotalPull(data, ItemSize, key);
      assert (data - {key}).Keys == data.Keys - {key};
      BytesNonNegative(data - {key});
    }
  }

  lemma BytesLess(data: Data, key: Key)
    requires key in data
    ensures 0 <= Bytes(data - {key}) < Bytes(data)
  {
    TotalPull(data, ItemSize, key);
    SizePositive(key, data[key]);
    BytesNonNegative(data - {key});
  }

  /** The access bump does not change the byte count. */
  lemma TouchKeepsBytes(data: Data, key: Key, later: int)
    requires key in data
    ensures Bytes(data[key := Touched(data[key], later)]) == Bytes(data)
  {
    BytesWith(data, key, Touched(data[key], later));
  }

  lemma {:induction false} SweepShrinks(data: Data, now: int, todo: set<Key>)
    requires todo <= data.Keys
    ensures Bytes(Swept(data, now, todo)) <= Bytes(data)
    decreases |data.Keys - todo|
  {
    if key :| key in data.Keys - todo {
      SweepShrinks(data, now, todo + {key});
      var less := Swept(data, now, todo);
      var more := Swept(data, now, todo + {key});
      if Expired(data[key], now) {
        assert less == more - {key};
        BytesLess(more, key);
      } else {
        assert less == more;
      }
    } else {
      assert Swept(data, now, todo) == data;
    }
  }

  /** A sweep part of the way: the keys in todo are still to be looked at. */
  function Swept(data: Data, now: int, todo: set<Key>): Data {
    map key | key in data && (key in todo || !Expired(data[key], now)) :: data[key]
  }

  lemma SweptNext(data: Data, now: int, todo: set<Key>, key: Key)
    requires key in todo && key in data
    ensures Swept(data, now, todo - {key}) ==
      if Expired(data[key], now) then Swept(data, now, todo) - {key} else Swept(data, now, todo)
    ensures key in Swept(data, now, todo)
  {
  }

  /** No operation takes the store over its limit. */
  lemma EffectWithinLimit(max: int, data: Data, op: Op)
    requires Bytes(data) <= max
    ensures 0 <= Bytes(Effect(max, data, op)) <= max
  {
    BytesNonNegative(Effect(max, data, op));
    match op
    case SetOp(key, item) =>
    case GetOp(key, now, later) =>
      if key in data {
        if Expired(data[key], now) { BytesLess(data, key); } else { TouchKeepsBytes(data, key, later); }
      }
    case DeleteOp(key) =>
      if key in data { BytesLess(data, key); } else { assert data - {key} == data; }
    case SweepOp(now) =>
      SweepShrinks(data, now, {});
      assert Swept(data, now, {}) == Unexpired(data, now);
  }

  // ---------- the engine ----------

  class Engine {
    var data: Data
    const maxMemoryBytes: int
    var memoryUsed: int

    ghost predicate Valid()
      reads this
    {
      memoryUsed == Bytes(data)
    }

    constructor (maxMemoryBytes: int)
      ensures Valid() && data == map[] && this.maxMemoryBytes == maxMemoryBytes
    {
      this.maxMemoryBytes := maxMemoryBytes;
      data, memoryUsed := map[], 0;
    }

    /** Fails, changing nothing, exactly when the item would not fit. */
    method Set(key: Key, item: Item) returns (ok: bool)
      requires Valid()
      modifies this
      ensures Valid() && data == Effect(maxMemoryBytes, old(data), SetOp(key, item))
      ensures ok <==> Bytes(old(data)[key := item]) <= maxMemoryBytes
      ensures ok ==> data == old(data)[key := item]
      ensures !ok ==> data == old(data) && memoryUsed == old(memoryUsed)
    {
      BytesWith(data, key, item);
      var oldSize := 0;
      if key in data {
        oldSize := ItemSize(key, data[key]);
      }
      var netDelta := ItemSize(key, item) - oldSize;
      if memoryUsed + netDelta > maxMemoryBytes {
        return false;
      }
      data, memoryUsed := data[key := item], memoryUsed + netDelta;
      ok := true;
    }

    /** Removes the item instead of returning it once it has expired. */
    method Get(key: Key, now: int, later: int) returns (found: Option<Item>)
      requires Valid()
      modifies this
      ensures Valid() && data == AfterGet(old(data), key, now, later)
      ensures found == Lookup(old(data), key, now, later)
      ensures found.Some? <==>
        key in old(data) && (old(data)[key].expiresAt.None? || now <= old(data)[key].expiresAt.value)
      ensures found.Some? ==>
        found.value == old(data)[key].(accessCount := old(data)[key].accessCount + 1, lastAccessedAt := later)
      ensures found.Some? ==> memoryUsed == old(memoryUsed)
    {
      if key !in data {
        return None;
      }
      var item := data[key];
      if Expired(item, now) {
        Remove(key);
        return None;
      }
      TouchKeepsBytes(data, key, later);
      data := data[key := Touched(item, later)];
      found := Some(Touched(item, later));
    }

    method Remove(key: Key)
      requires Valid() && key in data
      modifies this
      ensures Valid() && data == old(data) - {key}
    {
      BytesWith(data, key, data[key]);
      data, memoryUsed := data - {key}, memoryUsed - ItemSize(key, data[key]);
    }

    method Delete(key: Key) returns (ok: bool)
      requires Valid()
      modifies this
      ensures Valid() && data == old(data) - {key}
      ensures ok <==> key in old(data)
      ensures !ok ==> data == old(data)
    {
      ok := key in data;
      if ok {
        Remove(key);
      } else {
        assert data - {key} == data;
      }
    }

    /** Looks at all items, in any order. */
    method EvictExpired(now: int)
      requires Valid()
      modifies this
      ensures Valid() && data == Unexpired(old(data), now)
      ensures forall key :: key in data <==>
        key in old(data) && (old(data)[key].expiresAt.None? || now <= old(data)[key].expiresAt.value)
      ensures forall key :: key in data ==> data[key] == old(data)[key]
    {
      var todo := data.Keys;
      assert Swept(data, now, todo) == data;
      while todo != {}
        invariant Valid() && todo <= old(data).Keys && data == Swept(old(data), now, todo)
        decreases |todo|
      {
        var key :| key in todo;
        SweptNext(old(data), now, todo, key);
        if Expired(data[key], now) {
          Remove(key);
        }
        todo := todo - {key};
      }
      assert Swept(old(data), now, {}) == Unexpired(old(data), now);
    }

    /** A copy, entry by entry. */
    method Items() returns (snapshot: Data)
      ensures snapshot == data
    {
      snapshot := map[];
      var todo := data.Keys;
      while todo != {}
        invariant todo <= data.Keys && snapshot == data - todo
        decreases |todo|
      {
        var key :| key in todo;
        snapshot := snapshot[key := data[key]];
        todo := todo - {key};
      }
      assert data - {} == data;
    }
  }
}
