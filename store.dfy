/** The in-memory store behind `POST /api/data`: an insertion-ordered list of items that
    keeps only the most recent `MaxItems` of them. */
module Store {
  import Json

  /** One stored record. The id (a fresh UUID) and the timestamp (the clock) are supplied
      by the caller; `data` is the request body. */
  datatype DataItem = DataItem(id: string, timestamp: int, data: Json.Value)

  /** The store keeps at most this many items. */
  const MaxItems: nat := 1000

  function Min(a: int, b: int): int
  {
    if a <= b then a else b
  }

  /** `r` is what is left of `t` once some prefix of `t` is dropped. */
  predicate IsSuffix(r: seq<DataItem>, t: seq<DataItem>)
  {
    |r| <= |t| && t[|t| - |r|..] == r
  }

  /** `t.slice(-n)` for a positive `n`: the last `n` elements of `t`, or all of `t` when
      it is shorter. */
  function LastN(t: seq<DataItem>, n: nat): (r: seq<DataItem>)
    ensures |r| == Min(|t|, n)
    ensures IsSuffix(r, t)
  {
    if |t| <= n then t else t[|t| - n..]
  }

  /** The store after one insert: push the item, and if the store is then over the cap,
      keep only its last `MaxItems` items. */
  function AfterInsert(store: seq<DataItem>, item: DataItem): (r: seq<DataItem>)
    ensures |r| == Min(|store| + 1, MaxItems)
    ensures |r| <= MaxItems
    ensures r[|r| - 1] == item
    ensures IsSuffix(r, store + [item])
  {
    var pushed := store + [item];
    if |pushed| > MaxItems then LastN(pushed, MaxItems) else pushed
  }

  /** Below the cap nothing is evicted. */
  lemma InsertBelowCap(store: seq<DataItem>, item: DataItem)
    requires |store| < MaxItems
    ensures AfterInsert(store, item) == store + [item]
  {
  }

  /** At the cap exactly the oldest item is evicted and the length stays `MaxItems`. */
  lemma InsertAtCap(store: seq<DataItem>, item: DataItem)
    requires |store| == MaxItems
    ensures AfterInsert(store, item) == store[1..] + [item]
    ensures |AfterInsert(store, item)| == MaxItems
  {
  }

  /** Whatever the old length, one insert leaves the last `min(|store| + 1, MaxItems)`
      items of `store + [item]`. */
  lemma InsertKeepsLast(store: seq<DataItem>, item: DataItem)
    ensures AfterInsert(store, item) == LastN(store + [item], MaxItems)
  {
  }

  /** Cutting to the last `n` and then appending and cutting again is the same as
      appending first and cutting once. */
  lemma LastNOfLastN(t: seq<DataItem>, u: seq<DataItem>, n: nat)
    ensures LastN(LastN(t, n) + u, n) == LastN(t + u, n)
  {
    var k := LastN(t, n);
    var lhs := LastN(k + u, n);
    var rhs := LastN(t + u, n);
    forall i | 0 <= i < |lhs|
      ensures lhs[i] == rhs[i]
    {
      var j := |k + u| - |lhs| + i;
      if j < |k| {
        assert (k + u)[j] == k[j] == t[|t| - |k| + j];
      } else {
        assert (k + u)[j] == u[j - |k|];
      }
    }
  }

  /** The store after a run of inserts, one request after another, oldest first. */
  function InsertAll(store: seq<DataItem>, items: seq<DataItem>): (r: seq<DataItem>)
    decreases |items|
  {
    if items == [] then store else InsertAll(AfterInsert(store, items[0]), items[1..])
  }

  /** After any run of inserts into a store within the cap, the store holds exactly the
      most recent `MaxItems` items ever inserted, in insertion order. */
  lemma {:induction false} InsertAllKeepsMostRecent(store: seq<DataItem>, items: seq<DataItem>)
    requires |store| <= MaxItems
    ensures InsertAll(store, items) == LastN(store + items, MaxItems)
    decreases |items|
  {
    if items == [] {
      assert store + items == store;
    } else {
      var next := AfterInsert(store, items[0]);
      InsertKeepsLast(store, items[0]);
      InsertAllKeepsMostRecent(next, items[1..]);
      LastNOfLastN(store + [items[0]], items[1..], MaxItems);
      assert store + [items[0]] + items[1..] == store + items;
    }
  }

  /** When the appended part alone is at least `n` long, cutting to the last `n` keeps
      only elements of that part. */
  lemma LastNOfLongAppend(store: seq<DataItem>, items: seq<DataItem>, n: nat)
    requires |items| >= n
    ensures LastN(store + items, n) == items[|items| - n..]
  {
  }

  /** A run of at least `MaxItems` inserts leaves exactly its own last `MaxItems` items. */
  lemma InsertManyKeepsTail(store: seq<DataItem>, items: seq<DataItem>)
    requires |store| <= MaxItems
    requires |items| >= MaxItems
    ensures InsertAll(store, items) == items[|items| - MaxItems..]
  {
    InsertAllKeepsMostRecent(store, items);
    LastNOfLongAppend(store, items, MaxItems);
  }

  /** The module-level `dataStore` array as an object. `history` is every item ever
      inserted, oldest first; it exists only for the specification. */
  class DataStore {
    var items: seq<DataItem>
    ghost var history: seq<DataItem>

    /** The store holds the most recent `MaxItems` items ever inserted. */
    ghost predicate Valid()
      reads this
    {
      items == LastN(history, MaxItems)
    }

    /** The store starts empty. */
    constructor ()
      ensures Valid()
      ensures items == [] && history == []
    {
      items := [];
      history := [];
    }

    /** `POST /api/data`: build the item from a fresh id, the current time and the body,
        push it, evict from the head if the store is then over the cap, and return it. */
    method Insert(id: string, timestamp: int, data: Json.Value) returns (item: DataItem)
      requires Valid()
      modifies this
      ensures Valid()
      ensures item == DataItem(id, timestamp, data)
      ensures history == old(history) + [item]
      ensures items == AfterInsert(old(items), item)
      ensures |items| <= MaxItems && items[|items| - 1] == item
    {
      item := DataItem(id, timestamp, data);
      items := items + [item];
      if |items| > MaxItems {
        items := LastN(items, MaxItems);
      }
      LastNOfLastN(history, [item], MaxItems);
      history := history + [item];
    }
  }
}
