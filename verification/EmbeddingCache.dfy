/**
 * The LRU embedding cache of internal/bus/server_rag.go as an object: a map from keys to list
 * elements, a list of the same elements in recency order, and two counters. Its methods are
 * proved against the recency sequence of RecencyCache.
 */
module EmbeddingCache {
  import opened Wrappers
  import opened Sequences
  import opened VectorCodec
  import opened RecencyCache

  /** A list element; it is shared by the map and the list, and its value is replaced in place. */
  class CacheItem {
    const key: string
    var value: Vec

    constructor (key: string, value: Vec)
      ensures this.key == key && this.value == value
    {
      this.key, this.value := key, value;
    }
  }

  /** The list without one element. */
  function RemoveItem(items: seq<CacheItem>, item: CacheItem): (r: seq<CacheItem>) {
    if items == [] then []
    else if items[0] == item then RemoveItem(items[1..], item)
    else [items[0]] + RemoveItem(items[1..], item)
  }

  function KeysOf(items: seq<CacheItem>): (keys: seq<string>) {
    if items == [] then [] else [items[0].key] + KeysOf(items[1..])
  }

  lemma {:induction false} KeyAt(items: seq<CacheItem>, i: nat)
    requires i < |items|
    ensures |KeysOf(items)| == |items| && KeysOf(items)[i] == items[i].key
  {
    if |items| > 1 {
      KeyAt(items[1..], if i == 0 then 0 else i - 1);
    }
  }

  lemma KeysLength(items: seq<CacheItem>)
    ensures |KeysOf(items)| == |items|
  {
    if items != [] {
      KeyAt(items, 0);
    }
  }

  /** Every key is the key of an element, and the other way round. */
  lemma KeysElements(items: seq<CacheItem>)
    ensures forall x | x in items :: x.key in KeysOf(items)
    ensures forall k | k in KeysOf(items) :: exists i :: 0 <= i < |items| && items[i].key == k
  {
    KeysLength(items);
    forall x | x in items ensures x.key in KeysOf(items) {
      var i :| 0 <= i < |items| && items[i] == x;
      KeyAt(items, i);
    }
    forall k | k in KeysOf(items) ensures exists i :: 0 <= i < |items| && items[i].key == k {
      var i :| 0 <= i < |items| && KeysOf(items)[i] == k;
      KeyAt(items, i);
    }
  }

  /** No element occurs twice. */
  predicate Unique(keys: seq<string>) {
    keys == [] || (keys[0] !in keys[1..] && Unique(keys[1..]))
  }

  lemma {:induction false} UniqueIsDistinct(keys: seq<string>)
    ensures Unique(keys) <==> Distinct(keys)
  {
    if keys != [] {
      UniqueIsDistinct(keys[1..]);
      assert keys == [keys[0]] + keys[1..];
      if Unique(keys) {
        ConsDistinct(keys[0], keys[1..]);
      }
      if Distinct(keys) {
        assert forall i :: 0 <= i < |keys[1..]| ==> keys[1..][i] == keys[i + 1];
      }
    }
  }

  /** The map and the list hold the same elements, under their own distinct keys. */
  ghost predicate Shape(cache: map<string, CacheItem>, lru: seq<CacheItem>) {
    && (forall k <- cache :: cache[k].key == k)
    && Elements(lru) == cache.Values
    && Unique(KeysOf(lru))
  }

  lemma ShapeKeys(cache: map<string, CacheItem>, lru: seq<CacheItem>)
    requires Shape(cache, lru)
    ensures Distinct(KeysOf(lru)) && Elements(KeysOf(lru)) == cache.Keys && |KeysOf(lru)| == |lru|
    ensures forall x | x in lru :: x.key in cache && cache[x.key] == x
  {
    KeysLength(lru);
    KeysElements(lru);
    UniqueIsDistinct(KeysOf(lru));
    forall x | x in lru ensures x.key in cache && cache[x.key] == x {
      assert x in Elements(lru);
    }
    forall k ensures k in Elements(KeysOf(lru)) <==> k in cache {
      if k in cache {
        assert cache[k] in Elements(lru);
      }
      if k in KeysOf(lru) {
        var i :| 0 <= i < |lru| && lru[i].key == k;
        assert lru[i] in lru;
      }
    }
  }

  /** Removing an element removes its key, when no other element has the same key. */
  lemma {:induction false} RemoveItemKeys(items: seq<CacheItem>, item: CacheItem)
    requires forall x | x in items && x.key == item.key :: x == item
    ensures KeysOf(RemoveItem(items, item)) == Remove(KeysOf(items), item.key)
    ensures Elements(RemoveItem(items, item)) == Elements(items) - {item}
  {
    if items != [] {
      assert items == [items[0]] + items[1..];
      assert items[0] in items;
      assert forall x | x in items[1..] :: x in items;
      RemoveItemKeys(items[1..], item);
      assert Elements(items) == {items[0]} + Elements(items[1..]);
      var rest := RemoveItem(items[1..], item);
      assert Elements([items[0]] + rest) == {items[0]} + Elements(rest);
    }
  }

  lemma MovedKeys(cache: map<string, CacheItem>, lru: seq<CacheItem>, item: CacheItem)
    requires Shape(cache, lru) && item in lru
    ensures KeysOf([item] + RemoveItem(lru, item)) == ToFront(KeysOf(lru), item.key)
    ensures Elements(RemoveItem(lru, item)) == Elements(lru) - {item}
    ensures Unique(ToFront(KeysOf(lru), item.key)) && |ToFront(KeysOf(lru), item.key)| == |lru|
  {
    var rest, keys := RemoveItem(lru, item), KeysOf(lru);
    ShapeKeys(cache, lru);
    RemoveItemKeys(lru, item);
    assert ([item] + rest)[1..] == rest;
    ToFrontDistinct(keys, item.key);
    UniqueIsDistinct(ToFront(keys, item.key));
    assert item.key in Elements(keys);
    RemovePresent(keys, item.key);
  }

  lemma MovedShape(cache: map<string, CacheItem>, lru: seq<CacheItem>, item: CacheItem)
    requires Shape(cache, lru) && item in lru
    ensures var moved := [item] + RemoveItem(lru, item);
            Shape(cache, moved) && KeysOf(moved) == ToFront(KeysOf(lru), item.key)
                && |KeysOf(moved)| == |moved| == |lru|
  {
    var moved := [item] + RemoveItem(lru, item);
    MovedKeys(cache, lru, item);
    KeysLength(moved);
    assert item in Elements(lru);
    ElementsCons(item, RemoveItem(lru, item));
  }

  lemma ElementsCons(item: CacheItem, rest: seq<CacheItem>)
    ensures Elements([item] + rest) == {item} + Elements(rest)
  {
  }

  lemma InsertedShape(cache: map<string, CacheItem>, lru: seq<CacheItem>, item: CacheItem)
    requires Shape(cache, lru) && item.key !in cache
    ensures Shape(cache[item.key := item], [item] + lru)
    ensures KeysOf([item] + lru) == [item.key] + KeysOf(lru)
  {
    ShapeKeys(cache, lru);
    assert item.key !in Elements(KeysOf(lru));
    KeysCons(item, lru);
    UniqueCons(item.key, KeysOf(lru));
    ElementsCons(item, lru);
    ValuesOfInsert(cache, item);
  }

  lemma KeysCons(item: CacheItem, rest: seq<CacheItem>)
    ensures KeysOf([item] + rest) == [item.key] + KeysOf(rest)
  {
    assert ([item] + rest)[1..] == rest;
  }

  lemma UniqueCons(key: string, rest: seq<string>)
    requires Unique(rest) && key !in rest
    ensures Unique([key] + rest)
  {
    assert ([key] + rest)[1..] == rest;
  }

  lemma ValuesOfInsert(cache: map<string, CacheItem>, item: CacheItem)
    requires item.key !in cache
    ensures cache[item.key := item].Values == cache.Values + {item}
  {
    var after := cache[item.key := item];
    forall x | x in cache.Values ensures x in after.Values {
      var k :| k in cache && cache[k] == x;
      assert after[k] == x;
    }
    assert after[item.key] == item;
  }

  lemma ValuesOfRemove(cache: map<string, CacheItem>, key: string)
    requires key in cache && forall k <- cache :: cache[k].key == k
    ensures (cache - {key}).Values == cache.Values - {cache[key]}
  {
    var after := cache - {key};
    forall x | x in cache.Values && x != cache[key] ensures x in after.Values {
      var k :| k in cache && cache[k] == x;
      assert after[k] == x;
    }
  }

  /** The key of the last element is not the key of an earlier one. */
  predicate LastKeyIsNew(items: seq<CacheItem>)
    requires |items| > 0
  {
    forall i :: 0 <= i < |items| - 1 ==> items[i].key != items[|items| - 1].key
  }

  predicate Lists(keys: seq<string>, items: seq<CacheItem>) {
    |keys| == |items| && forall i :: 0 <= i < |items| ==> keys[i] == items[i].key
  }

  lemma KeysOfLists(items: seq<CacheItem>)
    ensures Lists(KeysOf(items), items)
  {
    KeysLength(items);
    forall i | 0 <= i < |items| ensures KeysOf(items)[i] == items[i].key {
      KeyAt(items, i);
    }
  }

  lemma LastKey(items: seq<CacheItem>, keys: seq<string>)
    requires Lists(keys, items) && Distinct(keys) && |items| > 0
    ensures LastKeyIsNew(items)
  {
  }

  lemma DropLastItem(items: seq<CacheItem>)
    requires |items| > 0 && LastKeyIsNew(items)
    ensures Elements(items[..|items| - 1]) == Elements(items) - {items[|items| - 1]}
  {
    DropLastElements(items);
  }

  lemma CutElements(lru: seq<CacheItem>)
    requires Unique(KeysOf(lru)) && |lru| > 0
    ensures Elements(lru[..|lru| - 1]) == Elements(lru) - {lru[|lru| - 1]}
  {
    UniqueIsDistinct(KeysOf(lru));
    KeysOfLists(lru);
    LastKey(lru, KeysOf(lru));
    DropLastItem(lru);
  }

  lemma CutShape(cache: map<string, CacheItem>, lru: seq<CacheItem>)
    requires Shape(cache, lru) && lru != []
    ensures |KeysOf(lru)| == |lru| && lru[|lru| - 1].key == KeysOf(lru)[|lru| - 1]
    ensures KeysOf(lru[..|lru| - 1]) == KeysOf(lru)[..|lru| - 1]
    ensures Shape(cache - {lru[|lru| - 1].key}, lru[..|lru| - 1])
  {
    var kept, gone := lru[..|lru| - 1], lru[|lru| - 1];
    ShapeKeys(cache, lru);
    KeysOfCut(lru);
    KeyAt(lru, |lru| - 1);
    CutElements(lru);
    assert gone in lru;
    ValuesOfRemove(cache, gone.key);
    UniqueIsDistinct(KeysOf(kept));
  }

  lemma {:induction false} KeysOfCut(items: seq<CacheItem>)
    requires items != []
    ensures |KeysOf(items)| == |items|
    ensures KeysOf(items[..|items| - 1]) == KeysOf(items)[..|items| - 1]
  {
    KeysLength(items);
    if |items| > 1 {
      KeysOfCut(items[1..]);
      assert items[..|items| - 1][1..] == items[1..][..|items| - 2];
    }
  }

  class Cache {
    const capacity: int
    var cache: map<string, CacheItem>
    var lru: seq<CacheItem>
    var hits: nat
    var misses: nat

    // the recency sequence this cache stands for
    ghost var order: seq<string>
    ghost var values: map<string, Vec>

    /** Map, list and the sequence agree; the list may be too long. */
    ghost predicate Agreeing()
      reads this, cache.Values
    {
      && Shape(cache, lru) && order == KeysOf(lru) && |order| == |lru|
      && values.Keys == cache.Keys && forall k <- cache :: cache[k].value == values[k]
    }

    ghost predicate Valid()
      reads this, cache.Values
    {
      Agreeing() && |lru| <= Room(capacity)
    }

    ghost function View(): (c: RecencyCache.Cache)
      reads this
    {
      RecencyCache.Cache(order, values, hits, misses)
    }

    constructor (capacity: int)
      ensures Valid() && View() == EMPTY_CACHE && this.capacity == capacity
    {
      this.capacity := capacity;
      cache, lru, hits, misses := map[], [], 0, 0;
      order, values := [], map[];
    }

    lemma ViewIsWellFormed()
      requires Valid()
      ensures WellFormed(View(), capacity)
    {
      ShapeKeys(cache, lru);
    }

    method MoveToFront(item: CacheItem)
      requires Valid() && item in lru
      modifies this`lru, this`order
      ensures Valid() && order == ToFront(old(order), item.key)
    {
      MovedShape(cache, lru, item);
      lru := [item] + RemoveItem(lru, item);
      order := ToFront(order, item.key);
    }

    method Get(key: string) returns (embedding: Option<Vec>)
      requires Valid()
      modifies this`lru, this`order, this`hits, this`misses
      ensures Valid()
      ensures (View(), embedding) == RecencyCache.Get(old(View()), key)
    {
      if key in cache {
        hits := hits + 1;
        var item := cache[key];
        assert item in Elements(lru);
        MoveToFront(item);
        return Some(item.value);
      }
      misses := misses + 1;
      return None;
    }

    method Set(key: string, embedding: Vec)
      requires Valid()
      modifies this, cache.Values
      ensures Valid()
      ensures View() == RecencyCache.Set(old(View()), key, embedding, capacity)
      ensures fresh(cache.Values - old(cache.Values))
    {
      if key in cache {
        Replace(key, embedding);
      } else {
        var item := new CacheItem(key, embedding);
        Insert(item);
      }
    }

    method Insert(item: CacheItem)
      requires Valid() && item.key !in cache
      modifies this`lru, this`cache, this`order, this`values
      ensures Valid()
      ensures View() == RecencyCache.Set(old(View()), item.key, item.value, capacity)
      ensures cache.Values <= old(cache.Values) + {item}
    {
      PushFront(item);
      if |lru| > capacity {
        EvictOldest();
      }
    }

    /** A present key moves to the front, and its element's value is replaced in place. */
    method Replace(key: string, embedding: Vec)
      requires Valid() && key in cache
      modifies this`lru, this`order, this`values, cache[key]
      ensures Valid()
      ensures order == ToFront(old(order), key) && values == old(values)[key := embedding]
    {
      var item := cache[key];
      assert item in Elements(lru);
      MoveToFront(item);
      item.value := embedding;
      values := values[key := embedding];
    }

    /** Adds an element in front; the list may then be one too long. */
    method PushFront(item: CacheItem)
      requires Agreeing() && item.key !in cache
      modifies this`lru, this`cache, this`order, this`values
      ensures Agreeing() && |lru| == |old(lru)| + 1
      ensures order == [item.key] + old(order) && values == old(values)[item.key := item.value]
      ensures cache.Values <= old(cache.Values) + {item}
    {
      InsertedShape(cache, lru, item);
      lru := [item] + lru;
      cache := cache[item.key := item];
      order := [item.key] + order;
      values := values[item.key := item.value];
    }

    method EvictOldest()
      requires Agreeing() && lru != []
      modifies this`lru, this`cache, this`order, this`values
      ensures Agreeing() && |lru| == |old(lru)| - 1
      ensures order == old(order)[..|old(order)| - 1] && values == old(values) - {old(order)[|old(order)| - 1]}
      ensures cache.Values <= old(cache.Values)
    {
      CutShape(cache, lru);
      var oldest := lru[|lru| - 1];
      lru := lru[..|lru| - 1];
      cache := cache - {oldest.key};
      order := order[..|order| - 1];
      values := values - {oldest.key};
    }

    /** A query's embedding as the RAG layer gets it: from the cache, or computed and remembered. */
    method Embed(key: string, embed: Embedder) returns (embedding: Option<Vec>)
      requires Valid() && Coherent(View(), embed)
      modifies this, cache.Values
      ensures Valid() && Coherent(View(), embed)
      ensures (View(), embedding) == Request(old(View()), key, embed, capacity)
      ensures embedding == embed(key)
      ensures fresh(cache.Values - old(cache.Values))
    {
      ViewIsWellFormed();
      RequestKeepsCache(View(), key, embed, capacity);
      embedding := Get(key);
      if embedding.None? {
        embedding := embed(key);
        if embedding.Some? {
          Set(key, embedding.value);
        }
      }
    }
  }
}
