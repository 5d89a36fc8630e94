/**
 * What the embedding cache of internal/bus/server_rag.go promises, on values: its contents are
 * a recency sequence of keys with a value for each, and its use by the RAG layer.
 */
module RecencyCache {
  import opened Wrappers
  import opened Sequences
  import opened VectorCodec

  /** Keys from the most to the least recently used, their values, and the two counters. */
  datatype Cache = Cache(order: seq<string>, values: map<string, Vec>, hits: nat, misses: nat)

  const EMPTY_CACHE := Cache([], map[], 0, 0)

  ghost predicate WellFormed(c: Cache, capacity: int) {
    && Distinct(c.order) && Elements(c.order) == c.values.Keys
    && |c.order| <= Room(capacity)
  }

  /** A capacity below zero holds as little as zero. */
  function Room(capacity: int): (n: nat) {
    if capacity < 0 then 0 else capacity
  }

  function Remove<T(==)>(s: seq<T>, x: T): (r: seq<T>) {
    if s == [] then []
    else if s[0] == x then Remove(s[1..], x)
    else [s[0]] + Remove(s[1..], x)
  }

  function ToFront(s: seq<string>, x: string): (r: seq<string>) {
    [x] + Remove(s, x)
  }

  function Get(c: Cache, key: string): (r: (Cache, Option<Vec>)) {
    if key in c.values then (c.(order := ToFront(c.order, key), hits := c.hits + 1), Some(c.values[key]))
    else (c.(misses := c.misses + 1), None)
  }

  function Set(c: Cache, key: string, value: Vec, capacity: int): (r: Cache) {
    if key in c.values then c.(order := ToFront(c.order, key), values := c.values[key := value])
    else
      var grown := [key] + c.order;
      if |grown| > capacity then
        c.(order := grown[..|grown| - 1], values := c.values[key := value] - {grown[|grown| - 1]})
      else c.(order := grown, values := c.values[key := value])
  }

  // ------------------------------------------------------------------ sequences

  lemma {:induction false} RemoveElements<T(!new)>(s: seq<T>, x: T)
    ensures forall y :: y in Remove(s, x) <==> y in s && y != x
  {
    if s != [] {
      RemoveElements(s[1..], x);
      assert s == [s[0]] + s[1..];
    }
  }

  lemma {:induction false} RemoveDistinct<T(!new)>(s: seq<T>, x: T)
    requires Distinct(s)
    ensures Distinct(Remove(s, x))
  {
    if s != [] {
      RemoveDistinct(s[1..], x);
      RemoveElements(s[1..], x);
      var rest := Remove(s[1..], x);
      assert forall i :: 0 <= i < |s[1..]| ==> s[1..][i] == s[i + 1];
      assert s[0] !in s[1..];
      ConsDistinct(s[0], rest);
    }
  }

  lemma ToFrontDistinct(s: seq<string>, x: string)
    requires Distinct(s)
    ensures Distinct(ToFront(s, x))
  {
    RemoveDistinct(s, x);
    RemoveElements(s, x);
    ConsDistinct(x, Remove(s, x));
  }

  lemma {:induction false} RemoveAbsent<T(!new)>(s: seq<T>, x: T)
    requires x !in s
    ensures Remove(s, x) == s
  {
    if s != [] {
      assert s == [s[0]] + s[1..];
      assert s[0] in s;
      assert forall y :: y in s[1..] ==> y in s;
      RemoveAbsent(s[1..], x);
    }
  }

  lemma {:induction false} RemovePresent<T(!new)>(s: seq<T>, x: T)
    requires Distinct(s) && x in s
    ensures |Remove(s, x)| == |s| - 1
  {
    assert s == [s[0]] + s[1..];
    if s[0] == x {
      RemoveAbsent(s[1..], x);
    } else {
      RemovePresent(s[1..], x);
    }
  }

  lemma TakeCons(x: string, s: seq<string>, n: nat)
    requires n > 0
    ensures Take([x] + s, n) == [x] + Take(s, n - 1)
  {
  }

  lemma RemoveCons(y: string, s: seq<string>, x: string)
    requires y != x
    ensures Remove([y] + s, x) == [y] + Remove(s, x)
  {
    assert ([y] + s)[1..] == s;
  }

  /** Moving a key to the front commutes with cutting, whether or not it was in the cut. */
  predicate CutCommutes(s: seq<string>, x: string, n: nat)
    requires n > 0
  {
    Take(Remove(s, x), n - 1) == if x in Take(s, n) then Remove(Take(s, n), x) else Take(s, n - 1)
  }

  lemma CutAtHead(x: string, tail: seq<string>, n: nat)
    requires x !in tail && n > 0
    ensures CutCommutes([x] + tail, x, n)
  {
    TakeCons(x, tail, n);
    RemoveHead(x, tail);
    RemoveHead(x, Take(tail, n - 1));
  }

  lemma RemoveHead(x: string, tail: seq<string>)
    requires x !in tail
    ensures Remove([x] + tail, x) == tail
  {
    assert ([x] + tail)[1..] == tail;
    RemoveAbsent(tail, x);
  }

  lemma CutPastHead(y: string, tail: seq<string>, x: string, n: nat)
    requires y != x && n > 1 && CutCommutes(tail, x, n - 1)
    ensures CutCommutes([y] + tail, x, n)
  {
    TakeCons(y, tail, n);
    TakeCons(y, tail, n - 1);
    RemoveCons(y, tail, x);
    RemoveCons(y, Take(tail, n - 1), x);
    TakeCons(y, Remove(tail, x), n - 1);
  }

  lemma {:induction false} CutAfterMove(s: seq<string>, x: string, n: nat)
    requires Distinct(s) && n > 0
    ensures CutCommutes(s, x, n)
  {
    if s != [] {
      var y, tail := s[0], s[1..];
      assert s == [y] + tail;
      if y == x {
        CutAtHead(x, tail, n);
      } else if n == 1 {
        TakeCons(y, tail, 1);
      } else {
        CutAfterMove(tail, x, n - 1);
        CutPastHead(y, tail, x, n);
      }
    }
  }

  // ------------------------------------------------------------------ any history of operations

  datatype Op = GetOp(key: string) | SetOp(key: string, value: Vec)

  function Apply(c: Cache, op: Op, capacity: int): (r: Cache) {
    match op
    case GetOp(key) => Get(c, key).0
    case SetOp(key, value) => Set(c, key, value, capacity)
  }

  function After(ops: seq<Op>, capacity: int): (c: Cache)
    decreases |ops|
  {
    if ops == [] then EMPTY_CACHE else Apply(After(ops[..|ops| - 1], capacity), ops[|ops| - 1], capacity)
  }

  /** The keys touched, latest first: by every Set and by every Get that hits. */
  function Touched(ops: seq<Op>, capacity: int): (keys: seq<string>)
    decreases |ops|
  {
    if ops == [] then []
    else
      var before, last := ops[..|ops| - 1], ops[|ops| - 1];
      if last.SetOp? || last.key in After(before, capacity).values
      then [last.key] + Touched(before, capacity)
      else Touched(before, capacity)
  }

  /** The distinct touched keys by their last touch. */
  function ByRecency(touched: seq<string>): (keys: seq<string>) {
    if touched == [] then [] else ToFront(ByRecency(touched[1..]), touched[0])
  }

  /** The value of the last Set of a key. */
  function LastSet(ops: seq<Op>, key: string): (value: Option<Vec>)
    decreases |ops|
  {
    if ops == [] then None
    else
      var last := ops[|ops| - 1];
      if last.SetOp? && last.key == key then Some(last.value) else LastSet(ops[..|ops| - 1], key)
  }

  function CountGets(ops: seq<Op>): (n: nat) {
    if ops == [] then 0 else CountGets(ops[..|ops| - 1]) + if ops[|ops| - 1].GetOp? then 1 else 0
  }

  lemma {:induction false} ByRecencyDistinct(touched: seq<string>)
    ensures Distinct(ByRecency(touched))
  {
    if touched != [] {
      var rest := ByRecency(touched[1..]);
      ByRecencyDistinct(touched[1..]);
      ToFrontDistinct(rest, touched[0]);
    }
  }

  lemma MoveKeepsWellFormed(c: Cache, key: string, capacity: int)
    requires WellFormed(c, capacity) && key in c.values
    ensures Distinct(ToFront(c.order, key)) && Elements(ToFront(c.order, key)) == c.values.Keys
    ensures |ToFront(c.order, key)| == |c.order|
  {
    assert key in Elements(c.order);
    ToFrontDistinct(c.order, key);
    RemoveElements(c.order, key);
    RemovePresent(c.order, key);
    var r := ToFront(c.order, key);
    forall k ensures k in r <==> k in c.values.Keys {
      assert k in Elements(c.order) <==> k in c.values.Keys;
    }
  }

  lemma InsertKeepsWellFormed(c: Cache, key: string, value: Vec, capacity: int)
    requires WellFormed(c, capacity) && key !in c.values
    ensures WellFormed(Set(c, key, value, capacity), capacity)
  {
    var grown := [key] + c.order;
    assert key !in Elements(c.order);
    ConsDistinct(key, c.order);
    forall k ensures k in grown <==> k in c.values.Keys + {key} {
      assert k in Elements(c.order) <==> k in c.values.Keys;
    }
    if |grown| > capacity {
      var kept, gone := grown[..|grown| - 1], grown[|grown| - 1];
      assert grown == kept + [gone];
      assert gone !in kept;
      assert Elements(kept) == (c.values.Keys + {key}) - {gone};
    }
  }

  lemma ApplyKeepsWellFormed(c: Cache, op: Op, capacity: int)
    requires WellFormed(c, capacity)
    ensures WellFormed(Apply(c, op, capacity), capacity)
  {
    if op.key in c.values {
      MoveKeepsWellFormed(c, op.key, capacity);
    } else if op.SetOp? {
      InsertKeepsWellFormed(c, op.key, op.value, capacity);
    }
  }

  lemma {:induction false} AfterIsWellFormed(ops: seq<Op>, capacity: int)
    ensures WellFormed(After(ops, capacity), capacity)
    decreases |ops|
  {
    if ops != [] {
      AfterIsWellFormed(ops[..|ops| - 1], capacity);
      ApplyKeepsWellFormed(After(ops[..|ops| - 1], capacity), ops[|ops| - 1], capacity);
    }
  }

  /** One operation keeps the cached keys the most recent ones. */
  lemma ApplyKeepsRecency(c: Cache, op: Op, capacity: int, recency: seq<string>)
    requires WellFormed(c, capacity) && Distinct(recency)
    requires c.order == Take(recency, Room(capacity))
    ensures Apply(c, op, capacity).order ==
            Take(if op.SetOp? || op.key in c.values then ToFront(recency, op.key) else recency, Room(capacity))
  {
    var key, n := op.key, Room(capacity);
    assert key in c.values <==> key in Elements(c.order);
    if n == 0 {
      assert c.order == [];
      if op.SetOp? {
        assert ([key] + c.order)[..0] == [];
      }
    } else if op.SetOp? || key in c.values {
      CutAfterMove(recency, key, n);
      assert Take(ToFront(recency, key), n) == [key] + Take(Remove(recency, key), n - 1);
      if key !in c.values {
        assert Take([key] + c.order, n) == [key] + Take(c.order, n - 1);
        assert Take(c.order, n - 1) == Take(recency, n - 1);
      }
    }
  }

  lemma {:induction false} OrderIsRecency(ops: seq<Op>, capacity: int)
    ensures After(ops, capacity).order == Take(ByRecency(Touched(ops, capacity)), Room(capacity))
    decreases |ops|
  {
    if ops != [] {
      var before := ops[..|ops| - 1];
      OrderIsRecency(before, capacity);
      AfterIsWellFormed(before, capacity);
      ByRecencyDistinct(Touched(before, capacity));
      ApplyKeepsRecency(After(before, capacity), ops[|ops| - 1], capacity, ByRecency(Touched(before, capacity)));
      var t := Touched(ops, capacity);
      assert t != Touched(before, capacity) ==> t[1..] == Touched(before, capacity);
    }
  }

  lemma {:induction false} ValuesAreLastSet(ops: seq<Op>, capacity: int)
    ensures forall key <- After(ops, capacity).values :: LastSet(ops, key) == Some(After(ops, capacity).values[key])
    ensures After(ops, capacity).hits + After(ops, capacity).misses == CountGets(ops)
    decreases |ops|
  {
    if ops != [] {
      ValuesAreLastSet(ops[..|ops| - 1], capacity);
    }
  }

  /**
   * After any history: the cached keys are exactly the most recently touched distinct keys, cut
   * at the capacity, each with its last set value, and every Get was a hit or a miss.
   */
  lemma CacheIsRecencySequence(ops: seq<Op>, capacity: int)
    ensures var c := After(ops, capacity);
            && WellFormed(c, capacity)
            && c.order == Take(ByRecency(Touched(ops, capacity)), Room(capacity))
            && (forall key <- c.values :: LastSet(ops, key) == Some(c.values[key]))
            && c.hits + c.misses == CountGets(ops)
  {
    AfterIsWellFormed(ops, capacity);
    OrderIsRecency(ops, capacity);
    ValuesAreLastSet(ops, capacity);
  }

  /** A look-up of a cached key gives what was last set for it and counts as a hit; any other is a miss. */
  lemma GetGivesLastSet(ops: seq<Op>, key: string, capacity: int)
    ensures var c := After(ops, capacity);
            var (next, value) := Get(c, key);
            && (key in c.order ==> value.Some? && value == LastSet(ops, key))
            && (key !in c.order ==> value.None?)
            && next.hits == c.hits + (if key in c.order then 1 else 0)
            && next.misses == c.misses + (if key in c.order then 0 else 1)
  {
    CacheIsRecencySequence(ops, capacity);
    var c := After(ops, capacity);
    assert key in c.order <==> key in Elements(c.order);
  }

  /** The position of the last operation on a key, or -1. */
  function LastUse(ops: seq<Op>, key: string): (n: int)
    ensures -1 <= n < |ops|
    decreases |ops|
  {
    if ops == [] then -1
    else if ops[|ops| - 1].key == key then |ops| - 1
    else LastUse(ops[..|ops| - 1], key)
  }

  /** Keys that were used later come first. */
  ghost predicate LatestFirst(keys: seq<string>, ops: seq<Op>) {
    forall i, j :: 0 <= i < j < |keys| ==> LastUse(ops, keys[i]) > LastUse(ops, keys[j])
  }

  lemma {:induction false} RemoveKeepsLatestFirst(keys: seq<string>, key: string, ops: seq<Op>)
    requires LatestFirst(keys, ops)
    ensures LatestFirst(Remove(keys, key), ops)
  {
    if keys != [] {
      RemoveKeepsLatestFirst(keys[1..], key, ops);
      var rest := Remove(keys[1..], key);
      forall i | 0 <= i < |rest| ensures LastUse(ops, keys[0]) > LastUse(ops, rest[i]) {
        RemoveElements(keys[1..], key);
        assert rest[i] in rest;
        var j :| 0 <= j < |keys[1..]| && keys[1..][j] == rest[i];
        assert keys[j + 1] == rest[i];
      }
    }
  }

  /** A key that has just been used comes before all others. */
  lemma FrontIsLatest(keys: seq<string>, ops: seq<Op>)
    requires ops != [] && LatestFirst(keys, ops[..|ops| - 1]) && ops[|ops| - 1].key !in keys
    ensures LatestFirst([ops[|ops| - 1].key] + keys, ops)
  {
    OthersKeepTheirUse(keys, ops);
    var r := [ops[|ops| - 1].key] + keys;
    forall i, j | 0 <= i < j < |r| ensures LastUse(ops, r[i]) > LastUse(ops, r[j]) {
      assert r[j] == keys[j - 1];
    }
  }

  lemma OthersKeepTheirUse(keys: seq<string>, ops: seq<Op>)
    requires ops != [] && ops[|ops| - 1].key !in keys
    ensures forall i :: 0 <= i < |keys| ==> LastUse(ops, keys[i]) == LastUse(ops[..|ops| - 1], keys[i])
    ensures LatestFirst(keys, ops[..|ops| - 1]) <==> LatestFirst(keys, ops)
  {
    assert forall i :: 0 <= i < |keys| ==> keys[i] in keys;
  }

  /**
   * After any operations the cached keys stand in the order of their last use, whichever operation
   * that was: a look-up counts as much as a store.
   */
  lemma {:induction false} OrderIsByLastUse(ops: seq<Op>, capacity: int)
    ensures LatestFirst(After(ops, capacity).order, ops)
    decreases |ops|
  {
    if ops != [] {
      var before, key := After(ops[..|ops| - 1], capacity), ops[|ops| - 1].key;
      OrderIsByLastUse(ops[..|ops| - 1], capacity);
      AfterIsWellFormed(ops[..|ops| - 1], capacity);
      assert key in before.values <==> key in Elements(before.order);
      if key in before.values {
        RemoveKeepsLatestFirst(before.order, key, ops[..|ops| - 1]);
        RemoveElements(before.order, key);
        FrontIsLatest(Remove(before.order, key), ops);
      } else if ops[|ops| - 1].SetOp? {
        FrontIsLatest(before.order, ops);
      } else {
        OthersKeepTheirUse(before.order, ops);
      }
    }
  }

  // ------------------------------------------------------------------ as RAG uses it

  type Embedder = string -> Option<Vec>

  /** A look-up that computes and remembers the embedding on a miss, if it can be computed. */
  function Request(c: Cache, key: string, embed: Embedder, capacity: int): (r: (Cache, Option<Vec>)) {
    var (looked, found) := Get(c, key);
    if found.Some? then (looked, found)
    else
      match embed(key)
      case None => (looked, None)
      case Some(value) => (Set(looked, key, value, capacity), Some(value))
  }

  function Serve(keys: seq<string>, embed: Embedder, capacity: int): (c: Cache)
    decreases |keys|
  {
    if keys == [] then EMPTY_CACHE
    else Request(Serve(keys[..|keys| - 1], embed, capacity), keys[|keys| - 1], embed, capacity).0
  }

  /** Everything cached is what the embedder would say. */
  ghost predicate Coherent(c: Cache, embed: Embedder) {
    forall key <- c.values :: embed(key) == Some(c.values[key])
  }

  lemma RequestKeepsCache(c: Cache, key: string, embed: Embedder, capacity: int)
    requires WellFormed(c, capacity) && Coherent(c, embed)
    ensures var (r, answer) := Request(c, key, embed, capacity);
            WellFormed(r, capacity) && Coherent(r, embed) && answer == embed(key)
  {
    ApplyKeepsWellFormed(c, GetOp(key), capacity);
    if key !in c.values && embed(key).Some? {
      ApplyKeepsWellFormed(Get(c, key).0, SetOp(key, embed(key).value), capacity);
    }
  }

  lemma {:induction false} ServeKeepsCache(keys: seq<string>, embed: Embedder, capacity: int)
    ensures WellFormed(Serve(keys, embed, capacity), capacity) && Coherent(Serve(keys, embed, capacity), embed)
    decreases |keys|
  {
    if keys != [] {
      ServeKeepsCache(keys[..|keys| - 1], embed, capacity);
      RequestKeepsCache(Serve(keys[..|keys| - 1], embed, capacity), keys[|keys| - 1], embed, capacity);
    }
  }

  /** After any requests, the next one is answered as if there were no cache. */
  lemma {:induction false} CacheIsTransparent(keys: seq<string>, key: string, embed: Embedder, capacity: int)
    ensures Request(Serve(keys, embed, capacity), key, embed, capacity).1 == embed(key)
  {
    ServeKeepsCache(keys, embed, capacity);
    RequestKeepsCache(Serve(keys, embed, capacity), key, embed, capacity);
  }

  /** Transparency also survives interleaved requests: any Set of a true embedding keeps the cache coherent. */
  lemma ConcurrentSetKeepsCoherent(c: Cache, key: string, value: Vec, embed: Embedder, capacity: int)
    requires WellFormed(c, capacity) && Coherent(c, embed) && embed(key) == Some(value)
    ensures Coherent(Set(c, key, value, capacity), embed) && Coherent(Get(c, key).0, embed)
  {
    ApplyKeepsWellFormed(c, SetOp(key, value), capacity);
  }

  /** What a request does to the order, whether it hits or computes. */
  lemma RequestOrder(c: Cache, key: string, embed: Embedder, capacity: int)
    requires WellFormed(c, capacity) && Coherent(c, embed)
    ensures Request(c, key, embed, capacity).0.order ==
            if embed(key).None? then c.order else Take(ToFront(c.order, key), Room(capacity))
  {
    var n := Room(capacity);
    assert key in c.values <==> key in Elements(c.order);
    if key in c.values {
      RemovePresent(c.order, key);
    } else {
      RemoveAbsent(c.order, key);
    }
  }

  /**
   * The stack property. For any requests, a smaller cache holds a recency prefix of what a larger
   * one holds, and never has more hits.
   */
  lemma {:induction false} SmallerCacheIsPrefix(keys: seq<string>, embed: Embedder, small: int, large: int)
    requires small <= large
    ensures var s, l := Serve(keys, embed, small), Serve(keys, embed, large);
            s.order == Take(l.order, Room(small)) && s.hits <= l.hits
    decreases |keys|
  {
    if keys != [] {
      var before, key := keys[..|keys| - 1], keys[|keys| - 1];
      SmallerCacheIsPrefix(before, embed, small, large);
      ServeKeepsCache(before, embed, small);
      ServeKeepsCache(before, embed, large);
      var s, l := Serve(before, embed, small), Serve(before, embed, large);
      RequestOrder(s, key, embed, small);
      RequestOrder(l, key, embed, large);
      assert key in s.values <==> key in Elements(s.order);
      assert key in l.values <==> key in Elements(l.order);
      if embed(key).Some? {
        PrefixAfterMove(l.order, key, Room(small), Room(large));
      }
    }
  }

  lemma PrefixAfterMove(order: seq<string>, key: string, small: nat, large: nat)
    requires Distinct(order) && small <= large && |order| <= large
    ensures Take(ToFront(Take(order, small), key), small) == Take(Take(ToFront(order, key), large), small)
  {
    if small > 0 {
      CutAfterMove(order, key, small);
      assert Take(ToFront(order, key), small) == [key] + Take(Remove(order, key), small - 1);
      var cut := Take(order, small);
      if key in cut {
        RemovePresent(cut, key);
      } else {
        RemoveAbsent(cut, key);
      }
      assert Take(ToFront(cut, key), small) == [key] + Take(Remove(cut, key), small - 1);
      assert Take(cut, small - 1) == Take(order, small - 1);
    }
  }
}
