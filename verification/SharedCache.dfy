/**
 * The embedding cache under concurrent RAG requests (internal/bus/server_rag.go:147-174). A
 * request looks its key up in one critical section and, on a miss, stores the computed embedding
 * in another; other requests may do anything in between.
 */
module SharedCache {
  import opened Wrappers
  import opened VectorCodec
  import opened RecencyCache

  datatype Answer = Answer(key: string, embedding: Option<Vec>)

  datatype Shared = Shared(
    cache: Cache,
    // the requests that missed and are computing, by their key
    computing: map<nat, string>,
    // history: what the requests used, and how many looked up
    answers: seq<Answer>, lookups: nat)

  const UNUSED := Shared(EMPTY_CACHE, map[], [], 0)

  datatype Turn = LookUp(rid: nat, key: string) | Store(rid: nat)

  /** One critical section; a turn that is not possible changes nothing. */
  function TakeTurn(s: Shared, turn: Turn, embed: Embedder, capacity: int): (r: Shared) {
    match turn
    case LookUp(rid, key) =>
      if rid in s.computing then s
      else
        var (cache, cached) := Get(s.cache, key);
        if cached.Some? then s.(cache := cache, answers := s.answers + [Answer(key, cached)], lookups := s.lookups + 1)
        else s.(cache := cache, computing := s.computing[rid := key], lookups := s.lookups + 1)
    case Store(rid) =>
      if rid !in s.computing then s
      else
        var key := s.computing[rid];
        var embedding := embed(key);
        s.(cache := if embedding.Some? then Set(s.cache, key, embedding.value, capacity) else s.cache,
           computing := s.computing - {rid}, answers := s.answers + [Answer(key, embedding)])
  }

  function TakeAll(s: Shared, turns: seq<Turn>, embed: Embedder, capacity: int): (r: Shared)
    decreases |turns|
  {
    if turns == [] then s else TakeAll(TakeTurn(s, turns[0], embed, capacity), turns[1..], embed, capacity)
  }

  /** The cache is a well-formed part of the embedder, and so was every answer. */
  ghost predicate Faithful(s: Shared, embed: Embedder, capacity: int) {
    && WellFormed(s.cache, capacity) && Coherent(s.cache, embed)
    && s.cache.hits + s.cache.misses == s.lookups
    && forall a | a in s.answers :: a.embedding == embed(a.key)
  }

  lemma TurnKeepsFaithful(s: Shared, turn: Turn, embed: Embedder, capacity: int)
    requires Faithful(s, embed, capacity)
    ensures Faithful(TakeTurn(s, turn, embed, capacity), embed, capacity)
  {
    match turn
    case LookUp(rid, key) => ApplyKeepsWellFormed(s.cache, GetOp(key), capacity);
    case Store(rid) =>
      if rid in s.computing && embed(s.computing[rid]).Some? {
        var key := s.computing[rid];
        ApplyKeepsWellFormed(s.cache, SetOp(key, embed(key).value), capacity);
        ConcurrentSetKeepsCoherent(s.cache, key, embed(key).value, embed, capacity);
      }
  }

  lemma {:induction false} TurnsKeepFaithful(s: Shared, turns: seq<Turn>, embed: Embedder, capacity: int)
    requires Faithful(s, embed, capacity)
    ensures Faithful(TakeAll(s, turns, embed, capacity), embed, capacity)
    decreases |turns|
  {
    if turns != [] {
      TurnKeepsFaithful(s, turns[0], embed, capacity);
      TurnsKeepFaithful(TakeTurn(s, turns[0], embed, capacity), turns[1..], embed, capacity);
    }
  }

  /**
   * However the look-ups and stores of any number of requests interleave, every request uses the
   * embedding it would get without a cache, and the cache stays a well-formed part of the embedder.
   */
  lemma InterleavedRequestsAreTransparent(turns: seq<Turn>, embed: Embedder, capacity: int)
    ensures var s := TakeAll(UNUSED, turns, embed, capacity);
            && (forall a | a in s.answers :: a.embedding == embed(a.key))
            && WellFormed(s.cache, capacity) && Coherent(s.cache, embed)
            && s.cache.hits + s.cache.misses == s.lookups
  {
    TurnsKeepFaithful(UNUSED, turns, embed, capacity);
  }

  /** A request that finds itself alone between its two turns is the sequential request. */
  lemma AloneIsARequest(s: Shared, rid: nat, key: string, embed: Embedder, capacity: int)
    requires rid !in s.computing && Faithful(s, embed, capacity)
    ensures var r := TakeAll(s, [LookUp(rid, key), Store(rid)], embed, capacity);
            && r.cache == Request(s.cache, key, embed, capacity).0
            && r.answers == s.answers + [Answer(key, Request(s.cache, key, embed, capacity).1)]
            && r.computing == s.computing
  {
    var s1 := TakeTurn(s, LookUp(rid, key), embed, capacity);
    assert [LookUp(rid, key), Store(rid)][1..] == [Store(rid)];
    assert TakeAll(s1, [Store(rid)], embed, capacity) == TakeTurn(s1, Store(rid), embed, capacity) by {
      assert [Store(rid)][1..] == [];
    }
    assert s.computing[rid := key] - {rid} == s.computing;
  }
}
