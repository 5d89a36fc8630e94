/**
 * When the answers to a similarity query (internal/storage/sqlite/provider_pure.go:643-784) name
 * different events. The rows are per vector, and an event that was vectorized again has several.
 */
module AnswerIdentity {
  import opened Sequences
  import opened Wrappers
  import opened VectorCodec
  import opened EventCodec
  import opened GraphStore
  import opened SimilarityQuery
  import opened SearchCompleteness

  predicate DistinctIds(results: seq<QueryResult>) {
    forall i, j :: 0 <= i < j < |results| ==> results[i].id != results[j].id
  }

  /** No two of the vectors embed the same event. */
  ghost predicate OneVectorEach(store: Store, vectors: seq<string>) {
    forall v, u | v in vectors && u in vectors && v != u && IsLinked(store, v) && IsLinked(store, u) ::
      EventOf(store, v) != EventOf(store, u)
  }

  /** Any answers have distinct ids exactly when no two chosen linked vectors embed the same event. */
  lemma DistinctExactly(results: seq<QueryResult>, order: seq<string>, chosen: seq<string>, views: Views, query: Vec,
      distance: Distance)
    requires forall v | v in chosen :: v in views.atSearch.index
    requires Answers(results, order, chosen, views, query, distance)
    ensures DistinctIds(results) <==> OneVectorEach(views.atEdges, chosen)
  {
    var store := views.atEdges;
    if OneVectorEach(store, chosen) {
      forall i, j | 0 <= i < j < |results| ensures results[i].id != results[j].id {
        assert order[i] in chosen && order[j] in chosen && order[i] != order[j];
      }
    }
    if DistinctIds(results) {
      forall v, u | v in chosen && u in chosen && v != u && IsLinked(store, v) && IsLinked(store, u)
        ensures EventOf(store, v) != EventOf(store, u)
      {
        assert v in order && u in order;
        var i :| 0 <= i < |order| && order[i] == v;
        var j :| 0 <= j < |order| && order[j] == u;
        assert i < j || j < i;
      }
    }
  }

  // ------------------------------------------------------------------ for every query on a store

  function Still(store: Store): (views: Views) {
    Views(store, store, store, store)
  }

  ghost predicate OneVectorPerEvent(store: Store) {
    forall e, f | IsEdge(store, e) && IsEdge(store, f) && e != f :: store.edges[e].target != store.edges[f].target
  }

  /** The answers to a query on this store that settled on these vectors. */
  ghost predicate AnswersOn(store: Store, chosen: seq<string>, results: seq<QueryResult>, order: seq<string>,
      query: Vec, distance: Distance)
  {
    && Distinct(chosen) && (forall v | v in chosen :: v in store.index)
    && Answers(results, order, chosen, Still(store), query, distance)
  }

  /** An index that ranks these vectors as told, whatever it is asked. */
  lemma ExactSearch(index: map<string, Vec>, ranking: seq<string>, query: Vec) returns (search: SearchFn)
    requires Distinct(ranking) && forall v | v in ranking :: v in index
    ensures SoundSearch(search) && ExactOn(search, ranking, index, query)
  {
    search := (i: map<string, Vec>, q: Vec, n: nat) => if i == index then Take(ranking, n) else [];
  }

  /** Every query on a store has answers with distinct ids exactly when no event has two embedding edges. */
  lemma AlwaysDistinctExactly(store: Store, query: Vec, distance: Distance)
    requires StoreInv(store)
    ensures (forall chosen, results, order | AnswersOn(store, chosen, results, order, query, distance) ::
               DistinctIds(results))
            <==> OneVectorPerEvent(store)
  {
    if OneVectorPerEvent(store) {
      forall chosen, results, order | AnswersOn(store, chosen, results, order, query, distance)
        ensures DistinctIds(results)
      {
        SelectionsAreOneEach(store, chosen);
        DistinctExactly(results, order, chosen, Still(store), query, distance);
      }
    } else {
      var e, f :| IsEdge(store, e) && IsEdge(store, f) && e != f && store.edges[e].target == store.edges[f].target;
      var chosen, results := TwiceAnswered(store, e, f, query, distance);
    }
  }

  lemma SelectionsAreOneEach(store: Store, vectors: seq<string>)
    requires StoreInv(store) && OneVectorPerEvent(store)
    ensures OneVectorEach(store, vectors)
  {
    forall v, u | v in vectors && u in vectors && v != u && IsLinked(store, v) && IsLinked(store, u)
      ensures EventOf(store, v) != EventOf(store, u)
    {
      var e :| EmbedsEvent(store, e, v) && store.edges[e].target == EventOf(store, v);
      var f :| EmbedsEvent(store, f, u) && store.edges[f].target == EventOf(store, u);
    }
  }

  /** Of all indexed vectors, no two embed the same event exactly when no event has two edges. */
  lemma OneEachOfAll(store: Store, vectors: seq<string>)
    requires StoreInv(store) && Elements(vectors) == store.index.Keys
    ensures OneVectorEach(store, vectors) <==> OneVectorPerEvent(store)
  {
    if OneVectorPerEvent(store) {
      SelectionsAreOneEach(store, vectors);
    }
    if OneVectorEach(store, vectors) {
      forall e, f | IsEdge(store, e) && IsEdge(store, f) && e != f
        ensures store.edges[e].target != store.edges[f].target
      {
        var v, u := store.edges[e].source, store.edges[f].source;
        assert v in Elements(vectors) && u in Elements(vectors);
        assert EmbedsEvent(store, e, v) && EmbedsEvent(store, f, u);
        EventOfEdge(store, e, v);
        EventOfEdge(store, f, u);
      }
    }
  }

  /** The answers to an unfiltered query for k vectors of an exact index, k being at least its size. */
  ghost predicate FullAnswers(results: seq<QueryResult>, order: seq<string>, store: Store, query: Vec, k: nat,
      search: SearchFn, distance: Distance, ranking: seq<string>)
  {
    && k >= |store.index|
    && IsRanking(ranking, store.index, query, distance) && ExactOn(search, ranking, store.index, query)
    && (forall v | v in Chosen(Still(store), query, k, None, search) :: v in store.index)
    && Answers(results, order, Chosen(Still(store), query, k, None, search), Still(store), query, distance)
  }

  /**
   * It takes no special index: an exact one that is asked for as many vectors as there are answers
   * with distinct ids exactly when no event has two embedding edges.
   */
  lemma ExactQueryIsDistinctExactly(results: seq<QueryResult>, order: seq<string>, store: Store, query: Vec, k: nat,
      search: SearchFn, distance: Distance, ranking: seq<string>)
    requires StoreInv(store) && FullAnswers(results, order, store, query, k, search, distance, ranking)
    ensures DistinctIds(results) <==> OneVectorPerEvent(store)
  {
    DistinctCardinality(ranking);
    assert |store.index| == |store.index.Keys|;
    assert search(store.index, query, k) == Take(ranking, k) == ranking;
    DistinctExactly(results, order, ranking, Still(store), query, distance);
    OneEachOfAll(store, ranking);
  }

  /** A query that finds both vectors of an event answers with it twice. */
  lemma TwiceAnswered(store: Store, e: string, f: string, query: Vec, distance: Distance)
    returns (chosen: seq<string>, results: seq<QueryResult>)
    requires StoreInv(store)
    requires IsEdge(store, e) && IsEdge(store, f) && e != f && store.edges[e].target == store.edges[f].target
    ensures chosen == [store.edges[e].source, store.edges[f].source]
    ensures AnswersOn(store, chosen, results, chosen, query, distance)
    ensures |results| == 2 && results[0].id == results[1].id == store.edges[e].target && !DistinctIds(results)
  {
    var v, u := store.edges[e].source, store.edges[f].source;
    assert EmbedsEvent(store, e, v) && EmbedsEvent(store, f, u);
    EventOfEdge(store, e, v);
    EventOfEdge(store, f, u);
    chosen := [v, u];
    results := [QueryResult(EventOf(store, v), 1.0 - distance(query, store.index[v])),
                QueryResult(EventOf(store, u), 1.0 - distance(query, store.index[u]))];
  }

  // ------------------------------------------------------------------ a store on which an answer repeats

  /** The store after an embedding was attached to an event; the edge gets the vector's key. */
  function WithVector(store: Store, id: string, v: string, embedding: Vec): (after: Store) {
    Store(store.nodes[v := VectorNode(Encode(embedding))], store.edges[v := Edge(v, id, EMBEDDING_OF)],
          store.index[v := embedding])
  }

  lemma WithVectorKeepsInv(store: Store, id: string, v: string, embedding: Vec)
    requires StoreInv(store) && IsEvent(store, id) && v !in store.nodes && v !in store.edges
    ensures StoreInv(WithVector(store, id, v, embedding)) && IsEvent(WithVector(store, id, v, embedding), id)
  {
    assert v !in store.index;
    var s1 := store.(nodes := store.nodes[v := VectorNode(Encode(embedding))]);
    InsertNodeKeepsStoreInv(store, v, VectorNode(Encode(embedding)));
    var s2 := s1.(index := s1.index[v := embedding]);
    IndexKeepsStoreInv(s1, v, embedding);
    forall e | IsEdge(s2, e) ensures s2.edges[e].source != v {
      assert IsEdge(store, e);
    }
    LinkKeepsStoreInv(s2, v, v, id);
  }

  /** One event alone, vectorized twice with the same embedding. */
  function Revectorized(event: Event, embedding: Vec, first: string, second: string): (store: Store) {
    var stored := EMPTY_STORE.(nodes := map[event.id := EventNode(ToDocument(event))]);
    WithVector(WithVector(stored, event.id, first, embedding), event.id, second, embedding)
  }

  lemma RevectorizedIsConsistent(event: Event, embedding: Vec, first: string, second: string)
    requires first != second && event.id != first && event.id != second
    ensures StoreInv(Revectorized(event, embedding, first, second))
  {
    var stored := EMPTY_STORE.(nodes := map[event.id := EventNode(ToDocument(event))]);
    assert StoredEventNode(stored, event.id);
    WithVectorKeepsInv(stored, event.id, first, embedding);
    WithVectorKeepsInv(WithVector(stored, event.id, first, embedding), event.id, second, embedding);
  }

  /** Both vectors are equally near to everything. */
  lemma RevectorizedRanking(event: Event, embedding: Vec, first: string, second: string, query: Vec, distance: Distance)
    requires first != second && event.id != first && event.id != second
    ensures var store := Revectorized(event, embedding, first, second);
            && IsRanking([first, second], store.index, query, distance)
            && IsEdge(store, first) && IsEdge(store, second)
            && store.edges[first] == Edge(first, event.id, EMBEDDING_OF)
            && store.edges[second] == Edge(second, event.id, EMBEDDING_OF)
  {
    assert Elements([first, second]) == {first, second};
  }

  /** A query for both vectors of an exact index answers twice with the only event there is. */
  lemma AnAnswerCanRepeat(event: Event, embedding: Vec, first: string, second: string, query: Vec, distance: Distance)
    returns (search: SearchFn, results: seq<QueryResult>, order: seq<string>)
    requires first != second && event.id != first && event.id != second
    ensures var store := Revectorized(event, embedding, first, second);
            && StoreInv(store) && SoundSearch(search)
            && FullAnswers(results, order, store, query, 2, search, distance, [first, second])
            && |results| == 2 && results[0].id == event.id && results[1].id == event.id
  {
    var store := Revectorized(event, embedding, first, second);
    RevectorizedIsConsistent(event, embedding, first, second);
    RevectorizedRanking(event, embedding, first, second, query, distance);
    order, results := TwiceAnswered(store, first, second, query, distance);
    search := FullSearch(results, order, store, query, distance);
  }

  /** Answers on all indexed vectors, in the order of a ranking, are those of an exact index. */
  lemma FullSearch(results: seq<QueryResult>, ranking: seq<string>, store: Store, query: Vec, distance: Distance)
    returns (search: SearchFn)
    requires IsRanking(ranking, store.index, query, distance)
    requires AnswersOn(store, ranking, results, ranking, query, distance)
    ensures SoundSearch(search)
    ensures FullAnswers(results, ranking, store, query, |ranking|, search, distance, ranking)
  {
    search := ExactSearch(store.index, ranking, query);
    DistinctCardinality(ranking);
    assert |store.index| == |store.index.Keys|;
    assert Chosen(Still(store), query, |ranking|, None, search) == ranking;
  }
}
