/**
 * The search RPC (`Search` of internal/bus/server.go) and the event reads it and the RAG layer
 * use (`GetEventByID`, `BatchGetEvents` of internal/storage/sqlite/provider_pure.go).
 */
module SearchService {
  import opened Wrappers
  import opened Sequences
  import opened VectorCodec
  import opened EventCodec
  import opened FilterCompiler
  import opened GraphStore
  import opened SimilarityQuery

  const DEFAULT_TOP_K := 5

  datatype SearchRequest = SearchRequest(queryText: string, topK: int, userId: string, attributeFilters: map<string,
      string>)

  datatype SearchResponse = SearchResponse(events: seq<Event>, scores: seq<real>)

  function EffectiveTopK(topK: int): (k: nat)
    ensures k > 0
  {
    if topK <= 0 then DEFAULT_TOP_K else topK
  }

  /** No filter unless a user or attributes are given. */
  function RequestFilter(request: SearchRequest): (filter: Option<Filter>) {
    if request.userId == "" && request.attributeFilters == map[] then None
    else
      var user := if request.userId != "" then Some(request.userId) else None;
      Some(Filter(user, None, [], None, None, request.attributeFilters))
  }

  method GetEventByID(store: Store, id: string, fault: bool) returns (event: Option<Event>)
    ensures event.Some? <==> !fault && IsEvent(store, id)
    ensures event.Some? ==> event.value == FromDocument(store.nodes[id].doc)
  {
    if fault || !(id in store.nodes && store.nodes[id].EventNode?) {
      return None;
    }
    return Some(FromDocument(store.nodes[id].doc));
  }

  /** The requested ids that are stored. */
  function StoredAmong(store: Store, ids: seq<string>): (stored: set<string>) {
    set id | id in ids && id in store.nodes && store.nodes[id].EventNode?
  }

  /** `events` are the events stored under the ids in `order`. */
  ghost predicate Reads(events: seq<Event>, order: seq<string>, store: Store) {
    |events| == |order| && forall i :: 0 <= i < |order| ==>
      IsEvent(store, order[i]) && events[i] == FromDocument(store.nodes[order[i]].doc)
  }

  lemma ReadsEach(events: seq<Event>, order: seq<string>, store: Store, ids: seq<string>)
    requires Reads(events, order, store) && Distinct(order)
    requires forall id :: id in order <==> id in StoredAmong(store, ids)
    ensures |events| == |StoredAmong(store, ids)|
    ensures forall id | id in StoredAmong(store, ids) :: FromDocument(store.nodes[id].doc) in events
  {
    assert Elements(order) == StoredAmong(store, ids);
    DistinctCardinality(order);
    forall id | id in StoredAmong(store, ids) ensures FromDocument(store.nodes[id].doc) in events {
      var i :| 0 <= i < |order| && order[i] == id;
      assert events[i] in events;
    }
  }

  /** One event for each requested id that is stored, in any order; `order` tells which. */
  method BatchGetEvents(store: Store, ids: seq<string>) returns (events: seq<Event>, ghost order: seq<string>)
    ensures |events| == |StoredAmong(store, ids)|
    ensures forall id | id in StoredAmong(store, ids) :: FromDocument(store.nodes[id].doc) in events
    ensures Reads(events, order, store) && Distinct(order)
    ensures forall id :: id in order <==> id in StoredAmong(store, ids)
  {
    events, order := [], [];
    if |ids| == 0 {
      return;
    }
    var rows := StoredAmong(store, ids);
    while rows != {}
      invariant Reads(events, order, store) && Distinct(order)
      invariant forall id :: id in rows || id in order <==> id in StoredAmong(store, ids)
      invariant forall id | id in order :: id !in rows
      decreases |rows|
    {
      var id :| id in rows;
      events := events + [FromDocument(store.nodes[id].doc)];
      order := order + [id];
      rows := rows - {id};
    }
    ReadsEach(events, order, store, ids);
  }

  /** The positions below n of the answers that can be read. */
  function Readable(unreadable: nat -> bool, n: nat): (kept: seq<nat>) {
    if n == 0 then [] else Readable(unreadable, n - 1) + (if unreadable(n - 1) then [] else [n - 1])
  }

  lemma {:induction false} ReadableAre(unreadable: nat -> bool, n: nat)
    ensures forall m: nat :: m in Readable(unreadable, n) <==> m < n && !unreadable(m)
    ensures |Readable(unreadable, n)| <= n
    ensures var kept := Readable(unreadable, n); forall i, j :: 0 <= i < j < |kept| ==> kept[i] < kept[j]
  {
    if n > 0 {
      ReadableAre(unreadable, n - 1);
      var before := Readable(unreadable, n - 1);
      forall i | 0 <= i < |before| ensures before[i] < n - 1 {
        var m: nat := before[i];
        assert m in before;
      }
    }
  }

  lemma {:induction false} AllReadable(unreadable: nat -> bool, n: nat)
    requires forall m: nat | m < n :: !unreadable(m)
    ensures |Readable(unreadable, n)| == n && forall i :: 0 <= i < n ==> Readable(unreadable, n)[i] == i
  {
    if n > 0 {
      AllReadable(unreadable, n - 1);
    }
  }

  /** The answers at the positions in `kept`, in that order, each event beside its score. */
  ghost predicate Fetched(response: SearchResponse, answers: seq<QueryResult>, kept: seq<nat>, store: Store) {
    && |response.events| == |response.scores| == |kept|
    && forall j :: 0 <= j < |kept| ==>
         && kept[j] < |answers| && IsEvent(store, answers[kept[j]].id)
         && response.events[j] == FromDocument(store.nodes[answers[kept[j]].id].doc)
         && response.scores[j] == answers[kept[j]].score
  }

  /** The response to a request is what could be read of the answers to its query. */
  ghost predicate Responds(response: SearchResponse, request: SearchRequest, query: Vec, answers: seq<QueryResult>,
      order: seq<string>, views: Views, search: SearchFn, distance: Distance, unreadable: nat -> bool)
  {
    var chosen := Chosen(views, query, EffectiveTopK(request.topK), RequestFilter(request), search);
    && (forall v | v in chosen :: v in views.atSearch.index)
    && Answers(answers, order, chosen, views, query, distance)
    && Fetched(response, answers, Readable(unreadable, |answers|), views.atEdges)
  }

  /** Every answer is fetched in turn, each at its own moment; one that cannot be read is skipped. */
  method FetchAnswers(answers: seq<QueryResult>, store: Store, later: nat -> Store, unreadable: nat -> bool)
    returns (response: SearchResponse)
    requires forall n: nat :: Grows(store, later(n))
    requires forall n :: 0 <= n < |answers| ==> IsEvent(store, answers[n].id)
    ensures Fetched(response, answers, Readable(unreadable, |answers|), store)
  {
    var events, scores := [], [];
    for n := 0 to |answers|
      invariant Fetched(SearchResponse(events, scores), answers, Readable(unreadable, n), store)
    {
      var event := GetEventByID(later(n), answers[n].id, unreadable(n));
      assert Grows(store, later(n)) && IsEvent(store, answers[n].id);
      if event.Some? {
        events := events + [event.value];
        scores := scores + [answers[n].score];
      }
    }
    response := SearchResponse(events, scores);
  }

  /**
   * The search RPC. `hasProvider` and `embedding` are the embedding provider and its reply;
   * `views`, `later` and the faults are what the storage reads meet.
   */
  method Search(request: SearchRequest, hasProvider: bool, embedding: Option<Vec>, views: Views, later: nat -> Store,
                search: SearchFn, distance: Distance, faults: QueryFaults, unreadable: nat -> bool)
    returns (r: Result<SearchResponse, string>, ghost answers: seq<QueryResult>, ghost order: seq<string>)
    requires Consistent(views) && SoundSearch(search)
    requires forall n: nat :: Grows(views.atEdges, later(n))
    ensures r.Err? <==>
              || request.queryText == "" || !hasProvider || embedding.None?
              || QueryErrs(views, embedding.value, EffectiveTopK(request.topK), RequestFilter(request), search, faults)
    ensures r.Ok? ==>
              && embedding.Some?
              && |r.value.events| == |r.value.scores| <= EffectiveTopK(request.topK)
              && Responds(r.value, request, embedding.value, answers, order, views, search, distance, unreadable)
    ensures r.Ok? && request.userId != "" ==> forall e | e in r.value.events :: e.userId == request.userId
    ensures r.Ok? && request.attributeFilters != map[] ==> r.value.events == []
  {
    answers, order := [], [];
    if request.queryText == "" {
      return Err("query_text cannot be empty"), answers, order;
    }
    var topK := EffectiveTopK(request.topK);
    if !hasProvider {
      return Err("vector search is not available on the server"), answers, order;
    }
    if embedding.None? {
      return Err("failed to create query embedding"), answers, order;
    }
    var filter := RequestFilter(request);
    var found;
    found, order := QuerySimilar(views, embedding.value, topK, filter, search, distance, faults);
    if found.Err? {
      return Err("failed to query similar events"), answers, order;
    }
    answers := found.value;
    AnswersAreBounded(answers, order, views, embedding.value, topK, filter, search, distance);
    forall n | 0 <= n < |answers| ensures IsEvent(views.atEdges, answers[n].id) {
      AnswersAreEvents(answers, order, Chosen(views, embedding.value, topK, filter, search), views, embedding.value,
          distance, n);
    }
    var response := FetchAnswers(found.value, views.atEdges, later, unreadable);
    ReadableAre(unreadable, |answers|);
    if filter.Some? {
      FilteredEvents(response, answers, order, Readable(unreadable, |answers|), views, embedding.value, topK,
                     filter.value, search, distance);
    }
    return Ok(response), answers, order;
  }

  lemma NonEmptyHasMember(s: seq<string>)
    requires s != []
    ensures exists x :: x in s
  {
    assert s[0] in s;
  }

  /** What a filtered search hands out: only the user's own events, and nothing for an attribute filter. */
  lemma FilteredEvents(response: SearchResponse, answers: seq<QueryResult>, order: seq<string>, kept: seq<nat>,
      views: Views, query: Vec, k: nat, filter: Filter, search: SearchFn, distance: Distance)
    requires Consistent(views) && SoundSearch(search)
    requires forall v | v in Chosen(views, query, k, Some(filter), search) :: v in views.atSearch.index
    requires Answers(answers, order, Chosen(views, query, k, Some(filter), search), views, query, distance)
    requires Fetched(response, answers, kept, views.atEdges)
    ensures filter.userId.Some? && filter.userId.value != "" ==>
              forall e | e in response.events :: e.userId == filter.userId.value
    ensures filter.attributes != map[] ==> answers == []
  {
    if filter.attributes != map[] {
      AttributeFilterFindsNothing(views.atFilter, filter);
      assert LinkedTo(views.atLinks, Eligible(views.atFilter, filter)) == {};
      KeepNothing(search(views.atSearch.index, query, 10 * k));
      assert Chosen(views, query, k, Some(filter), search) == [];
      if order != [] {
        NonEmptyHasMember(order);
      }
    }
    if filter.userId.Some? && filter.userId.value != "" {
      forall j | 0 <= j < |response.events| ensures response.events[j].userId == filter.userId.value {
        var id := answers[kept[j]].id;
        FilteredAnswersMatch(answers, order, views, query, k, filter, search, distance, kept[j]);
        assert StoredEventNode(views.atFilter, id);
        var e: Event :| e.id == id && views.atFilter.nodes[id].doc == ToDocument(e);
        UserClauseReadsUserId(filter, e);
      }
    }
  }

  /** The snapshots that one query takes during any run of the storage system satisfy what Search asks of them. */
  lemma ViewsOfARun(m: Machine, toLinks: seq<Action>, toSearch: seq<Action>, toEdges: seq<Action>,
      toFetch: nat -> seq<Action>)
    requires Inv(m)
    ensures var m1 := Run(m, toLinks);
            var m2 := Run(m1, toSearch);
            var m3 := Run(m2, toEdges);
            && Consistent(Views(m.store, m1.store, m2.store, m3.store))
            && forall n: nat :: Grows(m3.store, Run(m3, toFetch(n)).store)
  {
    var m1 := Run(m, toLinks);
    var m2 := Run(m1, toSearch);
    var m3 := Run(m2, toEdges);
    RunKeepsInv(m, toLinks);
    RunKeepsInv(m1, toSearch);
    RunKeepsInv(m2, toEdges);
    forall n: nat ensures Grows(m3.store, Run(m3, toFetch(n)).store) {
      RunKeepsInv(m3, toFetch(n));
    }
  }
}
