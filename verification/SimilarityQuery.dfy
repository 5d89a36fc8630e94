/**
 * Similarity search over the graph store: `QuerySimilar` and `findFilteredEventIDs`
 * (internal/storage/sqlite/provider_pure.go).
 *
 * The queries of one call run at different moments, and other operations may add rows and
 * index entries in between, so every read has its own snapshot of the store. Result rows
 * come in any order. The nearest-neighbour index is a parameter.
 */
module SimilarityQuery {
  import opened Wrappers
  import opened Sequences
  import opened VectorCodec
  import opened EventCodec
  import opened FilterCompiler
  import opened GraphStore

  datatype QueryResult = QueryResult(id: string, score: real)

  type Distance = (Vec, Vec) -> real

  /** The index's search: at most n of the indexed keys. */
  type SearchFn = (map<string, Vec>, Vec, nat) -> seq<string>

  /** All that soundness needs of the index. */
  ghost predicate SoundSearch(search: SearchFn) {
    forall index, query, n ::
      var found := search(index, query, n);
      |found| <= n && Distinct(found) && (forall v | v in found :: v in index)
  }

  /** The store as each read of one query sees it. */
  datatype Views = Views(atFilter: Store, atLinks: Store, atSearch: Store, atEdges: Store)

  ghost predicate Consistent(views: Views) {
    && StoreInv(views.atFilter) && StoreInv(views.atLinks) && StoreInv(views.atSearch) && StoreInv(views.atEdges)
    && Grows(views.atFilter, views.atLinks) && Grows(views.atLinks, views.atSearch)
        && Grows(views.atSearch, views.atEdges)
  }

  function Eligible(store: Store, filter: Filter): (ids: set<string>) {
    set id | id in store.nodes && store.nodes[id].EventNode? && Matches(filter, store.nodes[id].doc)
  }

  /** The vectors that an embedding_of edge links to one of the events. */
  function LinkedTo(store: Store, events: set<string>): (vectors: set<string>) {
    set e | e in store.edges && store.edges[e].relation == EMBEDDING_OF && store.edges[e].target in events
      :: store.edges[e].source
  }

  ghost predicate EmbedsEvent(store: Store, e: string, v: string) {
    IsEdge(store, e) && store.edges[e].relation == EMBEDDING_OF && store.edges[e].source == v
  }

  /** The vector has an embedding_of edge. */
  ghost predicate IsLinked(store: Store, v: string) {
    exists e :: EmbedsEvent(store, e, v)
  }

  /** The event a linked vector embeds. */
  ghost function EventOf(store: Store, v: string): (id: string)
    requires IsLinked(store, v)
    ensures exists e :: EmbedsEvent(store, e, v) && store.edges[e].target == id
  {
    var e :| EmbedsEvent(store, e, v);
    store.edges[e].target
  }

  /** A vector has one edge only, so any of its edges tells its event. */
  lemma EventOfEdge(store: Store, e: string, v: string)
    requires StoreInv(store) && EmbedsEvent(store, e, v)
    ensures IsLinked(store, v)
    ensures EventOf(store, v) == store.edges[e].target
  {
    var f :| EmbedsEvent(store, f, v) && store.edges[f].target == EventOf(store, v);
  }

  /** The vectors a query settles on: the nearest k, or the first k eligible of the nearest 10k. */
  function Chosen(views: Views, query: Vec, k: nat, filter: Option<Filter>, search: SearchFn): (vectors: seq<string>) {
    match filter
    case None => search(views.atSearch.index, query, k)
    case Some(f) =>
      Take(Keep(search(views.atSearch.index, query, 10 * k), LinkedTo(views.atLinks, Eligible(views.atFilter, f))), k)
  }

  /**
   * `order` lists exactly the chosen vectors that have an edge, each once, and every one
   * contributes its event and its score.
   */
  ghost predicate Answers(results: seq<QueryResult>, order: seq<string>, chosen: seq<string>, views: Views,
      query: Vec, distance: Distance)
    requires forall v | v in chosen :: v in views.atSearch.index
  {
    && |results| == |order| && Distinct(order)
    && (forall v :: v in order <==> v in chosen && IsLinked(views.atEdges, v))
    && forall i :: 0 <= i < |results| ==>
         IsLinked(views.atEdges, order[i]) && order[i] in views.atSearch.index
         && results[i] == QueryResult(EventOf(views.atEdges, order[i]), 1.0 - distance(query,
             views.atSearch.index[order[i]]))
  }

  /** Which of the database queries fail. */
  datatype QueryFaults = QueryFaults(filterQuery: bool, linkQuery: bool, edgeQuery: bool)

  lemma ChosenIsSound(views: Views, query: Vec, k: nat, filter: Option<Filter>, search: SearchFn)
    requires SoundSearch(search)
    ensures var chosen := Chosen(views, query, k, filter, search);
            |chosen| <= k && Distinct(chosen) && forall v | v in chosen :: v in views.atSearch.index
  {
    if filter.Some? {
      var keep := LinkedTo(views.atLinks, Eligible(views.atFilter, filter.value));
      var found := search(views.atSearch.index, query, 10 * k);
      KeepDistinct(found, keep);
      KeepElements(found, keep);
    }
  }

  method FindFilteredEventIDs(store: Store, filter: Filter) returns (ids: set<string>)
    ensures ids == Eligible(store, filter)
  {
    var conditions, args := CompileFilter(filter);
    ids := set id | id in store.nodes && store.nodes[id].EventNode?
                    && EvalAll(conditions, args, store.nodes[id].doc) == True;
  }

  predicate FilterErrs(views: Views, filter: Filter, faults: QueryFaults) {
    faults.filterQuery || (faults.linkQuery && Eligible(views.atFilter, filter) != {})
  }

  /** Bad arguments, or a failing query that is reached: nothing eligible or nothing found needs no further query. */
  predicate QueryErrs(views: Views, query: Vec, topK: int, filter: Option<Filter>, search: SearchFn,
      faults: QueryFaults) {
    || query == [] || topK <= 0
    || (filter.Some? && FilterErrs(views, filter.value, faults))
    || (faults.edgeQuery && Chosen(views, query, topK, filter, search) != [])
  }

  method QuerySimilar(views: Views, query: Vec, topK: int, filter: Option<Filter>, search: SearchFn,
      distance: Distance, faults: QueryFaults)
    returns (r: Result<seq<QueryResult>, string>, ghost order: seq<string>)
    requires Consistent(views) && SoundSearch(search)
    ensures r.Err? <==> QueryErrs(views, query, topK, filter, search, faults)
    ensures r.Err? <==>
              || query == [] || topK <= 0
              || (filter.Some? && faults.filterQuery)
              || (filter.Some? && faults.linkQuery && Eligible(views.atFilter, filter.value) != {})
              || (faults.edgeQuery && Chosen(views, query, topK, filter, search) != [])
    ensures r.Ok? && topK > 0 ==>
              && (forall v | v in Chosen(views, query, topK, filter, search) :: v in views.atSearch.index)
              && Answers(r.value, order, Chosen(views, query, topK, filter, search), views, query, distance)
  {
    order := [];
    if |query| == 0 {
      return Err("embedding cannot be empty"), order;
    }
    if topK <= 0 {
      return Err("topK must be positive"), order;
    }
    ChosenIsSound(views, query, topK, filter, search);
    var vectorNodes: seq<string>;
    if filter.Some? {
      var kept := FilteredVectors(views, query, topK, filter.value, search, faults);
      if kept.Err? {
        return Err(kept.error), order;
      }
      vectorNodes := kept.value;
    } else {
      vectorNodes := search(views.atSearch.index, query, topK);
    }
    var scoreMap := map v | v in vectorNodes :: 1.0 - distance(query, views.atSearch.index[v]);
    if |vectorNodes| == 0 {
      return Ok([]), order;
    }
    if faults.edgeQuery {
      return Err("failed to query edges"), order;
    }
    var results;
    results, order := CollectRows(views.atEdges, vectorNodes, scoreMap);
    return Ok(results), order;
  }

  /** The filtered branch: eligible events, their vectors, and an over-fetched search cut to k of them. */
  method FilteredVectors(views: Views, query: Vec, k: nat, filter: Filter, search: SearchFn, faults: QueryFaults)
    returns (r: Result<seq<string>, string>)
    requires k > 0
    ensures r.Err? <==> FilterErrs(views, filter, faults)
    ensures r.Ok? ==> r.value == Chosen(views, query, k, Some(filter), search)
  {
    if faults.filterQuery {
      return Err("failed to filter events");
    }
    var eligible := FindFilteredEventIDs(views.atFilter, filter);
    if eligible == {} {
      assert LinkedTo(views.atLinks, eligible) == {};
      KeepNothing(search(views.atSearch.index, query, 10 * k));
      return Ok([]);
    }
    if faults.linkQuery {
      return Err("failed to query vector nodes");
    }
    var vectorIds := LinkedTo(views.atLinks, eligible);
    var allNodes := search(views.atSearch.index, query, k * 10);
    var kept := FirstIn(allNodes, vectorIds, k);
    return Ok(kept);
  }

  lemma {:induction false} KeepNothing(s: seq<string>)
    ensures Keep(s, {}) == []
  {
    if s != [] {
      KeepNothing(s[1..]);
    }
  }

  /** The loop that keeps the first k of the found vectors that are in the set. */
  method FirstIn(found: seq<string>, keep: set<string>, k: nat) returns (kept: seq<string>)
    requires k > 0
    ensures kept == Take(Keep(found, keep), k)
  {
    kept := [];
    for i := 0 to |found|
      invariant kept == Keep(found[..i], keep) && |kept| < k
    {
      assert found[..i + 1] == found[..i] + [found[i]];
      KeepAppend(found[..i], [found[i]], keep);
      if found[i] in keep {
        kept := kept + [found[i]];
        if |kept| >= k {
          KeepAppend(found[..i + 1], found[i + 1..], keep);
          assert found == found[..i + 1] + found[i + 1..];
          return;
        }
      }
    }
    assert found[..|found|] == found;
  }

  function RowsFor(store: Store, chosen: seq<string>): (rows: set<string>) {
    set e | e in store.edges && store.edges[e].relation == EMBEDDING_OF && store.edges[e].source in chosen
  }

  /** `read` are the rows consumed so far, in order; each gave one result. */
  ghost predicate Collected(store: Store, chosen: seq<string>, scores: map<string, real>, read: seq<string>,
      results: seq<QueryResult>, order: seq<string>) {
    && |results| == |order| == |read| && Distinct(order)
    && (forall i :: 0 <= i < |read| ==> EmbedsEvent(store, read[i], order[i]) && order[i] in chosen)
    && forall i :: 0 <= i < |results| ==>
         IsLinked(store, order[i]) && order[i] in scores
         && results[i] == QueryResult(EventOf(store, order[i]), scores[order[i]])
  }

  lemma CollectRow(store: Store, chosen: seq<string>, scores: map<string, real>, read: seq<string>,
      results: seq<QueryResult>, order: seq<string>, e: string)
    requires StoreInv(store) && Collected(store, chosen, scores, read, results, order)
    requires e in RowsFor(store, chosen) && e !in read && store.edges[e].source in scores
    ensures Collected(store, chosen, scores, read + [e],
                      results + [QueryResult(store.edges[e].target, scores[store.edges[e].source])],
                      order + [store.edges[e].source])
  {
    var v := store.edges[e].source;
    assert EmbedsEvent(store, e, v);
    EventOfEdge(store, e, v);
    forall i | 0 <= i < |read| ensures order[i] != v {
      assert IsEdge(store, read[i]) && read[i] != e;
    }
  }

  lemma CollectedAll(store: Store, chosen: seq<string>, scores: map<string, real>, read: seq<string>,
      results: seq<QueryResult>, order: seq<string>)
    requires Collected(store, chosen, scores, read, results, order)
    requires forall e | e in RowsFor(store, chosen) :: e in read
    ensures forall v :: v in order <==> v in chosen && IsLinked(store, v)
  {
    forall v | v in chosen && IsLinked(store, v) ensures v in order {
      var e :| EmbedsEvent(store, e, v);
      assert e in RowsFor(store, chosen);
      var i :| 0 <= i < |read| && read[i] == e;
      assert order[i] == v;
    }
  }

  ghost function LinkedAmong(store: Store, chosen: seq<string>): (linked: set<string>) {
    set v | v in chosen && IsLinked(store, v)
  }

  /** The result that a linked vector contributes. */
  ghost function ResultOf(store: Store, scores: map<string, real>, v: string): (r: QueryResult)
    requires IsLinked(store, v) && v in scores
  {
    QueryResult(EventOf(store, v), scores[v])
  }

  lemma EachContributes(store: Store, chosen: seq<string>, scores: map<string, real>, read: seq<string>,
      results: seq<QueryResult>, order: seq<string>)
    requires Collected(store, chosen, scores, read, results, order)
    requires forall v :: v in order <==> v in LinkedAmong(store, chosen)
    requires forall v | v in chosen :: v in scores
    ensures |results| == |LinkedAmong(store, chosen)|
    ensures forall v | v in LinkedAmong(store, chosen) :: ResultOf(store, scores, v) in results
  {
    assert Elements(order) == LinkedAmong(store, chosen);
    DistinctCardinality(order);
    forall v | v in LinkedAmong(store, chosen) ensures ResultOf(store, scores, v) in results {
      var i :| 0 <= i < |order| && order[i] == v;
      assert results[i] in results;
    }
  }

  /** One row per embedding_of edge whose source was chosen, in any order. */
  method CollectRows(store: Store, chosen: seq<string>, scores: map<string, real>)
    returns (results: seq<QueryResult>, ghost order: seq<string>)
    requires StoreInv(store) && forall v | v in chosen :: v in scores
    ensures |results| == |LinkedAmong(store, chosen)|
    ensures forall v | v in LinkedAmong(store, chosen) :: ResultOf(store, scores, v) in results
    ensures |results| == |order| && Distinct(order)
    ensures forall v :: v in order <==> v in chosen && IsLinked(store, v)
    ensures forall i :: 0 <= i < |results| ==>
              IsLinked(store, order[i]) && order[i] in scores
              && results[i] == QueryResult(EventOf(store, order[i]), scores[order[i]])
  {
    var rows := RowsFor(store, chosen);
    ghost var read: seq<string> := [];
    results, order := [], [];
    while rows != {}
      invariant rows <= RowsFor(store, chosen)
      invariant forall e | e in RowsFor(store, chosen) :: e in rows <==> e !in read
      invariant Collected(store, chosen, scores, read, results, order)
      decreases |rows|
    {
      var e :| e in rows;
      CollectRow(store, chosen, scores, read, results, order, e);
      results := results + [QueryResult(store.edges[e].target, scores[store.edges[e].source])];
      order, read := order + [store.edges[e].source], read + [e];
      rows := rows - {e};
    }
    CollectedAll(store, chosen, scores, read, results, order);
    EachContributes(store, chosen, scores, read, results, order);
  }

  // ------------------------------------------------------------------ what an answer means

  /** At most topK results, whatever ran in between. */
  lemma AnswersAreBounded(results: seq<QueryResult>, order: seq<string>, views: Views, query: Vec, k: nat,
      filter: Option<Filter>, search: SearchFn, distance: Distance)
    requires SoundSearch(search)
    requires forall v | v in Chosen(views, query, k, filter, search) :: v in views.atSearch.index
    requires Answers(results, order, Chosen(views, query, k, filter, search), views, query, distance)
    ensures |results| <= k
  {
    var chosen := Chosen(views, query, k, filter, search);
    ChosenIsSound(views, query, k, filter, search);
    DistinctCardinality(order);
    DistinctCardinality(chosen);
    SubsetCardinality(Elements(order), Elements(chosen));
  }

  /**
   * Every result of a filtered query is an event that matched the filter when it was
   * evaluated, although edges were read again later: a vector never gets a second edge.
   */
  lemma FilteredAnswersMatch(results: seq<QueryResult>, order: seq<string>, views: Views, query: Vec, k: nat,
      filter: Filter, search: SearchFn, distance: Distance, i: nat)
    requires Consistent(views) && SoundSearch(search)
    requires forall v | v in Chosen(views, query, k, Some(filter), search) :: v in views.atSearch.index
    requires Answers(results, order, Chosen(views, query, k, Some(filter), search), views, query, distance)
    requires i < |results|
    ensures IsEvent(views.atFilter, results[i].id)
    ensures Matches(filter, views.atFilter.nodes[results[i].id].doc)
    ensures IsEvent(views.atEdges, results[i].id)
    ensures views.atEdges.nodes[results[i].id] == views.atFilter.nodes[results[i].id]
  {
    var eligible := Eligible(views.atFilter, filter);
    assert order[i] in Chosen(views, query, k, Some(filter), search);
    KeepElements(search(views.atSearch.index, query, 10 * k), LinkedTo(views.atLinks, eligible));
    GrowsTransitive(views.atLinks, views.atSearch, views.atEdges);
    LinkIsFinal(views.atLinks, views.atEdges, eligible, order[i]);
    assert IsEvent(views.atFilter, results[i].id);
    GrowsTransitive(views.atFilter, views.atLinks, views.atEdges);
  }

  /** A vector linked to one of the events at some moment embeds one of them ever after. */
  lemma LinkIsFinal(store: Store, later: Store, events: set<string>, v: string)
    requires StoreInv(later) && Grows(store, later)
    requires v in LinkedTo(store, events)
    ensures IsLinked(later, v) && EventOf(later, v) in events
  {
    var e :| e in store.edges && store.edges[e].relation == EMBEDDING_OF
             && store.edges[e].target in events && store.edges[e].source == v;
    assert IsEdge(store, e);
    assert EmbedsEvent(later, e, v);
    EventOfEdge(later, e, v);
  }

  /** Every result is an event node of the store. */
  lemma AnswersAreEvents(results: seq<QueryResult>, order: seq<string>, chosen: seq<string>, views: Views,
      query: Vec, distance: Distance, i: nat)
    requires Consistent(views)
    requires forall v | v in chosen :: v in views.atSearch.index
    requires Answers(results, order, chosen, views, query, distance)
    requires i < |results|
    ensures IsEvent(views.atEdges, results[i].id)
  {
    var e :| EmbedsEvent(views.atEdges, e, order[i]) && views.atEdges.edges[e].target == results[i].id;
  }

  /** Attributes are not stored, so in every reachable store an attribute filter finds nothing. */
  lemma AttributeFilterFindsNothing(store: Store, filter: Filter)
    requires StoreInv(store) && filter.attributes != map[]
    ensures Eligible(store, filter) == {}
  {
    forall id | IsEvent(store, id) ensures !Matches(filter, store.nodes[id].doc) {
      assert StoredEventNode(store, id);
      var e: Event :| e.id == id && store.nodes[id].doc == ToDocument(e);
      AttributeFiltersMatchNothing(filter, e);
    }
    assert forall id | id in Eligible(store, filter) :: IsEvent(store, id);
  }

  /** Every clause of the filter that is present holds of the event; no event satisfies an attribute clause. */
  predicate Satisfies(e: Event, filter: Filter) {
    && (filter.userId.Some? ==> filter.userId.value != "" && e.userId == filter.userId.value)
    && (filter.sessionId.Some? ==> filter.sessionId.value != "" && e.sessionId == filter.sessionId.value)
    && (filter.eventTypes != [] ==> e.typ in filter.eventTypes)
    && (filter.timeFrom.Some? ==> e.time.Some? && e.time.value.seconds >= filter.timeFrom.value.seconds)
    && (filter.timeTo.Some? ==> e.time.Some? && e.time.value.seconds <= filter.timeTo.value.seconds)
    && filter.attributes == map[]
  }

  lemma MatchesExactly(e: Event, filter: Filter)
    requires filter.attributes == map[]
    ensures Matches(filter, ToDocument(e)) <==> Satisfies(FromDocument(ToDocument(e)), filter)
  {
    DocumentFields(e, UserId);
    DocumentFields(e, SessionId);
    DocumentFields(e, Type);
    DocumentFields(e, Time);
    RoundTrip(e);
  }

  /** In every reachable store a filter selects exactly the events that satisfy it when they are read back. */
  lemma EligibleExactly(store: Store, filter: Filter, id: string)
    requires StoreInv(store) && IsEvent(store, id)
    ensures id in Eligible(store, filter) <==> Satisfies(FromDocument(store.nodes[id].doc), filter)
  {
    assert StoredEventNode(store, id);
    var e: Event :| e.id == id && store.nodes[id].doc == ToDocument(e);
    if filter.attributes == map[] {
      MatchesExactly(e, filter);
    } else {
      AttributeFilterFindsNothing(store, filter);
    }
  }

  /** In every reachable store a user filter selects exactly the events of that user. */
  lemma UserFilterSelectsUser(store: Store, user: string, id: string)
    requires StoreInv(store) && user != "" && IsEvent(store, id)
    ensures id in Eligible(store, NO_FILTER.(userId := Some(user)))
            <==> FromDocument(store.nodes[id].doc).userId == user
    ensures FromDocument(store.nodes[id].doc).id == id
  {
    assert StoredEventNode(store, id);
    var e: Event :| e.id == id && store.nodes[id].doc == ToDocument(e);
    DocumentFields(e, UserId);
    RoundTrip(e);
    UserOnlyMeaning(user, store.nodes[id].doc);
    assert FromDocument(store.nodes[id].doc) == Persisted(e);
  }
}
