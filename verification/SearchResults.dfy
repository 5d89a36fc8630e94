/**
 * What a search finds, from the request to the response (internal/bus/server.go:186-258), and what
 * the RAG layer draws on (internal/bus/server_rag.go:169-188), with an index that returns the n
 * nearest keys in distance order.
 */
module SearchResults {
  import opened Wrappers
  import opened Sequences
  import opened VectorCodec
  import opened EventCodec
  import opened FilterCompiler
  import opened GraphStore
  import opened SimilarityQuery
  import opened SearchCompleteness
  import opened SearchService
  import opened RagEnhancement

  /** The event was stored when the filter was evaluated, and is the user's if one is named. */
  ghost predicate OfUser(store: Store, id: string, user: Option<string>) {
    IsEvent(store, id) && (user.Some? ==> FromDocument(store.nodes[id].doc).userId == user.value)
  }

  /** An edge links the vector to such an event. */
  ghost predicate Embedded(views: Views, v: string, user: Option<string>) {
    exists e :: EmbedsEvent(views.atLinks, e, v) && OfUser(views.atFilter, views.atLinks.edges[e].target, user)
  }

  /** The indexed vectors of the user's events, or of all events. */
  ghost function VectorsOf(views: Views, user: Option<string>): (vectors: set<string>) {
    set v | v in views.atSearch.index.Keys && Embedded(views, v, user)
  }

  ghost function FilterFor(user: Option<string>): (filter: Filter) {
    NO_FILTER.(userId := user)
  }

  lemma EligibleIsOfUser(store: Store, id: string, user: Option<string>)
    requires StoreInv(store) && (user.Some? ==> user.value != "")
    ensures id in Eligible(store, FilterFor(user)) <==> OfUser(store, id, user)
  {
    if IsEvent(store, id) {
      if user.Some? {
        UserFilterSelectsUser(store, user.value, id);
      } else {
        assert Matches(NO_FILTER, store.nodes[id].doc);
      }
    }
  }

  lemma CandidatesAreVectorsOf(views: Views, user: Option<string>)
    requires Consistent(views) && (user.Some? ==> user.value != "")
    ensures LinkedTo(views.atLinks, Eligible(views.atFilter, FilterFor(user))) == VectorsOf(views, user)
  {
    var eligible := Eligible(views.atFilter, FilterFor(user));
    LinkedAreIndexed(views, eligible);
    forall v | v in LinkedTo(views.atLinks, eligible) ensures v in VectorsOf(views, user) {
      var e :| e in views.atLinks.edges && views.atLinks.edges[e].relation == EMBEDDING_OF
               && views.atLinks.edges[e].target in eligible && views.atLinks.edges[e].source == v;
      EligibleIsOfUser(views.atFilter, views.atLinks.edges[e].target, user);
      assert EmbedsEvent(views.atLinks, e, v);
    }
    forall v | v in VectorsOf(views, user) ensures v in LinkedTo(views.atLinks, eligible) {
      var e :| EmbedsEvent(views.atLinks, e, v) && OfUser(views.atFilter, views.atLinks.edges[e].target, user);
      EligibleIsOfUser(views.atFilter, views.atLinks.edges[e].target, user);
    }
  }

  /** The answers are the k nearest of the user's vectors exactly if enough of them rank within the first 10k. */
  ghost predicate NearestOf(order: seq<string>, views: Views, user: Option<string>, k: nat, query: Vec,
      distance: Distance, ranking: seq<string>)
  {
    var own, index := VectorsOf(views, user), views.atSearch.index;
    Nearest(order, own, k, index, query, distance) <==> |Keep(Take(ranking, 10 * k), own)| >= Min(k, |own|)
  }

  lemma UserQueryFindsNearest(answers: seq<QueryResult>, order: seq<string>, views: Views, query: Vec, k: nat,
      user: Option<string>, search: SearchFn, distance: Distance, ranking: seq<string>)
    requires Consistent(views) && (user.Some? ==> user.value != "")
    requires IsRanking(ranking, views.atSearch.index, query, distance)
    requires ExactOn(search, ranking, views.atSearch.index, query)
    requires forall v | v in Chosen(views, query, k, Some(FilterFor(user)), search) :: v in views.atSearch.index
    requires Answers(answers, order, Chosen(views, query, k, Some(FilterFor(user)), search), views, query, distance)
    ensures NearestOf(order, views, user, k, query, distance, ranking)
  {
    FilteredQueryIsComplete(answers, order, views, query, k, FilterFor(user), search, distance, ranking);
    CandidatesAreVectorsOf(views, user);
  }

  // ------------------------------------------------------------------ the search RPC

  /** The i-th event is the stored event that the i-th vector is linked to, beside its score. */
  ghost predicate Shows(response: SearchResponse, order: seq<string>, views: Views, query: Vec, distance: Distance) {
    && |response.events| == |response.scores| == |order|
    && forall i :: 0 <= i < |order| ==>
         && order[i] in views.atSearch.index
         && response.scores[i] == 1.0 - distance(query, views.atSearch.index[order[i]])
         && ShowsEventOf(response.events[i], views.atEdges, order[i])
  }

  ghost predicate ShowsEventOf(event: Event, store: Store, v: string) {
    exists e :: EmbedsEvent(store, e, v)
                && var id := store.edges[e].target;
                   IsEvent(store, id) && event == FromDocument(store.nodes[id].doc) && event.id == id
  }

  lemma ResponseShows(response: SearchResponse, request: SearchRequest, query: Vec, answers: seq<QueryResult>,
      order: seq<string>, views: Views, search: SearchFn, distance: Distance, unreadable: nat -> bool)
    requires Consistent(views)
    requires Responds(response, request, query, answers, order, views, search, distance, unreadable)
    requires forall n: nat | n < |answers| :: !unreadable(n)
    ensures Shows(response, order, views, query, distance)
  {
    AllReadable(unreadable, |answers|);
    forall i | 0 <= i < |order| ensures ShowsEventOf(response.events[i], views.atEdges, order[i]) {
      var e :| EmbedsEvent(views.atEdges, e, order[i]) && views.atEdges.edges[e].target == answers[i].id;
      StoredIdIsNodeId(views.atEdges, answers[i].id);
    }
  }

  /**
   * A search for a named user, with every read working: the response shows the k nearest vectors of
   * this user's events, in whatever order, exactly if enough of them rank within the first 10k; k is
   * the request's, or 5 when that is not positive.
   */
  lemma UserSearchFindsNearest(response: SearchResponse, request: SearchRequest, query: Vec,
      answers: seq<QueryResult>, order: seq<string>, views: Views, search: SearchFn, distance: Distance,
      unreadable: nat -> bool, ranking: seq<string>)
    requires Consistent(views)
    requires Responds(response, request, query, answers, order, views, search, distance, unreadable)
    requires forall n: nat | n < |answers| :: !unreadable(n)
    requires IsRanking(ranking, views.atSearch.index, query, distance)
    requires ExactOn(search, ranking, views.atSearch.index, query)
    requires request.userId != "" && request.attributeFilters == map[]
    ensures Shows(response, order, views, query, distance)
    ensures var k := if request.topK > 0 then request.topK else 5;
            NearestOf(order, views, Some(request.userId), k, query, distance, ranking)
  {
    ResponseShows(response, request, query, answers, order, views, search, distance, unreadable);
    assert RequestFilter(request) == Some(FilterFor(Some(request.userId)));
    UserQueryFindsNearest(answers, order, views, query, EffectiveTopK(request.topK), Some(request.userId), search,
                          distance, ranking);
  }

  /** Which of the vectors that were settled on are answered: those with an edge. */
  ghost predicate LinkedOf(order: seq<string>, chosen: seq<string>, store: Store) {
    Distinct(order) && forall v :: v in order <==> v in chosen && IsLinked(store, v)
  }

  /**
   * A search that names neither user nor attributes shows the linked ones among the k nearest of all
   * indexed vectors; so if every indexed vector is linked it shows the k nearest.
   */
  lemma OpenSearchFindsNearest(response: SearchResponse, request: SearchRequest, query: Vec,
      answers: seq<QueryResult>, order: seq<string>, views: Views, search: SearchFn, distance: Distance,
      unreadable: nat -> bool, ranking: seq<string>)
    returns (chosen: seq<string>)
    requires Consistent(views)
    requires Responds(response, request, query, answers, order, views, search, distance, unreadable)
    requires forall n: nat | n < |answers| :: !unreadable(n)
    requires IsRanking(ranking, views.atSearch.index, query, distance)
    requires ExactOn(search, ranking, views.atSearch.index, query)
    requires request.userId == "" && request.attributeFilters == map[]
    ensures Shows(response, order, views, query, distance)
    ensures var k := if request.topK > 0 then request.topK else 5; var index := views.atSearch.index;
            && Nearest(chosen, index.Keys, k, index, query, distance) && LinkedOf(order, chosen, views.atEdges)
            && ((forall v <- index :: IsLinked(views.atEdges, v)) ==>
                  Nearest(order, index.Keys, k, index, query, distance))
  {
    ResponseShows(response, request, query, answers, order, views, search, distance, unreadable);
    var k, index := EffectiveTopK(request.topK), views.atSearch.index;
    chosen := Take(ranking, k);
    assert Chosen(views, query, k, None, search) == search(index, query, k) == chosen;
    FirstAreNearest(ranking, index, query, distance, k);
    if forall v <- index :: IsLinked(views.atEdges, v) {
      LinkedAreNearest(order, chosen, views.atEdges, k, index, query, distance);
    }
  }

  lemma LinkedAreNearest(order: seq<string>, chosen: seq<string>, store: Store, k: nat, index: map<string, Vec>,
      query: Vec, distance: Distance)
    requires Nearest(chosen, index.Keys, k, index, query, distance) && LinkedOf(order, chosen, store)
    requires forall v <- index :: IsLinked(store, v)
    ensures Nearest(order, index.Keys, k, index, query, distance)
  {
    assert forall v | v in chosen :: v in Elements(chosen) && v in index.Keys;
    assert Elements(order) == Elements(chosen);
    SameElementsSameLength(order, chosen);
    SameVectorsSameNearest(order, chosen, index.Keys, k, index, query, distance);
  }

  lemma FirstAreNearest(ranking: seq<string>, index: map<string, Vec>, query: Vec, distance: Distance, k: nat)
    requires IsRanking(ranking, index, query, distance)
    ensures Nearest(Take(ranking, k), index.Keys, k, index, query, distance)
  {
    var first := Take(ranking, k);
    DistinctCardinality(ranking);
    forall v | v in first ensures v in Elements(ranking) {
      assert v in ranking;
    }
    assert forall x :: 0 <= x < |first| ==> first[x] == ranking[x] && first[x] in first;
    forall v, u | v in first && u in index.Keys && u !in first
      ensures distance(query, index[v]) <= distance(query, index[u])
    {
      var i :| 0 <= i < |first| && first[i] == v;
      assert u in Elements(ranking);
      var j :| 0 <= j < |ranking| && ranking[j] == u;
      assert ranking[i] == v && j >= |first|;
    }
  }

  // ------------------------------------------------------------------ the RAG layer

  /**
   * The answers that RAG judges are the 5 nearest vectors of the asking user's events, or of all
   * events when the event names no user, exactly if enough of them rank within the first 50.
   */
  lemma RagFindsNearest(answers: seq<QueryResult>, order: seq<string>, event: Event, query: Vec, views: Views,
      search: SearchFn, distance: Distance, ranking: seq<string>)
    requires Consistent(views) && AnswersOf(answers, order, event, query, views, search, distance)
    requires IsRanking(ranking, views.atSearch.index, query, distance)
    requires ExactOn(search, ranking, views.atSearch.index, query)
    ensures NearestOf(order, views, if event.userId != "" then Some(event.userId) else None, 5, query, distance,
                      ranking)
  {
    var user := if event.userId != "" then Some(event.userId) else None;
    assert UserFilter(event) == FilterFor(user);
    UserQueryFindsNearest(answers, order, views, query, 5, user, search, distance, ranking);
  }
}
