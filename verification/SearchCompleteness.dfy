/**
 * When a similarity query finds everything it should: completeness of the filtered search up
 * to its over-fetch (internal/storage/sqlite/provider_pure.go:698-784), for an index that
 * returns the n nearest keys in distance order.
 */
module SearchCompleteness {
  import opened Wrappers
  import opened Sequences
  import opened VectorCodec
  import opened FilterCompiler
  import opened GraphStore
  import opened SimilarityQuery

  /** All indexed keys, nearest first. */
  ghost predicate IsRanking(ranking: seq<string>, index: map<string, Vec>, query: Vec, distance: Distance) {
    && Distinct(ranking) && Elements(ranking) == index.Keys
    && forall i, j :: 0 <= i < j < |ranking| ==>
         distance(query, index[ranking[i]]) <= distance(query, index[ranking[j]])
  }

  /** The search returns the n nearest keys, in the order of the ranking. */
  ghost predicate ExactOn(search: SearchFn, ranking: seq<string>, index: map<string, Vec>, query: Vec) {
    forall n: nat :: search(index, query, n) == Take(ranking, n)
  }

  /** `vectors` are k nearest members of `candidates`, or all of them when there are fewer. */
  ghost predicate Nearest(vectors: seq<string>, candidates: set<string>, k: nat, index: map<string, Vec>, query: Vec,
      distance: Distance)
    requires candidates <= index.Keys
  {
    && Distinct(vectors) && Elements(vectors) <= candidates && |vectors| == Min(k, |candidates|)
    && forall v, u | v in vectors && u in candidates && u !in vectors ::
         distance(query, index[v]) <= distance(query, index[u])
  }

  /** Cutting the kept elements at k keeps exactly those of some prefix. */
  lemma {:induction false} CutIsAPrefix<T>(s: seq<T>, keep: set<T>, k: nat) returns (c: nat)
    ensures c <= |s| && Take(Keep(s, keep), k) == Keep(s[..c], keep)
  {
    if |Keep(s, keep)| <= k {
      c := |s|;
      assert s[..c] == s;
    } else if k == 0 {
      c := 0;
    } else {
      var rest := CutIsAPrefix(s[1..], keep, if s[0] in keep then k - 1 else k);
      c := rest + 1;
      assert s[..c][1..] == s[1..][..rest];
      var kept := Keep(s[1..], keep);
      if s[0] in keep {
        assert ([s[0]] + kept)[..k] == [s[0]] + kept[..k - 1];
      }
    }
  }

  lemma KeepSize(s: seq<string>, keep: set<string>)
    requires Distinct(s)
    ensures |Keep(s, keep)| <= |keep|
    ensures keep <= Elements(s) ==> |Keep(s, keep)| == |keep|
  {
    KeepDistinct(s, keep);
    KeepElements(s, keep);
    DistinctCardinality(Keep(s, keep));
    SubsetCardinality(Elements(Keep(s, keep)), keep);
    if keep <= Elements(s) {
      assert Elements(Keep(s, keep)) == keep;
    }
  }

  /** A candidate outside a prefix of the ranking is at least as far as every one inside. */
  lemma PrefixIsNearer(ranking: seq<string>, index: map<string, Vec>, query: Vec, distance: Distance,
      candidates: set<string>, c: nat, v: string, u: string)
    requires IsRanking(ranking, index, query, distance) && candidates <= index.Keys && c <= |ranking|
    requires v in Keep(ranking[..c], candidates) && u in candidates && u !in Keep(ranking[..c], candidates)
    ensures v in index && distance(query, index[v]) <= distance(query, index[u])
  {
    KeepElements(ranking[..c], candidates);
    assert forall x :: 0 <= x < c ==> ranking[..c][x] == ranking[x] && ranking[x] in ranking[..c];
    var i :| 0 <= i < c && ranking[..c][i] == v;
    assert u in Elements(ranking);
    var j :| 0 <= j < |ranking| && ranking[j] == u;
    assert v == ranking[i] && v in Elements(ranking);
  }

  /** What is kept of the over-fetch is nearer than every candidate left out. */
  lemma KeptAreNearer(ranking: seq<string>, index: map<string, Vec>, query: Vec, distance: Distance,
      candidates: set<string>, k: nat)
    requires IsRanking(ranking, index, query, distance) && candidates <= index.Keys
    ensures var chosen := Take(Keep(Take(ranking, 10 * k), candidates), k);
            forall v, u | v in chosen && u in candidates && u !in chosen ::
              v in index && distance(query, index[v]) <= distance(query, index[u])
  {
    var found := Take(ranking, 10 * k);
    var chosen := Take(Keep(found, candidates), k);
    var c := CutIsAPrefix(found, candidates, k);
    assert found[..c] == ranking[..c];
    PrefixKeptIsNearer(ranking, index, query, distance, candidates, c, chosen);
  }

  lemma PrefixKeptIsNearer(ranking: seq<string>, index: map<string, Vec>, query: Vec, distance: Distance,
      candidates: set<string>, c: nat, chosen: seq<string>)
    requires IsRanking(ranking, index, query, distance) && candidates <= index.Keys
    requires c <= |ranking| && chosen == Keep(ranking[..c], candidates)
    ensures forall v, u | v in chosen && u in candidates && u !in chosen ::
              v in index && distance(query, index[v]) <= distance(query, index[u])
  {
    forall v, u | v in chosen && u in candidates && u !in chosen
      ensures v in index && distance(query, index[v]) <= distance(query, index[u])
    {
      PrefixIsNearer(ranking, index, query, distance, candidates, c, v, u);
    }
  }

  lemma KeptAreCandidates(found: seq<string>, candidates: set<string>, k: nat)
    requires Distinct(found)
    ensures var chosen := Take(Keep(found, candidates), k);
            Distinct(chosen) && Elements(chosen) <= candidates && |chosen| == Min(k, |Keep(found, candidates)|)
  {
    KeepDistinct(found, candidates);
    KeepElements(found, candidates);
  }

  /** The vectors kept from the over-fetch are the k nearest candidates exactly when enough of them were fetched. */
  lemma OverFetchIsExact(ranking: seq<string>, index: map<string, Vec>, query: Vec, distance: Distance,
      candidates: set<string>, k: nat)
    requires IsRanking(ranking, index, query, distance) && candidates <= index.Keys
    ensures Nearest(Take(Keep(Take(ranking, 10 * k), candidates), k), candidates, k, index, query, distance)
            <==> |Keep(Take(ranking, 10 * k), candidates)| >= Min(k, |candidates|)
  {
    var found := Take(ranking, 10 * k);
    KeepSize(found, candidates);
    KeptAreCandidates(found, candidates, k);
    KeptAreNearer(ranking, index, query, distance, candidates, k);
  }

  /**
   * Completeness of the filtered query. With an exact index, the answers are exactly the events
   * and scores of the k nearest eligible linked vectors (of all of them when there are fewer)
   * if and only if that many of them rank within the first 10k indexed vectors.
   */
  lemma FilteredQueryIsComplete(results: seq<QueryResult>, order: seq<string>, views: Views, query: Vec, k: nat,
      filter: Filter, search: SearchFn, distance: Distance, ranking: seq<string>)
    requires Consistent(views)
    requires IsRanking(ranking, views.atSearch.index, query, distance)
    requires ExactOn(search, ranking, views.atSearch.index, query)
    requires forall v | v in Chosen(views, query, k, Some(filter), search) :: v in views.atSearch.index
    requires Answers(results, order, Chosen(views, query, k, Some(filter), search), views, query, distance)
    ensures var candidates := LinkedTo(views.atLinks, Eligible(views.atFilter, filter));
            && candidates <= views.atSearch.index.Keys
            && (Nearest(order, candidates, k, views.atSearch.index, query, distance)
                <==> |Keep(Take(ranking, 10 * k), candidates)| >= Min(k, |candidates|))
  {
    var eligible := Eligible(views.atFilter, filter);
    var candidates := LinkedTo(views.atLinks, eligible);
    var chosen := Chosen(views, query, k, Some(filter), search);
    LinkedAreIndexed(views, eligible);
    OverFetchIsExact(ranking, views.atSearch.index, query, distance, candidates, k);
    ChosenIsDistinct(views, query, k, filter, search, ranking, distance);
    ChosenAreAnswered(results, order, chosen, views, query, distance, eligible);
    SameVectorsSameNearest(order, chosen, candidates, k, views.atSearch.index, query, distance);
  }

  /** Every chosen vector is still linked when the edges are read, so each contributes an answer. */
  lemma ChosenAreAnswered(results: seq<QueryResult>, order: seq<string>, chosen: seq<string>, views: Views,
      query: Vec, distance: Distance, eligible: set<string>)
    requires Consistent(views) && (forall v | v in chosen :: v in views.atSearch.index)
    requires Answers(results, order, chosen, views, query, distance)
    requires Distinct(chosen) && Elements(chosen) <= LinkedTo(views.atLinks, eligible)
    ensures Distinct(order) && Elements(order) == Elements(chosen) && |order| == |chosen|
  {
    GrowsTransitive(views.atLinks, views.atSearch, views.atEdges);
    forall v | v in chosen ensures v in order {
      assert v in Elements(chosen);
      LinkIsFinal(views.atLinks, views.atEdges, eligible, v);
    }
    assert Elements(order) == Elements(chosen);
    SameElementsSameLength(order, chosen);
  }

  lemma LinkedAreIndexed(views: Views, eligible: set<string>)
    requires Consistent(views)
    ensures LinkedTo(views.atLinks, eligible) <= views.atSearch.index.Keys
  {
    forall v | v in LinkedTo(views.atLinks, eligible) ensures v in views.atSearch.index {
      var e :| e in views.atLinks.edges && views.atLinks.edges[e].source == v;
      assert IsEdge(views.atLinks, e);
    }
  }

  lemma ChosenIsDistinct(views: Views, query: Vec, k: nat, filter: Filter, search: SearchFn, ranking: seq<string>,
      distance: Distance)
    requires IsRanking(ranking, views.atSearch.index, query, distance)
    requires ExactOn(search, ranking, views.atSearch.index, query)
    ensures var candidates := LinkedTo(views.atLinks, Eligible(views.atFilter, filter));
            var chosen := Chosen(views, query, k, Some(filter), search);
            && chosen == Take(Keep(Take(ranking, 10 * k), candidates), k)
            && Distinct(chosen) && Elements(chosen) <= candidates
  {
    var candidates := LinkedTo(views.atLinks, Eligible(views.atFilter, filter));
    var found := search(views.atSearch.index, query, 10 * k);
    assert found == Take(ranking, 10 * k);
    KeepDistinct(found, candidates);
    KeepElements(found, candidates);
  }

  lemma SameVectorsSameNearest(a: seq<string>, b: seq<string>, candidates: set<string>, k: nat,
      index: map<string, Vec>, query: Vec, distance: Distance)
    requires candidates <= index.Keys
    requires Distinct(a) && Distinct(b) && Elements(a) == Elements(b) && |a| == |b|
    ensures Nearest(a, candidates, k, index, query, distance) <==> Nearest(b, candidates, k, index, query, distance)
  {
    assert forall v :: v in a <==> v in Elements(a);
    assert forall v :: v in b <==> v in Elements(b);
  }

  /** In an index of at most 10k vectors nothing eligible can be missed. */
  lemma SmallIndexIsAlwaysComplete(ranking: seq<string>, index: map<string, Vec>, query: Vec, distance: Distance,
      candidates: set<string>, k: nat)
    requires IsRanking(ranking, index, query, distance) && candidates <= index.Keys
    requires |index| <= 10 * k
    ensures Nearest(Take(Keep(Take(ranking, 10 * k), candidates), k), candidates, k, index, query, distance)
  {
    DistinctCardinality(ranking);
    assert |index| == |index.Keys|;
    KeepSize(ranking, candidates);
    OverFetchIsExact(ranking, index, query, distance, candidates, k);
  }

  /**
   * An empty filter against no filter, on one store: the linked vectors found without a filter
   * are a prefix of those found with the empty filter, and if every indexed vector is linked the
   * two queries settle on the same vectors.
   */
  lemma EmptyFilterAgainstNone(store: Store, query: Vec, k: nat, search: SearchFn, distance: Distance,
      ranking: seq<string>)
    requires StoreInv(store)
    requires IsRanking(ranking, store.index, query, distance)
    requires ExactOn(search, ranking, store.index, query)
    ensures var views := Views(store, store, store, store);
            var linked := LinkedTo(store, Eligible(store, NO_FILTER));
            && (forall v :: v in linked <==> IsLinked(store, v))
            && Keep(Chosen(views, query, k, None, search), linked) <= Chosen(views, query, k, Some(NO_FILTER), search)
            && (store.index.Keys <= linked ==>
                  Chosen(views, query, k, None, search) == Chosen(views, query, k, Some(NO_FILTER), search))
  {
    var linked := LinkedTo(store, Eligible(store, NO_FILTER));
    forall v ensures v in linked <==> IsLinked(store, v) {
      EmptyFilterKeepsLinked(store, v);
    }
    var near, far := Take(ranking, k), Take(ranking, 10 * k);
    assert search(store.index, query, k) == near && search(store.index, query, 10 * k) == far;
    assert far == near + far[|near|..];
    KeepAppend(near, far[|near|..], linked);
    if store.index.Keys <= linked {
      assert forall v | v in ranking :: v in Elements(ranking);
      KeepAll(near, linked);
      KeepAll(far, linked);
    }
  }

  /** What a vector contributes to the answers; nothing sensible if it has no edge or no value. */
  ghost function Contribution(views: Views, query: Vec, distance: Distance, v: string): (r: QueryResult) {
    if IsLinked(views.atEdges, v) && v in views.atSearch.index
    then QueryResult(EventOf(views.atEdges, v), 1.0 - distance(query, views.atSearch.index[v]))
    else QueryResult("", 0.0)
  }

  /** Queries that settle on the same vectors have the same answers up to their order. */
  lemma SameChosenSameAnswers(a: seq<QueryResult>, orderA: seq<string>, b: seq<QueryResult>, orderB: seq<string>,
      chosen: seq<string>, views: Views, query: Vec, distance: Distance)
    requires forall v | v in chosen :: v in views.atSearch.index
    requires Answers(a, orderA, chosen, views, query, distance) && Answers(b, orderB, chosen, views, query, distance)
    ensures multiset(a) == multiset(b)
  {
    var f := v => Contribution(views, query, distance, v);
    AnswersAreContributions(a, orderA, chosen, views, query, distance, f);
    AnswersAreContributions(b, orderB, chosen, views, query, distance, f);
    SameElementsSameMultiset(orderA, orderB);
    MapPermutation(orderA, orderB, f);
  }

  lemma AnswersAreContributions(a: seq<QueryResult>, order: seq<string>, chosen: seq<string>, views: Views, query: Vec,
      distance: Distance, f: string -> QueryResult)
    requires forall v | v in chosen :: v in views.atSearch.index
    requires Answers(a, order, chosen, views, query, distance)
    requires forall v :: f(v) == Contribution(views, query, distance, v)
    ensures a == MapAll(order, f)
    ensures Distinct(order) && Elements(order) == set v | v in chosen && IsLinked(views.atEdges, v)
  {
    var mapped := MapAll(order, f);
    forall i | 0 <= i < |a| ensures a[i] == mapped[i] {
      assert mapped[i] == f(order[i]) == Contribution(views, query, distance, order[i]);
    }
  }

  /** With every indexed vector linked, an empty filter and no filter give the same answers up to order. */
  lemma EmptyFilterAnswersAgree(store: Store, query: Vec, k: nat, search: SearchFn, distance: Distance,
      ranking: seq<string>, a: seq<QueryResult>, orderA: seq<string>, b: seq<QueryResult>, orderB: seq<string>)
    requires StoreInv(store) && forall v <- store.index :: IsLinked(store, v)
    requires IsRanking(ranking, store.index, query, distance) && ExactOn(search, ranking, store.index, query)
    requires var views := Views(store, store, store, store);
             && (forall v | v in Chosen(views, query, k, None, search) :: v in store.index)
             && (forall v | v in Chosen(views, query, k, Some(NO_FILTER), search) :: v in store.index)
             && Answers(a, orderA, Chosen(views, query, k, None, search), views, query, distance)
             && Answers(b, orderB, Chosen(views, query, k, Some(NO_FILTER), search), views, query, distance)
    ensures multiset(a) == multiset(b)
  {
    EmptyFilterAgainstNone(store, query, k, search, distance, ranking);
    var views := Views(store, store, store, store);
    SameChosenSameAnswers(a, orderA, b, orderB, Chosen(views, query, k, None, search), views, query, distance);
  }

  lemma EmptyFilterKeepsLinked(store: Store, v: string)
    requires StoreInv(store)
    ensures v in LinkedTo(store, Eligible(store, NO_FILTER)) <==> IsLinked(store, v)
  {
    if v in LinkedTo(store, Eligible(store, NO_FILTER)) {
      var e :| e in store.edges && store.edges[e].relation == EMBEDDING_OF && store.edges[e].source == v;
      assert EmbedsEvent(store, e, v);
    }
    if IsLinked(store, v) {
      var e :| EmbedsEvent(store, e, v);
      var id := store.edges[e].target;
      assert IsEvent(store, id);
      assert Matches(NO_FILTER, store.nodes[id].doc);
      assert id in Eligible(store, NO_FILTER);
    }
  }
}
