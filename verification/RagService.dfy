/**
 * The RAG attempt with the texts of internal/bus/server_rag.go: events shown as
 * renderSingleEventMarkdown shows them, with the real header, separator and notice.
 */
module RagService {
  import opened Wrappers
  import opened EventCodec
  import opened VectorCodec
  import opened SimilarityQuery
  import opened ContextRenderer
  import opened RagEnhancement

  /** How events are shown; `format` writes their times. */
  function Shown(format: Timestamp -> Text): (show: Event -> Text) {
    (e: Event) => EventText(e, format)
  }

  /** The text accounts for every used event: shown, or counted by the notice. */
  ghost predicate AccountsFor(context: Text, used: seq<Event>, show: Event -> Text, layout: Layout) {
    exists shown: nat, at :: Accounts(context, shown, at, layout, EventTexts(used, show), MAX_CONTEXT_TOKENS)
  }

  lemma AppliedContext(outcome: Outcome, answers: seq<QueryResult>, event: Event, show: Event -> Text, layout: Layout)
    requires Truthful(layout) && Judged(outcome, answers, event, show, layout) && outcome.Applied?
    ensures AccountsFor(outcome.context, outcome.used, show, layout)
  {
    var texts := EventTexts(outcome.used, show);
    var n: nat :| Renders(outcome.context, n, layout, texts, MAX_CONTEXT_TOKENS);
    var at := RendersAccounts(outcome.context, n, layout, texts, MAX_CONTEXT_TOKENS);
  }

  /** An applied outcome of a decided attempt was judged so. */
  lemma AppliedWasJudged(outcome: Outcome, answers: seq<QueryResult>, order: seq<string>, event: Event,
      embedding: Option<Vec>, w: Surroundings, search: SearchFn, distance: Distance, show: Event -> Text,
      layout: Layout)
    requires Decided(outcome, answers, order, event, embedding, w, search, distance, show, layout) && outcome.Applied?
    ensures Judged(outcome, answers, event, show, layout)
  {
  }

  /** The attempt as the server makes it. */
  method EnhanceRequest(enabled: bool, event: Event, request: RequestData?, cache: EmbeddingCache.Cache,
      embed: RecencyCache.Embedder, w: Surroundings, search: SearchFn, distance: Distance, format: Timestamp -> Text,
      wording: Wording)
    returns (outcome: Outcome, ghost answers: seq<QueryResult>, ghost order: seq<string>)
    requires WellBehaved(w) && SoundSearch(search)
    requires cache.Valid() && RecencyCache.Coherent(cache.View(), ByCacheKey(embed))
    modifies request, cache, cache.cache.Values
    ensures cache.Valid() && RecencyCache.Coherent(cache.View(), ByCacheKey(embed))
    ensures request != null ==> request.fields == Rewritten(old(request.fields), outcome, wording)
    ensures var text := QueryText(event.subject, if request == null then map[] else old(request.fields));
            if !enabled || text == "" then outcome.Untouched? && cache.View() == old(cache.View())
            else Decided(outcome, answers, order, event, embed(text), w, search, distance, Shown(format),
                         CONTEXT_LAYOUT)
    ensures outcome.Applied? ==> AccountsFor(outcome.context, outcome.used, Shown(format), CONTEXT_LAYOUT)
  {
    ContextLayoutIsSized();
    ContextLayoutIsTruthful();
    ghost var fields := if request == null then map[] else request.fields;
    outcome, answers, order := ApplyRagEnhancement(enabled, event, request, cache, embed, w, search, distance,
                                                   Shown(format), CONTEXT_LAYOUT, wording);
    if outcome.Applied? {
      AppliedWasJudged(outcome, answers, order, event, embed(QueryText(event.subject, fields)), w, search, distance,
                       Shown(format), CONTEXT_LAYOUT);
      AppliedContext(outcome, answers, event, Shown(format), CONTEXT_LAYOUT);
    }
  }
}
