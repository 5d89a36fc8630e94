# PCAS core, modelled and verified in Dafny

PCAS is an event bus with a graph store, an in-memory vector index and a retrieval layer that
enriches requests to a language model. This project models the stateful parts of its server and
proves what they keep, over every input, every interleaving and every run:

- **Graph store and vector index** (`VectorCodec`, `EventCodec`, `GraphStore`, `StorageProvider`).
  `StoreEvent` and `AddEmbeddingToEvent` are sequences of statements that any other operation may
  interrupt and that may fail one by one. The tables and the index agree at every point; the index
  can be rebuilt from the tables exactly when no empty embedding was stored; encoding and decoding
  undo each other on exactly stated inputs. The class `StorageProvider.Provider` updates the two
  tables and the index in place; what each of its two operations leaves is stated outright, and it is
  proved to be one of those interleavings. In every interleaving an operation that succeeds has done
  what it was asked.
- **Search** (`FilterCompiler`, `SimilarityQuery`, `SearchCompleteness`, `SearchService`,
  `SearchResults`, `AnswerIdentity`). The filter compiler preserves meaning; a filtered search is exact
  up to its over-fetch, with the exact condition; a search for a named user finds that user's nearest
  events and nobody else's, and so does the retrieval layer; and when the answers name different events,
  exactly.
- **Streams and buses** (`InteractStream`, `StreamInput`, `StreamOutcome`, `StreamProgress`,
  `StreamEnd`, `PubSub`, `Delivery`, `Registration`, `SubscriberTable`). Goroutines over Go channels as
  transition systems: order, completeness, grammar, channel safety, what the client is told at the end,
  the published events and no others arriving, non-interference of subscribers, an end under every
  schedule once the provider has returned, and the exact conditions under which the end of a stream can
  be trusted and a subscription stays registered.
- **Embedding cache and RAG** (`RecencyCache`, `SharedCache`, `EmbeddingCache`, `ContextRenderer`,
  `RagEnhancement`, `RagService`). The map and linked list implement a recency sequence; the cache
  changes no answer, also under concurrent requests, and has the stack property; every text that is
  rendered is laid out piece by piece and keeps its budget; the rewritten request keeps the user's
  prompt.
- **Server and graceful shutdown** (`FactEvents`, `EventServer`, `Shutdown`, `ShutdownFacts`,
  `ShutdownProgress`).
  `Publish` and the background task as methods over storage, cache, subscribers and wait group; then
  RPCs, tasks and the signal handler as steps over the whole storage system: nothing touches storage
  once closing has begun, the saved index holds every published fact that could be embedded and
  stored, and the shutdown comes to its end under every schedule exactly when no subscription is open.
- **Brute-force search prototype** (`TopK`, `Cosine`). The streaming top-K loop is exact, and cosine
  scores lie between -1 and 1.

`Sequences` and `Wrappers` hold small shared facts and the `Option` and `Result` types. To verify the
project, give Dafny 4.11 the command `dafny verify dfyconfig.toml` in this directory.

## How to read the model

- Each read of one query sees its own snapshot of the store, and the store may have grown between
  two reads. `SearchService.ViewsOfARun` shows that any run of the storage system gives such snapshots.
- Reachable stores are those of the runs that start from a state with the invariant; a new database
  is such a state (`GraphStore.FreshStart`).
- Result rows come in any order: loops over rows pick any remaining row, so no claim depends on an
  order that the queries do not ask for.
- The nearest-neighbour index is a function parameter. Soundness needs only that it returns at most
  n distinct indexed keys (`SoundSearch`); completeness additionally assumes the n nearest in
  distance order (`ExactOn`).
- Scores, distances and cosine arithmetic are real numbers; in storage a float32 is its bit pattern.
- A stored event is a map of JSON fields. Times are kept to whole seconds, as in the time format of
  section 5.6 of RFC 3339 without a fraction.
- The helper goroutines of a stream may outlive their RPC, but they never use storage, so in the
  shutdown model a stream is an RPC that does nothing until it ends. An interaction ends with its
  provider, which is assumed to return as in a call of `Publish`; a subscription only with its client.
- A search without a user id uses no filter (`SearchService.RequestFilter`), so what is proved of
  one user's events is proved of searches that name a user.
- Embedding calls, clocks, database failures, cancellation and failed sends are parameters or steps
  that may happen at any time.

What the code does that its surroundings might not lead one to expect, each proved rather than
assumed away:

- Attributes are never written to storage, so a filter with attributes finds nothing
  (`AttributeFilterFindsNothing`), and a search request with attributes returns no event.
- `ServerEnd` can be sent over a posted error, also a failed provider's. It is sent over none in any
  run exactly when the provider may not fail, no receive may break before the end, and the client
  sends nothing but data up to its own end (`ServerEndIsHonestExactly`; `ErrorCanBeOvertaken` is a run
  with a failed provider). Errors that are posted after the end, as by the receive that the handler's
  return cancels, do not count.
- When a live client id is registered again, the server forgets one of the two subscriptions, and
  otherwise none (`RegisteringForgetsExactlyOnReuse`; `ServerCanForgetALiveClient` is a run). The
  memory bus refuses the second registration. No channel is misused in either.
- One open subscription keeps the graceful stop from returning, so that no index is saved
  (`EveryScheduleEndsClosedOrBlocked`).
- An empty stored vector would stay outside a rebuilt index for ever (`ReopenAfterCrash`).
- Publishing an id again keeps the first event but adds another vector to it, and then every query
  for all vectors of an exact index repeats an id (`PublishedStore`, `FullQueryRepeats`); answers have
  distinct ids exactly as long as no event has two vectors (`AlwaysDistinctExactly`,
  `ExactQueryIsDistinctExactly`).
- Responses carry no user, so a search filtered by user never finds one (`ResponsesAreNobodys`).
- RAG leaves a request without data as it is: the map it makes stays local (`Sent`, `Rewrite`).
- The renderer always writes its header, so the branch for an empty context is never taken
  (`RenderEvents`, `ChooseContext`).
- With a budget below the header and no event that fits, the header alone can exceed it
  (`BodyWithinBudget`).

## Model

| member | source | states |
|---|---|---|
| VectorCodec.SerializeVector | internal/storage/sqlite/provider_pure.go:202-212 | the blob is the encoding of the embedding, four bytes a word |
| VectorCodec.EncodedBytes | internal/storage/sqlite/provider_pure.go:202-212 | the i-th word stands in bytes 4i to 4i+3, least significant first |
| VectorCodec.DeserializeVector | internal/storage/sqlite/provider_pure.go:215-225 | the words of the blob in order; a blob whose length is not a multiple of four gives nothing |
| VectorCodec.DecodeEncode | internal/storage/sqlite/provider_pure.go:202-225 | reading back a stored embedding gives the same bit patterns, for every embedding |
| VectorCodec.EncodeDecode | internal/storage/sqlite/provider_pure.go:202-225 | writing what was read gives the same blob if and only if its length is a multiple of four |
| EventCodec.DocumentFields | internal/storage/sqlite/provider_pure.go:228-275 | what a stored event's document holds under every field name, and that attributes are never among it |
| EventCodec.RoundTrip | internal/storage/sqlite/provider_pure.go:228-283 | reading a stored event gives exactly its persisted part: times in whole seconds, foreign payloads replaced by their type |
| EventCodec.LosslessExactly | internal/storage/sqlite/provider_pure.go:370-444 | storing loses nothing if and only if the event has no attributes, content type or schema, no fraction of a second and no foreign payload |
| EventCodec.DocumentRoundTrip | internal/storage/sqlite/provider_pure.go:447-547 | storing again what was read back writes the same document |
| FilterCompiler.EvalAppend | internal/storage/sqlite/provider_pure.go:832-836 | appending a condition with its arguments conjoins its truth value: no placeholder before it shifts |
| FilterCompiler.CompileFields | internal/storage/sqlite/provider_pure.go:791-820 | the clauses on fixed fields compile the filter without its attributes |
| FilterCompiler.CompileFilter | internal/storage/sqlite/provider_pure.go:787-836 | as many arguments as placeholders, and the built WHERE clause is true of a document if and only if every clause of the filter holds of it |
| FilterCompiler.InListMeaning | internal/storage/sqlite/provider_pure.go:803-810 | an IN list of placeholders holds of a value if and only if it equals one of the listed texts |
| FilterCompiler.AttributeFiltersMatchNothing | internal/storage/sqlite/provider_pure.go:822-829 | no stored event satisfies a filter with attributes |
| FilterCompiler.AttributesAreCompared | internal/storage/sqlite/provider_pure.go:822-829 | on a document that does hold attributes every attribute clause compares the text under its own key |
| GraphStore.StepKeepsStoreInv | internal/storage/sqlite/provider_pure.go:303-367 | each single statement keeps tables and index in agreement, also when it fails |
| GraphStore.StepKeepsOthers | internal/storage/sqlite/provider_pure.go:303-367 | a statement of one operation invalidates nothing that another running operation relies on |
| GraphStore.StepKeepsPending | internal/storage/sqlite/provider_pure.go:303-325 | a vector node outside the index is always about to be indexed by its running operation |
| GraphStore.NextKeepsInv | internal/storage/sqlite/provider_pure.go:279-367 | every step of every operation keeps the whole invariant, and the tables and the index only grow |
| GraphStore.RunKeepsInv | internal/storage/sqlite/provider_pure.go:279-367 | in every interleaving: edge sources are indexed keys, indexed keys are vector nodes with the indexed value, edge targets are event nodes, one edge at most per vector, and nothing present earlier is lost or altered |
| GraphStore.RebuildAgrees | internal/storage/sqlite/provider_pure.go:157-180 | with no operation in progress, the rebuilt index equals the live one if and only if no empty embedding was indexed |
| GraphStore.RebuildCoversIndex | internal/storage/sqlite/provider_pure.go:157-180 | even in the middle of operations a rebuild loses and alters no non-empty indexed vector |
| GraphStore.ReopenAfterCleanStop | internal/storage/sqlite/provider_pure.go:140-147 | after a clean stop the saved index restores the invariant, and a rebuilt one is the same when no embedding is empty |
| GraphStore.ReopenAfterCrash | internal/storage/sqlite/provider_pure.go:149-184 | after a stop at any point, rebuilding restores the invariant if and only if no vector node is empty |
| GraphStore.VectorNodeContent | internal/storage/sqlite/provider_pure.go:303-325 | every vector node ever written decodes to an embedding that encodes to it again |
| GraphStore.OperationDoesWhatWasAsked | internal/storage/sqlite/provider_pure.go:279-367 | in every interleaving, an operation that has succeeded has the given event's document in its node, and the given embedding in a node and in the index under one key, with an edge to the given event |
| GraphStore.SoloIsARun | internal/storage/sqlite/provider_pure.go:228-367 | an operation alone is one of the interleavings, and it ends |
| StorageProvider.Provider.InitHNSWIndex | internal/storage/sqlite/provider_pure.go:123-199 | opening fails exactly when the vector rows are needed and cannot be read; otherwise the index is the saved one or the one rebuilt from the rows, and a rebuilt one is saved unless it is empty |
| StorageProvider.Provider.RebuildIndex | internal/storage/sqlite/provider_pure.go:157-184 | reading the vector rows in any order gives the decoded, non-empty vectors by key |
| StorageProvider.Provider.StoreVector | internal/storage/sqlite/provider_pure.go:303-325 | on success the node and the index entry are added under the same new key; a failed insert changes nothing |
| StorageProvider.Provider.CreateEdge | internal/storage/sqlite/provider_pure.go:328-340 | adds one edge under a free key or changes nothing |
| StorageProvider.Provider.StoreEvent | internal/storage/sqlite/provider_pure.go:228-300 | the tables, the index and the outcome for every failure point: the event's document, then the embedding's node and entry, then the edge; and it is that operation run alone in the interleaving system |
| StorageProvider.Provider.AddEmbeddingToEvent | internal/storage/sqlite/provider_pure.go:343-367 | on success exactly one node, one index entry and one edge are new, the given embedding linked to the given event; otherwise what each failure leaves |
| StorageProvider.CloseThenOpen | internal/storage/sqlite/provider_pure.go:857-878 | what Close leaves opens as the same index; if saving failed and there is no other copy, it does so if and only if no empty embedding was indexed |
| SimilarityQuery.FindFilteredEventIDs | internal/storage/sqlite/provider_pure.go:787-854 | the ids found are exactly those of the stored events that match the filter |
| SimilarityQuery.EligibleExactly | internal/storage/sqlite/provider_pure.go:787-854 | in every reachable store these are the events whose user, session, type and time, as read back, satisfy the clauses that are present, and none if there is an attribute clause |
| SimilarityQuery.FilteredVectors | internal/storage/sqlite/provider_pure.go:659-720 | the first k of the over-fetched vectors that are linked to an eligible event; an error exactly when a query that is reached fails |
| SimilarityQuery.FirstIn | internal/storage/sqlite/provider_pure.go:707-718 | the loop keeps the first k members of the set, in search order |
| SimilarityQuery.CollectRows | internal/storage/sqlite/provider_pure.go:755-784 | one result for every chosen vector with an edge, with that vector's event and score, in any row order |
| SimilarityQuery.QuerySimilar | internal/storage/sqlite/provider_pure.go:643-784 | an error exactly for bad arguments or a failing query that is reached; otherwise one result for each chosen linked vector, no vector twice |
| SimilarityQuery.AnswersAreBounded | internal/storage/sqlite/provider_pure.go:643-784 | at most topK results, whatever other operations did in between |
| SimilarityQuery.FilteredAnswersMatch | internal/storage/sqlite/provider_pure.go:659-784 | every result of a filtered query is an event that matched the filter, although the edges are read again later |
| SimilarityQuery.LinkIsFinal | internal/storage/sqlite/provider_pure.go:671-781 | a vector linked to one of some events embeds one of them in every later store |
| SimilarityQuery.AnswersAreEvents | internal/storage/sqlite/provider_pure.go:755-784 | every result is the id of a stored event |
| SimilarityQuery.AttributeFilterFindsNothing | internal/storage/sqlite/provider_pure.go:822-829 | in every reachable store a filter with attributes has no eligible event |
| SimilarityQuery.UserFilterSelectsUser | internal/storage/sqlite/provider_pure.go:793-796 | in every reachable store a user filter selects exactly the events whose decoded user id is that user |
| SearchCompleteness.OverFetchIsExact | internal/storage/sqlite/provider_pure.go:698-720 | the kept vectors are k nearest candidates (or all) if and only if that many candidates rank within the first 10k |
| SearchCompleteness.FilteredQueryIsComplete | internal/storage/sqlite/provider_pure.go:659-784 | with an exact index the filtered answers are exactly those of the k nearest eligible linked vectors if and only if enough of them rank within the first 10k |
| SearchCompleteness.SmallIndexIsAlwaysComplete | internal/storage/sqlite/provider_pure.go:698-720 | with at most 10k indexed vectors nothing eligible can be missed |
| SearchCompleteness.EmptyFilterAgainstNone | internal/storage/sqlite/provider_pure.go:657-735 | the linked vectors found without a filter are a prefix of those found with an empty filter, and the two agree when every indexed vector is linked |
| SearchCompleteness.EmptyFilterAnswersAgree | internal/storage/sqlite/provider_pure.go:657-784 | then any answers of the two queries are the same results, each as often |
| SearchService.GetEventByID | internal/storage/sqlite/provider_pure.go:370-444 | finds an event exactly when an event node has that id and the read works, and gives the decoded event |
| SearchService.BatchGetEvents | internal/storage/sqlite/provider_pure.go:447-547 | one decoded event for each requested id that is stored, none twice, in any order |
| SearchService.FetchAnswers | internal/bus/server.go:235-248 | exactly the readable answers, in answer order, each event beside its own score |
| SearchService.Search | internal/bus/server.go:186-258 | when the RPC fails, exactly; otherwise events and scores aligned, at most top-k of them, what could be read of the answers, only the given user's, and none for an attribute filter |
| SearchResults.UserSearchFindsNearest | internal/bus/server.go:186-258 | a search for a named user shows the k nearest vectors of the events whose decoded user is this one, each with its event and score, if and only if enough of them rank within the first 10k; k is the request's, or 5 when that is not positive |
| SearchResults.OpenSearchFindsNearest | internal/bus/server.go:186-258 | a search without user and attributes shows the linked ones among the k nearest of all indexed vectors, so the k nearest if all are linked |
| SearchResults.RagFindsNearest | internal/bus/server_rag.go:169-188 | the answers RAG judges are the 5 nearest vectors of the asking user's events, or of all events if it names none, if and only if enough of them rank within the first 50 |
| SearchService.FilteredEvents | internal/bus/server.go:208-257 | end-to-end isolation: a filtered search hands out only events whose decoded user id is the filter's |
| SearchService.ViewsOfARun | internal/bus/server.go:229-248 | the snapshots one search takes during any run of the storage system satisfy what Search asks of them |
| InteractStream.Handshake | internal/bus/server_interactstream.go:17-78 | the code of every outcome of the handshake; Ready is sent exactly when it succeeds and nothing otherwise |
| InteractStream.NextKeepsInv | internal/bus/server_interactstream.go:82-191 | every step of the receiver, the provider, the forwarding loop or the context keeps the stream's invariant |
| InteractStream.RunKeepsInv | internal/bus/server_interactstream.go:82-191 | so does every interleaving of any length |
| InteractStream.ResponsesFollowGrammar | internal/bus/server_interactstream.go:140-191 | in every run the responses are Ready, then data, then at most one of ServerEnd or Error, and nothing after it |
| StreamOutcome.EndingIsFinal | internal/bus/server_interactstream.go:140-191 | for each way the loop can end, what is sent last and which status the RPC returns in every run that goes on from there; a posted error that is read is sent as StreamError when the send works |
| StreamOutcome.OutcomeIsTold | internal/bus/server_interactstream.go:140-191 | every ended run ended in exactly such a way: OK if and only if ServerEnd was sent, StreamError only for a posted error and with Internal, Canceled only after a cancellation, and no other status |
| StreamOutcome.ClientGetsWhatWasWritten | internal/bus/server_interactstream.go:129-167 | the client gets a prefix of the chunks the provider wrote in the run, and all of them with ServerEnd |
| StreamInput.AllInputCanBeRead | internal/bus/server_interactstream.go:89-127 | while the provider reads on, it can still be given every valid chunk up to the receiver's close, whatever else has happened |
| StreamInput.InputIsDroppedForAReason | internal/bus/server_interactstream.go:89-127 | in every run the receiver gives up a chunk only when cancelled and stops early only at a broken receive |
| InteractStream.OutputIsDeliveredInOrder | internal/bus/server_interactstream.go:129-167 | the client's chunks are a prefix of the provider's output, and all of it once ServerEnd is sent |
| InteractStream.InputIsDeliveredInOrder | internal/bus/server_interactstream.go:89-127 | the provider reads a prefix of the client's non-nil data before its first end or invalid message, and nothing of it is lost when the input ended by itself |
| InteractStream.ChannelsAreUsedSafely | internal/bus/server_interactstream.go:82-137 | nothing is sent on or closes a closed channel; each data channel is closed exactly when its helper has ended |
| InteractStream.ReceiverReportNeverBlocks | internal/bus/server_interactstream.go:99-125 | whatever the others do before and between, a receiver with an error to post posts it and closes its channel in its next two steps |
| InteractStream.ProviderReportNeverBlocks | internal/bus/server_interactstream.go:130-137 | the same for a failed provider |
| InteractStream.CancelledReceiverExits | internal/bus/server_interactstream.go:89-127 | once the context is cancelled the receiver can always reach its close by its own steps |
| StreamProgress.EffectiveStepLowersRank | internal/bus/server_interactstream.go:82-191 | once the provider has returned, every step that changes anything lowers a rank, whatever fails or is cancelled in it |
| StreamProgress.SchedulesAreFinite | internal/bus/server_interactstream.go:82-191 | so every schedule has at most as many effective steps as the rank it starts from |
| StreamProgress.EveryScheduleEndsOver | internal/bus/server_interactstream.go:82-191 | under every schedule, once the provider has returned nothing can move any more if and only if the RPC has ended and both helpers have closed: nothing hangs and no goroutine is left |
| StreamEnd.ServerEndLeavesErrorsUnread | internal/bus/server_interactstream.go:140-155 | at the moment ServerEnd is sent every error posted so far is unread, so the end is honest if and only if neither helper has posted one by then |
| StreamEnd.ServerEndHidesWhatWasPosted | internal/bus/server_interactstream.go:129-191 | in every run with ServerEnd there is one moment at which it was sent, and what it hides is what was posted until then, whatever is posted later |
| StreamEnd.ServerEndIsAlwaysPossible | internal/bus/server_interactstream.go:129-191 | from every state with the loop forwarding, ServerEnd can still be sent after all of the output, also when the provider failed or an error is posted |
| StreamEnd.ServerEndIsHonestExactly | internal/bus/server_interactstream.go:89-167 | some run sends ServerEnd over an unread error if and only if the provider may fail, a receive may break before the end, or the client sends anything but data before its end: each alone is enough |
| PubSub.NextKeepsInv | internal/bus/memory/bus.go:33-105 | every step of either bus keeps the invariant, also when clients reuse an id |
| PubSub.RunKeepsInv | internal/bus/memory/bus.go:33-105 | so does every run, with one step for each single send |
| PubSub.ChannelsAreUsedSafely | internal/bus/server_subscribe.go:18-62 | in every run of either bus no closed channel is sent on or closed again, and a registered channel is open and belongs to its client |
| PubSub.DeliveriesAreConserved | internal/bus/memory/bus.go:43-52 | attempted sends equal taken plus buffered plus dropped, at most 100 are buffered, and each publisher's events arrive in its order |
| PubSub.DropsOnlyWhenFull | internal/bus/memory/bus.go:44-51 | a send is dropped if and only if 100 messages are buffered; otherwise it arrives last |
| Delivery.EveryEventIsOfferedOnce | internal/bus/memory/bus.go:43-52 | to a subscription that stays registered every event whose publishing begins is offered exactly once, on either bus: nobody is skipped or served twice |
| Delivery.EventsSinceRegistration | internal/bus/server_subscribe.go:47-62 | since its registration, events taken, buffered, dropped and still on their way to it are together as many as were published |
| Delivery.OnlyPublishedEventsArrive | internal/bus/memory/bus.go:43-46 | in every run of either bus each message that arrives carries the event that its publisher published under that number |
| Delivery.AllPublishedEventsArrive | internal/bus/server_subscribe.go:47-62 | a subscription that stays registered and meets no full buffer gets every event published since, each publisher's in order, and nothing else |
| Registration.RunsRegisteredExactlyWithoutReuse | internal/bus/server_subscribe.go:18-30 | in a run of either bus every live subscription stays registered throughout if and only if nobody registers under an id that a live one holds |
| Registration.MemoryBusNeverReuses | internal/bus/memory/bus.go:66-82 | the duplicate check of the memory bus rules that out in every run |
| Registration.MemoryBusKeepsLiveClients | internal/bus/memory/bus.go:66-82 | so in every run of the memory bus every live subscription is registered under its own client id at every point |
| Registration.ReuseForgets | internal/bus/server_subscribe.go:18-30 | what a reuse costs on the server: a streaming holder is forgotten at once, and after a leaving holder's cleanup the newcomer is |
| Registration.RegisteringForgetsExactlyOnReuse | internal/bus/server_subscribe.go:18-30 | on the server a registration can make cleanups forget a streaming client if and only if it reuses a live id |
| PubSub.SubscribersDoNotInterfere | internal/bus/memory/bus.go:33-105 | dropping everything that concerns other client ids leaves a run in which this client's subscriptions go through the same states |
| SubscriberTable.Table.Publish | internal/bus/memory/bus.go:33-55 | every registered buffer gets the event unless it is full, no other changes, and no subscriber holds up another; a nil event is refused |
| SubscriberTable.Table.RegisterUnique | internal/bus/memory/bus.go:58-73 | a new empty channel under a free non-empty id; otherwise an error and no change |
| SubscriberTable.Table.RegisterOverwriting | internal/bus/server_subscribe.go:15-21 | a new empty channel under the id, replacing whatever was there |
| SubscriberTable.Table.Unregister | internal/bus/server_subscribe.go:24-27 | removes the entry of the id and touches no channel |
| SubscriberTable.Table.UnregisterAndClose | internal/bus/memory/bus.go:76-80 | removes the leaver's entry and closes its channel, keeping what is buffered |
| RecencyCache.ApplyKeepsWellFormed | internal/bus/server_rag.go:63-116 | one operation keeps the keys distinct, matched with the values and within the capacity |
| RecencyCache.CacheIsRecencySequence | internal/bus/server_rag.go:63-116 | after any operations the keys are the most recently touched distinct ones cut at the capacity, each with its last set value, and hits plus misses count the Gets |
| RecencyCache.GetGivesLastSet | internal/bus/server_rag.go:63-77 | after any operations a look-up gives what was last set for a cached key and counts a hit, and nothing for any other and counts a miss |
| RecencyCache.OrderIsByLastUse | internal/bus/server_rag.go:63-116 | after any operations the cached keys stand in the order of their last use, look-up or store |
| RecencyCache.CacheIsTransparent | internal/bus/server_rag.go:147-174 | after any requests, the next one is answered as if there were no cache |
| SharedCache.InterleavedRequestsAreTransparent | internal/bus/server_rag.go:147-174 | however the look-ups and the later stores of any requests interleave, every request uses the embedding it would get without a cache |
| SharedCache.AloneIsARequest | internal/bus/server_rag.go:147-174 | a request whose look-up and store have nothing in between is the sequential one |
| RecencyCache.SmallerCacheIsPrefix | internal/bus/server_rag.go:63-116 | for any requests a smaller cache holds a recency prefix of a larger one and never hits more often |
| EmbeddingCache.MovedShape | internal/bus/server_rag.go:69-72 | moving an element to the front keeps map and list in agreement and its key first |
| EmbeddingCache.CutShape | internal/bus/server_rag.go:106-114 | dropping the last element and its key keeps map and list in agreement |
| EmbeddingCache.Cache.Get | internal/bus/server_rag.go:63-77 | the new contents, counters and answer are those of the recency sequence |
| EmbeddingCache.Cache.Set | internal/bus/server_rag.go:80-116 | the new contents are those of the recency sequence, eviction included |
| EmbeddingCache.Cache.Replace | internal/bus/server_rag.go:85-95 | a present key moves to the front and its element's value is replaced in place |
| EmbeddingCache.Cache.Insert | internal/bus/server_rag.go:96-115 | a new key goes in front, evicting the oldest when over capacity, exactly as in the recency sequence |
| EmbeddingCache.Cache.EvictOldest | internal/bus/server_rag.go:106-114 | exactly the least recently used entry leaves map and list |
| EmbeddingCache.Cache.Embed | internal/bus/server_rag.go:147-174 | a cached look-up gives the embedder's own answer and leaves only true embeddings in the cache |
| ContextRenderer.RenderSingleEvent | internal/bus/server_rag.go:373-422 | the text is time, type, subject and the non-empty text fields of the data in priority order, long ones cut |
| ContextRenderer.EventTextIsLaidOut | internal/bus/server_rag.go:373-422 | that text is one line with time, type and subject, then one line for each of the eight keys, in order, that holds a non-empty text, and nothing else |
| ContextRenderer.Truncated | internal/bus/server_rag.go:402-405 | a shown value has at most 200 bytes, unchanged if it fits and its first 197 and an ellipsis otherwise |
| ContextRenderer.BodyWithinBudget | internal/bus/server_rag.go:345-370 | the text before the notice is under four bytes per allowed token if and only if an event is rendered or the bare header is |
| ContextRenderer.LongestFit | internal/bus/server_rag.go:357-362 | the numbers of events that fit the budget are exactly those up to the rendered one |
| ContextRenderer.RenderEvents | internal/bus/server_rag.go:345-370 | exactly the longest prefix that fits is rendered, the notice is for exactly the rest, and the text is never empty |
| ContextRenderer.RenderingIsLaidOut | internal/bus/server_rag.go:345-370 | the text is the header, each rendered event's own text followed by the separator at increasing offsets without gaps, and the notice; the charge is 40, and a quarter of each text plus 10, and never exceeds the budget before the first event left out |
| ContextRenderer.DecimalStatesNumber | internal/bus/server_rag.go:359-360 | the decimal digits of a number read back as the number |
| ContextRenderer.ContextLayoutIsSized | internal/bus/server_rag.go:349-366 | header and separator have the sizes that the budget accounts for |
| ContextRenderer.ContextLayoutIsTruthful | internal/bus/server_rag.go:359-360 | the notice states the number it is written for: it can be read back from the notice's text |
| RagEnhancement.BuildMessages | internal/providers/openai/provider.go:24-79 | one message for each entry of the list with its content and role, or the prompt as the only message, from the user; the error in every other case |
| RagEnhancement.EnhancedMessages | internal/bus/server_rag.go:275-298 | an enhanced request is always accepted, as the context from the system and then the prompt from the user |
| RagEnhancement.MarkedMessages | internal/bus/server_rag.go:199-211 | marking a request that is not enhanced changes nothing of what is sent |
| RagEnhancement.RagKeepsPrompt | internal/bus/server_rag.go:270-304 | whatever RAG does, the user's prompt stays the last user message whenever the request would have been accepted without it |
| RagEnhancement.RagKeepsOtherFields | internal/bus/server_rag.go:270-304 | the request fields RAG does not name keep their values |
| RagEnhancement.CacheKeyRoundTrip | internal/bus/server_rag.go:147-150 | the embedder by cache key gives, for a query's key, the embedding of the query's text |
| RagEnhancement.CacheKeysAreDistinct | internal/bus/server_rag.go:147-150 | two query texts share a cache key if and only if they are the same |
| RagEnhancement.RequestHoldsData | internal/bus/server.go:86-99 | the request that Publish decodes from an event holds exactly the fields of the event's data |
| RagEnhancement.PlainPromptIsSent | internal/bus/server.go:86-99 | a text under the name prompt in the event's data, without messages, is what the model is sent as the only message |
| RagEnhancement.QueryTextIsLaidOut | internal/bus/server_rag.go:309-343 | the query text is the non-empty ones of the subject and the data's query, prompt, message and text, in this order, with a space between any two |
| RagEnhancement.WithoutSelf | internal/bus/server_rag.go:191-198 | exactly the answers other than the event itself remain, the last score of each id unchanged |
| RagEnhancement.RelevantIds | internal/bus/server_rag.go:214-220 | exactly the ids of the answers above 0.4 |
| RagEnhancement.SortByScore | internal/bus/server_rag.go:249-260 | the same events by falling score |
| RagEnhancement.AnswerBelongsToUser | internal/bus/server_rag.go:176-188 | every answer of the similarity query is a stored event of the asking user, if the event names one |
| RagEnhancement.BatchIsRightContext | internal/bus/server_rag.go:236-247 | the batch read gives each other event with a relevant answer exactly once, all of the asking user, whatever its order |
| RagEnhancement.ChooseContext | internal/bus/server_rag.go:190-267 | which outcome follows from the answers; an applied context is each relevant event once, best first by its last score, rendered within the budget, and the branch for an empty context is never taken |
| RagEnhancement.MarksTellTheOutcome | internal/bus/server_rag.go:199-304 | from the marks of a request one can tell whether it was enhanced, with how many events, and otherwise which of the three reasons holds of the answers |
| RagEnhancement.AskForSimilar | internal/bus/server_rag.go:176-188 | the answers are those of the user-filtered similarity query for the five nearest, or nothing exactly when it errs |
| RagEnhancement.ApplyRagEnhancement | internal/bus/server_rag.go:119-307 | the attempt uses the query text's own embedding, cached or not; its outcome is the one its answers call for; the request is rewritten accordingly and the cache stays true |
| RagEnhancement.Rewrite | internal/bus/server_rag.go:200-304 | the edits of the request, one field at a time, amount to the table of fields that each outcome stands for; a request without data has nowhere to be edited |
| RagService.AppliedContext | internal/bus/server_rag.go:259-260 | an applied context accounts for every used event: it holds the text of each of the first ones, at offsets without gaps, and then a notice that states how many are missing |
| RagService.EnhanceRequest | internal/bus/server_rag.go:119-307 | the attempt with the server's own event texts, header, separator and notice, its context accounting for every used event |
| FactEvents.IsFactEvent | internal/bus/util.go:5-23 | true exactly for the listed event types |
| EventServer.Server.StartVectorizing | internal/bus/server.go:67-77 | the counter rises and the task starts exactly for facts that can be embedded |
| EventServer.Server.PrepareRequest | internal/bus/server.go:86-134 | the request that is sent is the event's own, enhanced exactly when it goes to the language model and queries can be embedded |
| EventServer.Server.Publish | internal/bus/server.go:60-183 | when the call fails, exactly, from the provider's reply to the request as RAG left it; the store gets the event and then its response, a task starts whether or not storing worked, and every subscriber with room gets the response exactly when there is one |
| EventServer.PublishKeepsPrompt | internal/bus/server.go:131-137 | the language model gets the user's prompt as the last user message whenever the published request would have been accepted without RAG |
| EventServer.Server.VectorizeEvent | internal/bus/vectorize.go:17-80 | attaches the embedding it got, if any, to the task's own event, with what each failure leaves, and counts exactly this task off |
| EventServer.PublishedStore | internal/bus/server.go:60-183 | publishing keeps the store consistent and inserts the event and then its response, each unless its insert fails or its id is taken, and no edge, vector or other node |
| EventServer.PublishedResponse | internal/bus/server.go:165-181 | a response that the call concludes with is stored and comes last in every buffer with room; without one nothing is added to any buffer |
| EventServer.StoredResponseRefersBack | internal/bus/server.go:140-163 | read back from storage a response names the event it answers as its correlation, keeps its trace, and holds provider and reply |
| EventServer.ResponsesAreNobodys | internal/bus/server.go:140-175 | a response is no fact and no user's filtered search finds it |
| EventServer.VectorizingAgainAddsAVector | internal/bus/server.go:62-73 | vectorizing an event again, as publishing its id again does, adds a vector to it and replaces none |
| EventServer.VectorizedTwiceRepeats | internal/storage/sqlite/provider_pure.go:343-367 | after that there are answers with the event twice |
| EventServer.FullQueryRepeats | internal/storage/sqlite/provider_pure.go:643-784 | and every query for all vectors of an exact index answers with some id twice |
| AnswerIdentity.DistinctExactly | internal/storage/sqlite/provider_pure.go:755-784 | the ids of any answers are distinct if and only if no two chosen linked vectors embed the same event |
| AnswerIdentity.AlwaysDistinctExactly | internal/storage/sqlite/provider_pure.go:643-784 | the answers on a store have distinct ids, whichever indexed vectors the query settles on, if and only if no event has two embedding edges |
| AnswerIdentity.ExactQueryIsDistinctExactly | internal/storage/sqlite/provider_pure.go:722-784 | with an exact index, the answers to a query for all of its vectors have distinct ids if and only if no event has two embedding edges |
| AnswerIdentity.AnAnswerCanRepeat | internal/storage/sqlite/provider_pure.go:755-784 | a store with one event and an exact index of two vectors, where the query for two answers with the event twice |
| Shutdown.RpcStepKeepsCount | internal/bus/server.go:67-73 | counting up before the task starts keeps the wait group equal to the unfinished tasks and the RPCs about to start one |
| Shutdown.TaskStepKeepsCount | internal/bus/vectorize.go:17-19 | so does a task that counts itself off at its very end |
| Shutdown.DoKeepsInv | cmd/pcas/cmd/serve.go:128-153 | every step of an RPC, a task or the handler keeps the invariant of the whole system, storage included |
| Shutdown.ShutdownIsSafe | cmd/pcas/cmd/serve.go:128-162 | in every run: no storage operation once closing has begun, the wait group counts the unfinished tasks, nothing is in progress when closing begins, and nothing stored before is lost |
| Shutdown.SavedIndexIsComplete | cmd/pcas/cmd/serve.go:139-147 | the saved index holds the vector of every embedding that was attached in the run, and the next start from it finds a consistent store |
| ShutdownFacts.PublishedFactsAreSaved | cmd/pcas/cmd/serve.go:128-153 | in every run that saves its index, each accepted fact has a finished task of its own, and the saved index holds the embedding the task got, linked to that event, unless it got none or a statement failed |
| ShutdownFacts.GivenEmbeddingIsSaved | internal/bus/vectorize.go:17-80 | the embedding a task is given is the one in the saved index, linked to the task's event, unless a statement failed, whatever happens until then |
| ShutdownFacts.PublishedEventIsStored | internal/bus/server.go:60-65 | when closing begins the event of every accepted call is stored as it was published, or its insert has failed |
| ShutdownFacts.ResponseIsStored | internal/bus/server.go:165-169 | so is every response that a call has begun to store |
| Shutdown.CounterOnlyFalls | internal/bus/server.go:265-268 | once the wait has begun the counter never rises again |
| ShutdownProgress.EffectiveStepLowersRank | cmd/pcas/cmd/serve.go:128-153 | after the signal every step that changes anything lowers a rank, whatever fails in it |
| ShutdownProgress.SchedulesAreFinite | cmd/pcas/cmd/serve.go:128-153 | so every schedule has at most as many effective steps as the rank it starts from |
| ShutdownProgress.EveryScheduleEndsClosedOrBlocked | cmd/pcas/cmd/serve.go:132-153 | under every schedule of the server's own steps: with a subscription open the stop never returns and no index is saved; with none open it can go no further if and only if storage is closed |
| ShutdownProgress.ShutdownEndsExactlyWithoutSubscriptions | internal/bus/server_subscribe.go:31-42 | the server can close its storage by its own steps, and does so under every schedule that goes on while it can, if and only if no subscription is open |
| ShutdownProgress.OnlyAFailedSaveIsMissing | internal/storage/sqlite/provider_pure.go:857-878 | a shutdown that ends without a saved index tried to save it and failed |
| TopK.LowestIndex | poc/vector_search/main.go:227-233 | the first position of a lowest score |
| TopK.Consider | poc/vector_search/main.go:223-237 | one item more keeps the split into better kept and discarded items, losing none |
| TopK.KeepBest | poc/vector_search/main.go:210-238 | after any stream min(n, K) items are kept, kept and discarded are the items seen, no discarded score exceeds a kept one, and above every threshold as many are kept as there are, up to K |
| TopK.KeptAreBest | poc/vector_search/main.go:223-237 | why such a split is a best choice: above each threshold the kept items number as many as there are, up to K |
| Cosine.CauchySchwarz | poc/vector_search/main.go:80-85 | the three accumulators satisfy the Cauchy-Schwarz inequality after every coordinate |
| Cosine.ScoreBounds | poc/vector_search/main.go:86-89 | the quotient of such accumulators lies between -1 and 1 |
| Cosine.CosineSimilarity | poc/vector_search/main.go:79-90 | the score is between -1 and 1, is 0 for a zero vector, times both norms is the dot product, and is 1 for a non-zero vector against itself |

## Left out

- Transport, encodings and engine: gRPC, protobuf, JSON text, SQL text and the SQLite engine are replaced by abstract tables, JSON trees and statements that may fail.
- Attribute keys that contain quotes, which the JSON path of the filter does not escape.
- The HNSW graph itself, its panics on mixed dimensions and the saved-graph file format come from a library that is not part of this model; a stale saved index after a crash is outside the claims about reopening.
- Floating point: float32 rounding, infinities and NaN.
- Timeouts, the rate limiter, deduplication of concurrent embedding calls, and log lines.
- The policy engine and the provider's work: a call of `Publish` meets a routing decision and a reply, and in the shutdown model a response may or may not come.
- `extractTextContent` and the embedding call: whether a task or a query gets an embedding is a choice of the surroundings.
- A query that breaks off in the middle of its rows: the code takes the rows read so far for all of them; here a query fails as a whole or reads every row.
- Paging in `GetAllEvents`: its order has ties that the engine resolves.
- The network call of `Execute`, the Ollama provider, the command line, the SDK client, examples and generated code.
- Concurrent objects: streams, buses and the shutdown are transition systems on values, so aliasing between goroutines is represented only where it matters, as the shared map and channels; `SubscriberTable` keeps them as objects for what one goroutine does under the lock.
- RagEnhancement.SortByScore: an insertion sort stands in for the library sort, which promises no order among equal scores either.
- RagService.EnhanceRequest: the wording of the system message around the context and the format of an event's time are parameters.
- ShutdownProgress.EveryScheduleEndsClosedOrBlocked: assumes that calls of providers, embedders and the database return; reads change nothing and are not counted.
- StorageProvider.CloseThenOpen: an older copy of the index that is still there when saving fails would be read instead.
- InteractStream.CancelledReceiverExits: assumes that the pending receive of a cancelled stream fails, as gRPC promises.
- InteractStream.ChannelsAreUsedSafely: assumes, as the provider interface asks, that a provider stops writing when it returns.
