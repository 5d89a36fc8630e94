/**
 * The server object over its storage, its subscriber table and its wait group: `Publish`
 * (internal/bus/server.go) with its ordered effects, and the background task that it starts
 * (`vectorizeEvent` of internal/bus/vectorize.go).
 */
module EventServer {
  import opened Wrappers
  import opened VectorCodec
  import opened EventCodec
  import opened FilterCompiler
  import opened GraphStore
  import opened SimilarityQuery
  import opened RagEnhancement
  import opened AnswerIdentity
  import RagService
  import StorageProvider
  import SubscriberTable
  import PubSub
  import opened FactEvents

  const RESPONSE_TYPE := "pcas.response.v1"

  /** The response event to a published one. It carries no user and no session. */
  function ResponseTo(event: Event, provider: string, reply: string, id: string, now: Timestamp): (response: Event) {
    Event(id, RESPONSE_TYPE, "pcas-server", "1.0", "response-to-" + event.id, Some(now), event.traceId, event.id,
        "", "",
          Some(ValuePayload(Obj(map[
            "original_event_id" := Str(event.id), "provider" := Str(provider), "response" := Str(reply)]))),
          "", "", map[])
  }

  /** The provider whose requests are enhanced. */
  const LLM_PROVIDER := "openai-gpt4"

  /** What a RAG attempt meets: whether it is enabled, the database, the index and the texts. */
  datatype RagWorld = RagWorld(
    enabled: bool, w: Surroundings, search: SearchFn, distance: Distance, format: Timestamp -> ContextRenderer.Text,
    wording: Wording)

  ghost predicate Sound(world: RagWorld) {
    WellBehaved(world.w) && SoundSearch(world.search)
  }

  /**
   * What one Publish call meets: the routing decision, the provider's reply to a request with or
   * without data, and the database.
   */
  datatype Meets = Meets(
    selected: string, registered: bool, reply: Option<Fields> -> Option<string>, responseId: string, now: Timestamp,
    publisher: nat, number: nat, store: nat -> Env, storeResponse: nat -> Env)

  /** How the RAG attempt on an event's request may end. */
  ghost predicate RagOutcome(outcome: Outcome, event: Event, world: RagWorld, embed: RecencyCache.Embedder) {
    var fields := RequestFields(event);
    var text := QueryText(event.subject, if fields.Some? then fields.value else map[]);
    if !world.enabled || text == "" then outcome.Untouched?
    else exists answers, order ::
      Decided(outcome, answers, order, event, embed(text), world.w, world.search, world.distance,
              RagService.Shown(world.format), ContextRenderer.CONTEXT_LAYOUT)
  }

  /** What the provider gets: the event's request as the attempt left it. */
  function Sent(event: Event, outcome: Outcome, wording: Wording): (request: Option<Fields>) {
    match RequestFields(event)
    case Some(fields) => Some(Rewritten(fields, outcome, wording))
    case None => None
  }

  /** The event that a call broadcasts. */
  function Broadcast(r: Result<Option<Event>, string>): (response: Option<Event>) {
    if r.Ok? then r.value else None
  }

  function MessageOf(r: Result<Option<Event>, string>, meets: Meets): (message: Option<PubSub.Message>) {
    if Broadcast(r).Some? then Some(PubSub.Message(meets.publisher, meets.number, Broadcast(r).value.id)) else None
  }

  /** Each subscriber was offered the message, if there is one. */
  ghost predicate Offered(before: map<string, seq<PubSub.Message>>, message: Option<PubSub.Message>,
      after: map<string, seq<PubSub.Message>>)
  {
    after.Keys == before.Keys
    && forall c <- before :: after[c] == if message.Some? then PubSub.Buffered(before[c], message.value) else before[c]
  }

  /** Only a request to the language model is enhanced, and only when queries can be embedded. */
  ghost predicate Attempts(outcome: Outcome, event: Event, meets: Meets, world: RagWorld, canEmbed: bool,
      embed: RecencyCache.Embedder)
  {
    if meets.selected == LLM_PROVIDER && meets.registered && canEmbed then RagOutcome(outcome, event, world, embed)
    else outcome.Untouched?
  }

  /** When the call fails, and which response it broadcasts otherwise: none without a provider. */
  predicate Concludes(r: Result<Option<Event>, string>, event: Event, meets: Meets, reply: Option<string>) {
    && (r.Err? <==> meets.selected != "" && (!meets.registered || reply.None?))
    && (r.Ok? ==> (r.value.Some? <==> meets.selected != ""))
    && (r.Ok? && r.value.Some? ==>
          r.value.value == ResponseTo(event, meets.selected, reply.value, meets.responseId, meets.now))
  }

  /** The result follows from the reply to the request that is sent. */
  predicate Replies(r: Result<Option<Event>, string>, event: Event, meets: Meets, sent: Option<Fields>) {
    Concludes(r, event, meets, meets.reply(sent))
  }

  /** The store after a response, if there is one, was stored or failed to be. */
  function Answered(store: Store, response: Option<Event>, meets: Meets): (after: Store) {
    if response.Some? then Solo(store, InsertingEvent(response.value, []), meets.storeResponse).0 else store
  }

  /** The store after the event and then its response were stored or failed to be. */
  function Published(store: Store, event: Event, response: Option<Event>, meets: Meets): (after: Store) {
    Answered(Solo(store, InsertingEvent(event, []), meets.store).0, response, meets)
  }

  class Server {
    const storage: StorageProvider.Provider
    const table: SubscriberTable.Table
    const cache: EmbeddingCache.Cache
    const embed: RecencyCache.Embedder
    const hasEmbeddingProvider: bool
    var vectorizeWG: int
    // the events whose background tasks have not ended
    var vectorizing: seq<Event>

    ghost predicate Valid()
      reads this, table, table.subscribers.Values, cache, cache.cache.Values
    {
      vectorizeWG == |vectorizing| && table.Valid() && CacheValid()
    }

    ghost predicate CacheValid()
      reads this, cache, cache.cache.Values
    {
      cache.Valid() && RecencyCache.Coherent(cache.View(), ByCacheKey(embed))
    }

    constructor (storage: StorageProvider.Provider, table: SubscriberTable.Table, cache: EmbeddingCache.Cache,
        embed: RecencyCache.Embedder, hasEmbeddingProvider: bool)
      requires table.Valid() && cache.Valid() && RecencyCache.Coherent(cache.View(), ByCacheKey(embed))
      ensures Valid() && vectorizing == []
      ensures this.storage == storage && this.table == table && this.cache == cache && this.embed == embed
      ensures this.hasEmbeddingProvider == hasEmbeddingProvider
    {
      this.storage, this.table, this.cache, this.embed := storage, table, cache, embed;
      this.hasEmbeddingProvider := hasEmbeddingProvider;
      vectorizeWG, vectorizing := 0, [];
    }

    /** Counts up, then starts the task, if the event is a fact and can be embedded; stored or not. */
    method StartVectorizing(event: Event)
      requires Valid()
      modifies this`vectorizeWG, this`vectorizing
      ensures Valid()
      ensures vectorizing == old(vectorizing) +
                (if hasEmbeddingProvider && event.typ in FACT_TYPES then [event] else [])
    {
      if hasEmbeddingProvider {
        var fact := IsFactEvent(event.typ);
        if fact {
          vectorizeWG := vectorizeWG + 1;
          vectorizing := vectorizing + [event];
        }
      }
    }

    /** Stores the event, or fails to, and starts its task. */
    method Receive(event: Event, meets: Meets)
      requires Valid()
      modifies this`vectorizeWG, this`vectorizing, storage
      ensures Valid() && unchanged(table) && unchanged(table.subscribers.Values)
      ensures storage.State() == Solo(old(storage.State()), InsertingEvent(event, []), meets.store).0
      ensures vectorizing == old(vectorizing) +
                (if hasEmbeddingProvider && event.typ in FACT_TYPES then [event] else [])
    {
      var stored := storage.StoreEvent(event, [], meets.store);
      StartVectorizing(event);
    }

    /** The event's request, enhanced in place for the language model. */
    method PrepareRequest(event: Event, selected: string, world: RagWorld) returns (sent: Option<Fields>,
        ghost outcome: Outcome)
      requires CacheValid() && Sound(world)
      modifies cache, cache.cache.Values
      ensures CacheValid()
      ensures sent == Sent(event, outcome, world.wording)
      ensures if selected == LLM_PROVIDER && hasEmbeddingProvider then RagOutcome(outcome, event, world, embed)
              else outcome.Untouched?
    {
      var fields := RequestFields(event);
      var request: RequestData? := null;
      if fields.Some? {
        request := new RequestData(fields.value);
      }
      if selected == LLM_PROVIDER && hasEmbeddingProvider {
        outcome := Enhance(event, request, world);
      } else {
        outcome := Untouched;
        if fields.Some? {
          NothingRewritten(fields.value, world.wording);
        }
      }
      sent := if request == null then None else Some(request.fields);
    }

    method Enhance(event: Event, request: RequestData?, world: RagWorld) returns (ghost outcome: Outcome)
      requires CacheValid() && Sound(world)
      requires RequestFields(event) == if request == null then None else Some(request.fields)
      modifies request, cache, cache.cache.Values
      ensures CacheValid()
      ensures request != null ==> request.fields == Rewritten(old(request.fields), outcome, world.wording)
      ensures RagOutcome(outcome, event, world, embed)
    {
      ghost var answers, order;
      outcome, answers, order := RagService.EnhanceRequest(world.enabled, event, request, cache, embed, world.w,
                                                           world.search, world.distance, world.format, world.wording);
    }

    /** Stores the response, stored or not, and offers it to every subscriber. */
    method Respond(response: Event, meets: Meets)
      requires table.Valid()
      modifies storage, table.subscribers.Values
      ensures table.Valid() && table.subscribers == old(table.subscribers)
      ensures storage.State() == Solo(old(storage.State()), InsertingEvent(response, []), meets.storeResponse).0
      ensures Offered(old(Buffers()), Some(PubSub.Message(meets.publisher, meets.number, response.id)), Buffers())
    {
      var stored := storage.StoreEvent(response, [], meets.storeResponse);
      var accepted := table.Publish(Some(PubSub.Message(meets.publisher, meets.number, response.id)));
    }

    /** What every registered subscriber has buffered. */
    ghost function Buffers(): (buffers: map<string, seq<PubSub.Message>>)
      reads table, table.subscribers.Values
    {
      map c | c in table.subscribers :: table.subscribers[c].buf
    }

    /** The provider's reply to the request, which is enhanced first if it goes to the language model. */
    method Execute(event: Event, meets: Meets, world: RagWorld) returns (reply: Option<string>, ghost outcome: Outcome)
      requires CacheValid() && Sound(world) && meets.registered
      modifies cache, cache.cache.Values
      ensures CacheValid() && unchanged(table) && unchanged(table.subscribers.Values)
      ensures Attempts(outcome, event, meets, world, hasEmbeddingProvider, embed)
      ensures reply == meets.reply(Sent(event, outcome, world.wording))
    {
      var sent;
      sent, outcome := PrepareRequest(event, meets.selected, world);
      reply := meets.reply(sent);
    }

    /** Routing, the request, the provider and the response: everything after the event was stored. */
    method Process(event: Event, meets: Meets, world: RagWorld)
      returns (r: Result<Option<Event>, string>, ghost outcome: Outcome)
      requires table.Valid() && CacheValid() && Sound(world)
      modifies storage, table.subscribers.Values, cache, cache.cache.Values
      ensures table.Valid() && CacheValid() && table.subscribers == old(table.subscribers)
      ensures Attempts(outcome, event, meets, world, hasEmbeddingProvider, embed)
      ensures Replies(r, event, meets, Sent(event, outcome, world.wording))
      ensures storage.State() == Answered(old(storage.State()), Broadcast(r), meets)
      ensures Offered(old(Buffers()), MessageOf(r, meets), Buffers())
    {
      outcome := Untouched;
      var reply: Option<string> := None;
      if meets.selected != "" && meets.registered {
        reply, outcome := Execute(event, meets, world);
      }
      r := Conclude(event, meets, reply);
    }

    /** From the reply, if a provider was asked for one, to the result. */
    method Conclude(event: Event, meets: Meets, reply: Option<string>) returns (r: Result<Option<Event>, string>)
      requires table.Valid() && CacheValid()
      modifies storage, table.subscribers.Values
      ensures table.Valid() && CacheValid() && table.subscribers == old(table.subscribers)
      ensures Concludes(r, event, meets, reply)
      ensures storage.State() == Answered(old(storage.State()), Broadcast(r), meets)
      ensures Offered(old(Buffers()), MessageOf(r, meets), Buffers())
    {
      if meets.selected == "" {
        return Ok(None);
      }
      if !meets.registered {
        return Err("provider not found");
      }
      if reply.None? {
        return Err("provider execution failed");
      }
      var response := ResponseTo(event, meets.selected, reply.value, meets.responseId, meets.now);
      Respond(response, meets);
      return Ok(Some(response));
    }

    /** The event that Publish broadcasts, or why it fails. A failed store stops nothing. */
    method Publish(event: Event, meets: Meets, world: RagWorld)
      returns (r: Result<Option<Event>, string>, ghost outcome: Outcome)
      requires Valid() && Sound(world)
      modifies this`vectorizeWG, this`vectorizing, storage, table.subscribers.Values, cache, cache.cache.Values
      ensures Valid() && table.subscribers == old(table.subscribers)
      ensures Attempts(outcome, event, meets, world, hasEmbeddingProvider, embed)
      ensures Replies(r, event, meets, Sent(event, outcome, world.wording))
      ensures storage.State() == Published(old(storage.State()), event, Broadcast(r), meets)
      ensures vectorizing == old(vectorizing) +
                (if hasEmbeddingProvider && event.typ in FACT_TYPES then [event] else [])
      ensures Offered(old(Buffers()), MessageOf(r, meets), Buffers())
    {
      Receive(event, meets);
      r, outcome := Process(event, meets, world);
    }

    /** A task: embeds its event, attaches the vector, and counts itself off at the very end. */
    method VectorizeEvent(i: nat, embedding: Option<Vec>, env: nat -> Env) returns (ok: bool)
      requires Valid() && i < |vectorizing|
      modifies this`vectorizeWG, this`vectorizing, storage
      ensures Valid() && vectorizing == old(vectorizing[..i] + vectorizing[i + 1..])
      ensures embedding.None? ==> !ok && storage.State() == old(storage.State())
      ensures embedding.Some? ==>
                var before, id := old(storage.State()), old(vectorizing[i].id);
                if env(4).fault || !IsEvent(before, id) then !ok && storage.State() == before
                else StorageProvider.Attached(before, storage.State(), id, embedding.value, env, ok)
      ensures var vector := if embedding.Some? then embedding.value else [];
              var done := Solo(old(storage.State()), CheckingEvent(old(vectorizing[i].id), vector), env);
              && storage.State() == (if embedding.Some? then done.0 else old(storage.State()))
              && ok == (embedding.Some? && !done.1.Failed?)
    {
      ok := false;
      if embedding.Some? {
        ok := storage.AddEmbeddingToEvent(vectorizing[i].id, embedding.value, env);
      }
      vectorizing := vectorizing[..i] + vectorizing[i + 1..];
      vectorizeWG := vectorizeWG - 1;
    }
  }

  // ------------------------------------------------------------------ what publishing means

  lemma NothingRewritten(fields: Fields, wording: Wording)
    ensures Rewritten(fields, Untouched, wording) == fields
  {
  }

  /**
   * Whatever RAG did to the request of a published event, the language model is sent the user's
   * prompt as the last user message whenever the request would have been accepted without RAG.
   */
  lemma PublishKeepsPrompt(event: Event, outcome: Outcome, wording: Wording)
    requires RequestFields(event).Some? && MessagesFor(RequestFields(event).value).Ok?
    ensures var sent := MessagesFor(Sent(event, outcome, wording).value);
            && sent.Ok? && |sent.value| >= 1
            && sent.value[|sent.value| - 1] == ChatMessage(User, TextOf(RequestFields(event).value, Prompt))
  {
    RequestHoldsData(event, "");
    RagKeepsPrompt(RequestFields(event).value, outcome, wording);
  }

  lemma StoreAlone(store: Store, event: Event, env: nat -> Env)
    requires StoreInv(store)
    ensures var after := Solo(store, InsertingEvent(event, []), env).0;
            && StoreInv(after) && Grows(store, after)
            && after.edges == store.edges && after.index == store.index
            && after.nodes == (if env(4).fault || event.id in store.nodes then store.nodes
                               else store.nodes[event.id := EventNode(ToDocument(event))])
  {
    SoloUnfold(store, InsertingEvent(event, []), env);
    StepKeepsStoreInv(store, InsertingEvent(event, []), env(4));
    StepGrows(store, InsertingEvent(event, []), env(4));
  }

  /** The nodes after an insert that may fail or find its key taken. */
  ghost predicate Inserted(before: map<string, Node>, after: map<string, Node>, event: Event, fault: bool) {
    if fault || event.id in before then after == before
    else after == before[event.id := EventNode(ToDocument(event))]
  }

  /**
   * Publishing keeps the store consistent and adds the event and then its response, each unless its
   * insert fails or its id was taken, when the first event stored under it stays; and nothing else.
   */
  lemma PublishedStore(store: Store, event: Event, response: Option<Event>, meets: Meets)
    requires StoreInv(store)
    ensures var after := Published(store, event, response, meets);
            && StoreInv(after) && Grows(store, after)
            && after.edges == store.edges && after.index == store.index
            && (forall id | id in after.nodes && id !in store.nodes :: IsEvent(after, id))
            && exists stored :: Inserted(store.nodes, stored, event, meets.store(4).fault)
                 && if response.None? then after.nodes == stored
                    else Inserted(stored, after.nodes, response.value, meets.storeResponse(4).fault)
  {
    StoreAlone(store, event, meets.store);
    var stored := Solo(store, InsertingEvent(event, []), meets.store).0;
    if response.Some? {
      StoreAlone(stored, response.value, meets.storeResponse);
      GrowsTransitive(store, stored, Published(store, event, response, meets));
    }
    assert Inserted(store.nodes, stored.nodes, event, meets.store(4).fault);
  }

  /**
   * What a call leaves behind: a response that it concludes with is stored, unless its insert fails
   * or its id is taken, and comes last in every buffer with room; otherwise nothing of the kind.
   */
  lemma PublishedResponse(r: Result<Option<Event>, string>, event: Event, meets: Meets, store: Store,
      before: map<string, seq<PubSub.Message>>, after: map<string, seq<PubSub.Message>>)
    requires StoreInv(store) && Offered(before, MessageOf(r, meets), after)
    ensures after.Keys == before.Keys
    ensures r.Ok? && r.value.Some? ==>
              var message := PubSub.Message(meets.publisher, meets.number, r.value.value.id);
              forall c <- before :: after[c] == if |before[c]| < 100 then before[c] + [message] else before[c]
    ensures r.Ok? && r.value.Some? && r.value.value.id !in store.nodes && r.value.value.id != event.id ==>
              var nodes := Published(store, event, Broadcast(r), meets).nodes;
              !meets.storeResponse(4).fault ==>
                r.value.value.id in nodes && nodes[r.value.value.id] == EventNode(ToDocument(r.value.value))
    ensures r.Err? || r.value.None? ==>
              && after == before
              && Inserted(store.nodes, Published(store, event, Broadcast(r), meets).nodes, event, meets.store(4).fault)
  {
    PublishedStore(store, event, Broadcast(r), meets);
  }

  /** Read back from storage, a response tells which event it answers, who answered and what. */
  lemma StoredResponseRefersBack(event: Event, provider: string, reply: string, id: string, now: Timestamp)
    ensures var r := FromDocument(ToDocument(ResponseTo(event, provider, reply, id, now)));
            && r.id == id && r.typ == "pcas.response.v1" && r.source == "pcas-server" && r.specversion == "1.0"
            && r.subject == "response-to-" + event.id && r.time == Some(Timestamp(now.seconds, 0))
            && r.correlationId == event.id && r.traceId == event.traceId && r.userId == "" && r.sessionId == ""
            && r.data == Some(ValuePayload(Obj(map["original_event_id" := Str(event.id), "provider" := Str(provider),
                                                   "response" := Str(reply)])))
  {
    RoundTrip(ResponseTo(event, provider, reply, id, now));
  }

  /** A response is never vectorized, and no user's filtered search ever finds it. */
  lemma ResponsesAreNobodys(store: Store, event: Event, provider: string, reply: string, id: string, now: Timestamp,
      user: string)
    requires StoreInv(store) && user != ""
    requires IsEvent(store, id) && store.nodes[id].doc == ToDocument(ResponseTo(event, provider, reply, id, now))
    ensures !IsFact(ResponseTo(event, provider, reply, id, now).typ)
    ensures id !in Eligible(store, NO_FILTER.(userId := Some(user)))
  {
    UserFilterSelectsUser(store, user, id);
    RoundTrip(ResponseTo(event, provider, reply, id, now));
  }

  lemma AttachedEdges(store: Store, id: string, embedding: Vec, env: nat -> Env)
    requires IsEvent(store, id)
    requires !env(4).fault && !env(3).fault && !env(1).fault
    requires env(3).vectorId !in store.nodes && env(1).edgeId !in store.edges
    ensures Solo(store, CheckingEvent(id, embedding), env).0.edges
            == store.edges[env(1).edgeId := Edge(env(3).vectorId, id, EMBEDDING_OF)]
  {
    SoloUnfold(store, CheckingEvent(id, embedding), env);
    StorageProvider.UnfoldEmbedding(store, InsertingVector(id, embedding), env);
  }

  lemma NewVectorIsUnlinked(store: Store, v: string)
    requires StoreInv(store) && v !in store.nodes
    ensures forall e | IsEdge(store, e) :: store.edges[e].source != v
  {
    forall e | IsEdge(store, e) ensures store.edges[e].source != v {
      assert IsVector(store, store.edges[e].source);
    }
  }

  lemma NewEdgeLinks(store: Store, after: Store, edge: string, v: string, id: string)
    requires edge !in store.edges && after.edges == store.edges[edge := Edge(v, id, EMBEDDING_OF)]
    requires forall e | IsEdge(store, e) :: store.edges[e].source != v
    ensures v !in LinkedTo(store, {id})
    ensures LinkedTo(after, {id}) == LinkedTo(store, {id}) + {v}
  {
    forall x | x in LinkedTo(store, {id}) ensures x in LinkedTo(after, {id}) && x != v {
      var e :| e in store.edges && store.edges[e].relation == EMBEDDING_OF
               && store.edges[e].target == id && store.edges[e].source == x;
      assert IsEdge(store, e) && after.edges[e] == store.edges[e];
    }
    assert after.edges[edge].source == v;
  }

  /**
   * Vectorizing an event again adds another vector to it and replaces none, so that one event can
   * answer a query twice.
   */
  lemma VectorizingAgainAddsAVector(store: Store, id: string, embedding: Vec, env: nat -> Env)
    requires StoreInv(store) && IsEvent(store, id)
    requires !env(4).fault && !env(3).fault && !env(1).fault
    requires env(3).vectorId !in store.nodes && env(1).edgeId !in store.edges
    ensures var after := Solo(store, CheckingEvent(id, embedding), env).0;
            && env(3).vectorId !in LinkedTo(store, {id})
            && LinkedTo(after, {id}) == LinkedTo(store, {id}) + {env(3).vectorId}
  {
    AttachedEdges(store, id, embedding, env);
    NewVectorIsUnlinked(store, env(3).vectorId);
    NewEdgeLinks(store, Solo(store, CheckingEvent(id, embedding), env).0, env(1).edgeId, env(3).vectorId, id);
  }

  /** After a second vectorization of an event some query answers with it twice. */
  lemma VectorizedTwiceRepeats(store: Store, id: string, embedding: Vec, env: nat -> Env, query: Vec,
      distance: Distance)
    returns (chosen: seq<string>, results: seq<QueryResult>)
    requires StoreInv(store) && IsEvent(store, id) && LinkedTo(store, {id}) != {}
    requires !env(4).fault && !env(3).fault && !env(1).fault
    requires env(3).vectorId !in store.nodes && env(1).edgeId !in store.edges
    ensures var after := Solo(store, CheckingEvent(id, embedding), env).0;
            && AnswersOn(after, chosen, results, chosen, query, distance)
            && |results| == 2 && results[0].id == id && results[1].id == id
  {
    var e := SecondEdge(store, id, embedding, env);
    chosen, results := TwiceAnswered(Solo(store, CheckingEvent(id, embedding), env).0, e, env(1).edgeId, query,
        distance);
  }

  /** And no query for all vectors of an exact index has answers with distinct ids. */
  lemma FullQueryRepeats(store: Store, id: string, embedding: Vec, env: nat -> Env, query: Vec, k: nat,
      search: SearchFn, distance: Distance, ranking: seq<string>, results: seq<QueryResult>, order: seq<string>)
    requires StoreInv(store) && IsEvent(store, id) && LinkedTo(store, {id}) != {}
    requires !env(4).fault && !env(3).fault && !env(1).fault
    requires env(3).vectorId !in store.nodes && env(1).edgeId !in store.edges
    requires FullAnswers(results, order, Solo(store, CheckingEvent(id, embedding), env).0, query, k, search, distance,
                         ranking)
    ensures !DistinctIds(results)
  {
    var e := SecondEdge(store, id, embedding, env);
    var after := Solo(store, CheckingEvent(id, embedding), env).0;
    ExactQueryIsDistinctExactly(results, order, after, query, k, search, distance, ranking);
  }

  lemma SecondEdge(store: Store, id: string, embedding: Vec, env: nat -> Env) returns (e: string)
    requires StoreInv(store) && IsEvent(store, id) && LinkedTo(store, {id}) != {}
    requires !env(4).fault && !env(3).fault && !env(1).fault
    requires env(3).vectorId !in store.nodes && env(1).edgeId !in store.edges
    ensures var after := Solo(store, CheckingEvent(id, embedding), env).0;
            && StoreInv(after) && IsEdge(after, e) && IsEdge(after, env(1).edgeId) && e != env(1).edgeId
            && after.edges[e].target == id && after.edges[env(1).edgeId].target == id
  {
    e := EdgeTo(store, id);
    AttachedEdges(store, id, embedding, env);
    SoloKeepsStoreInv(store, CheckingEvent(id, embedding), env);
  }

  lemma EdgeTo(store: Store, id: string) returns (e: string)
    requires LinkedTo(store, {id}) != {}
    ensures IsEdge(store, e) && store.edges[e].target == id
  {
    var v :| v in LinkedTo(store, {id});
    e :| e in store.edges && store.edges[e].relation == EMBEDDING_OF && store.edges[e].target in {id}
         && store.edges[e].source == v;
  }
}
