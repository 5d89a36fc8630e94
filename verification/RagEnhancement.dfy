/**
 * The in-place rewriting of a request by the RAG layer (`applyRAGEnhancement` of
 * internal/bus/server_rag.go) and its consumer, the message list that
 * internal/providers/openai/provider.go builds from the request.
 */
module RagEnhancement {
  import opened Wrappers
  import opened Sequences
  import opened VectorCodec
  import opened EventCodec
  import opened FilterCompiler
  import opened GraphStore
  import opened SimilarityQuery
  import opened SearchService
  import opened ContextRenderer
  import RecencyCache
  import EmbeddingCache

  const RAG_TOP_K := 5
  const MAX_CONTEXT_TOKENS := 16000
  const SCORE_THRESHOLD := 0.4

  // ------------------------------------------------------------------ requests and messages

  /** The request fields that are read or written by name. */
  datatype Key =
    | Prompt | Messages | Query | MessageField | TextField
    | RagApplied | RagReason | RagEventCount
    | Other(name: string)

  /** A request value: decoded from JSON, or put there by the server. */
  datatype Value = Decoded(json: Json) | MessageList(messages: seq<map<string, string>>) | Count(n: nat)

  type Fields = map<Key, Value>

  class RequestData {
    var fields: Fields

    constructor (fields: Fields)
      ensures this.fields == fields
    {
      this.fields := fields;
    }
  }

  datatype Role = System | User | Assistant

  datatype ChatMessage = ChatMessage(role: Role, content: string)

  function TextOf(fields: Fields, key: Key): (s: string) {
    if key in fields && fields[key].Decoded? && fields[key].json.Str? then fields[key].json.s else ""
  }

  function Entry(m: map<string, string>, key: string): (s: string) {
    if key in m then m[key] else ""
  }

  function RoleOf(role: string): (r: Role) {
    if role == "system" then System else if role == "assistant" then Assistant else User
  }

  function ToChat(m: map<string, string>): (c: ChatMessage) {
    ChatMessage(RoleOf(Entry(m, "role")), Entry(m, "content"))
  }

  function ToChats(ms: seq<map<string, string>>): (cs: seq<ChatMessage>)
    ensures |cs| == |ms|
  {
    if ms == [] then [] else ToChats(ms[..|ms| - 1]) + [ToChat(ms[|ms| - 1])]
  }

  /** The messages sent for a request; a nil request has no fields. */
  function MessagesFor(fields: Fields): (r: Result<seq<ChatMessage>, string>) {
    if Messages in fields then
      if fields[Messages].MessageList? then Ok(ToChats(fields[Messages].messages))
      else Err("'messages' field has invalid format")
    else if Prompt !in fields then Err("no 'prompt' or 'messages' field found in request data")
    else if fields[Prompt].Decoded? && fields[Prompt].json.Str? then Ok([ChatMessage(User, fields[Prompt].json.s)])
    else Err("'prompt' field is not a string")
  }

  predicate IsText(value: Value) {
    value.Decoded? && value.json.Str?
  }

  /** One message for each in the list, with its content and its role; an unknown role is the user's. */
  ghost predicate ChatsOf(chats: seq<ChatMessage>, list: seq<map<string, string>>) {
    |chats| == |list| && forall i :: 0 <= i < |list| ==>
      && chats[i].content == (if "content" in list[i] then list[i]["content"] else "")
      && (chats[i].role == System <==> "role" in list[i] && list[i]["role"] == "system")
      && (chats[i].role == Assistant <==> "role" in list[i] && list[i]["role"] == "assistant")
  }

  lemma {:induction false} ToChatsAre(list: seq<map<string, string>>)
    ensures ChatsOf(ToChats(list), list)
  {
    if list != [] {
      ToChatsAre(list[..|list| - 1]);
      assert forall i :: 0 <= i < |list| - 1 ==> list[..|list| - 1][i] == list[i];
    }
  }

  /** The message-building part of the provider's Execute. */
  method BuildMessages(request: RequestData?) returns (r: Result<seq<ChatMessage>, string>)
    ensures r == MessagesFor(if request == null then map[] else request.fields)
    ensures request != null && Messages in request.fields ==>
              (r.Ok? <==> request.fields[Messages].MessageList?)
              && (r.Ok? ==> ChatsOf(r.value, request.fields[Messages].messages))
    ensures request == null || Messages !in request.fields ==>
              (r.Ok? <==> request != null && Prompt in request.fields && IsText(request.fields[Prompt]))
              && (r.Ok? ==> r.value == [ChatMessage(User, request.fields[Prompt].json.s)])
  {
    var fields: Fields := if request == null then map[] else request.fields;
    if Messages in fields {
      if !fields[Messages].MessageList? {
        return Err("'messages' field has invalid format");
      }
      var list := fields[Messages].messages;
      var messages: seq<ChatMessage> := [];
      for i := 0 to |list|
        invariant messages == ToChats(list[..i])
      {
        assert list[..i + 1][..i] == list[..i];
        messages := messages + [ToChat(list[i])];
      }
      assert list[..|list|] == list;
      ToChatsAre(list);
      return Ok(messages);
    }
    if Prompt !in fields {
      return Err("no 'prompt' or 'messages' field found in request data");
    }
    if !(fields[Prompt].Decoded? && fields[Prompt].json.Str?) {
      return Err("'prompt' field is not a string");
    }
    return Ok([ChatMessage(User, fields[Prompt].json.s)]);
  }

  /** The field that a name in the event's data stands for. */
  function KeyOf(name: string): (key: Key) {
    if name == "prompt" then Prompt
    else if name == "messages" then Messages
    else if name == "query" then Query
    else if name == "message" then MessageField
    else if name == "text" then TextField
    else if name == "rag_applied" then RagApplied
    else if name == "rag_reason" then RagReason
    else if name == "rag_event_count" then RagEventCount
    else Other(name)
  }

  function DecodedFields(fields: map<string, Json>): (request: Fields) {
    map name | name in fields :: KeyOf(name) := Decoded(fields[name])
  }

  /** The request data of an event: the fields of a readable object, or none at all. */
  function RequestFields(event: Event): (fields: Option<Fields>) {
    match event.data
    case Some(ValuePayload(Obj(fields))) => Some(DecodedFields(fields))
    case _ => None
  }

  /** No event holds anything but JSON, and every field reads as the event's data has it. */
  lemma RequestHoldsData(event: Event, name: string)
    requires RequestFields(event).Some?
    ensures IsDecoded(RequestFields(event).value)
    ensures FieldOf(RequestFields(event).value, KeyOf(name))
            == if name in event.data.value.value.fields
                then Some(Decoded(event.data.value.value.fields[name])) else None
  {
    DecodedField(event.data.value.value.fields, name);
  }

  lemma DecodedField(fields: map<string, Json>, name: string)
    ensures FieldOf(DecodedFields(fields), KeyOf(name)) == if name in fields then Some(Decoded(fields[name])) else None
  {
    var request := DecodedFields(fields);
    if name in fields {
      assert KeyOf(name) in request;
    }
    if KeyOf(name) in request {
      var n :| n in fields && KeyOf(n) == KeyOf(name) && request[KeyOf(name)] == Decoded(fields[n]);
      NamesAreKeys(n, name);
    }
  }

  lemma NamesAreKeys(a: string, b: string)
    ensures KeyOf(a) == KeyOf(b) <==> a == b
  {
  }

  /** A text prompt in the event's data, without messages, is sent as the only message, from the user. */
  lemma PlainPromptIsSent(event: Event, prompt: string)
    requires RequestFields(event).Some?
    requires var data := event.data.value.value.fields;
             "prompt" in data && data["prompt"] == Str(prompt) && "messages" !in data
    ensures MessagesFor(RequestFields(event).value) == Ok([ChatMessage(User, prompt)])
  {
    DecodedField(event.data.value.value.fields, "prompt");
    DecodedField(event.data.value.value.fields, "messages");
  }

  /** Requests as Publish decodes them from an event hold plain JSON only. */
  predicate IsDecoded(fields: Fields) {
    forall k <- fields :: fields[k].Decoded?
  }

  // ------------------------------------------------------------------ what RAG may do to a request

  /** The wording of the system message around a context. */
  type Wording = Text -> Text

  datatype Reason = NoSimilarEvents | LowSimilarity | RetrievalError | NoContextGenerated

  function ReasonText(reason: Reason): (s: string) {
    match reason
    case NoSimilarEvents => "no_similar_events"
    case LowSimilarity => "low_similarity"
    case RetrievalError => "retrieval_error"
    case NoContextGenerated => "no_context_generated"
  }

  /** How an attempt ends: nothing changed, the request marked with a reason, or rewritten. */
  datatype Outcome = Untouched | Refused(reason: Reason) | Applied(context: Text, used: seq<Event>)

  function FieldOf(fields: Fields, key: Key): (value: Option<Value>) {
    if key in fields then Some(fields[key]) else None
  }

  /** The two messages of an enhanced request. */
  function ContextAndPrompt(context: Text, prompt: string, wording: Wording): (messages: seq<map<string, string>>) {
    [map["role" := "system", "content" := wording(context)], map["role" := "user", "content" := prompt]]
  }

  /** What a field holds after an attempt. */
  function FieldAfter(fields: Fields, outcome: Outcome, wording: Wording, key: Key): (value: Option<Value>) {
    match (outcome, key)
    case (Refused(_), RagApplied) => Some(Decoded(Bool(false)))
    case (Refused(reason), RagReason) => Some(Decoded(Str(ReasonText(reason))))
    case (Applied(_, _), RagApplied) => Some(Decoded(Bool(true)))
    case (Applied(_, used), RagEventCount) => Some(Count(|used|))
    case (Applied(context, _), Messages) => Some(MessageList(ContextAndPrompt(context, TextOf(fields, Prompt),
        wording)))
    case (Applied(_, _), Prompt) => None
    case _ => FieldOf(fields, key)
  }

  /** The request after an attempt, field by field. */
  function Rewritten(fields: Fields, outcome: Outcome, wording: Wording): (r: Fields) {
    map key | key in fields.Keys + {Messages, RagApplied, RagReason, RagEventCount}
              && FieldAfter(fields, outcome, wording, key).Some?
      :: FieldAfter(fields, outcome, wording, key).value
  }

  /** Every field of the rewritten request is as stated, and there are no others. */
  lemma RewrittenFields(fields: Fields, outcome: Outcome, wording: Wording, key: Key)
    ensures FieldOf(Rewritten(fields, outcome, wording), key) == FieldAfter(fields, outcome, wording, key)
  {
  }

  /** An enhanced request is always accepted: the context as system message, then the prompt as the user's. */
  lemma EnhancedMessages(fields: Fields, context: Text, used: seq<Event>, wording: Wording)
    ensures MessagesFor(Rewritten(fields, Applied(context, used), wording))
            == Ok([ChatMessage(System, wording(context)), ChatMessage(User, TextOf(fields, Prompt))])
  {
    RewrittenFields(fields, Applied(context, used), wording, Messages);
    var system := map["role" := "system", "content" := wording(context)];
    var user := map["role" := "user", "content" := TextOf(fields, Prompt)];
    TwoChats(system, user);
  }

  lemma TwoChats(a: map<string, string>, b: map<string, string>)
    ensures ToChats([a, b]) == [ToChat(a), ToChat(b)]
  {
    assert [a, b][..1] == [a];
    assert [a][..0] == [];
  }

  /** Marking a request changes nothing of what is sent. */
  lemma MarkedMessages(fields: Fields, reason: Reason, wording: Wording)
    ensures MessagesFor(Rewritten(fields, Refused(reason), wording)) == MessagesFor(fields)
  {
    RewrittenFields(fields, Refused(reason), wording, Messages);
    RewrittenFields(fields, Refused(reason), wording, Prompt);
  }

  /**
   * Whatever RAG does to a decoded request, the user's prompt stays the last user message whenever
   * the request would have been accepted without it.
   */
  lemma RagKeepsPrompt(fields: Fields, outcome: Outcome, wording: Wording)
    requires IsDecoded(fields) && MessagesFor(fields).Ok?
    ensures var after := MessagesFor(Rewritten(fields, outcome, wording));
            && after.Ok? && |after.value| >= 1
            && after.value[|after.value| - 1] == ChatMessage(User, TextOf(fields, Prompt))
            && after.value[|after.value| - 1] == MessagesFor(fields).value[|MessagesFor(fields).value| - 1]
  {
    match outcome
    case Untouched =>
      RewrittenFields(fields, Untouched, wording, Messages);
      RewrittenFields(fields, Untouched, wording, Prompt);
    case Refused(reason) => MarkedMessages(fields, reason, wording);
    case Applied(context, used) => EnhancedMessages(fields, context, used, wording);
  }

  /** The fields RAG does not name keep their values. */
  lemma RagKeepsOtherFields(fields: Fields, outcome: Outcome, wording: Wording, key: Key)
    requires key != Messages && key != Prompt && !key.RagApplied? && !key.RagReason? && !key.RagEventCount?
    ensures key in Rewritten(fields, outcome, wording) <==> key in fields
    ensures key in fields ==> Rewritten(fields, outcome, wording)[key] == fields[key]
  {
    RewrittenFields(fields, outcome, wording, key);
  }

  // ------------------------------------------------------------------ choosing the context

  /** The texts that are not empty. */
  function NonEmpty(texts: seq<string>): (kept: seq<string>) {
    if texts == [] then []
    else NonEmpty(texts[..|texts| - 1]) + if texts[|texts| - 1] != "" then [texts[|texts| - 1]] else []
  }

  /** What a query is embedded under: the subject and the known fields that hold a text. */
  function QueryParts(subject: string, fields: Fields): (parts: seq<string>) {
    NonEmpty([subject, TextOf(fields, Query), TextOf(fields, Prompt), TextOf(fields, MessageField),
              TextOf(fields, TextField)])
  }

  const CACHE_PREFIX := "rag:"

  /** The embedder as the cache sees it, by cache key. */
  function ByCacheKey(embed: RecencyCache.Embedder): (r: RecencyCache.Embedder) {
    (key: string) => if |key| >= |CACHE_PREFIX| then embed(key[|CACHE_PREFIX|..]) else None
  }

  lemma CacheKeyRoundTrip(embed: RecencyCache.Embedder, text: string)
    ensures ByCacheKey(embed)(CACHE_PREFIX + text) == embed(text)
  {
    assert (CACHE_PREFIX + text)[|CACHE_PREFIX|..] == text;
  }

  /** Different query texts never share a cache entry. */
  lemma CacheKeysAreDistinct(a: string, b: string)
    ensures CACHE_PREFIX + a == CACHE_PREFIX + b <==> a == b
  {
    assert (CACHE_PREFIX + a)[|CACHE_PREFIX|..] == a;
    assert (CACHE_PREFIX + b)[|CACHE_PREFIX|..] == b;
  }

  /** The answer is another event and scores above the threshold. */
  predicate Relevant(r: QueryResult, self: string) {
    r.id != self && r.score > SCORE_THRESHOLD
  }

  /** The score of the last answer with this id. */
  function LastScore(answers: seq<QueryResult>, id: string): (score: Option<real>) {
    if answers == [] then None
    else if answers[|answers| - 1].id == id then Some(answers[|answers| - 1].score)
    else LastScore(answers[..|answers| - 1], id)
  }

  lemma LastScoreAppend(answers: seq<QueryResult>, r: QueryResult, id: string)
    ensures LastScore(answers + [r], id) == if r.id == id then Some(r.score) else LastScore(answers, id)
  {
    assert (answers + [r])[..|answers|] == answers;
  }

  lemma {:induction false} LastScoreIsAnswered(answers: seq<QueryResult>, id: string)
    ensures LastScore(answers, id).Some? <==> exists r :: r in answers && r.id == id
    ensures LastScore(answers, id).Some? ==> QueryResult(id, LastScore(answers, id).value) in answers
  {
    if answers != [] {
      LastScoreIsAnswered(answers[..|answers| - 1], id);
      assert answers == answers[..|answers| - 1] + [answers[|answers| - 1]];
    }
  }

  /** One more answer, left out of the first list if it is about the event itself. */
  lemma AppendKeepsLastScores(cleaned: seq<QueryResult>, answers: seq<QueryResult>, r: QueryResult, self: string)
    requires forall id | id != self :: LastScore(cleaned, id) == LastScore(answers, id)
    ensures forall id | id != self ::
              LastScore(if r.id != self then cleaned + [r] else cleaned, id) == LastScore(answers + [r], id)
  {
    forall id ensures LastScore(cleaned + [r], id) == if r.id == id then Some(r.score) else LastScore(cleaned, id) {
      LastScoreAppend(cleaned, r, id);
    }
    forall id ensures LastScore(answers + [r], id) == if r.id == id then Some(r.score) else LastScore(answers, id) {
      LastScoreAppend(answers, r, id);
    }
  }

  method WithoutSelf(answers: seq<QueryResult>, self: string) returns (cleaned: seq<QueryResult>)
    ensures forall r :: r in cleaned <==> r in answers && r.id != self
    ensures forall id | id != self :: LastScore(cleaned, id) == LastScore(answers, id)
  {
    cleaned := [];
    for i := 0 to |answers|
      invariant forall r :: r in cleaned <==> r in answers[..i] && r.id != self
      invariant forall id | id != self :: LastScore(cleaned, id) == LastScore(answers[..i], id)
    {
      assert answers[..i + 1] == answers[..i] + [answers[i]];
      AppendKeepsLastScores(cleaned, answers[..i], answers[i], self);
      if answers[i].id != self {
        cleaned := cleaned + [answers[i]];
      }
    }
    assert answers[..|answers|] == answers;
  }

  /** The ids of the relevant answers. */
  function RelevantSet(answers: seq<QueryResult>, self: string): (ids: set<string>) {
    set r | r in answers && Relevant(r, self) :: r.id
  }

  method RelevantIds(cleaned: seq<QueryResult>, ghost self: string) returns (ids: seq<string>)
    requires forall r | r in cleaned :: r.id != self
    ensures Elements(ids) == RelevantSet(cleaned, self)
    ensures forall id :: id in ids <==> exists r :: r in cleaned && r.id == id && r.score > 0.4
  {
    ids := [];
    for i := 0 to |cleaned|
      invariant Elements(ids) == RelevantSet(cleaned[..i], self)
    {
      assert cleaned[..i + 1] == cleaned[..i] + [cleaned[i]];
      assert cleaned[i] in cleaned;
      RelevantSetAppend(cleaned[..i], cleaned[i], self);
      if cleaned[i].score > SCORE_THRESHOLD {
        assert Elements(ids + [cleaned[i].id]) == Elements(ids) + {cleaned[i].id};
        ids := ids + [cleaned[i].id];
      }
    }
    assert cleaned[..|cleaned|] == cleaned;
    forall id ensures id in ids <==> exists r :: r in cleaned && r.id == id && r.score > 0.4 {
      assert id in ids <==> id in Elements(ids);
    }
  }

  lemma RelevantSetAppend(answers: seq<QueryResult>, r: QueryResult, self: string)
    ensures RelevantSet(answers + [r], self) == RelevantSet(answers, self) + (if Relevant(r, self) then {r.id} else {})
  {
    var after := RelevantSet(answers + [r], self);
    forall id | id in RelevantSet(answers, self) ensures id in after {
      var x :| x in answers && Relevant(x, self) && x.id == id;
      assert x in answers + [r];
    }
    if Relevant(r, self) {
      assert r in answers + [r];
    }
  }

  function ScoreOf(scores: map<string, real>, id: string): (score: real) {
    if id in scores then scores[id] else 0.0
  }

  predicate Descending(events: seq<Event>, scores: map<string, real>) {
    |events| <= 1 || (ScoreOf(scores, events[0].id) >= ScoreOf(scores, events[1].id) && Descending(events[1..], scores))
  }

  function InsertByScore(sorted: seq<Event>, e: Event, scores: map<string, real>): (r: seq<Event>)
    ensures r != []
  {
    if sorted == [] || ScoreOf(scores, sorted[0].id) < ScoreOf(scores, e.id) then [e] + sorted
    else [sorted[0]] + InsertByScore(sorted[1..], e, scores)
  }

  lemma {:induction false} InsertKeepsEvents(sorted: seq<Event>, e: Event, scores: map<string, real>)
    ensures multiset(InsertByScore(sorted, e, scores)) == multiset(sorted) + multiset{e}
  {
    if sorted != [] && ScoreOf(scores, sorted[0].id) >= ScoreOf(scores, e.id) {
      InsertKeepsEvents(sorted[1..], e, scores);
      assert sorted == [sorted[0]] + sorted[1..];
    }
  }

  /** The first of an extended list is the new event or the old first one. */
  lemma FirstAfterInsert(sorted: seq<Event>, e: Event, scores: map<string, real>)
    ensures InsertByScore(sorted, e, scores)[0] == e || (sorted != []
            && InsertByScore(sorted, e, scores)[0] == sorted[0])
  {
  }

  lemma {:induction false} InsertKeepsOrder(sorted: seq<Event>, e: Event, scores: map<string, real>)
    requires Descending(sorted, scores)
    ensures Descending(InsertByScore(sorted, e, scores), scores)
  {
    if sorted == [] || ScoreOf(scores, sorted[0].id) < ScoreOf(scores, e.id) {
      assert ([e] + sorted)[1..] == sorted;
    } else {
      var tail := sorted[1..];
      InsertKeepsOrder(tail, e, scores);
      FirstAfterInsert(tail, e, scores);
      var rest := InsertByScore(tail, e, scores);
      assert ([sorted[0]] + rest)[1..] == rest;
    }
  }

  /** Stands in for the library sort: the same events, by falling score. */
  method SortByScore(events: seq<Event>, scores: map<string, real>) returns (sorted: seq<Event>)
    ensures Descending(sorted, scores)
    ensures multiset(sorted) == multiset(events)
    ensures |sorted| == |events| && Elements(sorted) == Elements(events)
  {
    sorted := [];
    for i := 0 to |events|
      invariant multiset(sorted) == multiset(events[..i]) && Descending(sorted, scores)
    {
      assert events[..i + 1] == events[..i] + [events[i]];
      InsertKeepsOrder(sorted, events[i], scores);
      InsertKeepsEvents(sorted, events[i], scores);
      sorted := InsertByScore(sorted, events[i], scores);
    }
    assert events[..|events|] == events;
    SameMultiset(sorted, events);
  }

  lemma SameMultiset(a: seq<Event>, b: seq<Event>)
    requires multiset(a) == multiset(b)
    ensures |a| == |b| && Elements(a) == Elements(b)
  {
    assert |multiset(a)| == |multiset(b)|;
    forall e ensures e in a <==> e in b {
      assert e in a <==> e in multiset(a);
      assert e in b <==> e in multiset(b);
    }
  }

  /** What the database and the index do during one attempt. */
  datatype Surroundings = Surroundings(views: Views, atBatch: Store, faults: QueryFaults, batchFails: bool)

  ghost predicate WellBehaved(w: Surroundings) {
    Consistent(w.views) && Grows(w.views.atEdges, w.atBatch) && StoreInv(w.atBatch)
  }

  function IdsOf(events: seq<Event>): (ids: set<string>) {
    set e | e in events :: e.id
  }

  /** The events handed to the model: each other event with a relevant answer once, all of the asking user. */
  ghost predicate RightContext(used: seq<Event>, answers: seq<QueryResult>, event: Event) {
    && IdsOf(used) == RelevantSet(answers, event.id) && |used| == |RelevantSet(answers, event.id)|
    && (event.userId != "" ==> forall e | e in used :: e.userId == event.userId)
  }

  function UserFilter(event: Event): (filter: Filter) {
    if event.userId != "" then NO_FILTER.(userId := Some(event.userId)) else NO_FILTER
  }

  /** The answers to the similarity query of an attempt, as SimilarityQuery describes them. */
  ghost predicate AnswersOf(answers: seq<QueryResult>, order: seq<string>, event: Event, query: Vec, views: Views,
      search: SearchFn, distance: Distance) {
    && SoundSearch(search)
    && (forall v | v in Chosen(views, query, RAG_TOP_K, Some(UserFilter(event)), search) :: v in views.atSearch.index)
    && Answers(answers, order, Chosen(views, query, RAG_TOP_K, Some(UserFilter(event)), search), views, query, distance)
  }

  /** An answer is an event node, of the asking user if there is one, and stays as it is. */
  lemma AnswerBelongsToUser(answers: seq<QueryResult>, order: seq<string>, event: Event, query: Vec, w: Surroundings,
      search: SearchFn, distance: Distance, r: QueryResult)
    requires WellBehaved(w) && AnswersOf(answers, order, event, query, w.views, search, distance) && r in answers
    ensures IsEvent(w.atBatch, r.id)
    ensures FromDocument(w.atBatch.nodes[r.id].doc).id == r.id
    ensures event.userId != "" ==> FromDocument(w.atBatch.nodes[r.id].doc).userId == event.userId
  {
    var i :| 0 <= i < |answers| && answers[i] == r;
    FilteredAnswersMatch(answers, order, w.views, query, RAG_TOP_K, UserFilter(event), search, distance, i);
    assert IsEvent(w.views.atEdges, r.id) && IsEvent(w.atBatch, r.id);
    if event.userId != "" {
      UserFilterSelectsUser(w.views.atFilter, event.userId, r.id);
    }
    StoredIdIsNodeId(w.atBatch, r.id);
  }

  lemma StoredIdIsNodeId(store: Store, id: string)
    requires StoreInv(store) && IsEvent(store, id)
    ensures FromDocument(store.nodes[id].doc).id == id
  {
    assert StoredEventNode(store, id);
    var e: Event :| e.id == id && store.nodes[id].doc == ToDocument(e);
    RoundTrip(e);
  }

  /** Every answer is a stored event, of the asking user if the event names one. */
  ghost predicate Backed(answers: seq<QueryResult>, store: Store, event: Event) {
    forall r | r in answers ::
      && IsEvent(store, r.id)
      && FromDocument(store.nodes[r.id].doc).id == r.id
      && (event.userId != "" ==> FromDocument(store.nodes[r.id].doc).userId == event.userId)
  }

  /** What the batch read returns for the relevant ids is the right context, in whatever order. */
  lemma BatchIsRightContext(events: seq<Event>, order: seq<string>, ids: seq<string>, answers: seq<QueryResult>,
      event: Event, store: Store)
    requires Backed(answers, store, event)
    requires Elements(ids) == RelevantSet(answers, event.id)
    requires Reads(events, order, store) && Distinct(order)
    requires forall id :: id in order <==> id in StoredAmong(store, ids)
    ensures RightContext(events, answers, event)
  {
    DistinctCardinality(order);
    forall i | 0 <= i < |events|
      ensures events[i].id == order[i] && order[i] in RelevantSet(answers, event.id)
      ensures event.userId != "" ==> events[i].userId == event.userId
    {
      assert order[i] in order && order[i] in Elements(ids);
      var r :| r in answers && Relevant(r, event.id) && r.id == order[i];
    }
    forall id | id in RelevantSet(answers, event.id) ensures id in IdsOf(events) {
      var r :| r in answers && Relevant(r, event.id) && r.id == id;
      assert id in Elements(ids) && id in order;
      var i :| 0 <= i < |order| && order[i] == id;
      assert events[i] in events && events[i].id == id;
    }
    assert Elements(order) == RelevantSet(answers, event.id) by {
      AllAreStored(ids, answers, event, store);
      assert forall id :: id in order <==> id in RelevantSet(answers, event.id);
    }
  }

  lemma AllAreStored(ids: seq<string>, answers: seq<QueryResult>, event: Event, store: Store)
    requires Backed(answers, store, event) && Elements(ids) == RelevantSet(answers, event.id)
    ensures StoredAmong(store, ids) == RelevantSet(answers, event.id)
  {
    forall id | id in RelevantSet(answers, event.id) ensures id in StoredAmong(store, ids) {
      var r :| r in answers && Relevant(r, event.id) && r.id == id;
      assert id in Elements(ids);
    }
    assert forall id | id in StoredAmong(store, ids) :: id in Elements(ids);
  }

  /** The last of its scores for every answered event other than the asking one. */
  ghost predicate ScoresFrom(scores: map<string, real>, answers: seq<QueryResult>, self: string) {
    && (forall id <- scores :: id != self && LastScore(answers, id) == Some(scores[id]))
    && (forall r | r in answers && r.id != self :: r.id in scores)
  }

  /** Higher scores first; an event answered twice goes by the last of its scores. */
  ghost predicate BestFirst(used: seq<Event>, answers: seq<QueryResult>, self: string) {
    exists scores :: ScoresFrom(scores, answers, self) && Descending(used, scores)
  }

  /** The answer list, judged: nothing but the event itself, nothing above the threshold, or something to use. */
  ghost predicate Judged(outcome: Outcome, answers: seq<QueryResult>, event: Event, show: Event -> Text,
      layout: Layout) {
    match outcome
    case Untouched => true
    case Refused(NoSimilarEvents) => forall r | r in answers :: r.id == event.id
    case Refused(LowSimilarity) => RelevantSet(answers, event.id) == {} && exists r :: r in answers && r.id != event.id
    case Refused(RetrievalError) => RelevantSet(answers, event.id) != {}
    case Refused(NoContextGenerated) => false
    case Applied(context, used) =>
      && used != [] && RightContext(used, answers, event)
      && BestFirst(used, answers, event.id)
      && RendersWithin(context, layout, EventTexts(used, show), MAX_CONTEXT_TOKENS)
  }

  /** From its marks a request tells how its attempt ended and why. */
  lemma MarksTellTheOutcome(fields: Fields, outcome: Outcome, answers: seq<QueryResult>, event: Event,
      show: Event -> Text, layout: Layout, wording: Wording)
    requires Judged(outcome, answers, event, show, layout) && !outcome.Untouched?
    ensures var after := Rewritten(fields, outcome, wording);
            var relevant := RelevantSet(answers, event.id);
            && FieldOf(after, RagApplied) == Some(Decoded(Bool(outcome.Applied?)))
            && (outcome.Applied? ==> FieldOf(after, RagEventCount) == Some(Count(|relevant|)))
            && (outcome.Refused? ==>
                  && (FieldOf(after, RagReason) == Some(Decoded(Str("no_similar_events")))
                      <==> forall r | r in answers :: r.id == event.id)
                  && (FieldOf(after, RagReason) == Some(Decoded(Str("retrieval_error"))) <==> relevant != {})
                  && (FieldOf(after, RagReason) == Some(Decoded(Str("low_similarity")))
                      <==> relevant == {} && exists r :: r in answers && r.id != event.id))
  {
    RewrittenFields(fields, outcome, wording, RagApplied);
    match outcome
    case Applied(_, _) => RewrittenFields(fields, outcome, wording, RagEventCount);
    case Refused(_) => RewrittenFields(fields, outcome, wording, RagReason);
  }

  /** The relevant events, read in one batch and sorted by score. */
  method LoadContext(ids: seq<string>, scores: map<string, real>, ghost answers: seq<QueryResult>, event: Event,
      store: Store)
    returns (used: seq<Event>)
    requires Backed(answers, store, event)
    requires Elements(ids) == RelevantSet(answers, event.id)
    ensures RightContext(used, answers, event) && Descending(used, scores)
  {
    var events, order := BatchGetEvents(store, ids);
    BatchIsRightContext(events, order, ids, answers, event, store);
    used := SortByScore(events, scores);
    assert forall e :: e in used <==> e in Elements(events);
    assert IdsOf(used) == IdsOf(events);
  }

  /** Leaving out the event itself loses no relevant answer. */
  lemma RelevantOfCleaned(cleaned: seq<QueryResult>, answers: seq<QueryResult>, self: string)
    requires forall r :: r in cleaned <==> r in answers && r.id != self
    ensures RelevantSet(cleaned, self) == RelevantSet(answers, self)
    ensures cleaned == [] ==> forall r | r in answers :: r.id == self
  {
  }

  lemma SomeRelevant(answers: seq<QueryResult>, self: string)
    ensures RelevantSet(answers, self) != {} <==> exists r :: r in answers && r.id != self && r.score > 0.4
  {
    if r :| r in answers && r.id != self && r.score > 0.4 {
      assert r.id in RelevantSet(answers, self);
    }
    if id :| id in RelevantSet(answers, self) {
      var r :| r in answers && Relevant(r, self) && r.id == id;
    }
  }

  /** The relevance scores by event id, a later answer replacing an earlier one. */
  method CollectScores(cleaned: seq<QueryResult>) returns (scores: map<string, real>)
    ensures forall id <- scores :: LastScore(cleaned, id) == Some(scores[id])
    ensures forall r | r in cleaned :: r.id in scores
  {
    scores := map[];
    for i := 0 to |cleaned|
      invariant forall id <- scores :: LastScore(cleaned[..i], id) == Some(scores[id])
      invariant forall r | r in cleaned[..i] :: r.id in scores
    {
      assert cleaned[..i + 1] == cleaned[..i] + [cleaned[i]];
      forall id ensures LastScore(cleaned[..i + 1], id)
                        == if cleaned[i].id == id then Some(cleaned[i].score) else LastScore(cleaned[..i], id)
      {
        LastScoreAppend(cleaned[..i], cleaned[i], id);
      }
      scores := scores[cleaned[i].id := cleaned[i].score];
    }
    assert cleaned[..|cleaned|] == cleaned;
  }

  lemma ScoresOfCleaned(scores: map<string, real>, cleaned: seq<QueryResult>, answers: seq<QueryResult>, self: string)
    requires forall r :: r in cleaned <==> r in answers && r.id != self
    requires forall id | id != self :: LastScore(cleaned, id) == LastScore(answers, id)
    requires forall id <- scores :: LastScore(cleaned, id) == Some(scores[id])
    requires forall r | r in cleaned :: r.id in scores
    ensures ScoresFrom(scores, answers, self)
  {
    forall id <- scores ensures id != self {
      LastScoreIsAnswered(cleaned, id);
    }
  }

  /** An empty context is refused. */
  method Conclude(context: Text, used: seq<Event>) returns (outcome: Outcome)
    ensures outcome == if context == "" then Refused(NoContextGenerated) else Applied(context, used)
  {
    if context == "" {
      return Refused(NoContextGenerated);
    }
    return Applied(context, used);
  }

  /** From the answers to an outcome; that the context is empty never happens. */
  method ChooseContext(answers: seq<QueryResult>, event: Event, store: Store, batchFails: bool, show: Event -> Text,
      layout: Layout)
    returns (outcome: Outcome)
    requires Sized(layout) && Backed(answers, store, event)
    ensures !outcome.Untouched? && Judged(outcome, answers, event, show, layout)
    ensures outcome.Applied? <==> !batchFails && RelevantSet(answers, event.id) != {}
    ensures outcome.Applied? <==> !batchFails && exists r :: r in answers && r.id != event.id && r.score > 0.4
  {
    SomeRelevant(answers, event.id);
    var cleaned := WithoutSelf(answers, event.id);
    RelevantOfCleaned(cleaned, answers, event.id);
    if |cleaned| == 0 {
      return Refused(NoSimilarEvents);
    }
    var ids := RelevantIds(cleaned, event.id);
    if |ids| == 0 {
      assert cleaned[0] in answers && cleaned[0].id != event.id;
      return Refused(LowSimilarity);
    }
    assert ids[0] in Elements(ids);
    assert RelevantSet(answers, event.id) != {};
    if batchFails {
      return Refused(RetrievalError);
    }
    var scores := CollectScores(cleaned);
    var used := LoadContext(ids, scores, answers, event, store);
    assert IdsOf(used) != {};
    ScoresOfCleaned(scores, cleaned, answers, event.id);
    var context := RenderEvents(used, MAX_CONTEXT_TOKENS, show, layout);
    outcome := Conclude(context, used);
  }

  /** The similarity query of an attempt: always filtered, by the user if the event names one. */
  method AskForSimilar(event: Event, query: Vec, w: Surroundings, search: SearchFn, distance: Distance)
    returns (answers: Option<seq<QueryResult>>, ghost order: seq<string>)
    requires WellBehaved(w) && SoundSearch(search)
    ensures answers.None? <==> QueryErrs(w.views, query, RAG_TOP_K, Some(UserFilter(event)), search, w.faults)
    ensures answers.Some? ==> Backed(answers.value, w.atBatch, event)
    ensures answers.Some? ==> AnswersOf(answers.value, order, event, query, w.views, search, distance)
  {
    var found;
    found, order := QuerySimilar(w.views, query, RAG_TOP_K, Some(UserFilter(event)), search, distance, w.faults);
    if found.Err? {
      return None, order;
    }
    forall r | r in found.value
      ensures IsEvent(w.atBatch, r.id)
      ensures FromDocument(w.atBatch.nodes[r.id].doc).id == r.id
      ensures event.userId != "" ==> FromDocument(w.atBatch.nodes[r.id].doc).userId == event.userId
    {
      AnswerBelongsToUser(found.value, order, event, query, w, search, distance, r);
    }
    return Some(found.value), order;
  }

  /** An attempt with a query vector: the query failed, or its answers decided the outcome. */
  ghost predicate Attempted(outcome: Outcome, answers: seq<QueryResult>, order: seq<string>, event: Event, query: Vec,
      w: Surroundings, search: SearchFn, distance: Distance, show: Event -> Text, layout: Layout)
  {
    if QueryErrs(w.views, query, RAG_TOP_K, Some(UserFilter(event)), search, w.faults) then outcome.Untouched?
    else
      && !outcome.Untouched?
      && AnswersOf(answers, order, event, query, w.views, search, distance)
      && Judged(outcome, answers, event, show, layout)
      && (outcome.Applied? <==> !w.batchFails && RelevantSet(answers, event.id) != {})
  }

  method Attempt(event: Event, query: Vec, w: Surroundings, search: SearchFn, distance: Distance,
      show: Event -> Text, layout: Layout)
    returns (outcome: Outcome, ghost answers: seq<QueryResult>, ghost order: seq<string>)
    requires Sized(layout) && WellBehaved(w) && SoundSearch(search)
    ensures Attempted(outcome, answers, order, event, query, w, search, distance, show, layout)
  {
    var found;
    found, order := AskForSimilar(event, query, w, search, distance);
    if found.None? {
      return Untouched, [], order;
    }
    answers := found.value;
    outcome := ChooseContext(found.value, event, w.atBatch, w.batchFails, show, layout);
  }

  function QueryText(subject: string, fields: Fields): (s: string) {
    Joined(QueryParts(subject, fields), " ")
  }

  /** The text under a name in the event's data, if it is a text. */
  function DataText(event: Event, name: string): (text: string) {
    var fields := DataFields(event);
    if name in fields && fields[name].Str? then fields[name].s else ""
  }

  /** What a query may be made of: the subject and four texts of the data, in this order. */
  function QuerySources(event: Event): (texts: seq<string>) {
    [event.subject, DataText(event, "query"), DataText(event, "prompt"), DataText(event, "message"),
     DataText(event, "text")]
  }

  lemma RequestTexts(event: Event)
    ensures var fields := if RequestFields(event).Some? then RequestFields(event).value else map[];
            && TextOf(fields, Query) == DataText(event, "query") && TextOf(fields, Prompt) == DataText(event, "prompt")
            && TextOf(fields, MessageField) == DataText(event, "message")
            && TextOf(fields, TextField) == DataText(event, "text")
  {
    if RequestFields(event).Some? {
      var fields := event.data.value.value.fields;
      DecodedField(fields, "query");
      DecodedField(fields, "prompt");
      DecodedField(fields, "message");
      DecodedField(fields, "text");
    }
  }

  /** The chosen sources, in their order. */
  ghost predicate TakenFrom(parts: seq<string>, used: seq<nat>, sources: seq<string>) {
    |parts| == |used| && forall j :: 0 <= j < |used| ==> used[j] < |sources| && parts[j] == sources[used[j]]
  }

  /** Which of the first n texts are not empty. */
  function NonEmptyAmong(texts: seq<string>, n: nat): (positions: set<nat>) {
    set k: nat | k < n && k < |texts| && texts[k] != ""
  }

  lemma {:induction false} NonEmptySources(sources: seq<string>, n: nat) returns (used: seq<nat>)
    requires n <= |sources|
    ensures Picks(used, NonEmptyAmong(sources, n)) && TakenFrom(NonEmpty(sources[..n]), used, sources)
  {
    if n == 0 {
      used := [];
    } else {
      used := NonEmptySources(sources, n - 1);
      assert sources[..n][..n - 1] == sources[..n - 1];
      if sources[n - 1] != "" {
        PicksNext(used, NonEmptyAmong(sources, n - 1), n - 1);
        used := used + [n - 1];
        assert NonEmptyAmong(sources, n) == NonEmptyAmong(sources, n - 1) + {n - 1};
      } else {
        assert NonEmptyAmong(sources, n) == NonEmptyAmong(sources, n - 1);
      }
    }
  }

  /**
   * The query text of a published event: its non-empty sources in their order, a space between any
   * two, and nothing else; it is empty exactly if they all are.
   */
  lemma QueryTextIsLaidOut(event: Event) returns (parts: seq<string>, used: seq<nat>, at: seq<nat>)
    ensures var fields := if RequestFields(event).Some? then RequestFields(event).value else map[];
            var text := QueryText(event.subject, fields);
            && Picks(used, NonEmptyAmong(QuerySources(event), 5))
            && TakenFrom(parts, used, QuerySources(event))
            && (text == "" <==> parts == [])
            && (parts != [] ==> Tiled(text + " ", "", " ", parts, |parts|, at) && at[|parts|] == |text| + 1)
  {
    var fields := if RequestFields(event).Some? then RequestFields(event).value else map[];
    var sources := QuerySources(event);
    RequestTexts(event);
    used := NonEmptySources(sources, 5);
    assert sources[..5] == sources;
    parts, at := QueryParts(event.subject, fields), [];
    assert parts == NonEmpty(sources);
    if parts != [] {
      at := JoinedIsTiled("", " ", parts);
      assert "" + Joined(parts, " ") == Joined(parts, " ");
      var first: nat := used[0];
      assert first in used && parts[0] == sources[first];
    }
  }

  /** The query's embedding through the cache: the one a direct call would give. */
  method EmbedQuery(text: string, cache: EmbeddingCache.Cache,
      embed: RecencyCache.Embedder) returns (embedding: Option<Vec>)
    requires cache.Valid() && RecencyCache.Coherent(cache.View(), ByCacheKey(embed))
    modifies cache, cache.cache.Values
    ensures cache.Valid() && RecencyCache.Coherent(cache.View(), ByCacheKey(embed))
    ensures embedding == embed(text)
  {
    CacheKeyRoundTrip(embed, text);
    embedding := cache.Embed(CACHE_PREFIX + text, ByCacheKey(embed));
  }

  /** An attempt with an embedding of the query, if there is one. */
  ghost predicate Decided(outcome: Outcome, answers: seq<QueryResult>, order: seq<string>, event: Event,
      embedding: Option<Vec>, w: Surroundings, search: SearchFn, distance: Distance, show: Event -> Text,
      layout: Layout)
  {
    if embedding.None? then outcome.Untouched?
    else Attempted(outcome, answers, order, event, embedding.value, w, search, distance, show, layout)
  }

  /** Up to the rewriting: whether to try at all, the embedding through the cache, and the attempt. */
  method Decide(enabled: bool, text: string, event: Event, cache: EmbeddingCache.Cache, embed: RecencyCache.Embedder,
      w: Surroundings, search: SearchFn, distance: Distance, show: Event -> Text, layout: Layout)
    returns (outcome: Outcome, ghost answers: seq<QueryResult>, ghost order: seq<string>)
    requires Sized(layout) && WellBehaved(w) && SoundSearch(search)
    requires cache.Valid() && RecencyCache.Coherent(cache.View(), ByCacheKey(embed))
    modifies cache, cache.cache.Values
    ensures cache.Valid() && RecencyCache.Coherent(cache.View(), ByCacheKey(embed))
    ensures if !enabled || text == "" then outcome.Untouched? && cache.View() == old(cache.View())
            else Decided(outcome, answers, order, event, embed(text), w, search, distance, show, layout)
  {
    if !enabled || text == "" {
      return Untouched, [], [];
    }
    var embedding := EmbedQuery(text, cache, embed);
    if embedding.None? {
      return Untouched, [], [];
    }
    outcome, answers, order := Attempt(event, embedding.value, w, search, distance, show, layout);
  }

  /**
   * One attempt to enhance a request in place, with the query's own embedding whether or not it
   * was cached. The request, when there is one, is rewritten as the outcome says.
   */
  method ApplyRagEnhancement(enabled: bool, event: Event, request: RequestData?, cache: EmbeddingCache.Cache,
      embed: RecencyCache.Embedder, w: Surroundings, search: SearchFn, distance: Distance, show: Event -> Text,
      layout: Layout, wording: Wording)
    returns (outcome: Outcome, ghost answers: seq<QueryResult>, ghost order: seq<string>)
    requires Sized(layout) && WellBehaved(w) && SoundSearch(search)
    requires cache.Valid() && RecencyCache.Coherent(cache.View(), ByCacheKey(embed))
    modifies request, cache, cache.cache.Values
    ensures cache.Valid() && RecencyCache.Coherent(cache.View(), ByCacheKey(embed))
    ensures request != null ==> request.fields == Rewritten(old(request.fields), outcome, wording)
    ensures var text := QueryText(event.subject, if request == null then map[] else old(request.fields));
            if !enabled || text == "" then outcome.Untouched? && cache.View() == old(cache.View())
            else Decided(outcome, answers, order, event, embed(text), w, search, distance, show, layout)
  {
    var queryText := QueryText(event.subject, if request == null then map[] else request.fields);
    outcome, answers, order := Decide(enabled, queryText, event, cache, embed, w, search, distance, show, layout);
    Rewrite(request, outcome, wording);
  }

  /** The edits of the request, one field at a time; without a request there is nowhere to make them. */
  method Rewrite(request: RequestData?, outcome: Outcome, wording: Wording)
    modifies request
    ensures request != null ==> request.fields == Rewritten(old(request.fields), outcome, wording)
  {
    if request != null {
      match outcome {
        case Untouched =>
        case Refused(reason) =>
          request.fields := request.fields[RagApplied := Decoded(Bool(false))];
          request.fields := request.fields[RagReason := Decoded(Str(ReasonText(reason)))];
        case Applied(context, used) =>
          var originalPrompt := TextOf(request.fields, Prompt);
          var messages := ContextAndPrompt(context, originalPrompt, wording);
          request.fields := request.fields[Messages := MessageList(messages)];
          request.fields := request.fields - {Prompt};
          request.fields := request.fields[RagEventCount := Count(|used|)];
          request.fields := request.fields[RagApplied := Decoded(Bool(true))];
      }
    }
  }
}
