/**
 * Events and the JSON document under which the graph store keeps them. Models the
 * document built by `StoreEvent` and the reconstruction shared by `GetEventByID`
 * and `BatchGetEvents` (internal/storage/sqlite/provider_pure.go).
 */
module EventCodec {
  import opened Wrappers

  /** A JSON value tree. `Instant` stands for an RFC 3339 string without a fraction. */
  datatype Json =
    | Null
    | Bool(b: bool)
    | Number(n: real)
    | Str(s: string)
    | Instant(seconds: int)
    | List(items: seq<Json>)
    | Obj(fields: map<string, Json>)

  /** The names of a document's top-level fields. */
  datatype Field =
    | Id | Type | Source | SpecVersion | Subject | Time | TraceId | CorrelationId
    | UserId | SessionId | Data | Attributes

  type Document = map<Field, Json>

  datatype Timestamp = Timestamp(seconds: int, nanos: nat)

  /** The Any payload: a readable structpb.Value, or some other (or unreadable) message. */
  datatype Payload = ValuePayload(value: Json) | OpaquePayload(typeUrl: string)

  datatype Event = Event(
    id: string, typ: string, source: string, specversion: string,
    subject: string, time: Option<Timestamp>, traceId: string, correlationId: string,
    userId: string, sessionId: string, data: Option<Payload>,
    dataContentType: string, dataSchema: string, attributes: map<string, string>)

  function Lookup(doc: Document, f: Field): (v: Option<Json>) {
    if f in doc then Some(doc[f]) else None
  }

  /** Writes a field when it has a value. */
  function Put(doc: Document, f: Field, v: Option<Json>): (r: Document)
    ensures forall g :: Lookup(r, g) == if g == f && v.Some? then v else Lookup(doc, g)
  {
    if v.Some? then doc[f := v.value] else doc
  }

  /** An optional text field is written only when it is not empty. */
  function OptionalText(value: string): (v: Option<Json>) {
    if value != "" then Some(Str(value)) else None
  }

  function TimeValue(time: Option<Timestamp>): (v: Option<Json>) {
    if time.Some? then Some(Instant(time.value.seconds)) else None
  }

  function DataValue(data: Option<Payload>): (v: Option<Json>) {
    match data
    case None => None
    case Some(ValuePayload(value)) => Some(value)
    case Some(OpaquePayload(typeUrl)) => Some(Obj(map["_type" := Str(typeUrl)]))
  }

  /** The document written for an event. */
  function ToDocument(e: Event): (doc: Document) {
    var required := map[Id := Str(e.id), Type := Str(e.typ), Source := Str(e.source),
        SpecVersion := Str(e.specversion)];
    var d1 := Put(required, Subject, OptionalText(e.subject));
    var d2 := Put(d1, Time, TimeValue(e.time));
    var d3 := Put(d2, TraceId, OptionalText(e.traceId));
    var d4 := Put(d3, CorrelationId, OptionalText(e.correlationId));
    var d5 := Put(d4, UserId, OptionalText(e.userId));
    var d6 := Put(d5, SessionId, OptionalText(e.sessionId));
    Put(d6, Data, DataValue(e.data))
  }

  /** A field read with a checked cast to string; anything else leaves the default "". */
  function GetText(doc: Document, name: Field): (s: string) {
    match Lookup(doc, name)
    case Some(Str(s)) => s
    case _ => ""
  }

  /** The event rebuilt from a document. */
  function FromDocument(doc: Document): (e: Event) {
    Event(
      GetText(doc, Id), GetText(doc, Type), GetText(doc, Source), GetText(doc, SpecVersion),
      GetText(doc, Subject),
      match Lookup(doc, Time) { case Some(Instant(seconds)) => Some(Timestamp(seconds, 0)) case _ => None },
      GetText(doc, TraceId), GetText(doc, CorrelationId),
      GetText(doc, UserId), GetText(doc, SessionId),
      match Lookup(doc, Data) { case Some(value) => Some(ValuePayload(value)) case None => None },
      "", "", map[])
  }

  /** What survives storage: whole seconds, a readable payload, and no unsaved fields. */
  function Persisted(e: Event): (p: Event) {
    e.(time := if e.time.Some? then Some(Timestamp(e.time.value.seconds, 0)) else None,
       data := match e.data
               case Some(OpaquePayload(typeUrl)) => Some(ValuePayload(Obj(map["_type" := Str(typeUrl)])))
               case _ => e.data,
       dataContentType := "", dataSchema := "", attributes := map[])
  }

  /** No part of the event is lost by storing it. */
  predicate FullyPersistable(e: Event) {
    && (e.time.Some? ==> e.time.value.nanos == 0)
    && (e.data.Some? ==> e.data.value.ValuePayload?)
    && e.dataContentType == "" && e.dataSchema == "" && e.attributes == map[]
  }

  /** The value an event contributes under each field name. */
  function Written(e: Event, f: Field): (v: Option<Json>) {
    match f
    case Id => Some(Str(e.id))
    case Type => Some(Str(e.typ))
    case Source => Some(Str(e.source))
    case SpecVersion => Some(Str(e.specversion))
    case Subject => OptionalText(e.subject)
    case Time => TimeValue(e.time)
    case TraceId => OptionalText(e.traceId)
    case CorrelationId => OptionalText(e.correlationId)
    case UserId => OptionalText(e.userId)
    case SessionId => OptionalText(e.sessionId)
    case Data => DataValue(e.data)
    case Attributes => None
  }

  /** What a stored document holds under every field name; the attributes are never written. */
  lemma DocumentFields(e: Event, f: Field)
    ensures Lookup(ToDocument(e), f) == Written(e, f)
  {
    var required := map[Id := Str(e.id), Type := Str(e.typ), Source := Str(e.source),
        SpecVersion := Str(e.specversion)];
    assert Lookup(required, f) ==
           match f
           case Id => Some(Str(e.id))
           case Type => Some(Str(e.typ))
           case Source => Some(Str(e.source))
           case SpecVersion => Some(Str(e.specversion))
           case _ => None;
  }

  lemma ReadBack(doc: Document, e: Event)
    requires forall f :: Lookup(doc, f) == Written(e, f)
    ensures FromDocument(doc) == Persisted(e)
  {
  }

  /** Reading back a stored event yields exactly its persisted part. */
  lemma RoundTrip(e: Event)
    ensures FromDocument(ToDocument(e)) == Persisted(e)
  {
    forall f ensures Lookup(ToDocument(e), f) == Written(e, f) {
      DocumentFields(e, f);
    }
    ReadBack(ToDocument(e), e);
  }

  /** Storage is lossless exactly for the fully persistable events. */
  lemma LosslessExactly(e: Event)
    ensures FromDocument(ToDocument(e)) == e <==> FullyPersistable(e)
  {
    RoundTrip(e);
  }

  /** Storing again what was read back writes the same document. */
  lemma DocumentRoundTrip(e: Event)
    ensures ToDocument(FromDocument(ToDocument(e))) == ToDocument(e)
  {
    RoundTrip(e);
  }
}
