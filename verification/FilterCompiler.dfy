/**
 * The compiler from a query filter to SQL conditions with positional arguments
 * (`findFilteredEventIDs` of internal/storage/sqlite/provider_pure.go), against the
 * filter's meaning on a stored document.
 */
module FilterCompiler {
  import opened Wrappers
  import opened Sequences
  import opened EventCodec

  /** A nil pointer or an empty collection means that the clause is absent. */
  datatype Filter = Filter(
    userId: Option<string>, sessionId: Option<string>, eventTypes: seq<string>,
    timeFrom: Option<Timestamp>, timeTo: Option<Timestamp>, attributes: map<string, string>)

  const NO_FILTER := Filter(None, None, [], None, None, map[])

  /** What a JSON path selects: a top-level field, or one entry of the attributes object. */
  datatype Path = FieldPath(field: Field) | AttributePath(key: string)

  /** One WHERE condition; every "?" in its text is a hole for a positional argument. */
  datatype Condition =
    | JsonEquals(path: Path)
    | JsonIn(path: Path, holes: nat)
    | TimeAtLeast
    | TimeAtMost

  datatype Argument = Text(s: string) | Moment(seconds: int)

  /** SQL truth values: a comparison with NULL is unknown. */
  datatype Truth = True | False | Unknown

  function And(a: Truth, b: Truth): Truth {
    if a == False || b == False then False
    else if a == Unknown || b == Unknown then Unknown
    else True
  }

  function Extract(doc: Document, path: Path): (v: Option<Json>) {
    match path
    case FieldPath(f) => Lookup(doc, f)
    case AttributePath(key) =>
      match Lookup(doc, Attributes)
      case Some(Obj(fields)) => if key in fields then Some(fields[key]) else None
      case _ => None
  }

  function SqlEquals(v: Option<Json>, arg: Argument): Truth {
    match v
    case None => Unknown
    case Some(Null) => Unknown
    case Some(Str(s)) => if arg == Text(s) then True else False
    case Some(_) => False
  }

  function SqlIn(v: Option<Json>, args: seq<Argument>): Truth {
    if v.None? || v.value.Null? then Unknown
    else if exists i :: 0 <= i < |args| && SqlEquals(v, args[i]) == True then True
    else False
  }

  /** datetime() of anything but a time string is NULL. */
  function SqlCompareTime(v: Option<Json>, arg: Argument, atLeast: bool): Truth {
    match v
    case Some(Instant(seconds)) =>
      if !arg.Moment? then Unknown
      else if (if atLeast then seconds >= arg.seconds else seconds <= arg.seconds) then True
      else False
    case _ => Unknown
  }

  function Holes(c: Condition): nat {
    match c
    case JsonIn(_, holes) => holes
    case _ => 1
  }

  function TotalHoles(conditions: seq<Condition>): nat {
    if conditions == [] then 0 else Holes(conditions[0]) + TotalHoles(conditions[1..])
  }

  /** A condition with exactly its own arguments. */
  function Eval(c: Condition, args: seq<Argument>, doc: Document): Truth
    requires |args| == Holes(c)
  {
    match c
    case JsonEquals(path) => SqlEquals(Extract(doc, path), args[0])
    case JsonIn(path, _) => SqlIn(Extract(doc, path), args)
    case TimeAtLeast => SqlCompareTime(Lookup(doc, Time), args[0], true)
    case TimeAtMost => SqlCompareTime(Lookup(doc, Time), args[0], false)
  }

  /** The conjunction; the n-th "?" of the whole text takes the n-th argument. */
  function EvalAll(conditions: seq<Condition>, args: seq<Argument>, doc: Document): Truth
    requires |args| == TotalHoles(conditions)
  {
    if conditions == [] then True
    else
      var n := Holes(conditions[0]);
      And(Eval(conditions[0], args[..n], doc), EvalAll(conditions[1..], args[n..], doc))
  }

  lemma EvalCons(c: Condition, own: seq<Argument>, cs: seq<Condition>, args: seq<Argument>, doc: Document)
    requires |own| == Holes(c) && |args| == TotalHoles(cs)
    ensures TotalHoles([c] + cs) == |own + args|
    ensures EvalAll([c] + cs, own + args, doc) == And(Eval(c, own, doc), EvalAll(cs, args, doc))
  {
    assert ([c] + cs)[1..] == cs;
    assert (own + args)[..|own|] == own && (own + args)[|own|..] == args;
  }

  lemma EvalOne(c: Condition, own: seq<Argument>, doc: Document)
    requires |own| == Holes(c)
    ensures TotalHoles([c]) == |own| && EvalAll([c], own, doc) == Eval(c, own, doc)
  {
    EvalCons(c, own, [], [], doc);
    EmptyConcat([c]);
    EmptyConcat(own);
  }

  /** Appending a condition with its arguments conjoins its truth value. */
  lemma {:induction false} EvalAppend(cs: seq<Condition>, args: seq<Argument>, c: Condition, more: seq<Argument>,
      doc: Document)
    requires |args| == TotalHoles(cs) && |more| == Holes(c)
    ensures TotalHoles(cs + [c]) == |args + more|
    ensures EvalAll(cs + [c], args + more, doc) == And(EvalAll(cs, args, doc), Eval(c, more, doc))
  {
    if |cs| == 0 {
      EvalOne(c, more, doc);
      EmptyConcat([c]);
      EmptyConcat(more);
    } else {
      var n := Holes(cs[0]);
      var first, own, rest, others := cs[0], args[..n], cs[1..], args[n..];
      EvalAppend(rest, others, c, more, doc);
      HeadConcat(cs, [c]);
      CutConcat(args, n, more);
      EvalCons(first, own, rest + [c], others + more, doc);
    }
  }

  /** The document's time is known and satisfies the bound (times are stored in whole seconds). */
  predicate TimeWithin(doc: Document, from: Option<Timestamp>, to: Option<Timestamp>) {
    && (from.Some? ==> Lookup(doc, Time).Some? && doc[Time].Instant? && doc[Time].seconds >= from.value.seconds)
    && (to.Some? ==> Lookup(doc, Time).Some? && doc[Time].Instant? && doc[Time].seconds <= to.value.seconds)
  }

  /** The meaning of a filter: every clause that is present holds of the stored document. */
  predicate Matches(filter: Filter, doc: Document) {
    && (filter.userId.Some? ==> Lookup(doc, UserId) == Some(Str(filter.userId.value)))
    && (filter.sessionId.Some? ==> Lookup(doc, SessionId) == Some(Str(filter.sessionId.value)))
    && (filter.eventTypes != [] ==>
          exists i :: 0 <= i < |filter.eventTypes| && Lookup(doc, Type) == Some(Str(filter.eventTypes[i])))
    && TimeWithin(doc, filter.timeFrom, filter.timeTo)
    && (forall key <- filter.attributes ::
          Extract(doc, AttributePath(key)) == Some(Str(filter.attributes[key])))
  }

  /** On a document with attributes an attribute clause compares the text under its key. */
  lemma AttributesAreCompared(fields: map<string, Json>, attributes: map<string, string>)
    ensures Matches(NO_FILTER.(attributes := attributes), map[Attributes := Obj(fields)])
            <==> forall key <- attributes :: key in fields && fields[key] == Str(attributes[key])
  {
    var doc: Document := map[Attributes := Obj(fields)];
    assert forall key <- attributes ::
        Extract(doc, AttributePath(key)) == if key in fields then Some(fields[key]) else None;
  }

  /** The compiled query selects a row exactly when its conjunction is true. */
  ghost predicate Selects(conditions: seq<Condition>, args: seq<Argument>, doc: Document)
    requires |args| == TotalHoles(conditions)
  {
    EvalAll(conditions, args, doc) == True
  }

  /** Shape of the loop states below: the text built so far means `filter`. */
  ghost predicate Compiles(conditions: seq<Condition>, args: seq<Argument>, filter: Filter) {
    && |args| == TotalHoles(conditions)
    && forall doc :: Selects(conditions, args, doc) <==> Matches(filter, doc)
  }

  /** Adding one condition to compiled text compiles the filter with that clause added. */
  lemma CompilesStep(cs: seq<Condition>, args: seq<Argument>, before: Filter, c: Condition, more: seq<Argument>,
      after: Filter)
    requires Compiles(cs, args, before) && |more| == Holes(c)
    requires forall doc :: Matches(after, doc) <==> Matches(before, doc) && Eval(c, more, doc) == True
    ensures Compiles(cs + [c], args + more, after)
  {
    forall doc
      ensures |args + more| == TotalHoles(cs + [c])
      ensures Selects(cs + [c], args + more, doc) <==> Matches(after, doc)
    {
      EvalAppend(cs, args, c, more, doc);
      assert Matches(before, doc) <==> Selects(cs, args, doc);
    }
    EvalAppend(cs, args, c, more, map[]);
  }

  lemma AddUser(cs: seq<Condition>, args: seq<Argument>, done: Filter, user: string)
    requires Compiles(cs, args, done) && done.userId.None?
    ensures Compiles(cs + [JsonEquals(FieldPath(UserId))], args + [Text(user)], done.(userId := Some(user)))
  {
    CompilesStep(cs, args, done, JsonEquals(FieldPath(UserId)), [Text(user)], done.(userId := Some(user)));
  }

  lemma AddSession(cs: seq<Condition>, args: seq<Argument>, done: Filter, session: string)
    requires Compiles(cs, args, done) && done.sessionId.None?
    ensures Compiles(cs + [JsonEquals(FieldPath(SessionId))], args + [Text(session)], done.(sessionId := Some(session)))
  {
    CompilesStep(cs, args, done, JsonEquals(FieldPath(SessionId)), [Text(session)], done.(sessionId := Some(session)));
  }

  /** An IN list of texts holds of a value that equals one of them. */
  lemma InListMeaning(v: Option<Json>, args: seq<Argument>, texts: seq<string>)
    requires |args| == |texts| && forall i :: 0 <= i < |args| ==> args[i] == Text(texts[i])
    ensures SqlIn(v, args) == True <==> exists i :: 0 <= i < |texts| && v == Some(Str(texts[i]))
  {
    if i :| 0 <= i < |texts| && v == Some(Str(texts[i])) {
      assert SqlEquals(v, args[i]) == True;
    }
  }

  lemma AddTypes(cs: seq<Condition>, args: seq<Argument>, done: Filter, types: seq<string>, more: seq<Argument>)
    requires Compiles(cs, args, done) && done.eventTypes == [] && types != []
    requires |more| == |types| && forall i :: 0 <= i < |more| ==> more[i] == Text(types[i])
    ensures Compiles(cs + [JsonIn(FieldPath(Type), |types|)], args + more, done.(eventTypes := types))
  {
    forall doc
      ensures Matches(done.(eventTypes := types), doc) <==> Matches(done, doc) && SqlIn(Lookup(doc, Type), more) == True
    {
      InListMeaning(Lookup(doc, Type), more, types);
    }
    CompilesStep(cs, args, done, JsonIn(FieldPath(Type), |types|), more, done.(eventTypes := types));
  }

  lemma AddTimeFrom(cs: seq<Condition>, args: seq<Argument>, done: Filter, t: Timestamp)
    requires Compiles(cs, args, done) && done.timeFrom.None?
    ensures Compiles(cs + [TimeAtLeast], args + [Moment(t.seconds)], done.(timeFrom := Some(t)))
  {
    CompilesStep(cs, args, done, TimeAtLeast, [Moment(t.seconds)], done.(timeFrom := Some(t)));
  }

  lemma AddTimeTo(cs: seq<Condition>, args: seq<Argument>, done: Filter, t: Timestamp)
    requires Compiles(cs, args, done) && done.timeTo.None?
    ensures Compiles(cs + [TimeAtMost], args + [Moment(t.seconds)], done.(timeTo := Some(t)))
  {
    CompilesStep(cs, args, done, TimeAtMost, [Moment(t.seconds)], done.(timeTo := Some(t)));
  }

  lemma AddAttribute(cs: seq<Condition>, args: seq<Argument>, done: Filter, key: string, value: string)
    requires Compiles(cs, args, done) && key !in done.attributes
    ensures Compiles(cs + [JsonEquals(AttributePath(key))], args + [Text(value)],
                     done.(attributes := done.attributes[key := value]))
  {
    var after := done.(attributes := done.attributes[key := value]);
    forall doc
      ensures Matches(after, doc)
              <==> Matches(done, doc) && SqlEquals(Extract(doc, AttributePath(key)), Text(value)) == True
    {
      assert after.attributes[key] == value;
      assert forall k <- done.attributes :: k in after.attributes && after.attributes[k] == done.attributes[k];
    }
    CompilesStep(cs, args, done, JsonEquals(AttributePath(key)), [Text(value)], after);
  }

  /**
   * Compiles a filter. The conditions and the arguments are appended clause by clause;
   * attribute clauses come in whatever order the map iteration yields.
   */
  method CompileFilter(filter: Filter) returns (conditions: seq<Condition>, args: seq<Argument>)
    ensures |args| == TotalHoles(conditions)
    ensures forall doc :: EvalAll(conditions, args, doc) == True <==> Matches(filter, doc)
  {
    conditions, args := CompileFields(filter);
    ghost var done := filter.(attributes := map[]);
    var pending := filter.attributes.Keys;
    while pending != {}
      invariant pending <= filter.attributes.Keys
      invariant done == filter.(
                  attributes := map key | key in filter.attributes.Keys - pending :: filter.attributes[key])
      invariant Compiles(conditions, args, done)
      decreases |pending|
    {
      var key :| key in pending;
      AddAttribute(conditions, args, done, key, filter.attributes[key]);
      conditions, args := conditions + [JsonEquals(AttributePath(key))], args + [Text(filter.attributes[key])];
      done := done.(attributes := done.attributes[key := filter.attributes[key]]);
      pending := pending - {key};
    }
    assert done == filter;
    assert forall doc :: Selects(conditions, args, doc) <==> Matches(filter, doc);
  }

  /** The clauses on fixed fields, in the order in which they are appended. */
  method CompileFields(filter: Filter) returns (conditions: seq<Condition>, args: seq<Argument>)
    ensures Compiles(conditions, args, filter.(attributes := map[]))
  {
    conditions, args := [], [];
    ghost var done := NO_FILTER;
    if filter.userId.Some? {
      AddUser(conditions, args, done, filter.userId.value);
      conditions, args := conditions + [JsonEquals(FieldPath(UserId))], args + [Text(filter.userId.value)];
      done := done.(userId := filter.userId);
    }
    if filter.sessionId.Some? {
      AddSession(conditions, args, done, filter.sessionId.value);
      conditions, args := conditions + [JsonEquals(FieldPath(SessionId))], args + [Text(filter.sessionId.value)];
      done := done.(sessionId := filter.sessionId);
    }
    if |filter.eventTypes| > 0 {
      ghost var before := args;
      ghost var more: seq<Argument> := [];
      for i := 0 to |filter.eventTypes|
        invariant |more| == i && args == before + more
        invariant forall j :: 0 <= j < i ==> more[j] == Text(filter.eventTypes[j])
      {
        args := args + [Text(filter.eventTypes[i])];
        more := more + [Text(filter.eventTypes[i])];
      }
      AddTypes(conditions, before, done, filter.eventTypes, more);
      conditions := conditions + [JsonIn(FieldPath(Type), |filter.eventTypes|)];
      done := done.(eventTypes := filter.eventTypes);
    }
    if filter.timeFrom.Some? {
      AddTimeFrom(conditions, args, done, filter.timeFrom.value);
      conditions, args := conditions + [TimeAtLeast], args + [Moment(filter.timeFrom.value.seconds)];
      done := done.(timeFrom := filter.timeFrom);
    }
    if filter.timeTo.Some? {
      AddTimeTo(conditions, args, done, filter.timeTo.value);
      conditions, args := conditions + [TimeAtMost], args + [Moment(filter.timeTo.value.seconds)];
      done := done.(timeTo := filter.timeTo);
    }
  }

  /** Attributes are never stored, so a filter on attributes matches no stored event. */
  lemma AttributeFiltersMatchNothing(filter: Filter, e: Event)
    requires filter.attributes != map[]
    ensures !Matches(filter, ToDocument(e))
  {
    var key :| key in filter.attributes;
    DocumentFields(e, Attributes);
    assert Extract(ToDocument(e), AttributePath(key)) == None;
  }

  /** On a stored event a user clause compares the event's own user id. */
  lemma UserClauseReadsUserId(filter: Filter, e: Event)
    requires filter.userId.Some? && filter.userId.value != ""
    requires Matches(filter, ToDocument(e))
    ensures FromDocument(ToDocument(e)).userId == e.userId == filter.userId.value
  {
    DocumentFields(e, UserId);
    RoundTrip(e);
  }

  lemma UserOnlyMeaning(user: string, doc: Document)
    ensures Matches(NO_FILTER.(userId := Some(user)), doc) <==> Lookup(doc, UserId) == Some(Str(user))
  {
  }
}
