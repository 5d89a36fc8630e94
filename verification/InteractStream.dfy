/**
 * The bidirectional stream of internal/bus/server_interactstream.go: a handshake, then three
 * goroutines (receiver, provider, forwarding loop) over two bounded data channels, one error
 * channel and a cancellable context. Channels are Go channels: a closed one delivers what is
 * still buffered before it reports closed, sending on or closing a closed one panics, and a
 * select with several ready cases may take any of them.
 */
module InteractStream {
  import opened Wrappers
  import opened Sequences

  type Chunk = string

  const DATA_CAPACITY := 10
  const ERROR_CAPACITY := 2

  datatype Request =
    | Config(eventType: string)
    | Data(content: Option<Chunk>)
    | ClientEnd
    | Unset

  datatype Response = Ready | Output(content: Chunk) | ServerEnd | StreamError

  datatype Code = OK | InvalidArgument | NotFound | FailedPrecondition | Internal | Canceled

  // ------------------------------------------------------------------ handshake

  /** What the first receive yields. */
  datatype First = Received(request: Request) | Eof | Broken

  /**
   * Accepts or refuses a stream. `route` is the policy (no provider is ""), and `streaming`
   * says of every known provider whether it can stream.
   */
  method Handshake(first: First, route: string -> string, streaming: map<string, bool>, sendOk: bool)
    returns (code: Code, sent: seq<Response>)
    ensures sent == if code == OK then [Ready] else []
    ensures code == OK <==>
              && sendOk && first.Received? && first.request.Config? && first.request.eventType != ""
              && var name := route(first.request.eventType);
                 name != "" && name in streaming && streaming[name]
    ensures code == NotFound <==>
              first.Received? && first.request.Config? && first.request.eventType != ""
                  && route(first.request.eventType) == ""
    ensures code == InvalidArgument <==>
              first.Eof? || (first.Received? && (first.request.Config? ==> first.request.eventType == ""))
    ensures code == FailedPrecondition <==>
              && first.Received? && first.request.Config? && first.request.eventType != ""
              && var name := route(first.request.eventType);
                 name != "" && name in streaming && !streaming[name]
    ensures code != Canceled
  {
    sent := [];
    if first.Eof? {
      return InvalidArgument, sent;
    }
    if first.Broken? {
      return Internal, sent;
    }
    if !first.request.Config? || first.request.eventType == "" {
      return InvalidArgument, sent;
    }
    var name := route(first.request.eventType);
    if name == "" {
      return NotFound, sent;
    }
    if name !in streaming {
      return Internal, sent;
    }
    if !streaming[name] {
      return FailedPrecondition, sent;
    }
    if !sendOk {
      return Internal, sent;
    }
    return OK, [Ready];
  }

  // ------------------------------------------------------------------ the three goroutines

  /** Why the receiver stopped: the input was over, a bad message, a broken stream, or cancellation. */
  datatype Why = Finished | Invalid | Failure | Abandoned

  datatype Receiver =
    | Reading
    | Offering(chunk: Chunk)
    | Reporting(why: Why)
    | Returning(why: Why)
    | Closed(why: Why)

  /** `failed` says whether the provider returned an error. */
  datatype Provider = Executing | ProviderReporting | ProviderReturning(failed: bool) | ProviderClosed(failed: bool)

  datatype Main = Forwarding | Ended(code: Code)

  datatype Stream = Stream(
    // what the client sends after the configuration, and how much of it was received
    input: seq<Request>, pos: nat,
    cancelled: bool,
    clientBuf: seq<Chunk>, clientClosed: bool,
    serverBuf: seq<Chunk>, serverClosed: bool,
    errors: nat,
    receiver: Receiver, provider: Provider, main: Main,
    sent: seq<Response>,
    // history: what the provider has read and written so far
    taken: seq<Chunk>, produced: seq<Chunk>,
    // history: how many errors were unread when ServerEnd was sent
    endedOver: Option<nat>,
    panicked: bool)

  function Opened(input: seq<Request>): (s: Stream) {
    Stream(input, 0, false, [], false, [], false, 0, Reading, Executing, Forwarding, [Ready], [], [], None, false)
  }

  datatype Action =
    | Cancel
    | ReceiverRecv
    | ReceiverBreak
    | ReceiverOffer
    | ReceiverAbandon
    | ReceiverReport
    | ReceiverClose
    | ProviderTake
    | ProviderProduce(chunk: Chunk)
    | ProviderReturn(failed: bool)
    | ProviderReport
    | ProviderClose
    | MainForward(sendOk: bool)
    | MainEnd(sendOk: bool)
    | MainError(sendOk: bool)
    | MainCancel

  /** The receiver's own steps. */
  function ReceiverStep(s: Stream, a: Action): (r: Stream)
    requires s.pos <= |s.input|
    ensures r.input == s.input && r.pos <= |r.input|
    ensures r.provider == s.provider && r.main == s.main && r.sent == s.sent && r.produced == s.produced
    ensures r.serverBuf == s.serverBuf && r.serverClosed == s.serverClosed && r.endedOver == s.endedOver
  {
    match a
    case ReceiverRecv =>
      if !s.receiver.Reading? then s
      else if s.pos == |s.input| then s.(receiver := Returning(Finished))
      else
        var next := s.(pos := s.pos + 1);
        (match s.input[s.pos]
         case Data(Some(chunk)) => next.(receiver := Offering(chunk))
         case Data(None) => next
         case ClientEnd => next.(receiver := Returning(Finished))
         case _ => next.(receiver := Reporting(Invalid)))
    case ReceiverBreak => if s.receiver.Reading? then s.(receiver := Reporting(Failure)) else s
    case ReceiverOffer =>
      if !s.receiver.Offering? then s
      else if s.clientClosed then s.(panicked := true)
      else if |s.clientBuf| >= DATA_CAPACITY then s
      else s.(clientBuf := s.clientBuf + [s.receiver.chunk], receiver := Reading)
    case ReceiverAbandon =>
      if s.receiver.Offering? && s.cancelled then s.(receiver := Returning(Abandoned)) else s
    case ReceiverReport =>
      if s.receiver.Reporting? && s.errors < ERROR_CAPACITY
      then s.(errors := s.errors + 1, receiver := Returning(s.receiver.why)) else s
    case ReceiverClose =>
      if !s.receiver.Returning? then s
      else if s.clientClosed then s.(panicked := true)
      else s.(clientClosed := true, receiver := Closed(s.receiver.why))
    case _ => s
  }

  /** The provider may read and write as it likes until it returns. */
  function ProviderStep(s: Stream, a: Action): (r: Stream)
    ensures r.input == s.input && r.pos == s.pos
    ensures r.receiver == s.receiver && r.main == s.main
  {
    match a
    case ProviderTake =>
      if s.provider.Executing? && s.clientBuf != []
      then s.(taken := s.taken + [s.clientBuf[0]], clientBuf := s.clientBuf[1..]) else s
    case ProviderProduce(chunk) =>
      if !s.provider.Executing? then s
      else if s.serverClosed then s.(panicked := true)
      else if |s.serverBuf| >= DATA_CAPACITY then s
      else s.(serverBuf := s.serverBuf + [chunk], produced := s.produced + [chunk])
    case ProviderReturn(failed) =>
      if s.provider.Executing? then s.(provider := if failed then ProviderReporting
          else ProviderReturning(false)) else s
    case ProviderReport =>
      if s.provider.ProviderReporting? && s.errors < ERROR_CAPACITY
      then s.(errors := s.errors + 1, provider := ProviderReturning(true)) else s
    case ProviderClose =>
      if !s.provider.ProviderReturning? then s
      else if s.serverClosed then s.(panicked := true)
      else s.(serverClosed := true, provider := ProviderClosed(s.provider.failed))
    case _ => s
  }

  /** One turn of the forwarding select. A response that cannot be sent ends the RPC. */
  function MainStep(s: Stream, a: Action): (r: Stream)
    ensures r.input == s.input && r.pos == s.pos
    ensures r.receiver == s.receiver && r.provider == s.provider
  {
    if !s.main.Forwarding? then s
    else match a
      case MainForward(sendOk) =>
        if s.serverBuf == [] then s
        else
          var rest := s.(serverBuf := s.serverBuf[1..]);
          if sendOk then rest.(sent := s.sent + [Output(s.serverBuf[0])]) else rest.(main := Ended(Internal))
      case MainEnd(sendOk) =>
        if s.serverBuf != [] || !s.serverClosed then s
        else if sendOk then s.(sent := s.sent + [ServerEnd], main := Ended(OK), endedOver := Some(s.errors))
        else s.(main := Ended(Internal))
      case MainError(sendOk) =>
        if s.errors == 0 then s
        else s.(errors := s.errors - 1, main := Ended(Internal),
                sent := if sendOk then s.sent + [StreamError] else s.sent)
      case MainCancel => if s.cancelled then s.(main := Ended(Canceled)) else s
      case _ => s
  }

  predicate OfReceiver(a: Action) {
    a.ReceiverRecv? || a.ReceiverBreak? || a.ReceiverOffer? || a.ReceiverAbandon? || a.ReceiverReport?
        || a.ReceiverClose?
  }

  predicate OfProvider(a: Action) {
    a.ProviderTake? || a.ProviderProduce? || a.ProviderReturn? || a.ProviderReport? || a.ProviderClose?
  }

  /** One step of one goroutine; a step that is not ready changes nothing. */
  function Next(s: Stream, a: Action): (r: Stream)
    requires s.pos <= |s.input|
    ensures r.input == s.input && r.pos <= |r.input|
    ensures !OfReceiver(a) ==> r.receiver == s.receiver
    ensures !OfProvider(a) ==> r.provider == s.provider
  {
    if a.Cancel? then s.(cancelled := true)
    else if OfReceiver(a) then ReceiverStep(s, a)
    else if OfProvider(a) then ProviderStep(s, a)
    else MainStep(s, a)
  }

  function Run(s: Stream, actions: seq<Action>): (r: Stream)
    requires s.pos <= |s.input|
    ensures r.input == s.input && r.pos <= |r.input|
    decreases |actions|
  {
    if actions == [] then s
    else Run(Next(s, actions[0]), actions[1..])
  }

  // ------------------------------------------------------------------ what every step keeps

  /** The client's non-nil data before its first end or invalid message. */
  function ValidData(input: seq<Request>): (chunks: seq<Chunk>) {
    ValidFrom(input, 0)
  }

  /** The same from a position on. */
  function ValidFrom(input: seq<Request>, pos: nat): (chunks: seq<Chunk>)
    decreases |input| - pos
  {
    if pos >= |input| || !input[pos].Data? then []
    else (if input[pos].content.Some? then [input[pos].content.value] else []) + ValidFrom(input, pos + 1)
  }

  function OutputOf(sent: seq<Response>): (chunks: seq<Chunk>) {
    if sent == [] then []
    else (if sent[0].Output? then [sent[0].content] else []) + OutputOf(sent[1..])
  }

  lemma {:induction false} OutputOfAppend(sent: seq<Response>, r: Response)
    ensures OutputOf(sent + [r]) == OutputOf(sent) + (if r.Output? then [r.content] else [])
  {
    if sent == [] {
      assert sent + [r] == [r];
    } else {
      OutputOfAppend(sent[1..], r);
      assert (sent + [r])[1..] == sent[1..] + [r];
    }
  }

  predicate Terminal(r: Response) {
    r.ServerEnd? || r.StreamError?
  }

  /** Ready first, then data, then at most one terminal message, and nothing after it. */
  predicate Grammar(sent: seq<Response>) {
    forall i :: 0 <= i < |sent| ==>
      && (i == 0 ==> sent[i] == Ready)
      && (0 < i < |sent| - 1 ==> sent[i].Output?)
      && (0 < i == |sent| - 1 ==> sent[i].Output? || Terminal(sent[i]))
  }

  /** What the receiver has passed on, holds, and has yet to receive. */
  predicate ReceiverInv(s: Stream)
    requires s.pos <= |s.input|
  {
    match s.receiver
    case Reading => ValidData(s.input) == s.taken + s.clientBuf + ValidFrom(s.input, s.pos)
    case Offering(chunk) => ValidData(s.input) == s.taken + s.clientBuf + [chunk] + ValidFrom(s.input, s.pos)
    case Reporting(why) => Delivered(s, why)
    case Returning(why) => Delivered(s, why)
    case Closed(why) => Delivered(s, why)
  }

  /** The provider gets a prefix of the valid data, all of it if the input ended by itself. */
  predicate Delivered(s: Stream, why: Why) {
    && s.taken + s.clientBuf <= ValidData(s.input)
    && (why == Finished || why == Invalid ==> s.taken + s.clientBuf == ValidData(s.input))
  }

  predicate MainInv(s: Stream) {
    && s.sent != [] && Grammar(s.sent)
    && OutputOf(s.sent) <= s.produced
    && (s.main.Forwarding? ==>
          && OutputOf(s.sent) + s.serverBuf == s.produced
          && forall r | r in s.sent :: !Terminal(r))
    && (ServerEnd in s.sent ==> OutputOf(s.sent) == s.produced && s.serverClosed && s.main == Ended(OK))
    && (s.endedOver.Some? <==> ServerEnd in s.sent)
  }

  predicate ReceiverPosted(s: Stream) {
    (s.receiver.Returning? || s.receiver.Closed?) && (s.receiver.why == Invalid || s.receiver.why == Failure)
  }

  predicate ProviderPosted(s: Stream) {
    (s.provider.ProviderReturning? || s.provider.ProviderClosed?) && s.provider.failed
  }

  /** The errors that the helpers have posted so far. */
  function Posted(s: Stream): (n: nat) {
    (if ReceiverPosted(s) then 1 else 0) + (if ProviderPosted(s) then 1 else 0)
  }

  /** Unless the loop ended on an error, every posted error is still unread. */
  predicate ErrorInv(s: Stream) {
    && (s.main.Forwarding? || s.main == Ended(OK) ==> s.errors == Posted(s))
    && (s.receiver.Reporting? ==> s.receiver.why == Invalid || s.receiver.why == Failure)
  }

  /** One for each helper that may still post an error. */
  function PendingPosts(s: Stream): nat {
    (if s.receiver.Reading? || s.receiver.Offering? || s.receiver.Reporting? then 1 else 0)
    + (if s.provider.Executing? || s.provider.ProviderReporting? then 1 else 0)
  }

  predicate ChannelInv(s: Stream) {
    && !s.panicked
    && (s.clientClosed <==> s.receiver.Closed?)
    && (s.serverClosed <==> s.provider.ProviderClosed?)
    && |s.clientBuf| <= DATA_CAPACITY && |s.serverBuf| <= DATA_CAPACITY
    && s.errors + PendingPosts(s) <= ERROR_CAPACITY
  }

  predicate Inv(s: Stream) {
    && s.pos <= |s.input|
    && ChannelInv(s) && ReceiverInv(s) && MainInv(s) && ErrorInv(s)
  }

  lemma OpenedInv(input: seq<Request>)
    ensures Inv(Opened(input))
  {
    assert input[0..] == input;
    assert OutputOf([Ready]) == [];
  }

  /** Receiving one request moves its data from the input to the receiver's hand. */
  lemma RecvKeepsReceiverInv(s: Stream)
    requires s.pos <= |s.input| && ReceiverInv(s)
    ensures ReceiverInv(ReceiverStep(s, ReceiverRecv))
  {
    if s.receiver.Reading? {
      var held := s.taken + s.clientBuf;
      EmptyConcat(held);
      if s.pos < |s.input| && s.input[s.pos].Data? {
        var rest := ValidFrom(s.input, s.pos + 1);
        EmptyConcat(rest);
        if s.input[s.pos].content.Some? {
          ConcatAssociative(held, [s.input[s.pos].content.value], rest);
        }
      }
    }
  }

  /** At any moment what was passed on is a prefix of the valid data. */
  lemma PassedOnIsPrefix(s: Stream)
    requires Inv(s)
    ensures s.taken + s.clientBuf <= ValidData(s.input)
  {
  }

  lemma StepKeepsReceiverInv(s: Stream, a: Action)
    requires Inv(s) && OfReceiver(a)
    ensures ReceiverInv(ReceiverStep(s, a))
  {
    PassedOnIsPrefix(s);
    match a
    case ReceiverRecv => RecvKeepsReceiverInv(s);
    case ReceiverOffer =>
      if s.receiver.Offering? {
        assert s.taken + s.clientBuf + [s.receiver.chunk] == s.taken + (s.clientBuf + [s.receiver.chunk]);
      }
    case ReceiverBreak =>
    case ReceiverAbandon =>
    case ReceiverReport =>
    case ReceiverClose =>
  }

  lemma StepKeepsChannelInv(s: Stream, a: Action)
    requires Inv(s) && OfReceiver(a)
    ensures ChannelInv(ReceiverStep(s, a))
  {
    match a
    case ReceiverRecv =>
    case ReceiverOffer =>
    case ReceiverBreak =>
    case ReceiverAbandon =>
    case ReceiverReport =>
    case ReceiverClose =>
  }

  lemma StepKeepsErrorInv(s: Stream, a: Action)
    requires Inv(s) && OfReceiver(a)
    ensures ErrorInv(ReceiverStep(s, a))
  {
  }

  lemma ReceiverStepKeepsInv(s: Stream, a: Action)
    requires Inv(s) && OfReceiver(a)
    ensures Inv(ReceiverStep(s, a))
  {
    StepKeepsReceiverInv(s, a);
    StepKeepsChannelInv(s, a);
    StepKeepsErrorInv(s, a);
  }

  lemma ProviderStepKeepsInv(s: Stream, a: Action)
    requires Inv(s) && OfProvider(a)
    ensures Inv(ProviderStep(s, a))
  {
    if a.ProviderTake? {
      TakeKeepsReceiverInv(s);
    } else if a.ProviderProduce? {
      ProduceKeepsMainInv(s, a.chunk);
    }
  }

  lemma TakeKeepsReceiverInv(s: Stream)
    requires s.pos <= |s.input| && ReceiverInv(s)
    ensures ReceiverInv(ProviderStep(s, ProviderTake))
  {
    if s.clientBuf != [] {
      assert s.taken + s.clientBuf == s.taken + [s.clientBuf[0]] + s.clientBuf[1..];
    }
  }

  lemma ProduceKeepsMainInv(s: Stream, chunk: Chunk)
    requires MainInv(s) && (s.provider.Executing? ==> !s.serverClosed)
    ensures MainInv(ProviderStep(s, ProviderProduce(chunk)))
  {
    ConcatAssociative(OutputOf(s.sent), s.serverBuf, [chunk]);
  }

  lemma MainStepKeepsInv(s: Stream, a: Action)
    requires Inv(s)
    ensures Inv(MainStep(s, a))
  {
    if s.main.Forwarding? {
      match a
      case MainForward(sendOk) => ForwardKeepsInv(s, sendOk);
      case MainEnd(sendOk) => OutputOfAppend(s.sent, ServerEnd);
      case MainError(sendOk) => OutputOfAppend(s.sent, StreamError);
      case _ =>
    }
  }

  lemma ForwardKeepsInv(s: Stream, sendOk: bool)
    requires Inv(s) && s.main.Forwarding?
    ensures Inv(MainStep(s, MainForward(sendOk)))
  {
    if s.serverBuf != [] {
      OutputOfAppend(s.sent, Output(s.serverBuf[0]));
      assert s.serverBuf == [s.serverBuf[0]] + s.serverBuf[1..];
      assert OutputOf(s.sent) + s.serverBuf == OutputOf(s.sent) + [s.serverBuf[0]] + s.serverBuf[1..];
    }
  }

  /** Every step of every interleaving keeps the invariant. */
  lemma NextKeepsInv(s: Stream, a: Action)
    requires Inv(s)
    ensures Inv(Next(s, a))
  {
    if OfReceiver(a) {
      ReceiverStepKeepsInv(s, a);
    } else if OfProvider(a) {
      ProviderStepKeepsInv(s, a);
    } else if !a.Cancel? {
      MainStepKeepsInv(s, a);
    }
  }

  lemma {:induction false} RunKeepsInv(s: Stream, actions: seq<Action>)
    requires Inv(s)
    ensures Inv(Run(s, actions))
    decreases |actions|
  {
    if actions != [] {
      NextKeepsInv(s, actions[0]);
      RunKeepsInv(Next(s, actions[0]), actions[1..]);
    }
  }

  // ------------------------------------------------------------------ the results

  /** In every run the responses follow the stream grammar. */
  lemma ResponsesFollowGrammar(input: seq<Request>, actions: seq<Action>)
    ensures Grammar(Run(Opened(input), actions).sent)
  {
    OpenedInv(input);
    RunKeepsInv(Opened(input), actions);
  }

  /** The client gets a prefix of the provider's output, and all of it once ServerEnd is sent. */
  lemma OutputIsDeliveredInOrder(input: seq<Request>, actions: seq<Action>)
    ensures var s := Run(Opened(input), actions);
            && OutputOf(s.sent) <= s.produced
            && (ServerEnd in s.sent ==> OutputOf(s.sent) == s.produced)
  {
    OpenedInv(input);
    RunKeepsInv(Opened(input), actions);
  }

  /**
   * The provider reads a prefix of the client's valid data; once the receiver has closed the
   * channel because the input ended by itself, what was read and what is buffered is all of it.
   */
  lemma InputIsDeliveredInOrder(input: seq<Request>, actions: seq<Action>)
    ensures var s := Run(Opened(input), actions);
            && s.taken <= ValidData(input)
            && ((s.receiver == Closed(Finished) || s.receiver == Closed(Invalid)) ==>
                  s.taken + s.clientBuf == ValidData(input))
  {
    OpenedInv(input);
    RunKeepsInv(Opened(input), actions);
    var s := Run(Opened(input), actions);
    assert s.taken <= s.taken + s.clientBuf;
  }

  /** No goroutine ever sends on or closes a closed channel, and each is closed by its helper alone. */
  lemma ChannelsAreUsedSafely(input: seq<Request>, actions: seq<Action>)
    ensures var s := Run(Opened(input), actions);
            !s.panicked && (s.clientClosed <==> s.receiver.Closed?) && (s.serverClosed <==> s.provider.ProviderClosed?)
  {
    OpenedInv(input);
    RunKeepsInv(Opened(input), actions);
  }

  lemma {:induction false} OthersKeepReceiver(s: Stream, others: seq<Action>)
    requires Inv(s) && forall a | a in others :: !OfReceiver(a)
    ensures Run(s, others).receiver == s.receiver
    decreases |others|
  {
    if others != [] {
      NextKeepsInv(s, others[0]);
      assert others[0] in others;
      OthersKeepReceiver(Next(s, others[0]), others[1..]);
    }
  }

  lemma {:induction false} OthersKeepProvider(s: Stream, others: seq<Action>)
    requires Inv(s) && forall a | a in others :: !OfProvider(a)
    ensures Run(s, others).provider == s.provider
    decreases |others|
  {
    if others != [] {
      NextKeepsInv(s, others[0]);
      assert others[0] in others;
      OthersKeepProvider(Next(s, others[0]), others[1..]);
    }
  }

  /**
   * Posting an error never blocks: whatever the others do before and between, the receiver's
   * next two steps post it and close the channel.
   */
  lemma ReceiverReportNeverBlocks(s: Stream, before: seq<Action>, between: seq<Action>)
    requires Inv(s) && s.receiver.Reporting?
    requires forall a | a in before :: !OfReceiver(a)
    requires forall a | a in between :: !OfReceiver(a)
    ensures Run(s, before).pos <= |Run(s, before).input|
    ensures var reported := Next(Run(s, before), ReceiverReport);
            Next(Run(reported, between), ReceiverClose).clientClosed
  {
    RunKeepsInv(s, before);
    OthersKeepReceiver(s, before);
    var reported := Next(Run(s, before), ReceiverReport);
    NextKeepsInv(Run(s, before), ReceiverReport);
    OthersKeepReceiver(reported, between);
  }

  /** The same for a provider that failed. */
  lemma ProviderReportNeverBlocks(s: Stream, before: seq<Action>, between: seq<Action>)
    requires Inv(s) && s.provider.ProviderReporting?
    requires forall a | a in before :: !OfProvider(a)
    requires forall a | a in between :: !OfProvider(a)
    ensures Run(s, before).pos <= |Run(s, before).input|
    ensures var reported := Next(Run(s, before), ProviderReport);
            Next(Run(reported, between), ProviderClose).serverClosed
  {
    RunKeepsInv(s, before);
    OthersKeepProvider(s, before);
    var reported := Next(Run(s, before), ProviderReport);
    NextKeepsInv(Run(s, before), ProviderReport);
    OthersKeepProvider(reported, between);
  }

  /** The receiver's way out once the context is cancelled and its pending receive fails. */
  function ExitPath(receiver: Receiver): (path: seq<Action>) {
    match receiver
    case Reading => [ReceiverBreak, ReceiverReport, ReceiverClose]
    case Offering(_) => [ReceiverAbandon, ReceiverClose]
    case Reporting(_) => [ReceiverReport, ReceiverClose]
    case Returning(_) => [ReceiverClose]
    case Closed(_) => []
  }

  /** After cancellation the receiver is never stuck, whatever state the others are in. */
  lemma {:induction false} CancelledReceiverExits(s: Stream)
    requires Inv(s) && s.cancelled
    ensures Run(s, ExitPath(s.receiver)).clientClosed
    decreases |ExitPath(s.receiver)|
  {
    if !s.receiver.Closed? {
      var path := ExitPath(s.receiver);
      var next := Next(s, path[0]);
      NextKeepsInv(s, path[0]);
      assert path[1..] == ExitPath(next.receiver);
      CancelledReceiverExits(next);
    }
  }

  /** A provider that has returned is heard out: the loop can send all its output and then ServerEnd. */
  lemma {:induction false} ForwardingCanFinish(s: Stream)
    requires Inv(s) && s.main.Forwarding? && s.provider.ProviderClosed?
    ensures var end := Run(s, seq(|s.serverBuf|, _ => MainForward(true)) + [MainEnd(true)]);
            && end.main == Ended(OK) && ServerEnd in end.sent && OutputOf(end.sent) == s.produced
            && end.errors == s.errors && end.endedOver == Some(s.errors)
    decreases |s.serverBuf|
  {
    var path := seq(|s.serverBuf|, _ => MainForward(true)) + [MainEnd(true)];
    var next := Next(s, path[0]);
    NextKeepsInv(s, path[0]);
    if s.serverBuf == [] {
      assert path == [MainEnd(true)];
      assert Run(s, path) == Run(next, path[1..]) == next;
      assert next.sent[|next.sent| - 1] == ServerEnd;
    } else {
      assert path[1..] == seq(|next.serverBuf|, _ => MainForward(true)) + [MainEnd(true)];
      ForwardingCanFinish(next);
    }
  }

  /** ServerEnd does not mean that the provider succeeded: its error can lose the race of the select. */
  lemma ErrorCanBeOvertaken(input: seq<Request>)
    ensures var s := Run(Opened(input), [ProviderReturn(true), ProviderReport, ProviderClose, MainEnd(true)]);
            s.errors == 1 && s.sent == [Ready, ServerEnd] && s.main == Ended(OK)
  {
    var s0 := Opened(input);
    var s1 := Next(s0, ProviderReturn(true));
    var s2 := Next(s1, ProviderReport);
    var s3 := Next(s2, ProviderClose);
    var s4 := Next(s3, MainEnd(true));
    assert Run(s3, [MainEnd(true)]) == s4;
    assert Run(s2, [ProviderClose, MainEnd(true)]) == s4;
    assert Run(s1, [ProviderReport, ProviderClose, MainEnd(true)]) == s4;
    assert s4.sent == [Ready, ServerEnd];
  }
}
