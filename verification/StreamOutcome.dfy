/**
 * How an interaction ends for its client (internal/bus/server_interactstream.go:140-191): which
 * status the RPC returns, and which response comes last.
 */
module StreamOutcome {
  import opened Wrappers
  import opened InteractStream
  import opened Sequences

  datatype Ending = Ending(code: Code, last: Option<Response>)

  /**
   * The ways in which the forwarding loop may end: a response cannot be sent, the provider has closed
   * its channel and all of its output is sent, a helper has posted an error, or the context is
   * cancelled.
   */
  predicate MayEnd(s: Stream, a: Action, ending: Ending) {
    match a
    case MainForward(sendOk) => !sendOk && s.serverBuf != [] && ending == Ending(Internal, None)
    case MainEnd(sendOk) =>
      && s.provider.ProviderClosed? && OutputOf(s.sent) == s.produced
      && ending == if sendOk then Ending(OK, Some(ServerEnd)) else Ending(Internal, None)
    case MainError(sendOk) =>
      Posted(s) > 0 && ending == Ending(Internal, if sendOk then Some(StreamError) else None)
    case MainCancel => s.cancelled && ending == Ending(Canceled, None)
    case _ => false
  }

  predicate EndedAs(before: Stream, r: Stream, ending: Ending) {
    && r.main == Ended(ending.code)
    && r.sent == before.sent + (if ending.last.Some? then [ending.last.value] else [])
  }

  lemma MainEnds(s: Stream, a: Action, ending: Ending)
    requires Inv(s) && s.main.Forwarding? && MayEnd(s, a, ending)
    ensures EndedAs(s, Next(s, a), ending)
  {
    if a.MainEnd? {
      DrainedIsEmpty(OutputOf(s.sent), s.serverBuf);
    }
  }

  lemma DrainedIsEmpty(sent: seq<Chunk>, rest: seq<Chunk>)
    requires sent + rest == sent
    ensures rest == []
  {
    assert |sent + rest| == |sent| + |rest|;
  }

  /** Nothing is sent and no status changes once the loop has ended. */
  lemma {:induction false} NothingAfterTheEnd(s: Stream, rest: seq<Action>)
    requires Inv(s) && s.main.Ended?
    ensures Run(s, rest).main == s.main && Run(s, rest).sent == s.sent
    decreases |rest|
  {
    if rest != [] {
      NextKeepsInv(s, rest[0]);
      NothingAfterTheEnd(Next(s, rest[0]), rest[1..]);
    }
  }

  /**
   * A posted error that the loop reads is what the client is told: if the send works the last
   * response of the run is StreamError, and the status is Internal. And so for every other ending.
   */
  lemma EndingIsFinal(s: Stream, a: Action, ending: Ending, rest: seq<Action>)
    requires Inv(s) && s.main.Forwarding? && MayEnd(s, a, ending)
    ensures EndedAs(s, Run(Next(s, a), rest), ending)
  {
    MainEnds(s, a, ending);
    NextKeepsInv(s, a);
    NothingAfterTheEnd(Next(s, a), rest);
  }

  /** The n-th action ends the loop in this way, for good. */
  ghost predicate EndsThere(s: Stream, actions: seq<Action>, n: nat, ending: Ending)
    requires s.pos <= |s.input|
  {
    && n < |actions|
    && var before := Run(s, actions[..n]);
       before.main.Forwarding? && MayEnd(before, actions[n], ending) && EndedAs(before, Run(s, actions), ending)
  }

  lemma StepEndsOrNot(s: Stream, a: Action) returns (ending: Ending)
    requires Inv(s) && s.main.Forwarding? && Next(s, a).main.Ended?
    ensures MayEnd(s, a, ending)
  {
    ending := Ending(Next(s, a).main.code,
                     if |Next(s, a).sent| > |s.sent| then Some(Next(s, a).sent[|s.sent|]) else None);
  }

  lemma {:induction false} EndsSomewhere(s: Stream, actions: seq<Action>) returns (n: nat, ending: Ending)
    requires Inv(s) && s.main.Forwarding? && Run(s, actions).main.Ended?
    ensures EndsThere(s, actions, n, ending)
    decreases |actions|
  {
    var a, rest := actions[0], actions[1..];
    NextKeepsInv(s, a);
    if Next(s, a).main.Ended? {
      n := 0;
      ending := StepEndsOrNot(s, a);
      EndingIsFinal(s, a, ending, rest);
    } else {
      var m;
      m, ending := EndsSomewhere(Next(s, a), rest);
      n := m + 1;
      assert actions[..n][1..] == rest[..m];
    }
  }

  /** A loop that has not ended has told the client neither an end nor an error. */
  lemma ForwardingIsOpen(s: Stream)
    requires Inv(s) && s.main.Forwarding?
    ensures ServerEnd !in s.sent && StreamError !in s.sent
  {
  }

  /**
   * In every run that has ended, one action ended it in one of those ways. So the status is OK
   * exactly if ServerEnd was sent; StreamError is sent for a posted error only, with the status
   * Internal; Canceled follows a cancellation; and there is no other status.
   */
  lemma OutcomeIsTold(input: seq<Request>, actions: seq<Action>) returns (n: nat, ending: Ending)
    requires Run(Opened(input), actions).main.Ended?
    ensures EndsThere(Opened(input), actions, n, ending)
    ensures var before, r := Run(Opened(input), actions[..n]), Run(Opened(input), actions);
            && (r.main == Ended(OK) <==> ServerEnd in r.sent)
            && (StreamError in r.sent <==> actions[n] == MainError(true))
            && (StreamError in r.sent ==> r.main == Ended(Internal) && Posted(before) > 0)
            && (r.main == Ended(Canceled) <==> actions[n] == MainCancel)
            && (r.main == Ended(Canceled) ==> before.cancelled)
            && (r.main == Ended(OK) || r.main == Ended(Internal) || r.main == Ended(Canceled))
  {
    OpenedInv(input);
    n, ending := EndsSomewhere(Opened(input), actions);
    RunKeepsInv(Opened(input), actions[..n]);
    ForwardingIsOpen(Run(Opened(input), actions[..n]));
  }

  // ------------------------------------------------------------------ what the client has been sent

  /** The chunks that the provider writes: while it executes and its channel has room. */
  function WrittenBy(s: Stream, actions: seq<Action>): (chunks: seq<Chunk>)
    requires s.pos <= |s.input|
    decreases |actions|
  {
    if actions == [] then []
    else
      var a := actions[0];
      (if a.ProviderProduce? && s.provider.Executing? && |s.serverBuf| < 10 then [a.chunk] else [])
      + WrittenBy(Next(s, a), actions[1..])
  }

  lemma ProduceWrites(s: Stream, chunk: Chunk)
    requires Inv(s) && s.provider.Executing? && |s.serverBuf| < 10
    ensures Next(s, ProviderProduce(chunk)).produced == s.produced + [chunk]
  {
  }

  lemma OthersWriteNothing(s: Stream, a: Action)
    requires Inv(s) && !(a.ProviderProduce? && s.provider.Executing? && |s.serverBuf| < 10)
    ensures Next(s, a).produced == s.produced
  {
  }

  lemma {:induction false} ProducedIsWritten(s: Stream, actions: seq<Action>)
    requires Inv(s)
    ensures Run(s, actions).produced == s.produced + WrittenBy(s, actions)
    decreases |actions|
  {
    if actions == [] {
      EmptyConcat(s.produced);
    } else {
      var a, next := actions[0], Next(s, actions[0]);
      NextKeepsInv(s, a);
      ProducedIsWritten(next, actions[1..]);
      var rest := WrittenBy(next, actions[1..]);
      if a.ProviderProduce? && s.provider.Executing? && |s.serverBuf| < 10 {
        ProduceWrites(s, a.chunk);
        ConcatAssociative(s.produced, [a.chunk], rest);
      } else {
        OthersWriteNothing(s, a);
        EmptyConcat(rest);
      }
    }
  }

  /** In every run the client gets a prefix of what the provider wrote, and with ServerEnd all of it. */
  lemma ClientGetsWhatWasWritten(input: seq<Request>, actions: seq<Action>)
    ensures var sent, written := Run(Opened(input), actions).sent, WrittenBy(Opened(input), actions);
            && OutputOf(sent) <= written
            && (ServerEnd in sent ==> OutputOf(sent) == written)
  {
    OpenedInv(input);
    RunKeepsInv(Opened(input), actions);
    ProducedIsWritten(Opened(input), actions);
    EmptyConcat(WrittenBy(Opened(input), actions));
  }
}
