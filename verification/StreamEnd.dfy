/**
 * What a client may conclude from ServerEnd (internal/bus/server_interactstream.go:129-191). The
 * posts of errors and the closing of the output race in the forwarding select, so ServerEnd can be
 * sent over an error that was posted and not read; these are the exact conditions. An error that
 * is posted after the end, as by a receive that the handler's return cancels, does not count.
 */
module StreamEnd {
  import opened Wrappers
  import opened InteractStream

  /**
   * At the moment ServerEnd is sent every error posted so far is unread. So the end tells the truth
   * if and only if neither the provider nor the receiver has posted one by then.
   */
  lemma ServerEndLeavesErrorsUnread(s: Stream)
    requires Inv(s) && s.endedOver.None?
    ensures var r := Next(s, MainEnd(true));
            r.endedOver.Some? ==>
              && s.provider.ProviderClosed? && r.endedOver == Some(Posted(s))
              && (r.endedOver == Some(0) <==> !s.provider.failed && !ReceiverPosted(s))
  {
  }

  lemma EndStays(s: Stream, a: Action)
    requires Inv(s) && s.endedOver.Some?
    ensures Next(s, a).endedOver == s.endedOver
  {
    assert !s.main.Forwarding?;
  }

  /** What the end hid is fixed when it is sent. */
  lemma {:induction false} EndIsFinal(s: Stream, actions: seq<Action>)
    requires Inv(s) && s.endedOver.Some?
    ensures Run(s, actions).endedOver == s.endedOver
    decreases |actions|
  {
    if actions != [] {
      NextKeepsInv(s, actions[0]);
      EndStays(s, actions[0]);
      EndIsFinal(Next(s, actions[0]), actions[1..]);
    }
  }

  /** The n-th action sends ServerEnd. */
  ghost predicate EndsAt(s: Stream, actions: seq<Action>, n: nat)
    requires s.pos <= |s.input|
  {
    && n < |actions| && actions[n] == MainEnd(true)
    && var before := Run(s, actions[..n]);
       before.endedOver.None? && Next(before, MainEnd(true)).endedOver.Some?
  }

  lemma {:induction false} EndHasAMoment(s: Stream, actions: seq<Action>) returns (n: nat)
    requires Inv(s) && s.endedOver.None? && Run(s, actions).endedOver.Some?
    ensures EndsAt(s, actions, n) && Run(s, actions).endedOver == Some(Posted(Run(s, actions[..n])))
    decreases |actions|
  {
    var next := Next(s, actions[0]);
    NextKeepsInv(s, actions[0]);
    if next.endedOver.Some? {
      n := 0;
      OnlyMainEndEnds(s, actions[0]);
      ServerEndLeavesErrorsUnread(s);
      EndIsFinal(next, actions[1..]);
    } else {
      var m := EndHasAMoment(next, actions[1..]);
      n := m + 1;
      assert actions[..n][1..] == actions[1..][..m];
    }
  }

  lemma OnlyMainEndEnds(s: Stream, a: Action)
    requires Inv(s) && s.endedOver.None? && Next(s, a).endedOver.Some?
    ensures a == MainEnd(true)
  {
  }

  /** In every run with ServerEnd it was sent at one moment, over the errors posted until then. */
  lemma ServerEndHidesWhatWasPosted(input: seq<Request>, actions: seq<Action>) returns (n: nat)
    requires ServerEnd in Run(Opened(input), actions).sent
    ensures EndsAt(Opened(input), actions, n)
    ensures Run(Opened(input), actions).endedOver == Some(Posted(Run(Opened(input), actions[..n])))
  {
    OpenedInv(input);
    RunKeepsInv(Opened(input), actions);
    n := EndHasAMoment(Opened(input), actions);
  }

  // ------------------------------------------------------------------ ServerEnd is always possible

  function ProviderRank(provider: Provider): (rank: nat) {
    match provider
    case Executing => 2
    case ProviderReporting => 2
    case ProviderReturning(_) => 1
    case ProviderClosed(_) => 0
  }

  /** The provider's way out: without an error unless it has failed already. */
  function ProviderMove(provider: Provider): (a: Action) {
    match provider
    case Executing => ProviderReturn(false)
    case ProviderReporting => ProviderReport
    case ProviderReturning(_) => ProviderClose
    case ProviderClosed(_) => ProviderClose
  }

  /** The provider has returned an error, whether or not it is posted yet. */
  predicate ProviderFailed(provider: Provider) {
    provider.ProviderReporting? || ((provider.ProviderReturning? || provider.ProviderClosed?) && provider.failed)
  }

  lemma ProviderMoves(s: Stream)
    requires Inv(s) && s.main.Forwarding? && !s.provider.ProviderClosed?
    ensures var r := Next(s, ProviderMove(s.provider));
            && r.main.Forwarding? && r.produced == s.produced && r.receiver == s.receiver
            && ProviderRank(r.provider) < ProviderRank(s.provider)
            && ProviderFailed(r.provider) == ProviderFailed(s.provider)
  {
  }

  /**
   * From every state with the loop forwarding, ServerEnd can still be sent, with all of the output
   * before it, over every error posted so far and over a failed provider's.
   */
  lemma {:induction false} ServerEndIsAlwaysPossible(s: Stream) returns (path: seq<Action>)
    requires Inv(s) && s.main.Forwarding?
    ensures forall a | a in path :: a != ProviderReturn(true) && !OfReceiver(a)
    ensures var end := Run(s, path);
            && end.main == Ended(OK) && ServerEnd in end.sent && OutputOf(end.sent) == s.produced
            && ProviderFailed(end.provider) == ProviderFailed(s.provider) && end.receiver == s.receiver
            && end.endedOver == Some(Posted(end)) && end.provider.ProviderClosed?
    decreases ProviderRank(s.provider)
  {
    if s.provider.ProviderClosed? {
      path := seq(|s.serverBuf|, _ => MainForward(true)) + [MainEnd(true)];
      ForwardingCanFinish(s);
      OthersKeepReceiver(s, path);
      OthersKeepProvider(s, path);
      RunKeepsInv(s, path);
    } else {
      var a := ProviderMove(s.provider);
      ProviderMoves(s);
      NextKeepsInv(s, a);
      var rest := ServerEndIsAlwaysPossible(Next(s, a));
      path := [a] + rest;
      assert path[1..] == rest;
    }
  }

  // ------------------------------------------------------------------ when it can be trusted

  /** From a position on the client sends data only, up to its end. */
  predicate CleanFrom(input: seq<Request>, pos: nat)
    decreases |input| - pos
  {
    pos >= |input| || input[pos].ClientEnd? || (input[pos].Data? && CleanFrom(input, pos + 1))
  }

  /** What may go wrong before the end: the provider may return an error, a receive may break. */
  datatype Troubles = Troubles(failing: bool, breaking: bool)

  predicate Allowed(s: Stream, a: Action, troubles: Troubles) {
    && (a == ProviderReturn(true) && s.provider.Executing? ==> troubles.failing)
    && (a == ReceiverBreak && s.receiver.Reading? ==> troubles.breaking)
  }

  /** Nothing else goes wrong up to ServerEnd; what happens after it is of no account. */
  predicate AllowedRun(s: Stream, actions: seq<Action>, troubles: Troubles)
    requires s.pos <= |s.input|
    decreases |actions|
  {
    actions == [] || s.endedOver.Some?
    || (Allowed(s, actions[0], troubles) && AllowedRun(Next(s, actions[0]), actions[1..], troubles))
  }

  /** ServerEnd was sent over an unread error. */
  predicate Misled(s: Stream) {
    s.endedOver.Some? && s.endedOver.value > 0
  }

  const NONE_ALLOWED := Troubles(false, false)

  /** As long as the input is clean and nothing has gone wrong, nobody has an error to post. */
  predicate Calm(s: Stream) {
    if s.endedOver.Some? then s.endedOver.value == 0
    else
      && !ProviderFailed(s.provider) && !s.receiver.Reporting? && !ReceiverPosted(s)
      && (s.receiver.Reading? || s.receiver.Offering? ==> CleanFrom(s.input, s.pos))
  }

  lemma StepKeepsCalm(s: Stream, a: Action)
    requires Inv(s) && Calm(s) && s.endedOver.None? && Allowed(s, a, NONE_ALLOWED)
    ensures Calm(Next(s, a))
  {
    if OfReceiver(a) {
      ReceiverKeepsCalm(s, a);
    } else if OfProvider(a) {
      ProviderKeepsCalm(s, a);
    } else {
      MainKeepsCalm(s, a);
    }
  }

  lemma ReceiverKeepsCalm(s: Stream, a: Action)
    requires Inv(s) && Calm(s) && s.endedOver.None? && Allowed(s, a, NONE_ALLOWED) && OfReceiver(a)
    ensures Calm(ReceiverStep(s, a))
  {
  }

  lemma ProviderKeepsCalm(s: Stream, a: Action)
    requires Inv(s) && Calm(s) && s.endedOver.None? && Allowed(s, a, NONE_ALLOWED) && OfProvider(a)
    ensures Calm(ProviderStep(s, a))
  {
  }

  lemma MainKeepsCalm(s: Stream, a: Action)
    requires Inv(s) && Calm(s) && s.endedOver.None? && !OfReceiver(a) && !OfProvider(a)
    ensures Calm(Next(s, a))
  {
  }

  lemma {:induction false} RunKeepsCalm(s: Stream, actions: seq<Action>)
    requires Inv(s) && Calm(s) && AllowedRun(s, actions, NONE_ALLOWED)
    ensures Calm(Run(s, actions))
    decreases |actions|
  {
    if s.endedOver.Some? {
      EndIsFinal(s, actions);
    } else if actions != [] {
      StepKeepsCalm(s, actions[0]);
      NextKeepsInv(s, actions[0]);
      RunKeepsCalm(Next(s, actions[0]), actions[1..]);
    }
  }

  ghost predicate LeadsAstray(s: Stream, path: seq<Action>, troubles: Troubles)
    requires s.pos <= |s.input|
  {
    AllowedRun(s, path, troubles) && Misled(Run(s, path))
  }

  /** Some run with no more than these troubles ends with ServerEnd over an unread error. */
  ghost predicate CanMislead(s: Stream, troubles: Troubles)
    requires s.pos <= |s.input|
  {
    exists path :: LeadsAstray(s, path, troubles)
  }

  lemma OneStepBefore(s: Stream, a: Action, troubles: Troubles)
    requires s.pos <= |s.input| && Allowed(s, a, troubles) && CanMislead(Next(s, a), troubles)
    ensures CanMislead(s, troubles)
  {
    var path :| LeadsAstray(Next(s, a), path, troubles);
    assert ([a] + path)[1..] == path;
    assert LeadsAstray(s, [a] + path, troubles);
  }

  lemma {:induction false} HarmlessIsAllowed(s: Stream, path: seq<Action>, troubles: Troubles)
    requires s.pos <= |s.input| && forall a | a in path :: a != ProviderReturn(true) && !OfReceiver(a)
    ensures AllowedRun(s, path, troubles)
    decreases |path|
  {
    if path != [] {
      assert path[0] in path && forall a | a in path[1..] :: a in path;
      HarmlessIsAllowed(Next(s, path[0]), path[1..], troubles);
    }
  }

  /** A posted error, or a provider that has failed, can always be passed over. */
  lemma TroubleMisleads(s: Stream, troubles: Troubles)
    requires Inv(s) && s.main.Forwarding? && (ReceiverPosted(s) || ProviderFailed(s.provider))
    ensures CanMislead(s, troubles)
  {
    var path := ServerEndIsAlwaysPossible(s);
    HarmlessIsAllowed(s, path, troubles);
    assert LeadsAstray(s, path, troubles);
  }

  /** The receiver reads on, and the provider takes every chunk at once. */
  predicate AtMessage(s: Stream) {
    Inv(s) && s.main.Forwarding? && s.provider.Executing? && s.receiver.Reading? && s.clientBuf == []
  }

  lemma BadMessageIsPosted(s: Stream, troubles: Troubles)
    requires AtMessage(s) && s.pos < |s.input| && !s.input[s.pos].Data? && !s.input[s.pos].ClientEnd?
    ensures CanMislead(s, troubles)
  {
    var s1 := Next(s, ReceiverRecv);
    NextKeepsInv(s, ReceiverRecv);
    NextKeepsInv(s1, ReceiverReport);
    TroubleMisleads(Next(s1, ReceiverReport), troubles);
    OneStepBefore(s1, ReceiverReport, troubles);
    OneStepBefore(s, ReceiverRecv, troubles);
  }

  lemma EmptyMessageIsPassed(s: Stream) returns (r: Stream)
    requires AtMessage(s) && s.pos < |s.input| && s.input[s.pos].Data? && s.input[s.pos].content.None?
    ensures r == Next(s, ReceiverRecv) && AtMessage(r) && r.input == s.input && r.pos == s.pos + 1
  {
    NextKeepsInv(s, ReceiverRecv);
    r := Next(s, ReceiverRecv);
  }

  /** One chunk from the client to the provider. */
  lemma PassOn(s: Stream) returns (r: Stream)
    requires AtMessage(s) && s.pos < |s.input| && s.input[s.pos].Data? && s.input[s.pos].content.Some?
    ensures r == Next(Next(Next(s, ReceiverRecv), ReceiverOffer), ProviderTake)
    ensures AtMessage(r) && r.input == s.input && r.pos == s.pos + 1
  {
    var s1 := Next(s, ReceiverRecv);
    NextKeepsInv(s, ReceiverRecv);
    var s2 := Next(s1, ReceiverOffer);
    NextKeepsInv(s1, ReceiverOffer);
    r := Next(s2, ProviderTake);
    NextKeepsInv(s2, ProviderTake);
  }

  /** Reading up to a bad message, posting it, and ending the stream over it. */
  lemma {:induction false} BadMessageMisleads(s: Stream, troubles: Troubles)
    requires AtMessage(s) && !CleanFrom(s.input, s.pos)
    ensures CanMislead(s, troubles)
    decreases |s.input| - s.pos
  {
    if !s.input[s.pos].Data? {
      BadMessageIsPosted(s, troubles);
    } else if s.input[s.pos].content.None? {
      var r := EmptyMessageIsPassed(s);
      BadMessageMisleads(r, troubles);
      OneStepBefore(s, ReceiverRecv, troubles);
    } else {
      var r := PassOn(s);
      BadMessageMisleads(r, troubles);
      OneStepBefore(Next(Next(s, ReceiverRecv), ReceiverOffer), ProviderTake, troubles);
      OneStepBefore(Next(s, ReceiverRecv), ReceiverOffer, troubles);
      OneStepBefore(s, ReceiverRecv, troubles);
    }
  }

  lemma FailureMisleads(s: Stream, troubles: Troubles)
    requires AtMessage(s) && troubles.failing
    ensures CanMislead(s, troubles)
  {
    NextKeepsInv(s, ProviderReturn(true));
    TroubleMisleads(Next(s, ProviderReturn(true)), troubles);
    OneStepBefore(s, ProviderReturn(true), troubles);
  }

  lemma BreakMisleads(s: Stream, troubles: Troubles)
    requires AtMessage(s) && troubles.breaking
    ensures CanMislead(s, troubles)
  {
    var s1 := Next(s, ReceiverBreak);
    NextKeepsInv(s, ReceiverBreak);
    NextKeepsInv(s1, ReceiverReport);
    TroubleMisleads(Next(s1, ReceiverReport), troubles);
    OneStepBefore(s1, ReceiverReport, troubles);
    OneStepBefore(s, ReceiverBreak, troubles);
  }

  lemma TroubledCanMislead(input: seq<Request>, troubles: Troubles)
    requires troubles.failing || troubles.breaking || !CleanFrom(input, 0)
    ensures CanMislead(Opened(input), troubles)
  {
    OpenedInv(input);
    if troubles.failing {
      FailureMisleads(Opened(input), troubles);
    } else if troubles.breaking {
      BreakMisleads(Opened(input), troubles);
    } else {
      BadMessageMisleads(Opened(input), troubles);
    }
  }

  lemma UntroubledNeverMisleads(input: seq<Request>, path: seq<Action>)
    requires CleanFrom(input, 0)
    ensures !LeadsAstray(Opened(input), path, NONE_ALLOWED)
  {
    OpenedInv(input);
    if AllowedRun(Opened(input), path, NONE_ALLOWED) {
      RunKeepsCalm(Opened(input), path);
    }
  }

  /**
   * When ServerEnd can be trusted, whatever happens after it: it is sent over no error in any run if
   * and only if the provider may not fail, no receive may break before the end, and the client sends
   * nothing but data up to its own end. Each of the three is needed.
   */
  lemma ServerEndIsHonestExactly(input: seq<Request>, troubles: Troubles)
    ensures CanMislead(Opened(input), troubles) <==> troubles.failing || troubles.breaking || !CleanFrom(input, 0)
  {
    if troubles.failing || troubles.breaking || !CleanFrom(input, 0) {
      TroubledCanMislead(input, troubles);
    } else {
      assert troubles == NONE_ALLOWED;
      forall path ensures !LeadsAstray(Opened(input), path, troubles) {
        UntroubledNeverMisleads(input, path);
      }
    }
  }
}
