/**
 * That an interaction (internal/bus/server_interactstream.go:82-191) comes to its end once its
 * provider has returned: under every schedule every step that changes anything lowers a rank, and
 * nothing can move any more exactly when the RPC has ended and both helpers have closed.
 */
module StreamProgress {
  import opened InteractStream

  /** The steps a helper may still take, apart from what is left to receive. */
  function ReceiverRank(receiver: Receiver): (rank: nat) {
    match receiver
    case Offering(_) => 4
    case Reading => 3
    case Reporting(_) => 2
    case Returning(_) => 1
    case Closed(_) => 0
  }

  function ProviderRank(provider: Provider): (rank: nat) {
    match provider
    case Executing => 3
    case ProviderReporting => 2
    case ProviderReturning(_) => 1
    case ProviderClosed(_) => 0
  }

  function MainRank(s: Stream): (rank: nat) {
    if s.main.Forwarding? then 1 + |s.serverBuf| else 0
  }

  function Rank(s: Stream): (rank: nat)
    requires s.pos <= |s.input|
  {
    2 * (|s.input| - s.pos) + ReceiverRank(s.receiver) + ProviderRank(s.provider) + MainRank(s)
    + (if s.cancelled then 0 else 1)
  }

  lemma ReceiverLowersRank(s: Stream, a: Action)
    requires Inv(s) && OfReceiver(a) && ReceiverStep(s, a) != s
    ensures Rank(ReceiverStep(s, a)) < Rank(s)
  {
  }

  lemma ProviderLowersRank(s: Stream, a: Action)
    requires Inv(s) && !s.provider.Executing? && OfProvider(a) && ProviderStep(s, a) != s
    ensures Rank(ProviderStep(s, a)) < Rank(s) && !ProviderStep(s, a).provider.Executing?
  {
  }

  lemma MainLowersRank(s: Stream, a: Action)
    requires Inv(s) && MainStep(s, a) != s
    ensures Rank(MainStep(s, a)) < Rank(s)
  {
  }

  /** Once the provider has returned, whatever step changes the stream lowers its rank. */
  lemma EffectiveStepLowersRank(s: Stream, a: Action)
    requires Inv(s) && !s.provider.Executing? && Next(s, a) != s
    ensures Rank(Next(s, a)) < Rank(s)
  {
    if OfReceiver(a) {
      ReceiverLowersRank(s, a);
    } else if OfProvider(a) {
      ProviderLowersRank(s, a);
    } else if !a.Cancel? {
      MainLowersRank(s, a);
    }
  }

  lemma ReturnedStays(s: Stream, a: Action)
    requires Inv(s) && !s.provider.Executing?
    ensures !Next(s, a).provider.Executing?
  {
  }

  /** How many of the actions change the stream. */
  function Effective(s: Stream, actions: seq<Action>): (n: nat)
    requires s.pos <= |s.input|
    decreases |actions|
  {
    if actions == [] then 0
    else (if Next(s, actions[0]) != s then 1 else 0) + Effective(Next(s, actions[0]), actions[1..])
  }

  /** Every schedule has at most as many effective steps as the rank it starts from. */
  lemma {:induction false} SchedulesAreFinite(s: Stream, actions: seq<Action>)
    requires Inv(s) && !s.provider.Executing?
    ensures Inv(Run(s, actions)) && !Run(s, actions).provider.Executing?
    ensures Effective(s, actions) + Rank(Run(s, actions)) <= Rank(s)
    decreases |actions|
  {
    if actions != [] {
      NextKeepsInv(s, actions[0]);
      ReturnedStays(s, actions[0]);
      SchedulesAreFinite(Next(s, actions[0]), actions[1..]);
      if Next(s, actions[0]) != s {
        EffectiveStepLowersRank(s, actions[0]);
      }
    }
  }

  // ------------------------------------------------------------------ what is left when nothing moves

  /**
   * The steps that need no decision of the client's: the context is cancelled when the RPC has
   * ended, and then the pending receive breaks.
   */
  predicate OwnStep(s: Stream, a: Action) {
    && (a.Cancel? ==> s.main.Ended?)
    && (a.ReceiverBreak? ==> s.cancelled)
  }

  ghost predicate Settled(s: Stream)
    requires s.pos <= |s.input|
  {
    forall a | OwnStep(s, a) :: Next(s, a) == s
  }

  /** The RPC has returned, and both helpers are gone. */
  predicate Over(s: Stream) {
    s.main.Ended? && s.cancelled && s.receiver.Closed? && s.provider.ProviderClosed?
  }

  lemma CanMove(s: Stream) returns (a: Action)
    requires Inv(s) && !s.provider.Executing? && !Over(s)
    ensures OwnStep(s, a) && Next(s, a) != s
  {
    if s.provider.ProviderReporting? {
      a := ProviderReport;
    } else if s.provider.ProviderReturning? {
      a := ProviderClose;
    } else if s.main.Forwarding? {
      a := if s.serverBuf != [] then MainForward(true) else MainEnd(true);
      MainCanMove(s);
    } else if !s.cancelled {
      a := Cancel;
    } else {
      a := ReceiverCanMove(s);
    }
  }

  lemma MainCanMove(s: Stream)
    requires Inv(s) && s.main.Forwarding? && s.provider.ProviderClosed?
    ensures Next(s, if s.serverBuf != [] then MainForward(true) else MainEnd(true)) != s
  {
    var r := Next(s, if s.serverBuf != [] then MainForward(true) else MainEnd(true));
    assert |r.sent| == |s.sent| + 1;
  }

  lemma ReceiverCanMove(s: Stream) returns (a: Action)
    requires Inv(s) && s.cancelled && !s.receiver.Closed?
    ensures OwnStep(s, a) && Next(s, a) != s
  {
    match s.receiver
    case Reading => a := ReceiverBreak;
    case Offering(_) => a := ReceiverAbandon;
    case Reporting(_) => a := ReceiverReport;
    case Returning(_) => a := ReceiverClose;
  }

  lemma OverIsSettled(s: Stream)
    requires Inv(s) && Over(s)
    ensures Settled(s)
  {
  }

  /**
   * Once the provider has returned, a schedule can go no further exactly when the RPC has ended and
   * both helpers are gone, whatever failed in it: nothing is left behind, and nothing hangs.
   */
  lemma EveryScheduleEndsOver(s: Stream, actions: seq<Action>)
    requires Inv(s) && !s.provider.Executing?
    ensures Run(s, actions).pos <= |Run(s, actions).input|
    ensures Settled(Run(s, actions)) <==> Over(Run(s, actions))
  {
    SchedulesAreFinite(s, actions);
    var r := Run(s, actions);
    if Over(r) {
      OverIsSettled(r);
    } else {
      var a := CanMove(r);
    }
  }
}
