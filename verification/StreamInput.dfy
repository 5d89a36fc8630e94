/**
 * That the provider can be given all that the client sends (internal/bus/server_interactstream.go:
 * 89-127), and for what reasons it may be given less.
 */
module StreamInput {
  import opened InteractStream

  /** The receiver is still at work or has stopped at the end of the input or at a bad message. */
  predicate Undisturbed(receiver: Receiver) {
    match receiver
    case Reporting(why) => why == Invalid
    case Returning(why) => why == Finished || why == Invalid
    case Closed(why) => why == Finished || why == Invalid
    case _ => true
  }

  /** A provider that takes what there is, and a receiver that goes on. */
  function NextInput(s: Stream): (a: Action) {
    if s.clientBuf != [] then ProviderTake
    else match s.receiver
      case Reading => ReceiverRecv
      case Offering(_) => ReceiverOffer
      case Reporting(_) => ReceiverReport
      case Returning(_) => ReceiverClose
      case Closed(_) => ProviderTake
  }

  /** What is left to do until the receiver has closed and the provider has taken everything. */
  function InputRank(s: Stream): (rank: nat)
    requires s.pos <= |s.input|
  {
    3 * (|s.input| - s.pos) + |s.clientBuf|
    + (match s.receiver
       case Reading => 3
       case Offering(_) => 5
       case Reporting(_) => 2
       case Returning(_) => 1
       case Closed(_) => 0)
  }

  lemma NextInputMoves(s: Stream)
    requires Inv(s) && s.provider.Executing? && Undisturbed(s.receiver)
    requires !(s.receiver.Closed? && s.clientBuf == [])
    ensures var r := Next(s, NextInput(s));
            r.provider.Executing? && Undisturbed(r.receiver) && r.main == s.main && InputRank(r) < InputRank(s)
  {
  }

  /**
   * While the provider reads on it can still be given every valid chunk, up to the receiver's close,
   * whatever has happened to the rest of the stream.
   */
  lemma {:induction false} AllInputCanBeRead(s: Stream) returns (path: seq<Action>)
    requires Inv(s) && s.provider.Executing? && Undisturbed(s.receiver)
    ensures var r := Run(s, path);
            && r.taken == ValidData(s.input) && r.clientBuf == [] && r.clientClosed
            && (r.receiver == Closed(Finished) || r.receiver == Closed(Invalid)) && r.main == s.main
    decreases InputRank(s)
  {
    if s.receiver.Closed? && s.clientBuf == [] {
      path := [];
      assert s.taken + s.clientBuf == s.taken;
    } else {
      var a := NextInput(s);
      NextInputMoves(s);
      NextKeepsInv(s, a);
      var rest := AllInputCanBeRead(Next(s, a));
      path := [a] + rest;
      assert path[1..] == rest;
    }
  }

  predicate StoppedBy(receiver: Receiver, why: Why) {
    (receiver.Reporting? || receiver.Returning? || receiver.Closed?) && receiver.why == why
  }

  /** A receiver that gave up a chunk was cancelled, and one that failed met a broken receive. */
  predicate HasReason(s: Stream, broken: bool) {
    (StoppedBy(s.receiver, Abandoned) ==> s.cancelled) && (StoppedBy(s.receiver, Failure) ==> broken)
  }

  lemma StepHasReason(s: Stream, a: Action, broken: bool)
    requires s.pos <= |s.input| && HasReason(s, broken)
    ensures HasReason(Next(s, a), broken || a == ReceiverBreak)
  {
    if OfReceiver(a) {
      ReceiverStepHasReason(s, a, broken);
    }
  }

  lemma ReceiverStepHasReason(s: Stream, a: Action, broken: bool)
    requires s.pos <= |s.input| && HasReason(s, broken) && OfReceiver(a)
    ensures HasReason(ReceiverStep(s, a), broken || a == ReceiverBreak)
  {
  }

  lemma {:induction false} RunHasReason(s: Stream, actions: seq<Action>, broken: bool)
    requires s.pos <= |s.input| && HasReason(s, broken)
    ensures HasReason(Run(s, actions), broken || ReceiverBreak in actions)
    decreases |actions|
  {
    if actions != [] {
      StepHasReason(s, actions[0], broken);
      RunHasReason(Next(s, actions[0]), actions[1..], broken || actions[0] == ReceiverBreak);
      assert actions == [actions[0]] + actions[1..];
    }
  }

  /** In every run input is given up only after a cancellation, and left unread only at a broken receive. */
  lemma InputIsDroppedForAReason(input: seq<Request>, actions: seq<Action>)
    ensures var r := Run(Opened(input), actions);
            && (StoppedBy(r.receiver, Abandoned) ==> r.cancelled)
            && (StoppedBy(r.receiver, Failure) ==> ReceiverBreak in actions)
  {
    RunHasReason(Opened(input), actions, false);
  }
}
