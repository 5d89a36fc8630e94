/**
 * That publishing offers every event exactly once to whoever stays registered
 * (internal/bus/memory/bus.go:33-55, internal/bus/server_subscribe.go:47-62): nobody is skipped and
 * nobody is served twice, however publishers and subscribers interleave.
 */
module Delivery {
  import opened PubSub
  import opened Sequences

  /** The publications in progress that have yet to reach the client. */
  function PendingFor(b: Bus, client: string): (publishers: set<nat>) {
    set p | p in b.publishing && client in b.publishing[p].remaining
  }

  function Begins(actions: seq<Action>): (n: nat) {
    if actions == [] then 0 else (if actions[0].Begin? then 1 else 0) + Begins(actions[1..])
  }

  predicate Holds(b: Bus, sid: nat, client: string) {
    client in b.table && b.table[client] == sid && sid in b.subs
  }

  /** The subscription is the registered one of the client at every point of the run. */
  ghost predicate HoldsThroughout(b: Bus, actions: seq<Action>, sid: nat, client: string)
    requires CanRun(b, actions)
    decreases |actions|
  {
    Holds(b, sid, client) && (actions == [] || HoldsThroughout(Next(b, actions[0]), actions[1..], sid, client))
  }

  /** What was offered to the subscription so far and what is about to be. */
  function Offered(b: Bus, sid: nat, client: string): (n: nat)
    requires sid in b.subs
  {
    b.subs[sid].attempted + |PendingFor(b, client)|
  }

  lemma BeginPending(b: Bus, pid: nat, event: string, client: string)
    requires Enabled(b, Begin(pid, event)) && client in b.table
    ensures PendingFor(Next(b, Begin(pid, event)), client) == PendingFor(b, client) + {pid}
    ensures pid !in PendingFor(b, client)
  {
  }

  lemma BeginIsPending(b: Bus, pid: nat, event: string, sid: nat, client: string)
    requires Enabled(b, Begin(pid, event)) && Holds(b, sid, client)
    ensures Offered(Next(b, Begin(pid, event)), sid, client) == Offered(b, sid, client) + 1
  {
    BeginPending(b, pid, event, client);
  }

  lemma OwnSendIsOffered(b: Bus, pid: nat, sid: nat, client: string)
    requires Enabled(b, Send(pid, client)) && Holds(b, sid, client) && !b.subs[sid].closed
    ensures Offered(Next(b, Send(pid, client)), sid, client) == Offered(b, sid, client)
  {
    var r := Next(b, Send(pid, client));
    assert PendingFor(r, client) == PendingFor(b, client) - {pid};
    assert pid in PendingFor(b, client);
  }

  lemma OtherSendIsNot(b: Bus, pid: nat, to: string, sid: nat, client: string)
    requires Enabled(b, Send(pid, to)) && Holds(b, sid, client) && to != client && b.table[to] != sid
    ensures sid in Next(b, Send(pid, to)).subs
    ensures Offered(Next(b, Send(pid, to)), sid, client) == Offered(b, sid, client)
  {
    assert PendingFor(Next(b, Send(pid, to)), client) == PendingFor(b, client);
  }

  lemma SendIsOffered(b: Bus, pid: nat, to: string, sid: nat, client: string)
    requires Inv(b) && Enabled(b, Send(pid, to)) && Holds(b, sid, client)
    ensures sid in Next(b, Send(pid, to)).subs
    ensures Offered(Next(b, Send(pid, to)), sid, client) == Offered(b, sid, client)
  {
    SendIsSafe(b, pid, to);
    if to == client {
      OwnSendIsOffered(b, pid, sid, client);
    } else {
      assert b.subs[b.table[to]].client == to && b.subs[sid].client == client;
      OtherSendIsNot(b, pid, to, sid, client);
    }
  }

  lemma OtherStepsOfferNothing(b: Bus, a: Action, sid: nat, client: string)
    requires Enabled(b, a) && !a.Begin? && !a.Send? && Holds(b, sid, client)
    ensures sid in Next(b, a).subs
    ensures Offered(Next(b, a), sid, client) == Offered(b, sid, client)
  {
    var r := Next(b, a);
    assert PendingFor(r, client) == PendingFor(b, client);
  }

  lemma StepOffers(b: Bus, a: Action, sid: nat, client: string)
    requires Inv(b) && Enabled(b, a) && Holds(b, sid, client)
    ensures sid in Next(b, a).subs
    ensures Offered(Next(b, a), sid, client) == Offered(b, sid, client) + Begins([a])
  {
    assert [a][1..] == [];
    match a
    case Begin(pid, event) => BeginIsPending(b, pid, event, sid, client);
    case Send(pid, to) => SendIsOffered(b, pid, to, sid, client);
    case _ => OtherStepsOfferNothing(b, a, sid, client);
  }

  /**
   * While a subscription stays registered, every event whose publishing begins is offered to it
   * exactly once: what was offered and what is still to be offered grows by the number of events.
   */
  lemma {:induction false} EveryEventIsOfferedOnce(b: Bus, actions: seq<Action>, sid: nat, client: string)
    requires Inv(b) && CanRun(b, actions) && HoldsThroughout(b, actions, sid, client)
    ensures sid in Run(b, actions).subs
    ensures Offered(Run(b, actions), sid, client) == Offered(b, sid, client) + Begins(actions)
    decreases |actions|
  {
    if actions != [] {
      var a := actions[0];
      StepOffers(b, a, sid, client);
      NextKeepsInv(b, a);
      EveryEventIsOfferedOnce(Next(b, a), actions[1..], sid, client);
      assert [a][1..] == [];
    }
  }

  /**
   * From its registration on: the events taken, buffered and dropped, together with those still on
   * their way, are as many as were published since.
   */
  lemma EventsSinceRegistration(b: Bus, sid: nat, client: string, actions: seq<Action>)
    requires Inv(b) && Enabled(b, Register(sid, client)) && CanRun(Next(b, Register(sid, client)), actions)
    requires HoldsThroughout(Next(b, Register(sid, client)), actions, sid, client)
    ensures var r := Run(Next(b, Register(sid, client)), actions);
            && sid in r.subs
            && var s := r.subs[sid];
               |s.taken| + |s.buf| + s.dropped + |PendingFor(r, client)| == Begins(actions)
  {
    var start := Next(b, Register(sid, client));
    NextKeepsInv(b, Register(sid, client));
    assert PendingFor(start, client) == {};
    EveryEventIsOfferedOnce(start, actions, sid, client);
    RunKeepsInv(start, actions);
    assert SubInv(Run(start, actions).subs[sid]);
  }

  // ------------------------------------------------------------------ which events arrive

  /** The events that a publisher has begun to publish, in order. */
  function PublishedBy(past: seq<Action>, publisher: nat): (events: seq<string>) {
    if past == [] then []
    else
      var before, last := past[..|past| - 1], past[|past| - 1];
      PublishedBy(before, publisher) + if last.Begin? && last.pid == publisher then [last.event] else []
  }

  lemma PublishedAppend(past: seq<Action>, a: Action, publisher: nat)
    ensures PublishedBy(past + [a], publisher)
            == PublishedBy(past, publisher) + if a.Begin? && a.pid == publisher then [a.event] else []
  {
    assert (past + [a])[..|past|] == past;
  }

  /** The message is the publisher's `number`-th event. */
  predicate Genuine(m: Message, past: seq<Action>) {
    m.number < |PublishedBy(past, m.publisher)| && PublishedBy(past, m.publisher)[m.number] == m.event
  }

  ghost predicate AllGenuine(b: Bus, past: seq<Action>) {
    && (forall p: nat :: Numbered(b, p) == |PublishedBy(past, p)|)
    && (forall p <- b.publishing :: Genuine(b.publishing[p].message, past))
    && (forall sid <- b.subs :: ArrivalsGenuine(b.subs[sid], past))
  }

  ghost predicate ArrivalsGenuine(s: Subscription, past: seq<Action>) {
    forall m | m in s.taken + s.buf :: Genuine(m, past)
  }

  lemma GenuineStays(m: Message, past: seq<Action>, a: Action)
    requires Genuine(m, past)
    ensures Genuine(m, past + [a])
  {
    PublishedAppend(past, a, m.publisher);
  }

  lemma BeginIsGenuine(b: Bus, past: seq<Action>, pid: nat, event: string)
    requires AllGenuine(b, past) && Enabled(b, Begin(pid, event))
    ensures Genuine(Next(b, Begin(pid, event)).publishing[pid].message, past + [Begin(pid, event)])
  {
    PublishedAppend(past, Begin(pid, event), pid);
  }

  lemma PublishingStaysGenuine(b: Bus, past: seq<Action>, a: Action, p: nat)
    requires AllGenuine(b, past) && Enabled(b, a) && p in Next(b, a).publishing
    ensures Genuine(Next(b, a).publishing[p].message, past + [a])
  {
    if a.Begin? && a.pid == p {
      BeginIsGenuine(b, past, p, a.event);
    } else {
      assert p in b.publishing && Next(b, a).publishing[p].message == b.publishing[p].message;
      GenuineStays(b.publishing[p].message, past, a);
    }
  }

  /** What a step adds to a subscription's arrivals is what its publisher is sending. */
  lemma StepArrives(b: Bus, a: Action, sid: nat, m: Message)
    requires Inv(b) && Enabled(b, a) && sid in Next(b, a).subs && m in Arrived(Next(b, a).subs[sid])
    ensures (sid in b.subs && m in Arrived(b.subs[sid]))
            || (a.Send? && m == b.publishing[a.pid].message)
  {
    if a.Send? {
      SendArrives(b, a.pid, a.client, sid, m);
    } else {
      OthersArriveNothing(b, a, sid);
    }
  }

  lemma OthersArriveNothing(b: Bus, a: Action, sid: nat)
    requires Enabled(b, a) && !a.Send? && sid in Next(b, a).subs
    ensures if sid in b.subs then Arrived(Next(b, a).subs[sid]) == Arrived(b.subs[sid])
            else Arrived(Next(b, a).subs[sid]) == []
  {
    if a.Receive? {
      TakeKeepsArrived(b.subs[a.sid]);
    }
  }

  lemma SendArrives(b: Bus, pid: nat, client: string, sid: nat, m: Message)
    requires Inv(b) && Enabled(b, Send(pid, client))
    requires sid in Next(b, Send(pid, client)).subs && m in Arrived(Next(b, Send(pid, client)).subs[sid])
    ensures sid in b.subs && (m in Arrived(b.subs[sid]) || m == b.publishing[pid].message)
  {
    SendIsSafe(b, pid, client);
    if b.table[client] == sid {
      assert m in b.subs[sid].taken || m in Buffered(b.subs[sid].buf, b.publishing[pid].message);
    }
  }

  lemma ArrivalsStayGenuine(b: Bus, past: seq<Action>, a: Action, sid: nat)
    requires Inv(b) && AllGenuine(b, past) && Enabled(b, a) && sid in Next(b, a).subs
    ensures ArrivalsGenuine(Next(b, a).subs[sid], past + [a])
  {
    forall m | m in Next(b, a).subs[sid].taken + Next(b, a).subs[sid].buf ensures Genuine(m, past + [a]) {
      assert m in Arrived(Next(b, a).subs[sid]);
      StepArrives(b, a, sid, m);
      assert sid in b.subs ==> ArrivalsGenuine(b.subs[sid], past);
      GenuineStays(m, past, a);
    }
  }

  lemma CountsStayTrue(b: Bus, past: seq<Action>, a: Action, p: nat)
    requires AllGenuine(b, past) && Enabled(b, a)
    ensures Numbered(Next(b, a), p) == |PublishedBy(past + [a], p)|
  {
    PublishedAppend(past, a, p);
    assert Numbered(b, p) == |PublishedBy(past, p)|;
    StepCounts(b, a, p);
  }

  lemma StepCounts(b: Bus, a: Action, p: nat)
    requires Enabled(b, a)
    ensures Numbered(Next(b, a), p) == Numbered(b, p) + if a.Begin? && a.pid == p then 1 else 0
  {
  }

  lemma StepStaysGenuine(b: Bus, past: seq<Action>, a: Action)
    requires Inv(b) && AllGenuine(b, past) && Enabled(b, a)
    ensures AllGenuine(Next(b, a), past + [a])
  {
    forall p: nat ensures Numbered(Next(b, a), p) == |PublishedBy(past + [a], p)| {
      CountsStayTrue(b, past, a, p);
    }
    forall p <- Next(b, a).publishing ensures Genuine(Next(b, a).publishing[p].message, past + [a]) {
      PublishingStaysGenuine(b, past, a, p);
    }
    forall sid <- Next(b, a).subs ensures ArrivalsGenuine(Next(b, a).subs[sid], past + [a]) {
      ArrivalsStayGenuine(b, past, a, sid);
    }
  }

  lemma {:induction false} RunStaysGenuine(b: Bus, past: seq<Action>, actions: seq<Action>)
    requires Inv(b) && AllGenuine(b, past) && CanRun(b, actions)
    ensures AllGenuine(Run(b, actions), past + actions)
    decreases |actions|
  {
    if actions == [] {
      assert past + actions == past;
    } else {
      StepStaysGenuine(b, past, actions[0]);
      NextKeepsInv(b, actions[0]);
      RunStaysGenuine(Next(b, actions[0]), past + [actions[0]], actions[1..]);
      assert past + [actions[0]] + actions[1..] == past + actions;
    }
  }

  /** In every run of either bus each message that arrives is the numbered event of its publisher. */
  lemma OnlyPublishedEventsArrive(variant: Variant, actions: seq<Action>, sid: nat, m: Message)
    requires CanRun(NewBus(variant), actions) && sid in Run(NewBus(variant), actions).subs
    requires var s := Run(NewBus(variant), actions).subs[sid]; m in s.taken + s.buf
    ensures m.number < |PublishedBy(actions, m.publisher)|
    ensures m.event == PublishedBy(actions, m.publisher)[m.number]
  {
    NewBusInv(variant);
    RunStaysGenuine(NewBus(variant), [], actions);
    assert [] + actions == actions;
    assert ArrivalsGenuine(Run(NewBus(variant), actions).subs[sid], actions);
  }

  // ------------------------------------------------------------------ all of them, in order

  /** The events of one publisher among the messages. */
  function EventsFrom(ms: seq<Message>, publisher: nat): (events: seq<string>) {
    if ms == [] then []
    else
      var last := ms[|ms| - 1];
      EventsFrom(ms[..|ms| - 1], publisher) + if last.publisher == publisher then [last.event] else []
  }

  lemma EventsFromAppend(ms: seq<Message>, m: Message, publisher: nat)
    ensures EventsFrom(ms + [m], publisher)
            == EventsFrom(ms, publisher) + if m.publisher == publisher then [m.event] else []
  {
    assert (ms + [m])[..|ms|] == ms;
  }

  /** The event that the publisher has yet to send to the client. */
  function InHand(b: Bus, publisher: nat, client: string): (events: seq<string>) {
    if publisher in b.publishing && client in b.publishing[publisher].remaining
    then [b.publishing[publisher].message.event] else []
  }

  /** What arrived from the publisher and what is on its way are all of its events. */
  predicate Complete(b: Bus, sid: nat, client: string, past: seq<Action>, publisher: nat)
    requires sid in b.subs
  {
    EventsFrom(Arrived(b.subs[sid]), publisher) + InHand(b, publisher, client) == PublishedBy(past, publisher)
  }

  lemma BeginKeepsComplete(b: Bus, pid: nat, event: string, sid: nat, client: string, past: seq<Action>, p: nat)
    requires Enabled(b, Begin(pid, event)) && Holds(b, sid, client) && Complete(b, sid, client, past, p)
    ensures Complete(Next(b, Begin(pid, event)), sid, client, past + [Begin(pid, event)], p)
  {
    PublishedAppend(past, Begin(pid, event), p);
    EmptyConcat(EventsFrom(Arrived(b.subs[sid]), p));
    EmptyConcat(PublishedBy(past, p));
  }

  /** A send to the client moves the publisher's message from its hand to the channel. */
  lemma OwnSendMoves(b: Bus, pid: nat, sid: nat, client: string, p: nat)
    requires Inv(b) && Enabled(b, Send(pid, client)) && Holds(b, sid, client)
    ensures var r, m := Next(b, Send(pid, client)), b.publishing[pid].message;
            && sid in r.subs && r.subs[sid] == Offer(b.subs[sid], m) && m.publisher == pid
            && InHand(r, p, client) == (if p == pid then [] else InHand(b, p, client))
            && InHand(b, pid, client) == [m.event]
  {
    SendIsSafe(b, pid, client);
  }

  lemma OfferArrives(s: Subscription, m: Message)
    ensures |s.buf| < CAPACITY ==> Arrived(Offer(s, m)) == Arrived(s) + [m]
    ensures |s.buf| >= CAPACITY ==> Offer(s, m).dropped > 0
  {
    assert s.taken + (s.buf + [m]) == s.taken + s.buf + [m];
  }

  /** The message is counted once, in hand before and arrived afterwards. */
  lemma ArrivalCounts(ms: seq<Message>, m: Message, hand: seq<string>, p: nat)
    requires m.publisher == p ==> hand == [m.event]
    ensures EventsFrom(ms + [m], p) + (if m.publisher == p then [] else hand) == EventsFrom(ms, p) + hand
  {
    EventsFromAppend(ms, m, p);
    EmptyConcat(EventsFrom(ms, p));
    EmptyConcat(EventsFrom(ms, p) + [m.event]);
  }

  lemma OwnSendKeepsComplete(b: Bus, pid: nat, sid: nat, client: string, past: seq<Action>, p: nat)
    requires Inv(b) && Enabled(b, Send(pid, client)) && Holds(b, sid, client) && Complete(b, sid, client, past, p)
    ensures sid in Next(b, Send(pid, client)).subs
    ensures Next(b, Send(pid, client)).subs[sid].dropped == 0 ==>
              Complete(Next(b, Send(pid, client)), sid, client, past + [Send(pid, client)], p)
  {
    var m := b.publishing[pid].message;
    OwnSendMoves(b, pid, sid, client, p);
    OfferArrives(b.subs[sid], m);
    ArrivalCounts(Arrived(b.subs[sid]), m, InHand(b, p, client), p);
    PublishedAppend(past, Send(pid, client), p);
    EmptyConcat(PublishedBy(past, p));
  }

  lemma OtherSendKeepsArrivals(b: Bus, pid: nat, to: string, sid: nat, client: string, p: nat)
    requires Inv(b) && Enabled(b, Send(pid, to)) && Holds(b, sid, client) && to != client
    ensures var r := Next(b, Send(pid, to));
            && sid in r.subs && r.subs[sid] == b.subs[sid] && InHand(r, p, client) == InHand(b, p, client)
  {
    SendIsSafe(b, pid, to);
    assert b.subs[b.table[to]].client == to && b.subs[sid].client == client;
  }

  lemma QuietStepKeepsHands(b: Bus, a: Action, client: string, p: nat)
    requires Enabled(b, a) && !a.Begin? && !a.Send?
    ensures InHand(Next(b, a), p, client) == InHand(b, p, client)
  {
  }

  lemma QuietStepKeepsDrops(b: Bus, a: Action, sid: nat)
    requires Enabled(b, a) && !a.Begin? && !a.Send? && sid in b.subs
    ensures sid in Next(b, a).subs && Next(b, a).subs[sid].dropped == b.subs[sid].dropped
  {
  }

  /** Any other step leaves the arrivals of the subscription and what is on its way alone. */
  lemma OtherStepKeepsArrivals(b: Bus, a: Action, sid: nat, client: string, p: nat)
    requires Inv(b) && Enabled(b, a) && Holds(b, sid, client) && !a.Begin? && (a.Send? ==> a.client != client)
    ensures sid in Next(b, a).subs && Arrived(Next(b, a).subs[sid]) == Arrived(b.subs[sid])
    ensures Next(b, a).subs[sid].dropped == b.subs[sid].dropped
    ensures InHand(Next(b, a), p, client) == InHand(b, p, client)
  {
    if a.Send? {
      OtherSendKeepsArrivals(b, a.pid, a.client, sid, client, p);
    } else {
      OthersArriveNothing(b, a, sid);
      QuietStepKeepsHands(b, a, client, p);
      QuietStepKeepsDrops(b, a, sid);
    }
  }

  lemma DropsStay(b: Bus, a: Action, sid: nat, client: string)
    requires Inv(b) && Enabled(b, a) && Holds(b, sid, client)
    ensures sid in Next(b, a).subs && Next(b, a).subs[sid].dropped >= b.subs[sid].dropped
  {
    if a.Send? {
      SendIsSafe(b, a.pid, a.client);
    } else if !a.Begin? {
      OtherStepKeepsArrivals(b, a, sid, client, 0);
    }
  }

  lemma StepKeepsComplete(b: Bus, a: Action, sid: nat, client: string, past: seq<Action>, p: nat)
    requires Inv(b) && Enabled(b, a) && Holds(b, sid, client) && Complete(b, sid, client, past, p)
    ensures sid in Next(b, a).subs
    ensures Next(b, a).subs[sid].dropped == 0 ==> Complete(Next(b, a), sid, client, past + [a], p)
  {
    if a.Begin? {
      BeginKeepsComplete(b, a.pid, a.event, sid, client, past, p);
    } else if a.Send? && a.client == client {
      OwnSendKeepsComplete(b, a.pid, sid, client, past, p);
    } else {
      OtherStepKeepsArrivals(b, a, sid, client, p);
      PublishedAppend(past, a, p);
      EmptyConcat(PublishedBy(past, p));
    }
  }

  lemma {:induction false} RunKeepsComplete(b: Bus, actions: seq<Action>, sid: nat, client: string, past: seq<Action>,
      p: nat)
    requires Inv(b) && CanRun(b, actions) && HoldsThroughout(b, actions, sid, client)
    requires b.subs[sid].dropped == 0 ==> Complete(b, sid, client, past, p)
    ensures sid in Run(b, actions).subs && Run(b, actions).subs[sid].dropped >= b.subs[sid].dropped
    ensures Run(b, actions).subs[sid].dropped == 0 ==> Complete(Run(b, actions), sid, client, past + actions, p)
    decreases |actions|
  {
    if actions == [] {
      EmptyConcat(past);
    } else {
      var a := actions[0];
      DropsStay(b, a, sid, client);
      NextKeepsInv(b, a);
      if b.subs[sid].dropped == 0 {
        StepKeepsComplete(b, a, sid, client, past, p);
      }
      RunKeepsComplete(Next(b, a), actions[1..], sid, client, past + [a], p);
      assert past + [a] + actions[1..] == past + actions;
    }
  }

  /**
   * A subscription that stays registered and never had a full buffer gets every event published since
   * its registration, each publisher's in order, and nothing else: what has arrived from a publisher,
   * followed by the event that is on its way, is exactly what this publisher has published.
   */
  lemma AllPublishedEventsArrive(b: Bus, sid: nat, client: string, actions: seq<Action>, publisher: nat)
    requires Inv(b) && Enabled(b, Register(sid, client)) && CanRun(Next(b, Register(sid, client)), actions)
    requires HoldsThroughout(Next(b, Register(sid, client)), actions, sid, client)
    ensures var r := Run(Next(b, Register(sid, client)), actions);
            && sid in r.subs
            && (r.subs[sid].dropped == 0 ==>
                  EventsFrom(r.subs[sid].taken + r.subs[sid].buf, publisher) + InHand(r, publisher, client)
                  == PublishedBy(actions, publisher))
  {
    var start := Next(b, Register(sid, client));
    NextKeepsInv(b, Register(sid, client));
    assert Complete(start, sid, client, [], publisher);
    RunKeepsComplete(start, actions, sid, client, [], publisher);
    assert [] + actions == actions;
  }
}
