/**
 * The publish/subscribe buses as a system of steps: `MemoryBus`
 * (internal/bus/memory/bus.go) and the server's own subscriber table
 * (internal/bus/server_subscribe.go). Publishers share a read lock, so each send to each
 * subscriber is its own step; registering and unregistering take the write lock and wait
 * until no publisher holds the read lock.
 */
module PubSub {
  const CAPACITY := 100

  /** The two implementations differ in the duplicate check and in how a leaver cleans up. */
  datatype Variant = InMemory | Server

  /** An event as broadcast: who published it and as his how-many-th. */
  datatype Message = Message(publisher: nat, number: nat, event: string)

  /**
   * Streaming to its client; about to run its deferred cleanup; removed from the table but
   * with its channel still open; or gone with its channel closed.
   */
  datatype Phase = Streaming | Leaving | Removed | Gone

  /** One Subscribe call and the channel it made. */
  datatype Subscription = Subscription(
    client: string, phase: Phase, buf: seq<Message>, closed: bool,
    // history: how often a send was tried, how often it was dropped, and what was taken out
    attempted: nat, dropped: nat, taken: seq<Message>)

  /** A Publish call inside its loop: the clients it has not reached yet. */
  datatype Publication = Publication(message: Message, remaining: set<string>)

  datatype Bus = Bus(
    variant: Variant,
    table: map<string, nat>,
    subs: map<nat, Subscription>,
    publishing: map<nat, Publication>,
    count: map<nat, nat>,
    panicked: bool)

  function NewBus(variant: Variant): (b: Bus) {
    Bus(variant, map[], map[], map[], map[], false)
  }

  datatype Action =
    | Register(sid: nat, client: string)
    | Begin(pid: nat, event: string)
    | Send(pid: nat, client: string)
    | End(pid: nat)
    | Receive(sid: nat)
    | Leave(sid: nat)
    | Unregister(sid: nat)
    | Close(sid: nat)

  /** The subscription is known and in the given phase. */
  predicate InPhase(b: Bus, sid: nat, phase: Phase) {
    sid in b.subs && b.subs[sid].phase == phase
  }

  predicate Accepts(b: Bus, client: string) {
    b.variant == InMemory ==> client != "" && client !in b.table
  }

  /** What the step needs: the locks it waits for, and the call being at that point. */
  predicate Enabled(b: Bus, a: Action) {
    match a
    case Register(sid, client) => sid !in b.subs && b.publishing == map[] && Accepts(b, client)
    case Begin(pid, _) => pid !in b.publishing
    case Send(pid, client) =>
      && pid in b.publishing && client in b.publishing[pid].remaining
      && client in b.table && b.table[client] in b.subs
    case End(pid) => pid in b.publishing && b.publishing[pid].remaining == {}
    case Receive(sid) => InPhase(b, sid, Streaming) && b.subs[sid].buf != []
    case Leave(sid) => InPhase(b, sid, Streaming)
    case Unregister(sid) => InPhase(b, sid, Leaving) && b.publishing == map[]
    case Close(sid) => InPhase(b, sid, Removed)
  }

  /** A non-blocking send into a channel's buffer: when it is full the message is dropped. */
  function Buffered(buf: seq<Message>, m: Message): (r: seq<Message>) {
    if |buf| < CAPACITY then buf + [m] else buf
  }

  function Offer(s: Subscription, m: Message): (r: Subscription) {
    s.(buf := Buffered(s.buf, m), attempted := s.attempted + 1,
       dropped := if |s.buf| < CAPACITY then s.dropped else s.dropped + 1)
  }

  function CloseChannel(b: Bus, sid: nat): (r: Bus)
    requires sid in b.subs
  {
    if b.subs[sid].closed then b.(panicked := true)
    else b.(subs := b.subs[sid := b.subs[sid].(closed := true, phase := Gone)])
  }

  function Numbered(b: Bus, pid: nat): (n: nat) {
    if pid in b.count then b.count[pid] else 0
  }

  function Next(b: Bus, a: Action): (r: Bus)
    requires Enabled(b, a)
  {
    match a
    case Register(sid, client) =>
      b.(table := b.table[client := sid],
         subs := b.subs[sid := Subscription(client, Streaming, [], false, 0, 0, [])])
    case Begin(pid, event) =>
      b.(publishing := b.publishing[pid := Publication(Message(pid, Numbered(b, pid), event), b.table.Keys)],
         count := b.count[pid := Numbered(b, pid) + 1])
    case Send(pid, client) =>
      var p := b.publishing[pid];
      var sid := b.table[client];
      var rest := b.publishing[pid := p.(remaining := p.remaining - {client})];
      if b.subs[sid].closed then b.(publishing := rest, panicked := true)
      else b.(publishing := rest, subs := b.subs[sid := Offer(b.subs[sid], p.message)])
    case End(pid) => b.(publishing := b.publishing - {pid})
    case Receive(sid) =>
      var s := b.subs[sid];
      b.(subs := b.subs[sid := s.(buf := s.buf[1..], taken := s.taken + [s.buf[0]])])
    case Leave(sid) => b.(subs := b.subs[sid := b.subs[sid].(phase := Leaving)])
    case Unregister(sid) =>
      // the cleanup deletes by client id, whoever is registered under it
      var gone := b.(table := b.table - {b.subs[sid].client});
      if b.variant == InMemory then CloseChannel(gone, sid)
      else gone.(subs := b.subs[sid := b.subs[sid].(phase := Removed)])
    case Close(sid) => CloseChannel(b, sid)
  }

  /** The actions can be taken one after the other. */
  ghost predicate CanRun(b: Bus, actions: seq<Action>)
    decreases |actions|
  {
    actions == [] || (Enabled(b, actions[0]) && CanRun(Next(b, actions[0]), actions[1..]))
  }

  ghost function Run(b: Bus, actions: seq<Action>): (r: Bus)
    requires CanRun(b, actions)
    decreases |actions|
  {
    if actions == [] then b else Run(Next(b, actions[0]), actions[1..])
  }

  // ------------------------------------------------------------------ what every step keeps

  /** A registered channel is open and belongs to its client. */
  ghost predicate TableInv(b: Bus) {
    && (forall c <- b.table ::
          && b.table[c] in b.subs && b.subs[b.table[c]].client == c
          && (b.subs[b.table[c]].phase == Streaming || b.subs[b.table[c]].phase == Leaving))
    && (forall p <- b.publishing :: b.publishing[p].remaining <= b.table.Keys)
    && (b.variant == InMemory ==>
          && (forall sid <- b.subs :: b.subs[sid].phase != Removed)
          && (forall sid <- b.subs | b.subs[sid].phase == Streaming || b.subs[sid].phase == Leaving ::
                b.subs[sid].client in b.table && b.table[b.subs[sid].client] == sid))
  }

  /** Nothing is lost unaccounted for, and only a gone subscription's channel is closed. */
  predicate SubInv(s: Subscription) {
    && (s.closed <==> s.phase == Gone)
    && |s.buf| <= CAPACITY
    && s.attempted == |s.taken| + |s.buf| + s.dropped
  }

  /** Everything that reached the channel, in order. */
  function Arrived(s: Subscription): (m: seq<Message>) {
    s.taken + s.buf
  }

  predicate InOrder(ms: seq<Message>) {
    forall i, j :: 0 <= i < j < |ms| && ms[i].publisher == ms[j].publisher ==> ms[i].number < ms[j].number
  }

  /** Every arrived message precedes what its publisher is still to send to this client. */
  ghost predicate OrderInv(b: Bus, sid: nat)
    requires sid in b.subs
  {
    && InOrder(Arrived(b.subs[sid]))
    && (forall m | m in Arrived(b.subs[sid]) :: m.number < Numbered(b, m.publisher))
    && (forall p <- b.publishing | b.subs[sid].client in b.publishing[p].remaining ::
          forall m | m in Arrived(b.subs[sid]) && m.publisher == p :: m.number < b.publishing[p].message.number)
  }

  ghost predicate Inv(b: Bus) {
    && !b.panicked && TableInv(b)
    && (forall sid <- b.subs :: SubInv(b.subs[sid]) && OrderInv(b, sid))
    && (forall p <- b.publishing ::
          b.publishing[p].message.publisher == p && b.publishing[p].message.number < Numbered(b, p))
  }

  lemma NewBusInv(variant: Variant)
    ensures Inv(NewBus(variant))
  {
  }

  lemma OfferKeepsOrder(s: Subscription, m: Message)
    requires InOrder(Arrived(s))
    requires forall x | x in Arrived(s) && x.publisher == m.publisher :: x.number < m.number
    ensures InOrder(Arrived(Offer(s, m)))
    ensures forall x | x in Arrived(Offer(s, m)) :: x in Arrived(s) || x == m
  {
    if |s.buf| < CAPACITY {
      assert Arrived(Offer(s, m)) == Arrived(s) + [m];
      assert forall i :: 0 <= i < |Arrived(s)| ==> Arrived(s)[i] in Arrived(s);
    }
  }

  lemma TakeKeepsArrived(s: Subscription)
    requires s.buf != []
    ensures s.taken + [s.buf[0]] + s.buf[1..] == Arrived(s)
  {
  }

  /** The channel a publisher is about to send on is open. */
  lemma SendIsSafe(b: Bus, pid: nat, client: string)
    requires Inv(b) && Enabled(b, Send(pid, client))
    ensures !b.subs[b.table[client]].closed
  {
    assert SubInv(b.subs[b.table[client]]);
  }

  /** A step that touches one subscription only in its buffer keeps the table. */
  lemma BufferStepKeepsTable(b: Bus, r: Bus, sid: nat)
    requires TableInv(b) && sid in b.subs
    requires r.table == b.table && r.variant == b.variant
    requires r.subs.Keys == b.subs.Keys
    requires forall t <- b.subs :: r.subs[t].client == b.subs[t].client && r.subs[t].phase == b.subs[t].phase
    requires forall p <- r.publishing :: p in b.publishing && r.publishing[p].remaining <= b.publishing[p].remaining
    ensures TableInv(r)
  {
  }

  lemma RegisterKeepsTable(b: Bus, sid: nat, client: string)
    requires Inv(b) && Enabled(b, Register(sid, client))
    ensures TableInv(Next(b, Register(sid, client)))
  {
  }

  lemma LeaveKeepsTable(b: Bus, sid: nat)
    requires Inv(b) && Enabled(b, Leave(sid))
    ensures TableInv(Next(b, Leave(sid)))
  {
  }

  lemma UnregisterKeepsTable(b: Bus, sid: nat)
    requires Inv(b) && Enabled(b, Unregister(sid))
    ensures TableInv(Next(b, Unregister(sid))) && !Next(b, Unregister(sid)).panicked
  {
    assert SubInv(b.subs[sid]);
    var r := Next(b, Unregister(sid));
    assert forall c <- r.table :: b.subs[b.table[c]].client == c;
    assert forall c <- r.table :: r.table[c] != sid;
    if b.variant == InMemory {
      forall t <- r.subs | r.subs[t].phase == Streaming || r.subs[t].phase == Leaving
        ensures r.subs[t].client in r.table && r.table[r.subs[t].client] == t
      {
        assert b.table[b.subs[t].client] == t && b.table[b.subs[sid].client] == sid;
      }
    }
  }

  lemma CloseKeepsTable(b: Bus, sid: nat)
    requires Inv(b) && Enabled(b, Close(sid))
    ensures TableInv(Next(b, Close(sid))) && !Next(b, Close(sid)).panicked
  {
    assert SubInv(b.subs[sid]);
    assert forall c <- b.table :: b.table[c] != sid;
  }

  lemma NextKeepsTable(b: Bus, a: Action)
    requires Inv(b) && Enabled(b, a)
    ensures TableInv(Next(b, a)) && !Next(b, a).panicked
  {
    var r := Next(b, a);
    match a
    case Register(sid, client) => RegisterKeepsTable(b, sid, client);
    case Begin(_, _) =>
    case Send(pid, client) =>
      SendIsSafe(b, pid, client);
      BufferStepKeepsTable(b, r, b.table[client]);
    case End(_) =>
    case Receive(sid) => BufferStepKeepsTable(b, r, sid);
    case Leave(sid) => LeaveKeepsTable(b, sid);
    case Unregister(sid) => UnregisterKeepsTable(b, sid);
    case Close(sid) => CloseKeepsTable(b, sid);
  }

  lemma SendKeepsSubs(b: Bus, pid: nat, client: string)
    requires Inv(b) && Enabled(b, Send(pid, client))
    ensures var r := Next(b, Send(pid, client)); forall sid <- r.subs :: SubInv(r.subs[sid])
  {
    SendIsSafe(b, pid, client);
    assert SubInv(b.subs[b.table[client]]);
  }

  lemma NextKeepsSubs(b: Bus, a: Action)
    requires Inv(b) && Enabled(b, a)
    ensures var r := Next(b, a); forall sid <- r.subs :: SubInv(r.subs[sid])
  {
    match a
    case Send(pid, client) => SendKeepsSubs(b, pid, client);
    case Receive(sid) => assert SubInv(b.subs[sid]);
    case Leave(sid) => assert SubInv(b.subs[sid]);
    case Unregister(sid) => assert SubInv(b.subs[sid]);
    case Close(sid) => assert SubInv(b.subs[sid]);
    case _ =>
  }

  /** Steps that leave a subscription's arrivals and the publishers alone keep its order. */
  lemma SameArrivalsKeepOrder(b: Bus, r: Bus, sid: nat)
    requires sid in b.subs && OrderInv(b, sid) && sid in r.subs
    requires Arrived(r.subs[sid]) == Arrived(b.subs[sid]) && r.subs[sid].client == b.subs[sid].client
    requires r.count == b.count
    requires forall p <- r.publishing ::
               p in b.publishing && r.publishing[p].message == b.publishing[p].message
               && r.publishing[p].remaining <= b.publishing[p].remaining
    ensures OrderInv(r, sid)
  {
  }

  lemma BeginKeepsOrder(b: Bus, pid: nat, event: string, sid: nat)
    requires Inv(b) && Enabled(b, Begin(pid, event)) && sid in b.subs
    ensures OrderInv(Next(b, Begin(pid, event)), sid)
  {
    assert OrderInv(b, sid);
    var r := Next(b, Begin(pid, event));
    assert Arrived(r.subs[sid]) == Arrived(b.subs[sid]);
  }

  lemma SendKeepsOrder(b: Bus, pid: nat, client: string, sid: nat)
    requires Inv(b) && Enabled(b, Send(pid, client)) && sid in b.subs
    ensures OrderInv(Next(b, Send(pid, client)), sid)
  {
    assert OrderInv(b, sid);
    SendIsSafe(b, pid, client);
    var r := Next(b, Send(pid, client));
    var m := b.publishing[pid].message;
    if b.table[client] == sid {
      OfferKeepsOrder(b.subs[sid], m);
      forall x | x in Arrived(r.subs[sid])
        ensures x in Arrived(b.subs[sid]) || x == m
        ensures x.number < Numbered(r, x.publisher)
      {
      }
      forall p <- r.publishing, x | client in r.publishing[p].remaining && x in Arrived(r.subs[sid]) && x.publisher == p
        ensures x.number < r.publishing[p].message.number
      {
        assert p != pid;
        assert x in Arrived(b.subs[sid]);
      }
    } else {
      SameArrivalsKeepOrder(b, r, sid);
    }
  }

  lemma NextKeepsOrder(b: Bus, a: Action, sid: nat)
    requires Inv(b) && Enabled(b, a) && sid in b.subs
    ensures OrderInv(Next(b, a), sid)
  {
    assert OrderInv(b, sid);
    var r := Next(b, a);
    match a
    case Begin(pid, event) => BeginKeepsOrder(b, pid, event, sid);
    case Send(pid, client) => SendKeepsOrder(b, pid, client, sid);
    case Receive(t) =>
      TakeKeepsArrived(b.subs[t]);
      SameArrivalsKeepOrder(b, r, sid);
    case _ => SameArrivalsKeepOrder(b, r, sid);
  }

  lemma SamePublications(b: Bus, a: Action)
    requires Enabled(b, a) && !a.Begin? && !a.Send?
    ensures Next(b, a).publishing.Keys <= b.publishing.Keys && Next(b, a).count == b.count
    ensures forall p <- Next(b, a).publishing :: Next(b, a).publishing[p] == b.publishing[p]
  {
  }

  lemma NextKeepsPublishing(b: Bus, a: Action)
    requires Inv(b) && Enabled(b, a)
    ensures var r := Next(b, a);
            forall p <- r.publishing ::
              r.publishing[p].message.publisher == p && r.publishing[p].message.number < Numbered(r, p)
  {
    if !a.Begin? && !a.Send? {
      SamePublications(b, a);
    }
  }

  /** Every step of either bus keeps the invariant, also when clients reuse an id. */
  lemma NextKeepsInv(b: Bus, a: Action)
    requires Inv(b) && Enabled(b, a)
    ensures Inv(Next(b, a))
  {
    NextKeepsTable(b, a);
    NextKeepsSubs(b, a);
    NextKeepsPublishing(b, a);
    var r := Next(b, a);
    forall sid <- r.subs ensures OrderInv(r, sid) {
      if sid in b.subs {
        NextKeepsOrder(b, a, sid);
      } else {
        assert Arrived(r.subs[sid]) == [];
      }
    }
  }

  lemma {:induction false} RunKeepsInv(b: Bus, actions: seq<Action>)
    requires Inv(b) && CanRun(b, actions)
    ensures Inv(Run(b, actions))
    decreases |actions|
  {
    if actions != [] {
      NextKeepsInv(b, actions[0]);
      RunKeepsInv(Next(b, actions[0]), actions[1..]);
    }
  }

  // ------------------------------------------------------------------ the results

  /** In any run of either bus nothing is sent on or closes a closed channel, and a registered channel is open. */
  lemma ChannelsAreUsedSafely(variant: Variant, actions: seq<Action>)
    requires CanRun(NewBus(variant), actions)
    ensures var b := Run(NewBus(variant), actions);
            && !b.panicked
            && forall c <- b.table :: b.table[c] in b.subs && !b.subs[b.table[c]].closed
                && b.subs[b.table[c]].client == c
  {
    NewBusInv(variant);
    RunKeepsInv(NewBus(variant), actions);
    var b := Run(NewBus(variant), actions);
    assert forall c <- b.table :: SubInv(b.subs[b.table[c]]);
  }

  /** Every send to a subscriber is accounted for, and one publisher's events arrive in his order. */
  lemma DeliveriesAreConserved(variant: Variant, actions: seq<Action>, sid: nat)
    requires CanRun(NewBus(variant), actions) && sid in Run(NewBus(variant), actions).subs
    ensures var s := Run(NewBus(variant), actions).subs[sid];
            && s.attempted == |s.taken| + |s.buf| + s.dropped
            && |s.buf| <= CAPACITY
            && InOrder(s.taken + s.buf)
  {
    NewBusInv(variant);
    RunKeepsInv(NewBus(variant), actions);
    var b := Run(NewBus(variant), actions);
    assert SubInv(b.subs[sid]) && OrderInv(b, sid);
  }

  /** A send is dropped exactly when 100 messages are buffered; otherwise it is the last to arrive. */
  lemma DropsOnlyWhenFull(b: Bus, pid: nat, client: string)
    requires Inv(b) && Enabled(b, Send(pid, client))
    ensures var s, r := b.subs[b.table[client]], Next(b, Send(pid, client)).subs[b.table[client]];
            && (r.dropped == s.dropped + 1 <==> |s.buf| == CAPACITY)
            && Arrived(r) == if |s.buf| == CAPACITY then Arrived(s) else Arrived(s) + [b.publishing[pid].message]
  {
    SendIsSafe(b, pid, client);
    var s := b.subs[b.table[client]];
    assert SubInv(s);
    assert s.taken + (s.buf + [b.publishing[pid].message]) == s.taken + s.buf + [b.publishing[pid].message];
  }

  /** In the server's table, when a client id is reused, the first to leave unregisters the other. */
  lemma ServerCanForgetALiveClient(client: string)
    ensures var actions := [Register(0, client), Register(1, client), Leave(0), Unregister(0)];
            && CanRun(NewBus(Server), actions)
            && InPhase(Run(NewBus(Server), actions), 1, Streaming)
            && Run(NewBus(Server), actions).table == map[]
  {
    var b0 := NewBus(Server);
    var b1 := Next(b0, Register(0, client));
    var b2 := Next(b1, Register(1, client));
    var b3 := Next(b2, Leave(0));
    var b4 := Next(b3, Unregister(0));
    assert CanRun(b3, [Unregister(0)]) && Run(b3, [Unregister(0)]) == b4;
    assert CanRun(b2, [Leave(0), Unregister(0)]) && Run(b2, [Leave(0), Unregister(0)]) == b4;
    assert CanRun(b1, [Register(1, client), Leave(0), Unregister(0)])
           && Run(b1, [Register(1, client), Leave(0), Unregister(0)]) == b4;
    assert b4.table == map[];
  }

  // ------------------------------------------------------------------ subscribers do not interfere

  function TableOf(table: map<string, nat>, x: string): (r: map<string, nat>) {
    map c | c in table && c == x :: table[c]
  }

  function SubsOf(subs: map<nat, Subscription>, x: string): (r: map<nat, Subscription>) {
    map sid | sid in subs && subs[sid].client == x :: subs[sid]
  }

  function PublishingFor(publishing: map<nat, Publication>, x: string): (r: map<nat, Publication>) {
    map p | p in publishing :: publishing[p].(remaining := publishing[p].remaining * {x})
  }

  /** The bus as if only the client id `x` had ever subscribed. */
  function Restrict(b: Bus, x: string): (r: Bus) {
    Bus(b.variant, TableOf(b.table, x), SubsOf(b.subs, x), PublishingFor(b.publishing, x), b.count, b.panicked)
  }

  lemma SubsOfUpdate(subs: map<nat, Subscription>, sid: nat, s: Subscription, x: string)
    requires sid in subs ==> subs[sid].client == s.client
    ensures SubsOf(subs[sid := s], x) == if s.client == x then SubsOf(subs, x)[sid := s] else SubsOf(subs, x)
  {
  }

  lemma TableOfUpdate(table: map<string, nat>, client: string, sid: nat, x: string)
    ensures TableOf(table[client := sid], x) == if client == x then TableOf(table, x)[client := sid]
            else TableOf(table, x)
  {
  }

  lemma TableOfRemove(table: map<string, nat>, client: string, x: string)
    ensures TableOf(table - {client}, x) == if client == x then TableOf(table, x) - {client} else TableOf(table, x)
  {
  }

  lemma PublishingForSend(publishing: map<nat, Publication>, pid: nat, client: string, x: string)
    requires pid in publishing
    ensures var after := publishing[pid := publishing[pid].(remaining := publishing[pid].remaining - {client})];
            var r := PublishingFor(publishing, x);
            PublishingFor(after, x) == if client == x
                then r[pid := r[pid].(remaining := r[pid].remaining - {client})] else r
  {
    var remaining := publishing[pid].remaining;
    assert (remaining - {client}) * {x} == if client == x then remaining * {x} - {client} else remaining * {x};
  }

  lemma PublishingForBegin(publishing: map<nat, Publication>, pid: nat, m: Message, table: map<string, nat>, x: string)
    ensures PublishingFor(publishing[pid := Publication(m, table.Keys)], x)
            == PublishingFor(publishing, x)[pid := Publication(m, TableOf(table, x).Keys)]
  {
    assert TableOf(table, x).Keys == table.Keys * {x};
  }

  lemma PublishingForEnd(publishing: map<nat, Publication>, pid: nat, x: string)
    ensures PublishingFor(publishing - {pid}, x) == PublishingFor(publishing, x) - {pid}
  {
  }

  /** The action is a publisher's bookkeeping or concerns the client id `x`. */
  predicate Concerns(b: Bus, a: Action, x: string) {
    match a
    case Register(_, client) => client == x
    case Begin(_, _) => true
    case Send(_, client) => client == x
    case End(_) => true
    case Receive(sid) => sid in b.subs && b.subs[sid].client == x
    case Leave(sid) => sid in b.subs && b.subs[sid].client == x
    case Unregister(sid) => sid in b.subs && b.subs[sid].client == x
    case Close(sid) => sid in b.subs && b.subs[sid].client == x
  }

  ghost function OnlyConcerning(b: Bus, actions: seq<Action>, x: string): (r: seq<Action>)
    requires CanRun(b, actions)
    decreases |actions|
  {
    if actions == [] then []
    else
      var rest := OnlyConcerning(Next(b, actions[0]), actions[1..], x);
      if Concerns(b, actions[0], x) then [actions[0]] + rest else rest
  }

  lemma CloseRestricts(b: Bus, sid: nat, x: string)
    requires sid in b.subs && !b.subs[sid].closed
    ensures b.subs[sid].client == x ==>
              sid in Restrict(b, x).subs && Restrict(CloseChannel(b, sid), x) == CloseChannel(Restrict(b, x), sid)
    ensures b.subs[sid].client != x ==> Restrict(CloseChannel(b, sid), x) == Restrict(b, x)
  {
    SubsOfUpdate(b.subs, sid, b.subs[sid].(closed := true, phase := Gone), x);
  }

  lemma SendRestricts(b: Bus, pid: nat, client: string, x: string)
    requires Inv(b) && Enabled(b, Send(pid, client))
    ensures client == x ==>
              Enabled(Restrict(b, x), Send(pid, client))
              && Restrict(Next(b, Send(pid, client)), x) == Next(Restrict(b, x), Send(pid, client))
    ensures client != x ==> Restrict(Next(b, Send(pid, client)), x) == Restrict(b, x)
  {
    SendIsSafe(b, pid, client);
    var sid := b.table[client];
    assert b.subs[sid].client == client;
    PublishingForSend(b.publishing, pid, client, x);
    SubsOfUpdate(b.subs, sid, Offer(b.subs[sid], b.publishing[pid].message), x);
  }

  lemma UnregisterRestricts(b: Bus, sid: nat, x: string)
    requires Inv(b) && Enabled(b, Unregister(sid))
    ensures b.subs[sid].client == x ==>
              Enabled(Restrict(b, x), Unregister(sid))
              && Restrict(Next(b, Unregister(sid)), x) == Next(Restrict(b, x), Unregister(sid))
    ensures b.subs[sid].client != x ==> Restrict(Next(b, Unregister(sid)), x) == Restrict(b, x)
  {
    assert SubInv(b.subs[sid]);
    var client := b.subs[sid].client;
    TableOfRemove(b.table, client, x);
    assert Restrict(b, x).publishing == map[];
    var gone := b.(table := b.table - {client});
    CloseRestricts(gone, sid, x);
    SubsOfUpdate(b.subs, sid, b.subs[sid].(phase := Removed), x);
  }

  /** A step that concerns `x` is possible in the restricted bus and does the same there. */
  lemma ConcernedStepRestricts(b: Bus, a: Action, x: string)
    requires Inv(b) && Enabled(b, a) && Concerns(b, a, x)
    ensures Enabled(Restrict(b, x), a)
    ensures Restrict(Next(b, a), x) == Next(Restrict(b, x), a)
  {
    match a
    case Register(sid, client) =>
      assert Restrict(b, x).publishing == map[];
      TableOfUpdate(b.table, client, sid, x);
      SubsOfUpdate(b.subs, sid, Subscription(client, Streaming, [], false, 0, 0, []), x);
    case Begin(pid, event) => PublishingForBegin(b.publishing, pid, Message(pid, Numbered(b, pid), event), b.table, x);
    case Send(pid, client) => SendRestricts(b, pid, client, x);
    case End(pid) => PublishingForEnd(b.publishing, pid, x);
    case Receive(sid) => SubsOfUpdate(b.subs, sid, Next(b, a).subs[sid], x);
    case Leave(sid) => SubsOfUpdate(b.subs, sid, Next(b, a).subs[sid], x);
    case Unregister(sid) => UnregisterRestricts(b, sid, x);
    case Close(sid) =>
      assert SubInv(b.subs[sid]);
      CloseRestricts(b, sid, x);
  }

  /** Any other step is invisible there. */
  lemma OtherStepIsInvisible(b: Bus, a: Action, x: string)
    requires Inv(b) && Enabled(b, a) && !Concerns(b, a, x)
    ensures Restrict(Next(b, a), x) == Restrict(b, x)
  {
    match a
    case Register(sid, client) =>
      TableOfUpdate(b.table, client, sid, x);
      SubsOfUpdate(b.subs, sid, Subscription(client, Streaming, [], false, 0, 0, []), x);
    case Send(pid, client) => SendRestricts(b, pid, client, x);
    case Receive(sid) => SubsOfUpdate(b.subs, sid, Next(b, a).subs[sid], x);
    case Leave(sid) => SubsOfUpdate(b.subs, sid, Next(b, a).subs[sid], x);
    case Unregister(sid) => UnregisterRestricts(b, sid, x);
    case Close(sid) =>
      assert SubInv(b.subs[sid]);
      CloseRestricts(b, sid, x);
    case _ =>
  }

  /**
   * Subscribers do not interfere: dropping every action of every other client id leaves a run of
   * the bus in which the subscriptions of `x` go through exactly the same states.
   */
  lemma {:induction false} SubscribersDoNotInterfere(b: Bus, actions: seq<Action>, x: string)
    requires Inv(b) && CanRun(b, actions)
    ensures CanRun(Restrict(b, x), OnlyConcerning(b, actions, x))
    ensures Restrict(Run(b, actions), x) == Run(Restrict(b, x), OnlyConcerning(b, actions, x))
    decreases |actions|
  {
    if actions != [] {
      var a := actions[0];
      NextKeepsInv(b, a);
      SubscribersDoNotInterfere(Next(b, a), actions[1..], x);
      var rest := OnlyConcerning(Next(b, a), actions[1..], x);
      if Concerns(b, a, x) {
        ConcernedStepRestricts(b, a, x);
        assert ([a] + rest)[0] == a && ([a] + rest)[1..] == rest;
      } else {
        OtherStepIsInvisible(b, a, x);
      }
    }
  }
}
