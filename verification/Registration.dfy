/**
 * When a subscription stays in the subscriber table (internal/bus/server_subscribe.go,
 * internal/bus/memory/bus.go): as long as nobody registers under an id that a live subscription
 * holds. The memory bus refuses such a registration; the server's table lets it happen, and then
 * one of the two subscriptions is forgotten.
 */
module Registration {
  import opened PubSub

  /** The subscription has not run its cleanup: it is streaming, or about to leave. */
  predicate Live(b: Bus, sid: nat) {
    InPhase(b, sid, Streaming) || InPhase(b, sid, Leaving)
  }

  predicate Registered(b: Bus, sid: nat)
    requires sid in b.subs
  {
    b.subs[sid].client in b.table && b.table[b.subs[sid].client] == sid
  }

  ghost predicate AllRegistered(b: Bus) {
    forall sid | Live(b, sid) :: Registered(b, sid)
  }

  predicate Holds(b: Bus, sid: nat, client: string) {
    Live(b, sid) && b.subs[sid].client == client
  }

  /** A registration under an id that a live subscription holds. */
  ghost predicate ReusesLiveId(b: Bus, a: Action) {
    a.Register? && exists sid :: Holds(b, sid, a.client)
  }

  ghost predicate NoReuse(b: Bus, actions: seq<Action>)
    requires CanRun(b, actions)
    decreases |actions|
  {
    actions == [] || (!ReusesLiveId(b, actions[0]) && NoReuse(Next(b, actions[0]), actions[1..]))
  }

  /** At every point of the run every live subscription is registered. */
  ghost predicate AllRegisteredThroughout(b: Bus, actions: seq<Action>)
    requires CanRun(b, actions)
    decreases |actions|
  {
    AllRegistered(b) && (actions == [] || AllRegisteredThroughout(Next(b, actions[0]), actions[1..]))
  }

  /** The table is the same, and nobody came to life or changed his id. */
  ghost predicate NobodyNew(b: Bus, r: Bus) {
    r.table == b.table && forall sid | Live(r, sid) :: Live(b, sid) && r.subs[sid].client == b.subs[sid].client
  }

  lemma NobodyNewKeepsRegistered(b: Bus, r: Bus)
    requires AllRegistered(b) && NobodyNew(b, r)
    ensures AllRegistered(r)
  {
    forall sid | Live(r, sid) ensures Registered(r, sid) {
      assert Registered(b, sid);
    }
  }

  lemma RegisterKeepsRegistered(b: Bus, sid: nat, client: string)
    requires AllRegistered(b) && Enabled(b, Register(sid, client)) && !ReusesLiveId(b, Register(sid, client))
    ensures AllRegistered(Next(b, Register(sid, client)))
  {
    var r := Next(b, Register(sid, client));
    forall x | Live(r, x) ensures Registered(r, x) {
      if x != sid {
        assert Live(b, x) && Registered(b, x) && !Holds(b, x, client);
      }
    }
  }

  lemma UnregisterKeepsRegistered(b: Bus, leaver: nat)
    requires Inv(b) && AllRegistered(b) && Enabled(b, Unregister(leaver))
    ensures AllRegistered(Next(b, Unregister(leaver)))
  {
    assert SubInv(b.subs[leaver]);
    var r := Next(b, Unregister(leaver));
    forall x | Live(r, x) ensures Registered(r, x) {
      assert x != leaver && Live(b, x);
      OthersHoldOtherIds(b, x, leaver);
      assert Registered(b, x);
    }
  }

  /** Two registered subscriptions have different ids. */
  lemma OthersHoldOtherIds(b: Bus, sid: nat, leaver: nat)
    requires AllRegistered(b) && Live(b, sid) && Live(b, leaver) && sid != leaver
    ensures b.subs[sid].client != b.subs[leaver].client
  {
    assert Registered(b, sid) && Registered(b, leaver);
  }

  lemma OtherStepsAddNobody(b: Bus, a: Action)
    requires Enabled(b, a) && !a.Register? && !a.Unregister?
    ensures NobodyNew(b, Next(b, a))
  {
  }

  lemma StepKeepsRegistered(b: Bus, a: Action)
    requires Inv(b) && AllRegistered(b) && Enabled(b, a) && !ReusesLiveId(b, a)
    ensures AllRegistered(Next(b, a))
  {
    if a.Register? {
      RegisterKeepsRegistered(b, a.sid, a.client);
    } else if a.Unregister? {
      UnregisterKeepsRegistered(b, a.sid);
    } else {
      OtherStepsAddNobody(b, a);
      NobodyNewKeepsRegistered(b, Next(b, a));
    }
  }

  lemma ReuseUnregisters(b: Bus, a: Action)
    requires Enabled(b, a) && ReusesLiveId(b, a)
    ensures !AllRegistered(Next(b, a))
  {
    var holder :| Holds(b, holder, a.client);
    assert Live(Next(b, a), holder) && !Registered(Next(b, a), holder);
  }

  /** Every live subscription stays registered throughout a run exactly when no live id is reused in it. */
  lemma {:induction false} RegisteredExactlyWithoutReuse(b: Bus, actions: seq<Action>)
    requires Inv(b) && AllRegistered(b) && CanRun(b, actions)
    ensures AllRegisteredThroughout(b, actions) <==> NoReuse(b, actions)
    decreases |actions|
  {
    if actions != [] {
      if ReusesLiveId(b, actions[0]) {
        ReuseUnregisters(b, actions[0]);
      } else {
        NextKeepsInv(b, actions[0]);
        StepKeepsRegistered(b, actions[0]);
        RegisteredExactlyWithoutReuse(Next(b, actions[0]), actions[1..]);
      }
    }
  }

  /** Of either bus from its start. */
  lemma RunsRegisteredExactlyWithoutReuse(variant: Variant, actions: seq<Action>)
    requires CanRun(NewBus(variant), actions)
    ensures AllRegisteredThroughout(NewBus(variant), actions) <==> NoReuse(NewBus(variant), actions)
  {
    NewBusInv(variant);
    RegisteredExactlyWithoutReuse(NewBus(variant), actions);
  }

  /** The memory bus refuses every reuse, so there no run has one. */
  lemma {:induction false} MemoryBusNeverReuses(b: Bus, actions: seq<Action>)
    requires Inv(b) && b.variant == InMemory && AllRegistered(b) && CanRun(b, actions)
    ensures NoReuse(b, actions) && AllRegisteredThroughout(b, actions)
    decreases |actions|
  {
    if actions != [] {
      var a := actions[0];
      if a.Register? {
        forall sid ensures !Holds(b, sid, a.client) {
          assert Live(b, sid) ==> Registered(b, sid);
        }
      }
      NextKeepsInv(b, a);
      StepKeepsRegistered(b, a);
      MemoryBusNeverReuses(Next(b, a), actions[1..]);
    }
  }

  /** So in every run of the memory bus every live subscription is registered at every point. */
  lemma MemoryBusKeepsLiveClients(actions: seq<Action>)
    requires CanRun(NewBus(InMemory), actions)
    ensures AllRegisteredThroughout(NewBus(InMemory), actions)
  {
    NewBusInv(InMemory);
    MemoryBusNeverReuses(NewBus(InMemory), actions);
  }

  // ------------------------------------------------------------------ what a reuse costs

  /** A client is still being streamed to, but its channel is not in the table any more. */
  ghost predicate Forgotten(b: Bus, sid: nat) {
    InPhase(b, sid, Streaming) && !Registered(b, sid)
  }

  predicate CleanupOnly(actions: seq<Action>) {
    forall a | a in actions :: a.Unregister?
  }

  /** Cleanups alone can lead to a forgotten client. */
  ghost predicate Forgets(b: Bus, cleanups: seq<Action>) {
    CleanupOnly(cleanups) && CanRun(b, cleanups) && exists sid :: Forgotten(Run(b, cleanups), sid)
  }

  /**
   * What a registration under a live id does on the server: a streaming holder is forgotten at
   * once, and after a leaving holder's own cleanup the newcomer is.
   */
  lemma ReuseForgets(b: Bus, sid: nat, client: string, holder: nat) returns (cleanups: seq<Action>)
    requires b.variant == Server && Enabled(b, Register(sid, client)) && Holds(b, holder, client)
    ensures Forgets(Next(b, Register(sid, client)), cleanups)
    ensures InPhase(b, holder, Streaming) ==> cleanups == []
    ensures InPhase(b, holder, Leaving) ==> cleanups == [Unregister(holder)]
  {
    var r := Next(b, Register(sid, client));
    if InPhase(b, holder, Streaming) {
      cleanups := [];
      assert Forgotten(Run(r, []), holder);
    } else {
      cleanups := [Unregister(holder)];
      var gone := Next(r, Unregister(holder));
      assert cleanups[1..] == [] && CanRun(gone, []);
      assert Run(r, cleanups) == gone;
      assert Forgotten(gone, sid);
    }
  }

  lemma {:induction false} CleanupsForgetNobody(b: Bus, cleanups: seq<Action>)
    requires Inv(b) && AllRegistered(b) && CleanupOnly(cleanups) && CanRun(b, cleanups)
    ensures AllRegistered(Run(b, cleanups))
    decreases |cleanups|
  {
    if cleanups != [] {
      assert cleanups[0] in cleanups;
      NextKeepsInv(b, cleanups[0]);
      StepKeepsRegistered(b, cleanups[0]);
      CleanupsForgetNobody(Next(b, cleanups[0]), cleanups[1..]);
    }
  }

  /** A registration on the server can cost somebody his events exactly when it reuses a live id. */
  lemma RegisteringForgetsExactlyOnReuse(b: Bus, sid: nat, client: string)
    requires Inv(b) && b.variant == Server && AllRegistered(b) && Enabled(b, Register(sid, client))
    ensures (exists cleanups :: Forgets(Next(b, Register(sid, client)), cleanups))
            <==> ReusesLiveId(b, Register(sid, client))
  {
    var a := Register(sid, client);
    var r := Next(b, a);
    if ReusesLiveId(b, a) {
      var holder :| Holds(b, holder, client);
      var cleanups := ReuseForgets(b, sid, client, holder);
    } else {
      NextKeepsInv(b, a);
      StepKeepsRegistered(b, a);
      forall cleanups ensures !Forgets(r, cleanups) {
        if CleanupOnly(cleanups) && CanRun(r, cleanups) {
          CleanupsForgetNobody(r, cleanups);
          assert forall x :: Live(Run(r, cleanups), x) ==> Registered(Run(r, cleanups), x);
        }
      }
    }
  }
}
