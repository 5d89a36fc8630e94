/**
 * When a graceful shutdown (cmd/pcas/cmd/serve.go) comes to its end. After the signal every step
 * that changes anything lowers a rank, under every schedule and every failure, so the server's
 * own steps always run out; they end with storage closed exactly when no subscription was open,
 * because GracefulStop waits for subscriptions and only their clients end them.
 */
module ShutdownProgress {
  import opened Wrappers
  import opened GraphStore
  import opened Shutdown

  // ------------------------------------------------------------------ sums over maps

  ghost function Pick(m: map<nat, nat>): (k: nat)
    requires m != map[]
    ensures k in m
  {
    var k :| k in m;
    k
  }

  ghost function Total(m: map<nat, nat>): (total: nat)
    decreases |m|
  {
    if m == map[] then 0
    else
      var k := Pick(m);
      RemoveIsSmaller(m, k);
      m[k] + Total(m - {k})
  }

  lemma RemoveIsSmaller(m: map<nat, nat>, k: nat)
    requires k in m
    ensures |m - {k}| == |m| - 1
  {
    assert (m - {k}).Keys == m.Keys - {k};
  }

  /** Any entry can be taken out first. */
  lemma {:induction false} TotalWithout(m: map<nat, nat>, k: nat)
    requires k in m
    ensures Total(m) == m[k] + Total(m - {k})
    decreases |m|
  {
    var j := Pick(m);
    if j != k {
      RemoveIsSmaller(m, j);
      RemoveIsSmaller(m, k);
      TotalWithout(m - {j}, k);
      TotalWithout(m - {k}, j);
      assert m - {j} - {k} == m - {k} - {j};
    }
  }

  lemma {:induction false} TotalBelow(n: map<nat, nat>, m: map<nat, nat>)
    requires n.Keys <= m.Keys && forall k <- n :: n[k] <= m[k]
    ensures Total(n) <= Total(m)
    decreases |m|
  {
    if m != map[] {
      var k := Pick(m);
      RemoveIsSmaller(m, k);
      TotalWithout(m, k);
      if k in n {
        TotalWithout(n, k);
        TotalBelow(n - {k}, m - {k});
      } else {
        TotalBelow(n, m - {k});
      }
    }
  }

  /** Nothing but entry k rises. */
  predicate RisesOnlyAt(n: map<nat, nat>, m: map<nat, nat>, k: nat) {
    forall x <- n | x != k :: x in m && n[x] <= m[x]
  }

  function At(m: map<nat, nat>, k: nat): (v: nat) {
    if k in m then m[k] else 0
  }

  lemma TotalAfterChange(n: map<nat, nat>, m: map<nat, nat>, k: nat)
    requires RisesOnlyAt(n, m, k)
    ensures Total(n) + At(m, k) <= Total(m) + At(n, k)
  {
    if k in m {
      TotalWithout(m, k);
    } else {
      assert m - {k} == m;
    }
    if k in n {
      TotalWithout(n, k);
    } else {
      assert n - {k} == n;
    }
    TotalBelow(n - {k}, m - {k});
  }

  // ------------------------------------------------------------------ the rank

  /** The statements left to a storage operation. */
  function OpRank(s: Sys, pid: nat): (rank: nat) {
    if pid in s.machine.ops then Remaining(s.machine.ops[pid]) else 0
  }

  function TaskRank(s: Sys, task: Task): (rank: nat) {
    match task
    case Embedding(_) => 7
    case Attaching(_, pid, _) => 2 + OpRank(s, pid)
    case Returning(_, _) => 1
    case Finished(_, _) => 0
  }

  /** An RPC that may still start a task outweighs the task. */
  function RpcRank(s: Sys, rpc: Rpc): (rank: nat)
    ensures rank > 0
  {
    match rpc
    case Storing(_, pid) => 16 + OpRank(s, pid)
    case Adding(_) => 15
    case Spawning(_) => 14
    case Answering => 6
    case Responding(pid) => 1 + OpRank(s, pid)
    case Reading => 1
    case Interacting => 1
    case Subscribed => 1
  }

  function PhaseRank(phase: Phase): (rank: nat) {
    match phase
    case Serving => 5
    case Stopping => 4
    case Waiting => 3
    case Saving => 2
    case Saved => 1
    case Closed => 0
  }

  function RpcRanks(s: Sys): (ranks: map<nat, nat>) {
    map rid | rid in s.rpcs :: RpcRank(s, s.rpcs[rid])
  }

  function TaskRanks(s: Sys): (ranks: map<nat, nat>) {
    map tid | tid in s.tasks :: TaskRank(s, s.tasks[tid])
  }

  ghost function Rank(s: Sys): (rank: nat) {
    Total(RpcRanks(s)) + Total(TaskRanks(s)) + PhaseRank(s.phase)
  }

  lemma StatementLowersRemaining(store: Store, op: Operation, env: Env)
    ensures Remaining(GraphStore.Step(store, op, env).1) <= Remaining(op)
    ensures !op.Done() ==> Remaining(GraphStore.Step(store, op, env).1) < Remaining(op)
  {
  }

  /** No operation that was started ever has more left to do. */
  ghost predicate OpsFall(s: Sys, r: Sys) {
    forall pid <- s.machine.ops :: pid in r.machine.ops && OpRank(r, pid) <= OpRank(s, pid)
  }

  lemma NextFalls(s: Sys, r: Sys, action: Action)
    requires r.machine == s.machine || r.machine == Next(s.machine, action)
    ensures OpsFall(s, r)
  {
    if action.Advance? && action.pid in s.machine.ops {
      StatementLowersRemaining(s.machine.store, s.machine.ops[action.pid], action.env);
    }
  }

  /** A place whose storage operation, if it has one, was started. */
  predicate RpcStarted(s: Sys, rpc: Rpc) {
    rpc.Storing? || rpc.Responding? ==> rpc.pid in s.machine.ops
  }

  predicate TaskStarted(s: Sys, task: Task) {
    task.Attaching? ==> task.pid in s.machine.ops
  }

  lemma RpcRankFalls(s: Sys, r: Sys, rpc: Rpc)
    requires OpsFall(s, r) && RpcStarted(s, rpc)
    ensures RpcRank(r, rpc) <= RpcRank(s, rpc)
  {
  }

  lemma TaskRankFalls(s: Sys, r: Sys, task: Task)
    requires OpsFall(s, r) && TaskStarted(s, task)
    ensures TaskRank(r, task) <= TaskRank(s, task)
  {
  }

  lemma RpcRanksFall(s: Sys, r: Sys, rid: nat)
    requires OpsFall(s, r) && StartedInv(s)
    requires forall x <- r.rpcs | x != rid :: x in s.rpcs && r.rpcs[x] == s.rpcs[x]
    ensures RisesOnlyAt(RpcRanks(r), RpcRanks(s), rid)
  {
    forall x <- r.rpcs | x != rid ensures RpcRanks(r)[x] <= RpcRanks(s)[x] {
      RpcRankFalls(s, r, s.rpcs[x]);
    }
  }

  lemma TaskRanksFall(s: Sys, r: Sys, tid: nat)
    requires OpsFall(s, r) && StartedInv(s)
    requires forall x <- r.tasks | x != tid :: x in s.tasks && r.tasks[x] == s.tasks[x]
    ensures RisesOnlyAt(TaskRanks(r), TaskRanks(s), tid)
  {
    forall x <- r.tasks | x != tid ensures TaskRanks(r)[x] <= TaskRanks(s)[x] {
      TaskRankFalls(s, r, s.tasks[x]);
    }
  }

  // ------------------------------------------------------------------ every effective step lowers it

  /** The rank that an RPC's own step leaves it, with room for a task that it starts. */
  predicate RpcFalls(s: Sys, r: Sys, rid: nat, a: Step)
    requires rid in s.rpcs
  {
    && (forall x <- r.rpcs | x != rid :: x in s.rpcs && r.rpcs[x] == s.rpcs[x])
    && r.phase == s.phase
    && At(RpcRanks(r), rid) < At(RpcRanks(s), rid)
    && (r.tasks == s.tasks
        || (a.RpcSpawn? && a.tid !in s.tasks
            && (forall x <- r.tasks | x != a.tid :: x in s.tasks && r.tasks[x] == s.tasks[x])
            && At(TaskRanks(r), a.tid) == 7 && At(RpcRanks(r), rid) + 8 <= At(RpcRanks(s), rid)))
  }

  lemma StoringFalls(s: Sys, rid: nat, a: Step)
    requires StartedInv(s) && Running(s, rid) && s.rpcs[rid].Storing? && !s.phase.Closing()
    requires RpcStep(s, rid, a) != s
    ensures RpcFalls(s, RpcStep(s, rid, a), rid, a)
  {
    var pid := s.rpcs[rid].pid;
    StatementLowersRemaining(s.machine.store, s.machine.ops[pid], a.env);
  }

  lemma RespondingFalls(s: Sys, rid: nat, a: Step)
    requires StartedInv(s) && Running(s, rid) && s.rpcs[rid].Responding? && !s.phase.Closing()
    requires RpcStep(s, rid, a) != s
    ensures RpcFalls(s, RpcStep(s, rid, a), rid, a)
  {
    var pid := s.rpcs[rid].pid;
    StatementLowersRemaining(s.machine.store, s.machine.ops[pid], a.env);
  }

  lemma SpawningFalls(s: Sys, rid: nat, a: Step)
    requires Running(s, rid) && (s.rpcs[rid].Adding? || s.rpcs[rid].Spawning?)
    requires RpcStep(s, rid, a) != s
    ensures RpcFalls(s, RpcStep(s, rid, a), rid, a)
  {
  }

  lemma AnsweringFalls(s: Sys, rid: nat, a: Step)
    requires Running(s, rid) && s.rpcs[rid].Answering? && !s.phase.Closing()
    requires RpcStep(s, rid, a) != s
    ensures RpcFalls(s, RpcStep(s, rid, a), rid, a)
  {
  }

  lemma OtherRpcFalls(s: Sys, rid: nat, a: Step)
    requires Running(s, rid) && (s.rpcs[rid].Reading? || s.rpcs[rid].Interacting? || s.rpcs[rid].Subscribed?)
    requires !s.phase.Closing() && RpcStep(s, rid, a) != s
    ensures RpcFalls(s, RpcStep(s, rid, a), rid, a)
  {
  }

  lemma RpcStepLowersRank(s: Sys, rid: nat, a: Step)
    requires SysInv(s) && Running(s, rid) && RpcStep(s, rid, a) != s
    ensures Rank(RpcStep(s, rid, a)) < Rank(s)
  {
    assert s.rpcs != map[];
    var r := RpcStep(s, rid, a);
    if s.rpcs[rid].Storing? {
      StoringFalls(s, rid, a);
    } else if s.rpcs[rid].Responding? {
      RespondingFalls(s, rid, a);
    } else if s.rpcs[rid].Adding? || s.rpcs[rid].Spawning? {
      SpawningFalls(s, rid, a);
    } else if s.rpcs[rid].Answering? {
      AnsweringFalls(s, rid, a);
    } else {
      OtherRpcFalls(s, rid, a);
    }
    var action := RpcStepMoves(s, rid, a);
    NextFalls(s, r, action);
    RpcRanksFall(s, r, rid);
    TotalAfterChange(RpcRanks(r), RpcRanks(s), rid);
    var tid := if a.RpcSpawn? then a.tid else 0;
    TaskRanksFall(s, r, tid);
    if r.tasks == s.tasks {
      TaskRanksStay(s, r);
    } else {
      TotalAfterChange(TaskRanks(r), TaskRanks(s), tid);
    }
  }

  lemma TaskRanksStay(s: Sys, r: Sys)
    requires OpsFall(s, r) && StartedInv(s) && r.tasks == s.tasks
    ensures Total(TaskRanks(r)) <= Total(TaskRanks(s))
  {
    forall x <- r.tasks ensures TaskRanks(r)[x] <= TaskRanks(s)[x] {
      TaskRankFalls(s, r, s.tasks[x]);
    }
    TotalBelow(TaskRanks(r), TaskRanks(s));
  }

  lemma RpcRanksStay(s: Sys, r: Sys)
    requires OpsFall(s, r) && StartedInv(s) && r.rpcs == s.rpcs
    ensures Total(RpcRanks(r)) <= Total(RpcRanks(s))
  {
    forall x <- r.rpcs ensures RpcRanks(r)[x] <= RpcRanks(s)[x] {
      RpcRankFalls(s, r, s.rpcs[x]);
    }
    TotalBelow(RpcRanks(r), RpcRanks(s));
  }

  predicate TaskFalls(s: Sys, r: Sys, tid: nat)
    requires tid in s.tasks
  {
    && (forall x <- r.tasks | x != tid :: x in s.tasks && r.tasks[x] == s.tasks[x])
    && r.phase == s.phase && r.rpcs == s.rpcs
    && At(TaskRanks(r), tid) < At(TaskRanks(s), tid)
  }

  lemma TaskStepFalls(s: Sys, tid: nat, a: Step)
    requires StartedInv(s) && tid in s.tasks && !s.phase.Closing()
    requires TaskStep(s, tid, a) != s
    ensures TaskFalls(s, TaskStep(s, tid, a), tid)
  {
    if s.tasks[tid].Attaching? && a.TaskStore? {
      StatementLowersRemaining(s.machine.store, s.machine.ops[s.tasks[tid].pid], a.env);
    }
  }

  lemma TaskStepLowersRank(s: Sys, tid: nat, a: Step)
    requires SysInv(s) && tid in s.tasks && TaskStep(s, tid, a) != s
    ensures Rank(TaskStep(s, tid, a)) < Rank(s)
  {
    var r := TaskStep(s, tid, a);
    if s.phase.Closing() {
      ClosingIsIdle(s);
    } else {
      TaskStepFalls(s, tid, a);
      var action := TaskStepMoves(s, tid, a);
      NextFalls(s, r, action);
      TaskRanksFall(s, r, tid);
      TotalAfterChange(TaskRanks(r), TaskRanks(s), tid);
      RpcRanksStay(s, r);
    }
  }

  lemma HandlerLowersRank(s: Sys, a: Step)
    requires HandlerStep(s, a) != s
    ensures Rank(HandlerStep(s, a)) < Rank(s)
  {
    var r := HandlerStep(s, a);
    assert RpcRanks(r) == RpcRanks(s) && TaskRanks(r) == TaskRanks(s);
  }

  /** After the signal, whatever step changes the system lowers its rank. */
  lemma EffectiveStepLowersRank(s: Sys, a: Step)
    requires SysInv(s) && !s.phase.Serving? && Do(s, a) != s
    ensures Rank(Do(s, a)) < Rank(s)
  {
    if ByRpc(a) {
      RpcStepLowersRank(s, a.rid, a);
    } else if ByTask(a) {
      TaskStepLowersRank(s, a.tid, a);
    } else {
      HandlerLowersRank(s, a);
    }
  }

  // ------------------------------------------------------------------ what is left when nothing moves

  /** The steps that need no client: those of the server's calls, interactions and tasks. */
  predicate OwnStep(a: Step) {
    !a.ClientLeaves?
  }

  function Subscriptions(s: Sys): (rids: set<nat>) {
    set rid | rid in s.rpcs && s.rpcs[rid].Subscribed?
  }

  /** No step of the server's own changes anything any more. */
  ghost predicate Settled(s: Sys) {
    forall a | OwnStep(a) :: Do(s, a) == s
  }

  lemma {:induction false} SomeUnused(used: set<nat>) returns (n: nat)
    ensures n !in used
    ensures forall x <- used :: x < n
  {
    if used == {} {
      return 0;
    }
    var x :| x in used;
    var m := SomeUnused(used - {x});
    n := if m > x then m else x + 1;
    forall y <- used ensures y < n {
      assert y == x || y in used - {x};
    }
    assert n !in used;
  }

  const CALM := Env(false, "", "")

  /** An RPC other than a subscription has a step. */
  lemma RpcCanMove(s: Sys, rid: nat) returns (a: Step)
    requires StartedInv(s) && !s.phase.Closing() && Running(s, rid) && !s.rpcs[rid].Subscribed?
    ensures OwnStep(a) && Do(s, a) != s
  {
    match s.rpcs[rid]
    case Storing(_, pid) =>
      a := RpcStore(rid, CALM);
      StatementLowersRemaining(s.machine.store, s.machine.ops[pid], CALM);
    case Adding(_) => a := RpcAdd(rid);
    case Spawning(_) =>
      var tid := SomeUnused(s.tasks.Keys);
      a := RpcSpawn(rid, tid);
    case Responding(pid) =>
      a := RpcStoreResponse(rid, CALM);
      StatementLowersRemaining(s.machine.store, s.machine.ops[pid], CALM);
    case Answering => a := RpcFinish(rid);
    case Reading => a := RpcFinish(rid);
    case Interacting => a := RpcFinish(rid);
    case Subscribed => assert false;
  }

  lemma TaskCanMove(s: Sys, tid: nat) returns (a: Step)
    requires StartedInv(s) && !s.phase.Closing() && tid in s.tasks && !s.tasks[tid].Finished?
    ensures OwnStep(a) && Do(s, a) != s
  {
    match s.tasks[tid]
    case Embedding(_) => a := TaskEmbed(tid, None, 0);
    case Attaching(_, pid, _) =>
      a := TaskStore(tid, CALM);
      StatementLowersRemaining(s.machine.store, s.machine.ops[pid], CALM);
    case _ => a := TaskDone(tid);
  }

  /** With no subscription open there is always a step, until storage is closed. */
  lemma CanMove(s: Sys) returns (a: Step)
    requires SysInv(s) && !s.phase.Serving? && !s.phase.Closed? && Subscriptions(s) == {}
    ensures OwnStep(a) && Do(s, a) != s
  {
    if s.rpcs != map[] {
      var rid :| rid in s.rpcs;
      assert rid !in Subscriptions(s);
      a := RpcCanMove(s, rid);
    } else if s.phase.Stopping? {
      a := StopReturns;
    } else if s.phase.Waiting? {
      a := WaitCanMove(s);
    } else if s.phase.Saving? {
      a := SaveIndex(true);
    } else {
      a := CloseDatabase;
    }
  }

  lemma WaitCanMove(s: Sys) returns (a: Step)
    requires SysInv(s) && s.phase.Waiting? && s.rpcs == map[]
    ensures OwnStep(a) && Do(s, a) != s
  {
    if Unfinished(s) == {} {
      assert AboutToSpawn(s) == {};
      a := WaitReturns;
    } else {
      var tid :| tid in Unfinished(s);
      a := TaskCanMove(s, tid);
    }
  }

  lemma ClosedIsSettled(s: Sys)
    requires SysInv(s) && s.phase.Closed?
    ensures Settled(s)
  {
    ClosingIsIdle(s);
  }

  /** The server's own steps neither open nor end a subscription after the signal. */
  lemma OwnStepKeepsSubscriptions(s: Sys, a: Step)
    requires !s.phase.Serving? && OwnStep(a)
    ensures Subscriptions(Do(s, a)) == Subscriptions(s) && !Do(s, a).phase.Serving?
  {
    var r := Do(s, a);
    if ByRpc(a) && Running(s, a.rid) {
      OwnRpcStepKeepsSubscriptions(s, a.rid, a);
    } else {
      assert r.rpcs == s.rpcs;
    }
  }

  lemma OwnRpcStepKeepsSubscriptions(s: Sys, rid: nat, a: Step)
    requires Running(s, rid) && OwnStep(a)
    ensures Subscriptions(RpcStep(s, rid, a)) == Subscriptions(s)
  {
    if s.rpcs[rid].Subscribed? {
      assert RpcStep(s, rid, a) == s;
    } else {
      NobodySubscribes(s, rid, a);
      SubscriptionsElsewhere(s, RpcStep(s, rid, a), rid);
    }
  }

  lemma NobodySubscribes(s: Sys, rid: nat, a: Step)
    requires Running(s, rid) && !s.rpcs[rid].Subscribed?
    ensures var r := RpcStep(s, rid, a);
            (rid in r.rpcs ==> !r.rpcs[rid].Subscribed?) && r.rpcs - {rid} == s.rpcs - {rid}
  {
    OnlyItsOwnPlace(s, rid, a);
  }

  lemma SubscriptionsElsewhere(s: Sys, r: Sys, rid: nat)
    requires rid in s.rpcs && !s.rpcs[rid].Subscribed? && (rid in r.rpcs ==> !r.rpcs[rid].Subscribed?)
    requires r.rpcs - {rid} == s.rpcs - {rid}
    ensures Subscriptions(r) == Subscriptions(s)
  {
    forall x ensures x in Subscriptions(r) <==> x in Subscriptions(s) {
      if x != rid {
        assert x in r.rpcs <==> x in r.rpcs - {rid};
        assert x in s.rpcs <==> x in s.rpcs - {rid};
      }
    }
  }

  // ------------------------------------------------------------------ every schedule

  predicate OwnSteps(steps: seq<Step>) {
    forall a | a in steps :: OwnStep(a)
  }

  /** How many of the steps change the system. */
  function Effective(s: Sys, steps: seq<Step>): (n: nat)
    decreases |steps|
  {
    if steps == [] then 0
    else (if Do(s, steps[0]) != s then 1 else 0) + Effective(Do(s, steps[0]), steps[1..])
  }

  /** Every schedule after the signal has at most as many effective steps as the rank it starts from. */
  lemma {:induction false} SchedulesAreFinite(s: Sys, steps: seq<Step>)
    requires SysInv(s) && !s.phase.Serving?
    ensures Effective(s, steps) + Rank(DoAll(s, steps)) <= Rank(s)
    decreases |steps|
  {
    if steps != [] {
      var a := steps[0];
      DoKeepsInv(s, a);
      ServingIsOver(s, a);
      SchedulesAreFinite(Do(s, a), steps[1..]);
      if Do(s, a) != s {
        EffectiveStepLowersRank(s, a);
      }
    }
  }

  lemma ServingIsOver(s: Sys, a: Step)
    requires !s.phase.Serving?
    ensures !Do(s, a).phase.Serving?
  {
  }

  lemma {:induction false} OwnStepsKeepSubscriptions(s: Sys, steps: seq<Step>)
    requires SysInv(s) && !s.phase.Serving? && OwnSteps(steps)
    ensures Subscriptions(DoAll(s, steps)) == Subscriptions(s) && !DoAll(s, steps).phase.Serving?
    decreases |steps|
  {
    if steps != [] {
      assert OwnStep(steps[0]);
      DoKeepsInv(s, steps[0]);
      OwnStepKeepsSubscriptions(s, steps[0]);
      OwnStepsKeepSubscriptions(Do(s, steps[0]), steps[1..]);
    }
  }

  /** An open subscription keeps GracefulStop from returning. */
  lemma SubscriptionBlocks(s: Sys)
    requires SysInv(s) && Subscriptions(s) != {}
    ensures !s.phase.Stopped() && s.saved.None?
  {
    var rid :| rid in Subscriptions(s);
    assert rid in s.rpcs;
  }

  /**
   * Every schedule of the server's own steps after the signal, whatever fails in it: with a
   * subscription open the stop never returns and no index is saved; with none open it can go no
   * further exactly when storage is closed.
   */
  lemma EveryScheduleEndsClosedOrBlocked(s: Sys, steps: seq<Step>)
    requires SysInv(s) && !s.phase.Serving? && OwnSteps(steps)
    ensures var r := DoAll(s, steps);
            && (Subscriptions(s) != {} ==> !r.phase.Stopped() && r.saved.None?)
            && (Subscriptions(s) == {} ==> (Settled(r) <==> r.phase.Closed?))
  {
    var r := DoAll(s, steps);
    DoAllKeepsInv(s, steps);
    OwnStepsKeepSubscriptions(s, steps);
    if Subscriptions(s) != {} {
      SubscriptionBlocks(r);
    } else if r.phase.Closed? {
      ClosedIsSettled(r);
    } else {
      var a := CanMove(r);
    }
  }

  /** The server's own steps can always go on until they settle. */
  lemma {:induction false} Settle(s: Sys) returns (steps: seq<Step>)
    requires SysInv(s) && !s.phase.Serving?
    ensures OwnSteps(steps) && Settled(DoAll(s, steps))
    decreases Rank(s)
  {
    if Settled(s) {
      return [];
    }
    var a :| OwnStep(a) && Do(s, a) != s;
    EffectiveStepLowersRank(s, a);
    DoKeepsInv(s, a);
    ServingIsOver(s, a);
    var rest := Settle(Do(s, a));
    steps := [a] + rest;
    assert steps[1..] == rest;
  }

  ghost predicate ReachesClosed(s: Sys, steps: seq<Step>) {
    OwnSteps(steps) && DoAll(s, steps).phase.Closed?
  }

  /**
   * After the signal the server closes its storage by its own steps if and only if no subscription
   * is open; and then it does so under every schedule that goes on for as long as it can.
   */
  lemma ShutdownEndsExactlyWithoutSubscriptions(s: Sys)
    requires SysInv(s) && !s.phase.Serving?
    ensures (exists steps :: ReachesClosed(s, steps)) <==> Subscriptions(s) == {}
    ensures (forall steps | OwnSteps(steps) && Settled(DoAll(s, steps)) :: DoAll(s, steps).phase.Closed?)
            <==> Subscriptions(s) == {}
  {
    var settling := Settle(s);
    EveryScheduleEndsClosedOrBlocked(s, settling);
    if Subscriptions(s) == {} {
      assert ReachesClosed(s, settling);
    }
    forall steps | OwnSteps(steps)
      ensures Subscriptions(s) != {} ==> !DoAll(s, steps).phase.Closed?
      ensures Subscriptions(s) == {} && Settled(DoAll(s, steps)) ==> DoAll(s, steps).phase.Closed?
    {
      EveryScheduleEndsClosedOrBlocked(s, steps);
    }
  }

  /** A shutdown that ends without a saved index tried to save it and failed. */
  lemma {:induction false} OnlyAFailedSaveIsMissing(s: Sys, steps: seq<Step>)
    requires s.phase.Saved? || s.phase.Closed? ==> s.saved.Some?
    requires SaveIndex(false) !in steps
    ensures var r := DoAll(s, steps); r.phase.Saved? || r.phase.Closed? ==> r.saved.Some?
    decreases |steps|
  {
    if steps != [] {
      assert steps[0] in steps;
      StepKeepsSaved(s, steps[0]);
      OnlyAFailedSaveIsMissing(Do(s, steps[0]), steps[1..]);
    }
  }

  lemma StepKeepsSaved(s: Sys, a: Step)
    requires (s.phase.Saved? || s.phase.Closed? ==> s.saved.Some?) && a != SaveIndex(false)
    ensures var r := Do(s, a); r.phase.Saved? || r.phase.Closed? ==> r.saved.Some?
  {
  }
}
