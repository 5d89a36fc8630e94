/**
 * Graceful shutdown (cmd/pcas/cmd/serve.go) over the RPCs and the background vectorization
 * tasks of the server (internal/bus/server.go, internal/bus/vectorize.go): stop accepting,
 * wait for the RPCs in flight, wait for the tasks, save the index, close the database. The
 * storage operations are those of GraphStore, interleaved with everything else.
 */
module Shutdown {
  import opened Wrappers
  import opened VectorCodec
  import opened EventCodec
  import opened GraphStore
  import opened FactEvents

  /**
   * Where an RPC stands; the numbers name its storage operation. A subscription ends only with its
   * client. An interaction ends with its provider, as a call of Publish does, or with its client.
   */
  datatype Rpc =
    | Storing(event: Event, pid: nat)
    | Adding(event: Event)
    | Spawning(event: Event)
    | Answering
    | Responding(pid: nat)
    | Reading
    | Interacting
    | Subscribed

  /** The embedding that a task got, and its storage operation. */
  datatype Attempt = Attempt(pid: nat, embedding: Vec)

  /** Where a background task stands; it has counted itself off only when it is finished. */
  datatype Task =
    | Embedding(event: Event)
    | Attaching(event: Event, pid: nat, embedding: Vec)
    // history: the storage operation that the task has executed, if it got an embedding
    | Returning(event: Event, attempt: Option<Attempt>)
    | Finished(event: Event, attempt: Option<Attempt>)

  datatype Phase = Serving | Stopping | Waiting | Saving | Saved | Closed
  {
    /** GracefulStop has returned. */
    predicate Stopped() {
      Waiting? || Saving? || Saved? || Closed?
    }

    /** The wait for the tasks is over, and storage is being closed. */
    predicate Closing() {
      Saving? || Saved? || Closed?
    }
  }

  datatype Sys = Sys(
    hasProvider: bool,
    machine: Machine,
    rpcs: map<nat, Rpc>,
    tasks: map<nat, Task>,
    waitGroup: int,
    phase: Phase,
    saved: Option<map<string, Vec>>,
    // history: storage operations executed once closing has begun
    late: nat,
    // history: the events of the accepted calls of Publish, and the tasks that these calls started
    published: map<nat, Event>, taskOf: map<nat, nat>)

  function Booted(machine: Machine, hasProvider: bool): (s: Sys) {
    Sys(hasProvider, machine, map[], map[], 0, Serving, None, 0, map[], map[])
  }

  datatype Arrival = Publish(event: Event, pid: nat) | Search | Interaction | Subscription

  datatype Step =
    | Accept(rid: nat, arrival: Arrival)
    | RpcStore(rid: nat, env: Env)
    | RpcAdd(rid: nat)
    | RpcSpawn(rid: nat, tid: nat)
    | RpcRead(rid: nat)
    | RpcRespond(rid: nat, response: Event, pid: nat)
    | RpcStoreResponse(rid: nat, env: Env)
    | RpcFinish(rid: nat)
    | ClientLeaves(rid: nat)
    | TaskEmbed(tid: nat, embedding: Option<Vec>, pid: nat)
    | TaskStore(tid: nat, env: Env)
    | TaskDone(tid: nat)
    | Signal
    | StopReturns
    | WaitReturns
    | SaveIndex(ok: bool)
    | CloseDatabase

  /** A storage operation takes place. */
  function Touch(s: Sys): (r: Sys) {
    if s.phase.Closing() then s.(late := s.late + 1) else s
  }

  predicate Running(s: Sys, rid: nat) {
    rid in s.rpcs
  }

  function Finish(s: Sys, rid: nat): (r: Sys) {
    s.(rpcs := s.rpcs - {rid})
  }

  /** Where Publish goes once the incoming event is stored or has failed to be. */
  function AfterStore(s: Sys, event: Event): (r: Rpc) {
    if s.hasProvider && IsFact(event.typ) then Adding(event) else Answering
  }

  /** The next statement of storing the incoming event. */
  function StoringStep(s: Sys, rid: nat, event: Event, pid: nat, env: Env): (r: Sys)
    requires pid in s.machine.ops
  {
    var m := Next(s.machine, Advance(pid, env));
    Touch(s.(machine := m, rpcs := if m.ops[pid].Done() then s.rpcs[rid := AfterStore(s, event)] else s.rpcs))
  }

  function SpawningStep(s: Sys, rid: nat, event: Event, tid: nat): (r: Sys) {
    s.(tasks := s.tasks[tid := Embedding(event)], rpcs := s.rpcs[rid := Answering], taskOf := s.taskOf[rid := tid])
  }

  /** The response is about to be stored. */
  function RespondStep(s: Sys, rid: nat, response: Event, pid: nat): (r: Sys) {
    s.(machine := Next(s.machine, Start(pid, InsertingEvent(response, []))), rpcs := s.rpcs[rid := Responding(pid)])
  }

  function RespondingStep(s: Sys, rid: nat, pid: nat, env: Env): (r: Sys)
    requires pid in s.machine.ops
  {
    var m := Next(s.machine, Advance(pid, env));
    var touched := Touch(s.(machine := m));
    if m.ops[pid].Done() then Finish(touched, rid) else touched
  }

  function RpcStep(s: Sys, rid: nat, a: Step): (r: Sys)
    requires Running(s, rid)
    ensures r.phase == s.phase && r.saved == s.saved && r.hasProvider == s.hasProvider && r.published == s.published
  {
    match s.rpcs[rid]
    case Storing(event, pid) =>
      if a.RpcStore? && pid in s.machine.ops then StoringStep(s, rid, event, pid, a.env) else s
    case Adding(event) =>
      if a.RpcAdd? then s.(waitGroup := s.waitGroup + 1, rpcs := s.rpcs[rid := Spawning(event)]) else s
    case Spawning(event) => if a.RpcSpawn? && a.tid !in s.tasks then SpawningStep(s, rid, event, a.tid) else s
    case Answering =>
      if a.RpcRead? then Touch(s)
      else if a.RpcRespond? && a.pid !in s.machine.ops then RespondStep(s, rid, a.response, a.pid)
      else if a.RpcFinish? then Finish(s, rid)
      else s
    case Responding(pid) =>
      if a.RpcStoreResponse? && pid in s.machine.ops then RespondingStep(s, rid, pid, a.env) else s
    case Reading => if a.RpcRead? then Touch(s) else if a.RpcFinish? then Finish(s, rid) else s
    case Interacting => if a.RpcFinish? then Finish(s, rid) else s
    case Subscribed => if a.ClientLeaves? then Finish(s, rid) else s
  }

  /** The next statement of attaching an embedding. */
  function AttachingStep(s: Sys, tid: nat, event: Event, attempt: Attempt, env: Env): (r: Sys)
    requires attempt.pid in s.machine.ops
  {
    var m := Next(s.machine, Advance(attempt.pid, env));
    Touch(s.(machine := m,
             tasks := if m.ops[attempt.pid].Done() then s.tasks[tid := Returning(event, Some(attempt))] else s.tasks))
  }

  /** The embedding has come, or has failed to. */
  function EmbeddedStep(s: Sys, tid: nat, event: Event, embedding: Option<Vec>, pid: nat): (r: Sys) {
    if embedding.None? then s.(tasks := s.tasks[tid := Returning(event, None)])
    else if pid in s.machine.ops then s
    else s.(machine := Next(s.machine, Start(pid, CheckingEvent(event.id, embedding.value))),
            tasks := s.tasks[tid := Attaching(event, pid, embedding.value)])
  }

  function TaskStep(s: Sys, tid: nat, a: Step): (r: Sys)
    requires tid in s.tasks
    ensures r.phase == s.phase && r.saved == s.saved && r.hasProvider == s.hasProvider && r.published == s.published
    ensures r.rpcs == s.rpcs && r.taskOf == s.taskOf
  {
    match s.tasks[tid]
    case Embedding(event) => if a.TaskEmbed? then EmbeddedStep(s, tid, event, a.embedding, a.pid) else s
    case Attaching(event, pid, embedding) =>
      if a.TaskStore? && pid in s.machine.ops
      then AttachingStep(s, tid, event, Attempt(pid, embedding), a.env) else s
    case Returning(event, attempt) =>
      if a.TaskDone? then s.(tasks := s.tasks[tid := Finished(event, attempt)], waitGroup := s.waitGroup - 1) else s
    case Finished(_, _) => s
  }

  function AcceptStep(s: Sys, rid: nat, arrival: Arrival): (r: Sys) {
    if !s.phase.Serving? || rid in s.rpcs || rid in s.published then s
    else
      match arrival
      case Publish(event, pid) =>
        if pid in s.machine.ops then s
        else s.(machine := Next(s.machine, Start(pid, InsertingEvent(event, []))),
                rpcs := s.rpcs[rid := Storing(event, pid)], published := s.published[rid := event])
      case Search => s.(rpcs := s.rpcs[rid := Reading])
      case Interaction => s.(rpcs := s.rpcs[rid := Interacting])
      case Subscription => s.(rpcs := s.rpcs[rid := Subscribed])
  }

  /** The signal handler. GracefulStop returns when no RPC is left, Wait when the counter is zero. */
  function HandlerStep(s: Sys, a: Step): (r: Sys) {
    match a
    case Signal => if s.phase.Serving? then s.(phase := Stopping) else s
    case StopReturns => if s.phase.Stopping? && s.rpcs == map[] then s.(phase := Waiting) else s
    case WaitReturns => if s.phase.Waiting? && s.waitGroup == 0 then s.(phase := Saving) else s
    case SaveIndex(ok) =>
      if s.phase.Saving? then s.(phase := Saved, saved := if ok then Some(s.machine.store.index) else None) else s
    case CloseDatabase => if s.phase.Saved? then s.(phase := Closed) else s
    case _ => s
  }

  predicate ByRpc(a: Step) {
    a.RpcStore? || a.RpcAdd? || a.RpcSpawn? || a.RpcRead? || a.RpcRespond? || a.RpcStoreResponse?
        || a.RpcFinish? || a.ClientLeaves?
  }

  predicate ByTask(a: Step) {
    a.TaskEmbed? || a.TaskStore? || a.TaskDone?
  }

  /** One step of the system; a step that is not possible changes nothing. */
  function Do(s: Sys, a: Step): (r: Sys) {
    if a.Accept? then AcceptStep(s, a.rid, a.arrival)
    else if ByRpc(a) then (if Running(s, a.rid) then RpcStep(s, a.rid, a) else s)
    else if ByTask(a) then (if a.tid in s.tasks then TaskStep(s, a.tid, a) else s)
    else HandlerStep(s, a)
  }

  function DoAll(s: Sys, steps: seq<Step>): (r: Sys)
    decreases |steps|
  {
    if steps == [] then s else DoAll(Do(s, steps[0]), steps[1..])
  }

  // ------------------------------------------------------------------ what every step keeps

  /** The tasks that have not counted themselves off. */
  function Unfinished(s: Sys): (tasks: set<nat>) {
    set t | t in s.tasks && !s.tasks[t].Finished?
  }

  /** The RPCs that have counted up but not yet started the task. */
  function AboutToSpawn(s: Sys): (rpcs: set<nat>) {
    set r | r in s.rpcs && s.rpcs[r].Spawning?
  }

  /** An RPC or a task is executing this storage operation. */
  ghost predicate Owned(s: Sys, pid: nat) {
    (exists r :: RpcOwns(s, r, pid)) || (exists t :: TaskOwns(s, t, pid))
  }

  predicate RpcOwns(s: Sys, r: nat, pid: nat) {
    r in s.rpcs && ((s.rpcs[r].Storing? || s.rpcs[r].Responding?) && s.rpcs[r].pid == pid)
  }

  predicate TaskOwns(s: Sys, t: nat, pid: nat) {
    t in s.tasks && s.tasks[t].Attaching? && s.tasks[t].pid == pid
  }

  ghost predicate OwnersInv(s: Sys) {
    forall pid <- s.machine.ops :: s.machine.ops[pid].Done() || Owned(s, pid)
  }

  /** The storage operation of an RPC or a task has been started. */
  ghost predicate StartedInv(s: Sys) {
    && (forall r <- s.rpcs :: s.rpcs[r].Storing? || s.rpcs[r].Responding? ==> s.rpcs[r].pid in s.machine.ops)
    && (forall t <- s.tasks :: s.tasks[t].Attaching? ==> s.tasks[t].pid in s.machine.ops)
  }

  ghost predicate CountInv(s: Sys) {
    s.waitGroup == |Unfinished(s)| + |AboutToSpawn(s)|
  }

  ghost predicate PhaseInv(s: Sys) {
    && (s.phase.Stopped() ==> s.rpcs == map[])
    && (s.phase.Closing() ==> s.waitGroup == 0)
    && (s.saved.Some? ==> s.phase.Closing() && s.saved.value == s.machine.store.index)
    && s.late == 0
  }

  ghost predicate SysInv(s: Sys) {
    Inv(s.machine) && StartedInv(s) && OwnersInv(s) && CountInv(s) && PhaseInv(s)
  }

  lemma BootedInv(machine: Machine, hasProvider: bool)
    requires Inv(machine) && machine.ops == map[]
    ensures SysInv(Booted(machine, hasProvider))
  {
    var s := Booted(machine, hasProvider);
    assert Unfinished(s) == {} && AboutToSpawn(s) == {};
  }

  lemma SomeUnfinished(s: Sys, t: nat)
    requires t in s.tasks && !s.tasks[t].Finished?
    ensures Unfinished(s) != {}
  {
    assert t in Unfinished(s);
  }

  /** Once the wait is over every task is finished. */
  lemma ClosingIsIdle(s: Sys)
    requires CountInv(s) && PhaseInv(s) && s.phase.Closing()
    ensures s.rpcs == map[] && Unfinished(s) == {}
    ensures forall t <- s.tasks :: s.tasks[t].Finished?
  {
    assert |Unfinished(s)| == 0;
    forall t <- s.tasks ensures s.tasks[t].Finished? {
      if !s.tasks[t].Finished? {
        SomeUnfinished(s, t);
      }
    }
  }

  lemma UnfinishedAfter(s: Sys, r: Sys, t: nat, task: Task)
    requires r.tasks == s.tasks[t := task]
    ensures Unfinished(r) == if task.Finished? then Unfinished(s) - {t} else Unfinished(s) + {t}
  {
  }

  lemma AboutToSpawnAfter(s: Sys, r: Sys, rid: nat, rpc: Rpc)
    requires r.rpcs == s.rpcs[rid := rpc]
    ensures AboutToSpawn(r) == if rpc.Spawning? then AboutToSpawn(s) + {rid} else AboutToSpawn(s) - {rid}
  {
  }

  /** An RPC that neither counts up nor starts a task moves on or ends. */
  lemma MoveKeepsCount(s: Sys, r: Sys, rid: nat, rpc: Rpc)
    requires CountInv(s) && r.waitGroup == s.waitGroup && r.tasks == s.tasks
    requires rid in s.rpcs && !s.rpcs[rid].Spawning? && !rpc.Spawning?
    requires r.rpcs == s.rpcs[rid := rpc] || r.rpcs == s.rpcs - {rid}
    ensures CountInv(r)
  {
    assert Unfinished(r) == Unfinished(s) && AboutToSpawn(r) == AboutToSpawn(s);
  }

  lemma CountUpKeepsCount(s: Sys, r: Sys, rid: nat, event: Event)
    requires CountInv(s) && r.waitGroup == s.waitGroup + 1 && r.tasks == s.tasks
    requires rid in s.rpcs && !s.rpcs[rid].Spawning? && r.rpcs == s.rpcs[rid := Spawning(event)]
    ensures CountInv(r)
  {
    assert Unfinished(r) == Unfinished(s) && rid !in AboutToSpawn(s);
    AboutToSpawnAfter(s, r, rid, Spawning(event));
  }

  lemma SpawnKeepsCount(s: Sys, r: Sys, rid: nat, tid: nat, event: Event)
    requires CountInv(s) && r.waitGroup == s.waitGroup
    requires rid in s.rpcs && s.rpcs[rid].Spawning? && r.rpcs == s.rpcs[rid := Answering]
    requires tid !in s.tasks && r.tasks == s.tasks[tid := Embedding(event)]
    ensures CountInv(r)
  {
    UnfinishedAfter(s, r, tid, Embedding(event));
    AboutToSpawnAfter(s, r, rid, Answering);
    assert tid !in Unfinished(s) && rid in AboutToSpawn(s);
  }

  /** The wait group counts the unfinished tasks and the RPCs about to start one, at every point. */
  lemma RpcStepKeepsCount(s: Sys, rid: nat, a: Step)
    requires CountInv(s) && Running(s, rid)
    ensures CountInv(RpcStep(s, rid, a))
  {
    var r := RpcStep(s, rid, a);
    match s.rpcs[rid] {
      case Adding(event) =>
        if a.RpcAdd? {
          CountUpKeepsCount(s, r, rid, event);
        }
      case Spawning(event) =>
        if a.RpcSpawn? && a.tid !in s.tasks {
          SpawnKeepsCount(s, r, rid, a.tid, event);
        }
      case _ =>
        OtherRpcStep(s, rid, a);
        if rid in r.rpcs {
          MoveKeepsCount(s, r, rid, r.rpcs[rid]);
        } else {
          MoveKeepsCount(s, r, rid, Reading);
        }
    }
  }

  lemma OtherRpcStep(s: Sys, rid: nat, a: Step)
    requires Running(s, rid) && !s.rpcs[rid].Adding? && !s.rpcs[rid].Spawning?
    ensures var r := RpcStep(s, rid, a);
            && r.tasks == s.tasks && r.waitGroup == s.waitGroup
            && (r.rpcs == s.rpcs - {rid}
                || (rid in r.rpcs && !r.rpcs[rid].Spawning? && r.rpcs == s.rpcs[rid := r.rpcs[rid]]))
  {
    OnlyItsOwnPlace(s, rid, a);
  }

  /** An RPC's step changes no other RPC's place. */
  lemma OnlyItsOwnPlace(s: Sys, rid: nat, a: Step)
    requires Running(s, rid)
    ensures var r := RpcStep(s, rid, a);
            r.rpcs == s.rpcs - {rid} || (rid in r.rpcs && r.rpcs == s.rpcs[rid := r.rpcs[rid]])
  {
    assert s.rpcs[rid := s.rpcs[rid]] == s.rpcs;
  }

  lemma TaskMoveKeepsCount(s: Sys, r: Sys, tid: nat, task: Task)
    requires CountInv(s) && r.rpcs == s.rpcs && tid in s.tasks && !s.tasks[tid].Finished?
    requires r.tasks == s.tasks[tid := task]
    requires r.waitGroup == if task.Finished? then s.waitGroup - 1 else s.waitGroup
    ensures CountInv(r)
  {
    UnfinishedAfter(s, r, tid, task);
    assert AboutToSpawn(r) == AboutToSpawn(s) && tid in Unfinished(s);
    assert Unfinished(s) + {tid} == Unfinished(s);
  }

  lemma TaskStepKeepsCount(s: Sys, tid: nat, a: Step)
    requires CountInv(s) && tid in s.tasks
    ensures CountInv(TaskStep(s, tid, a))
  {
    var r := TaskStep(s, tid, a);
    if !s.tasks[tid].Finished? {
      assert s.tasks[tid := s.tasks[tid]] == s.tasks;
      TaskMoveKeepsCount(s, r, tid, r.tasks[tid]);
    }
  }

  lemma AcceptKeepsCount(s: Sys, rid: nat, arrival: Arrival)
    requires CountInv(s)
    ensures CountInv(AcceptStep(s, rid, arrival))
  {
    var r := AcceptStep(s, rid, arrival);
    if r != s {
      AboutToSpawnAfter(s, r, rid, r.rpcs[rid]);
      assert rid !in AboutToSpawn(s);
      assert Unfinished(r) == Unfinished(s);
    }
  }

  /** Ownership carries over when every other RPC and task keeps its place. */
  lemma OwnersCarryOver(s: Sys, r: Sys, pid: nat)
    requires Owned(s, pid)
    requires forall x | RpcOwns(s, x, pid) :: RpcOwns(r, x, pid)
    requires forall t | TaskOwns(s, t, pid) :: TaskOwns(r, t, pid)
    ensures Owned(r, pid)
  {
    if x :| RpcOwns(s, x, pid) {
      assert RpcOwns(r, x, pid);
    } else {
      var t :| TaskOwns(s, t, pid);
      assert TaskOwns(r, t, pid);
    }
  }

  /** Whoever else runs, and whatever else is stored, stays; the RPC at most moves operation pid. */
  ghost predicate RpcEffect(s: Sys, r: Sys, rid: nat, pid: nat) {
    && (forall x | x != rid :: (x in r.rpcs <==> x in s.rpcs) && (x in s.rpcs ==> r.rpcs[x] == s.rpcs[x]))
    && (forall t <- s.tasks :: t in r.tasks && r.tasks[t] == s.tasks[t])
    && (forall t <- r.tasks | t !in s.tasks :: r.tasks[t].Embedding?)
    && (forall p <- s.machine.ops :: p in r.machine.ops)
    && (forall p <- r.machine.ops | p != pid :: p in s.machine.ops && r.machine.ops[p] == s.machine.ops[p])
    && (forall p | p != pid :: RpcOwns(s, rid, p) <==> RpcOwns(r, rid, p))
    && (pid in r.machine.ops ==>
          || r.machine.ops[pid].Done() || RpcOwns(r, rid, pid)
          || (pid in s.machine.ops && r.machine.ops[pid] == s.machine.ops[pid] && !RpcOwns(s, rid, pid)))
    && (rid in r.rpcs && (r.rpcs[rid].Storing? || r.rpcs[rid].Responding?) ==> r.rpcs[rid].pid in r.machine.ops)
    && r.phase == s.phase && r.saved == s.saved
  }

  /** The storage operation that a step of an RPC is about. */
  function Concerned(s: Sys, rid: nat, a: Step): (pid: nat)
    requires Running(s, rid)
  {
    if s.rpcs[rid].Storing? || s.rpcs[rid].Responding? then s.rpcs[rid].pid else if a.RpcRespond? then a.pid else 0
  }

  predicate OwnStarted(s: Sys, rid: nat)
    requires Running(s, rid)
  {
    s.rpcs[rid].Storing? || s.rpcs[rid].Responding? ==> s.rpcs[rid].pid in s.machine.ops
  }

  lemma StoringEffect(s: Sys, rid: nat, a: Step)
    requires Running(s, rid) && s.rpcs[rid].Storing? && OwnStarted(s, rid)
    ensures RpcEffect(s, RpcStep(s, rid, a), rid, Concerned(s, rid, a))
  {
  }

  lemma RespondingEffect(s: Sys, rid: nat, a: Step)
    requires Running(s, rid) && s.rpcs[rid].Responding? && OwnStarted(s, rid)
    ensures RpcEffect(s, RpcStep(s, rid, a), rid, Concerned(s, rid, a))
  {
  }

  lemma AnsweringEffect(s: Sys, rid: nat, a: Step)
    requires Running(s, rid) && s.rpcs[rid].Answering?
    ensures RpcEffect(s, RpcStep(s, rid, a), rid, Concerned(s, rid, a))
  {
  }

  lemma SpawningEffect(s: Sys, rid: nat, a: Step)
    requires Running(s, rid) && (s.rpcs[rid].Adding? || s.rpcs[rid].Spawning?)
    ensures RpcEffect(s, RpcStep(s, rid, a), rid, Concerned(s, rid, a))
  {
  }

  lemma OtherEffect(s: Sys, rid: nat, a: Step)
    requires Running(s, rid) && (s.rpcs[rid].Reading? || s.rpcs[rid].Interacting? || s.rpcs[rid].Subscribed?)
    ensures RpcEffect(s, RpcStep(s, rid, a), rid, Concerned(s, rid, a))
  {
  }

  lemma RpcStepEffect(s: Sys, rid: nat, a: Step)
    requires Running(s, rid) && OwnStarted(s, rid)
    ensures RpcEffect(s, RpcStep(s, rid, a), rid, Concerned(s, rid, a))
  {
    if s.rpcs[rid].Storing? {
      StoringEffect(s, rid, a);
    } else if s.rpcs[rid].Responding? {
      RespondingEffect(s, rid, a);
    } else if s.rpcs[rid].Answering? {
      AnsweringEffect(s, rid, a);
    } else if s.rpcs[rid].Adding? || s.rpcs[rid].Spawning? {
      SpawningEffect(s, rid, a);
    } else {
      OtherEffect(s, rid, a);
    }
  }

  lemma EffectKeepsOwners(s: Sys, r: Sys, rid: nat, pid: nat)
    requires OwnersInv(s) && RpcEffect(s, r, rid, pid)
    ensures OwnersInv(r)
  {
    forall p <- r.machine.ops | !r.machine.ops[p].Done() ensures Owned(r, p) {
      if !RpcOwns(r, rid, p) {
        assert p in s.machine.ops && !s.machine.ops[p].Done() && !RpcOwns(s, rid, p);
        OwnersCarryOver(s, r, p);
      }
    }
  }

  lemma EffectKeepsStarted(s: Sys, r: Sys, rid: nat, pid: nat)
    requires StartedInv(s) && RpcEffect(s, r, rid, pid)
    ensures StartedInv(r)
  {
  }

  lemma TaskStepKeepsOwners(s: Sys, tid: nat, a: Step)
    requires OwnersInv(s) && tid in s.tasks
    ensures OwnersInv(TaskStep(s, tid, a))
  {
    var r := TaskStep(s, tid, a);
    forall pid <- r.machine.ops | !r.machine.ops[pid].Done() ensures Owned(r, pid) {
      if TaskOwns(r, tid, pid) {
      } else {
        assert pid in s.machine.ops && !s.machine.ops[pid].Done() && !TaskOwns(s, tid, pid);
        OwnersCarryOver(s, r, pid);
      }
    }
  }

  lemma AcceptKeepsOwners(s: Sys, rid: nat, arrival: Arrival)
    requires OwnersInv(s)
    ensures OwnersInv(AcceptStep(s, rid, arrival))
  {
    var r := AcceptStep(s, rid, arrival);
    if r != s {
      forall pid <- r.machine.ops | !r.machine.ops[pid].Done() ensures Owned(r, pid) {
        if RpcOwns(r, rid, pid) {
        } else {
          assert pid in s.machine.ops;
          OwnersCarryOver(s, r, pid);
        }
      }
    }
  }

  /** The store changes only by steps of its operations. */
  lemma RpcStepMoves(s: Sys, rid: nat, a: Step) returns (action: Action)
    requires Running(s, rid)
    ensures RpcStep(s, rid, a).machine == s.machine || RpcStep(s, rid, a).machine == Next(s.machine, action)
  {
    var rpc := s.rpcs[rid];
    action := if rpc.Storing? && a.RpcStore? then Advance(rpc.pid, a.env)
              else if rpc.Responding? && a.RpcStoreResponse? then Advance(rpc.pid, a.env)
              else if a.RpcRespond? then Start(a.pid, InsertingEvent(a.response, []))
              else Start(0, Failed);
  }

  lemma TaskStepMoves(s: Sys, tid: nat, a: Step) returns (action: Action)
    requires tid in s.tasks
    ensures TaskStep(s, tid, a).machine == s.machine || TaskStep(s, tid, a).machine == Next(s.machine, action)
  {
    var task := s.tasks[tid];
    action := if task.Embedding? && a.TaskEmbed? && a.embedding.Some?
              then Start(a.pid, CheckingEvent(task.event.id, a.embedding.value))
              else if task.Attaching? && a.TaskStore? then Advance(task.pid, a.env)
              else Start(0, Failed);
  }

  lemma MoveKeepsMachine(m: Machine, r: Machine, action: Action)
    requires Inv(m) && (r == m || r == Next(m, action))
    ensures Inv(r) && Grows(m.store, r.store)
  {
    NextKeepsInv(m, action);
  }

  lemma TaskStepKeepsStarted(s: Sys, tid: nat, a: Step)
    requires StartedInv(s) && tid in s.tasks
    ensures StartedInv(TaskStep(s, tid, a))
  {
  }

  lemma AcceptKeepsMachine(s: Sys, rid: nat, arrival: Arrival)
    requires Inv(s.machine) && StartedInv(s)
    ensures Inv(AcceptStep(s, rid, arrival).machine) && StartedInv(AcceptStep(s, rid, arrival))
    ensures Grows(s.machine.store, AcceptStep(s, rid, arrival).machine.store)
  {
    if arrival.Publish? {
      NextKeepsInv(s.machine, Start(arrival.pid, InsertingEvent(arrival.event, [])));
    }
  }

  /** No RPC runs once the stop has returned, so an RPC never touches storage too late. */
  lemma RpcStepKeepsPhase(s: Sys, rid: nat, a: Step)
    requires PhaseInv(s) && Running(s, rid)
    ensures PhaseInv(RpcStep(s, rid, a))
  {
    assert s.rpcs != map[];
    var r := RpcStep(s, rid, a);
    assert r.phase == s.phase && r.saved == s.saved && r.late == s.late;
  }

  /** A task that can still act holds the counter above zero, so it never touches storage too late. */
  lemma TaskStepKeepsPhase(s: Sys, tid: nat, a: Step)
    requires CountInv(s) && PhaseInv(s) && tid in s.tasks
    ensures PhaseInv(TaskStep(s, tid, a))
  {
    if s.phase.Closing() {
      ClosingIsIdle(s);
    } else {
      var r := TaskStep(s, tid, a);
      assert r.phase == s.phase && r.saved == s.saved && r.late == s.late && r.rpcs == s.rpcs;
    }
  }

  /** The handler moves nothing but the phase and the saved index. */
  lemma HandlerKeepsRest(s: Sys, a: Step)
    ensures var r := HandlerStep(s, a);
            r.machine == s.machine && r.rpcs == s.rpcs && r.tasks == s.tasks && r.waitGroup == s.waitGroup
            && r.late == s.late
  {
  }

  lemma HandlerKeepsPhase(s: Sys, a: Step)
    requires PhaseInv(s)
    ensures PhaseInv(HandlerStep(s, a))
  {
  }

  lemma SameRunnersSameOwners(s: Sys, r: Sys)
    requires OwnersInv(s) && r.machine == s.machine && r.rpcs == s.rpcs && r.tasks == s.tasks
    ensures OwnersInv(r)
  {
    forall pid <- r.machine.ops | !r.machine.ops[pid].Done() ensures Owned(r, pid) {
      OwnersCarryOver(s, r, pid);
    }
  }

  lemma HandlerKeepsInv(s: Sys, a: Step)
    requires SysInv(s)
    ensures SysInv(HandlerStep(s, a)) && Grows(s.machine.store, HandlerStep(s, a).machine.store)
  {
    var r := HandlerStep(s, a);
    HandlerKeepsRest(s, a);
    HandlerKeepsPhase(s, a);
    SameRunnersSameOwners(s, r);
    assert Unfinished(r) == Unfinished(s) && AboutToSpawn(r) == AboutToSpawn(s);
  }

  lemma RpcStepKeepsInv(s: Sys, rid: nat, a: Step)
    requires SysInv(s) && Running(s, rid)
    ensures SysInv(RpcStep(s, rid, a)) && Grows(s.machine.store, RpcStep(s, rid, a).machine.store)
  {
    var action := RpcStepMoves(s, rid, a);
    MoveKeepsMachine(s.machine, RpcStep(s, rid, a).machine, action);
    RpcStepEffect(s, rid, a);
    EffectKeepsStarted(s, RpcStep(s, rid, a), rid, Concerned(s, rid, a));
    EffectKeepsOwners(s, RpcStep(s, rid, a), rid, Concerned(s, rid, a));
    RpcStepKeepsCount(s, rid, a);
    RpcStepKeepsPhase(s, rid, a);
  }

  lemma TaskStepKeepsInv(s: Sys, tid: nat, a: Step)
    requires SysInv(s) && tid in s.tasks
    ensures SysInv(TaskStep(s, tid, a)) && Grows(s.machine.store, TaskStep(s, tid, a).machine.store)
  {
    var action := TaskStepMoves(s, tid, a);
    MoveKeepsMachine(s.machine, TaskStep(s, tid, a).machine, action);
    TaskStepKeepsStarted(s, tid, a);
    TaskStepKeepsOwners(s, tid, a);
    TaskStepKeepsCount(s, tid, a);
    TaskStepKeepsPhase(s, tid, a);
  }

  lemma AcceptKeepsInv(s: Sys, rid: nat, arrival: Arrival)
    requires SysInv(s)
    ensures SysInv(AcceptStep(s, rid, arrival)) && Grows(s.machine.store, AcceptStep(s, rid, arrival).machine.store)
  {
    AcceptKeepsMachine(s, rid, arrival);
    AcceptKeepsOwners(s, rid, arrival);
    AcceptKeepsCount(s, rid, arrival);
  }

  lemma DoRpcKeepsInv(s: Sys, a: Step)
    requires SysInv(s) && ByRpc(a)
    ensures SysInv(Do(s, a)) && Grows(s.machine.store, Do(s, a).machine.store)
  {
    if Running(s, a.rid) {
      RpcStepKeepsInv(s, a.rid, a);
    }
  }

  lemma DoTaskKeepsInv(s: Sys, a: Step)
    requires SysInv(s) && ByTask(a)
    ensures SysInv(Do(s, a)) && Grows(s.machine.store, Do(s, a).machine.store)
  {
    if a.tid in s.tasks {
      TaskStepKeepsInv(s, a.tid, a);
    }
  }

  lemma DoOtherKeepsInv(s: Sys, a: Step)
    requires SysInv(s) && !ByRpc(a) && !ByTask(a)
    ensures SysInv(Do(s, a)) && Grows(s.machine.store, Do(s, a).machine.store)
  {
    if a.Accept? {
      AcceptKeepsInv(s, a.rid, a.arrival);
      assert Do(s, a) == AcceptStep(s, a.rid, a.arrival);
    } else {
      HandlerKeepsInv(s, a);
      assert Do(s, a) == HandlerStep(s, a);
    }
  }

  lemma DoKeepsInv(s: Sys, a: Step)
    requires SysInv(s)
    ensures SysInv(Do(s, a)) && Grows(s.machine.store, Do(s, a).machine.store)
  {
    if ByRpc(a) {
      DoRpcKeepsInv(s, a);
    } else if ByTask(a) {
      DoTaskKeepsInv(s, a);
    } else {
      DoOtherKeepsInv(s, a);
    }
  }

  lemma {:induction false} DoAllKeepsInv(s: Sys, steps: seq<Step>)
    requires SysInv(s)
    ensures SysInv(DoAll(s, steps)) && Grows(s.machine.store, DoAll(s, steps).machine.store)
    decreases |steps|
  {
    if steps != [] {
      DoKeepsInv(s, steps[0]);
      DoAllKeepsInv(Do(s, steps[0]), steps[1..]);
      GrowsTransitive(s.machine.store, Do(s, steps[0]).machine.store, DoAll(s, steps).machine.store);
    }
  }

  // ------------------------------------------------------------------ what a shutdown guarantees

  lemma ClosingIsQuiet(s: Sys)
    requires SysInv(s) && s.phase.Closing()
    ensures Quiet(s.machine) && s.rpcs == map[] && Unfinished(s) == {}
  {
    ClosingIsIdle(s);
    forall pid <- s.machine.ops ensures s.machine.ops[pid].Done() {
      assert forall r :: !RpcOwns(s, r, pid);
      assert forall t :: !TaskOwns(s, t, pid);
    }
  }

  /**
   * In every run: no storage operation follows the start of closing, the wait group counts the
   * unfinished tasks and the RPCs about to start one, and when closing starts nothing is in
   * progress. Nothing that was stored or indexed before is lost.
   */
  lemma ShutdownIsSafe(machine: Machine, hasProvider: bool, steps: seq<Step>)
    requires Inv(machine) && machine.ops == map[]
    ensures var s := DoAll(Booted(machine, hasProvider), steps);
            && s.late == 0
            && s.waitGroup == |Unfinished(s)| + |AboutToSpawn(s)|
            && (s.phase.Closing() ==> Quiet(s.machine) && s.rpcs == map[] && Unfinished(s) == {})
            && Grows(machine.store, s.machine.store)
  {
    BootedInv(machine, hasProvider);
    DoAllKeepsInv(Booted(machine, hasProvider), steps);
    var s := DoAll(Booted(machine, hasProvider), steps);
    if s.phase.Closing() {
      ClosingIsQuiet(s);
    }
  }

  /**
   * The saved index holds the vector of every embedding that was attached, in any run, and the
   * next start from it and from the tables finds a consistent store.
   */
  lemma SavedIndexIsComplete(machine: Machine, hasProvider: bool, steps: seq<Step>)
    requires Inv(machine) && machine.ops == map[]
    requires DoAll(Booted(machine, hasProvider), steps).saved.Some?
    ensures var s := DoAll(Booted(machine, hasProvider), steps);
            && s.saved.value == s.machine.store.index
            && (forall pid <- s.machine.ops | s.machine.ops[pid].Linked? ::
                  && s.machine.ops[pid].vectorId in s.saved.value
                  && s.saved.value[s.machine.ops[pid].vectorId] == s.machine.ops[pid].embedding)
            && Inv(Reopened(s.machine.store, s.saved.value))
  {
    BootedInv(machine, hasProvider);
    DoAllKeepsInv(Booted(machine, hasProvider), steps);
    var s := DoAll(Booted(machine, hasProvider), steps);
    ClosingIsQuiet(s);
    ReopenAfterCleanStop(s.machine);
    assert forall pid <- s.machine.ops :: OpInv(s.machine.store, s.machine.ops[pid]);
  }

  /** Once the wait has begun the counter never rises, so the wait group is never reused. */
  lemma CounterOnlyFalls(s: Sys, a: Step)
    requires SysInv(s) && s.phase.Stopped()
    ensures Do(s, a).waitGroup <= s.waitGroup && Do(s, a).phase.Stopped()
  {
    if ByTask(a) && a.tid in s.tasks {
      TaskStepCounts(s, a.tid, a);
    }
  }

  lemma TaskStepCounts(s: Sys, tid: nat, a: Step)
    requires tid in s.tasks
    ensures TaskStep(s, tid, a).waitGroup <= s.waitGroup && TaskStep(s, tid, a).phase == s.phase
  {
  }
}
