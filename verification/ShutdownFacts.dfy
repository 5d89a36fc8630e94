/**
 * What becomes of the published facts at a shutdown (cmd/pcas/cmd/serve.go, internal/bus/server.go,
 * internal/bus/vectorize.go): each accepted one has its own finished task, and the saved index
 * holds its vector, linked to it, unless its embedding or one of its statements failed.
 */
module ShutdownFacts {
  import opened Wrappers
  import opened VectorCodec
  import opened EventCodec
  import opened GraphStore
  import opened FactEvents
  import opened Shutdown

  /** An operation stays with its event and its embedding, and once it has ended it stays as it is. */
  predicate OpKept(before: Operation, after: Operation, id: string, embedding: Vec) {
    && (Attaches(before, id, embedding) ==> Attaches(after, id, embedding))
    && (before.Done() ==> after == before)
  }

  ghost predicate OpsKept(s: Sys, r: Sys) {
    forall pid <- s.machine.ops ::
      pid in r.machine.ops
      && forall id, embedding :: OpKept(s.machine.ops[pid], r.machine.ops[pid], id, embedding)
  }

  lemma StatementKeepsOp(store: Store, op: Operation, env: Env, id: string, embedding: Vec)
    ensures OpKept(op, GraphStore.Step(store, op, env).1, id, embedding)
  {
  }

  lemma MoveKeepsOps(s: Sys, r: Sys, action: Action)
    requires r.machine == s.machine || r.machine == Next(s.machine, action)
    ensures OpsKept(s, r)
  {
    forall pid <- s.machine.ops, id, embedding
      ensures pid in r.machine.ops && OpKept(s.machine.ops[pid], r.machine.ops[pid], id, embedding)
    {
      if action.Advance? {
        StatementKeepsOp(s.machine.store, s.machine.ops[pid], action.env, id, embedding);
      }
    }
  }

  // ------------------------------------------------------------------ tasks and their operations

  /** The storage operation of a task, if it has one. */
  function AttemptOf(task: Task): (attempt: Option<Attempt>) {
    match task
    case Embedding(_) => None
    case Attaching(_, pid, embedding) => Some(Attempt(pid, embedding))
    case Returning(_, attempt) => attempt
    case Finished(_, attempt) => attempt
  }

  /** A task's operation attaches to the task's own event, and has ended when the task is past it. */
  predicate TaskTrue(s: Sys, task: Task) {
    var attempt := AttemptOf(task);
    attempt.Some? ==>
      && attempt.value.pid in s.machine.ops
      && Attaches(s.machine.ops[attempt.value.pid], task.event.id, attempt.value.embedding)
      && (!task.Attaching? ==> s.machine.ops[attempt.value.pid].Done())
  }

  lemma TaskStaysTrue(s: Sys, r: Sys, task: Task)
    requires OpsKept(s, r) && TaskTrue(s, task)
    ensures TaskTrue(r, task)
  {
    if AttemptOf(task).Some? {
      var attempt := AttemptOf(task).value;
      assert OpKept(s.machine.ops[attempt.pid], r.machine.ops[attempt.pid], task.event.id, attempt.embedding);
    }
  }

  // ------------------------------------------------------------------ facts and their tasks

  predicate HasEvent(rpc: Rpc) {
    rpc.Storing? || rpc.Adding? || rpc.Spawning?
  }

  /** The call that published the event has yet to start its task. */
  predicate Underway(s: Sys, rid: nat)
    requires rid in s.published
  {
    rid in s.rpcs && HasEvent(s.rpcs[rid]) && s.rpcs[rid].event == s.published[rid]
  }

  predicate Started(s: Sys, rid: nat)
    requires rid in s.published
  {
    rid in s.taskOf && s.taskOf[rid] in s.tasks && s.tasks[s.taskOf[rid]].event == s.published[rid]
  }

  /** The call is vectorized: it published a fact on a server that can embed. */
  predicate IsVectorized(s: Sys, rid: nat)
    requires rid in s.published
  {
    s.hasProvider && IsFact(s.published[rid].typ)
  }

  ghost predicate CallsInv(s: Sys) {
    && (forall rid <- s.rpcs | HasEvent(s.rpcs[rid]) :: rid in s.published && s.published[rid] == s.rpcs[rid].event)
    && (forall rid <- s.published | IsVectorized(s, rid) :: Underway(s, rid) || Started(s, rid))
    && (forall rid <- s.taskOf :: s.taskOf[rid] in s.tasks)
    && (forall p <- s.taskOf, q <- s.taskOf | p != q :: s.taskOf[p] != s.taskOf[q])
  }

  ghost predicate TasksInv(s: Sys) {
    forall t <- s.tasks :: TaskTrue(s, s.tasks[t])
  }

  ghost predicate FactsInv(s: Sys) {
    CallsInv(s) && TasksInv(s)
  }

  lemma RpcStepKeepsTasks(s: Sys, rid: nat, a: Shutdown.Step)
    requires SysInv(s) && TasksInv(s) && Running(s, rid)
    ensures TasksInv(RpcStep(s, rid, a))
  {
    var r := RpcStep(s, rid, a);
    var action := RpcStepMoves(s, rid, a);
    MoveKeepsOps(s, r, action);
    RpcStepEffect(s, rid, a);
    forall t <- r.tasks ensures TaskTrue(r, r.tasks[t]) {
      if t in s.tasks {
        TaskStaysTrue(s, r, s.tasks[t]);
      }
    }
  }

  lemma TaskStepKeepsTasks(s: Sys, tid: nat, a: Shutdown.Step)
    requires TasksInv(s) && tid in s.tasks
    ensures TasksInv(TaskStep(s, tid, a))
  {
    var r := TaskStep(s, tid, a);
    var action := TaskStepMoves(s, tid, a);
    MoveKeepsOps(s, r, action);
    TaskStepKeepsOwnTask(s, tid, a);
    forall t <- r.tasks ensures TaskTrue(r, r.tasks[t]) {
      if t != tid {
        TaskStaysTrue(s, r, s.tasks[t]);
      }
    }
  }

  lemma TaskStepKeepsOwnTask(s: Sys, tid: nat, a: Shutdown.Step)
    requires TasksInv(s) && tid in s.tasks
    ensures var r := TaskStep(s, tid, a);
            && r.tasks.Keys == s.tasks.Keys && (forall t <- s.tasks | t != tid :: r.tasks[t] == s.tasks[t])
            && r.tasks[tid].event == s.tasks[tid].event && TaskTrue(r, r.tasks[tid])
  {
    assert TaskTrue(s, s.tasks[tid]);
    if s.tasks[tid].Attaching? && a.TaskStore? {
      var task := s.tasks[tid];
      StatementKeepsOp(s.machine.store, s.machine.ops[task.pid], a.env, task.event.id, task.embedding);
    }
  }

  lemma TaskStepKeepsCalls(s: Sys, tid: nat, a: Shutdown.Step)
    requires TasksInv(s) && CallsInv(s) && tid in s.tasks
    ensures CallsInv(TaskStep(s, tid, a))
  {
    TaskStepKeepsOwnTask(s, tid, a);
  }

  /** How an RPC that carries its event moves on. */
  lemma EventRpcMoves(s: Sys, rid: nat, a: Shutdown.Step)
    requires Running(s, rid) && HasEvent(s.rpcs[rid])
    ensures var r := RpcStep(s, rid, a); var event := s.rpcs[rid].event;
            && rid in r.rpcs && (HasEvent(r.rpcs[rid]) ==> r.rpcs[rid].event == event)
            && (s.hasProvider && IsFact(event.typ) && !HasEvent(r.rpcs[rid]) ==>
                  rid in r.taskOf && r.taskOf[rid] in r.tasks && r.tasks[r.taskOf[rid]] == Embedding(event))
            && (r.taskOf == s.taskOf
                || (exists tid :: tid !in s.tasks && tid in r.tasks && r.taskOf == s.taskOf[rid := tid]))
  {
    if s.rpcs[rid].Spawning? && a.RpcSpawn? && a.tid !in s.tasks {
      assert RpcStep(s, rid, a).taskOf == s.taskOf[rid := a.tid];
    }
  }

  lemma OtherRpcMoves(s: Sys, rid: nat, a: Shutdown.Step)
    requires Running(s, rid) && !HasEvent(s.rpcs[rid])
    ensures var r := RpcStep(s, rid, a);
            r.taskOf == s.taskOf && (rid in r.rpcs ==> !HasEvent(r.rpcs[rid]))
  {
  }

  lemma RpcStepKeepsCalls(s: Sys, rid: nat, a: Shutdown.Step)
    requires SysInv(s) && CallsInv(s) && Running(s, rid)
    ensures CallsInv(RpcStep(s, rid, a))
  {
    RpcStepEffect(s, rid, a);
    if HasEvent(s.rpcs[rid]) {
      EventRpcMoves(s, rid, a);
    } else {
      OtherRpcMoves(s, rid, a);
    }
    var r := RpcStep(s, rid, a);
    forall x <- r.published | IsVectorized(r, x) ensures Underway(r, x) || Started(r, x) {
      assert IsVectorized(s, x);
    }
  }

  lemma AcceptKeepsFacts(s: Sys, rid: nat, arrival: Arrival)
    requires FactsInv(s)
    ensures FactsInv(AcceptStep(s, rid, arrival))
  {
    var r := AcceptStep(s, rid, arrival);
    MoveKeepsOps(s, r, if arrival.Publish? then Start(arrival.pid, InsertingEvent(arrival.event, []))
        else Start(0, Failed));
    forall t <- r.tasks ensures TaskTrue(r, r.tasks[t]) {
      TaskStaysTrue(s, r, s.tasks[t]);
    }
  }

  lemma DoKeepsFacts(s: Sys, a: Shutdown.Step)
    requires SysInv(s) && FactsInv(s)
    ensures FactsInv(Do(s, a))
  {
    if a.Accept? {
      AcceptKeepsFacts(s, a.rid, a.arrival);
    } else if ByRpc(a) {
      if Running(s, a.rid) {
        RpcStepKeepsTasks(s, a.rid, a);
        RpcStepKeepsCalls(s, a.rid, a);
      }
    } else if ByTask(a) {
      if a.tid in s.tasks {
        TaskStepKeepsTasks(s, a.tid, a);
        TaskStepKeepsCalls(s, a.tid, a);
      }
    } else {
      HandlerKeepsFacts(s, a);
    }
  }

  lemma HandlerKeepsFacts(s: Sys, a: Shutdown.Step)
    requires FactsInv(s)
    ensures FactsInv(HandlerStep(s, a))
  {
    var r := HandlerStep(s, a);
    assert r.tasks == s.tasks && r.machine == s.machine;
    forall t <- r.tasks ensures TaskTrue(r, r.tasks[t]) {
      assert TaskTrue(s, s.tasks[t]);
    }
  }

  lemma {:induction false} DoAllKeepsFacts(s: Sys, steps: seq<Shutdown.Step>)
    requires SysInv(s) && FactsInv(s)
    ensures SysInv(DoAll(s, steps)) && FactsInv(DoAll(s, steps))
    decreases |steps|
  {
    if steps != [] {
      DoKeepsInv(s, steps[0]);
      DoKeepsFacts(s, steps[0]);
      DoAllKeepsFacts(Do(s, steps[0]), steps[1..]);
    }
  }

  // ------------------------------------------------------------------ the result

  /** The saved index holds the embedding under a key that an edge links to the event. */
  ghost predicate InIndex(s: Sys, id: string, embedding: Vec)
    requires s.saved.Some?
  {
    exists v :: v in s.saved.value && s.saved.value[v] == embedding && Embeds(s.machine.store, v, id, embedding)
  }

  /** A finished task's event is in the index, unless it got no embedding or a statement failed. */
  ghost predicate Accounted(s: Sys, task: Task)
    requires s.saved.Some?
  {
    && task.Finished?
    && (task.attempt.Some? ==>
          && task.attempt.value.pid in s.machine.ops
          && (s.machine.ops[task.attempt.value.pid].Failed?
              || InIndex(s, task.event.id, task.attempt.value.embedding)))
  }

  /**
   * In every run that saved its index: each call that published a fact has a task of its own for
   * its event, finished, and the saved index holds the embedding that the task got, linked to the
   * event, unless it got none or a statement of its operation failed.
   */
  lemma PublishedFactsAreSaved(machine: Machine, hasProvider: bool, steps: seq<Shutdown.Step>)
    requires Inv(machine) && machine.ops == map[]
    requires DoAll(Booted(machine, hasProvider), steps).saved.Some?
    ensures var s := DoAll(Booted(machine, hasProvider), steps);
            && (forall rid <- s.published | IsVectorized(s, rid) ::
                  Started(s, rid) && Accounted(s, s.tasks[s.taskOf[rid]]))
            && (forall p <- s.taskOf, q <- s.taskOf | p != q :: s.taskOf[p] != s.taskOf[q])
  {
    BootedInv(machine, hasProvider);
    DoAllKeepsFacts(Booted(machine, hasProvider), steps);
    var s := DoAll(Booted(machine, hasProvider), steps);
    ClosingIsIdle(s);
    forall rid <- s.published | IsVectorized(s, rid)
      ensures Started(s, rid) && Accounted(s, s.tasks[s.taskOf[rid]])
    {
      FinishedIsAccounted(s, s.taskOf[rid]);
    }
  }

  lemma FinishedIsAccounted(s: Sys, t: nat)
    requires SysInv(s) && TasksInv(s) && s.saved.Some? && t in s.tasks && s.tasks[t].Finished?
    ensures Accounted(s, s.tasks[t])
  {
    var task := s.tasks[t];
    assert TaskTrue(s, task);
    if task.attempt.Some? && !s.machine.ops[task.attempt.value.pid].Failed? {
      LinkedIsInIndex(s, task.attempt.value.pid, task.event.id, task.attempt.value.embedding);
    }
  }

  lemma LinkedIsInIndex(s: Sys, pid: nat, id: string, embedding: Vec)
    requires SysInv(s) && s.saved.Some? && pid in s.machine.ops
    requires s.machine.ops[pid].Linked? && Attaches(s.machine.ops[pid], id, embedding)
    ensures InIndex(s, id, embedding)
  {
    var op := s.machine.ops[pid];
    assert OpInv(s.machine.store, op);
    assert IsVector(s.machine.store, op.vectorId);
    assert Embeds(s.machine.store, op.vectorId, id, embedding);
  }

  // ------------------------------------------------------------------ from the call to the saved index

  /** Whatever the system does, an operation goes on doing what it was asked. */
  lemma DoPursues(s: Sys, a: Shutdown.Step, pid: nat, asked: Operation)
    requires SysInv(s) && pid in s.machine.ops
    requires Pursues(s.machine.ops[pid], asked) && Wrote(s.machine.store, s.machine.ops[pid], asked)
    ensures var m := Do(s, a).machine;
            pid in m.ops && Pursues(m.ops[pid], asked) && Wrote(m.store, m.ops[pid], asked)
  {
    var action := DoMoves(s, a);
    NextPursues(s.machine, action, pid, asked);
  }

  /** The store changes only by steps of its operations. */
  lemma DoMoves(s: Sys, a: Shutdown.Step) returns (action: Action)
    ensures Do(s, a).machine == s.machine || Do(s, a).machine == Next(s.machine, action)
  {
    action := Start(0, Failed);
    if a.Accept? {
      if a.arrival.Publish? {
        action := Start(a.arrival.pid, InsertingEvent(a.arrival.event, []));
      }
    } else if ByRpc(a) {
      if Running(s, a.rid) {
        action := RpcStepMoves(s, a.rid, a);
      }
    } else if ByTask(a) && a.tid in s.tasks {
      action := TaskStepMoves(s, a.tid, a);
    }
  }

  lemma {:induction false} DoAllPursues(s: Sys, steps: seq<Shutdown.Step>, pid: nat, asked: Operation)
    requires SysInv(s) && pid in s.machine.ops
    requires Pursues(s.machine.ops[pid], asked) && Wrote(s.machine.store, s.machine.ops[pid], asked)
    ensures var m := DoAll(s, steps).machine;
            pid in m.ops && Pursues(m.ops[pid], asked) && Wrote(m.store, m.ops[pid], asked)
    decreases |steps|
  {
    if steps != [] {
      DoPursues(s, steps[0], pid, asked);
      DoKeepsInv(s, steps[0]);
      DoAllPursues(Do(s, steps[0]), steps[1..], pid, asked);
    }
  }

  lemma TaskStartsAttaching(s: Sys, tid: nat, embedding: Vec, pid: nat)
    requires tid in s.tasks && s.tasks[tid].Embedding? && pid !in s.machine.ops
    ensures var m := Do(s, TaskEmbed(tid, Some(embedding), pid)).machine;
            pid in m.ops && m.ops[pid] == CheckingEvent(s.tasks[tid].event.id, embedding)
  {
  }

  /**
   * The embedding that a task is given is the one that the saved index holds, linked to the task's
   * own event, unless a statement of its operation failed, whatever else happens until then.
   */
  lemma GivenEmbeddingIsSaved(s: Sys, tid: nat, embedding: Vec, pid: nat, steps: seq<Shutdown.Step>)
    requires SysInv(s) && tid in s.tasks && s.tasks[tid].Embedding? && pid !in s.machine.ops
    ensures var r := DoAll(Do(s, TaskEmbed(tid, Some(embedding), pid)), steps);
            pid in r.machine.ops
            && (r.saved.Some? ==> r.machine.ops[pid].Failed? || InIndex(r, s.tasks[tid].event.id, embedding))
  {
    var next := Do(s, TaskEmbed(tid, Some(embedding), pid));
    DoKeepsInv(s, TaskEmbed(tid, Some(embedding), pid));
    DoAllKeepsInv(next, steps);
    TaskStartsAttaching(s, tid, embedding, pid);
    DoAllPursues(next, steps, pid, CheckingEvent(s.tasks[tid].event.id, embedding));
    var r := DoAll(next, steps);
    if r.saved.Some? && !r.machine.ops[pid].Failed? {
      ClosingIsQuiet(r);
      LinkedIsInIndex(r, pid, s.tasks[tid].event.id, embedding);
    }
  }

  /** The node of this event is in the table, or its insert failed. */
  ghost predicate StoredOrFailed(s: Sys, pid: nat, event: Event) {
    && pid in s.machine.ops
    && (s.machine.ops[pid].Failed?
        || (event.id in s.machine.store.nodes
            && s.machine.store.nodes[event.id] == EventNode(ToDocument(event))))
  }

  lemma {:induction false} PublishedStays(s: Sys, steps: seq<Shutdown.Step>, rid: nat)
    requires rid in s.published
    ensures rid in DoAll(s, steps).published && DoAll(s, steps).published[rid] == s.published[rid]
    decreases |steps|
  {
    if steps != [] {
      PublishedStays(Do(s, steps[0]), steps[1..], rid);
    }
  }

  lemma CallStartsStoring(s: Sys, rid: nat, event: Event, pid: nat)
    requires s.phase.Serving? && rid !in s.rpcs && rid !in s.published && pid !in s.machine.ops
    ensures var r := Do(s, Accept(rid, Publish(event, pid)));
            && pid in r.machine.ops && r.machine.ops[pid] == InsertingEvent(event, [])
            && rid in r.published && r.published[rid] == event
  {
  }

  lemma ResponseStartsStoring(s: Sys, rid: nat, response: Event, pid: nat)
    requires rid in s.rpcs && s.rpcs[rid].Answering? && pid !in s.machine.ops
    ensures var m := Do(s, RpcRespond(rid, response, pid)).machine;
            pid in m.ops && m.ops[pid] == InsertingEvent(response, [])
  {
  }

  /** When closing begins, the event of every accepted call is stored, or its insert has failed. */
  lemma PublishedEventIsStored(s: Sys, rid: nat, event: Event, pid: nat, steps: seq<Shutdown.Step>)
    requires SysInv(s) && s.phase.Serving? && rid !in s.rpcs && rid !in s.published && pid !in s.machine.ops
    ensures var r := DoAll(Do(s, Accept(rid, Publish(event, pid))), steps);
            && rid in r.published && r.published[rid] == event
            && (r.phase.Closing() ==> StoredOrFailed(r, pid, event))
  {
    var next := Do(s, Accept(rid, Publish(event, pid)));
    DoKeepsInv(s, Accept(rid, Publish(event, pid)));
    DoAllKeepsInv(next, steps);
    CallStartsStoring(s, rid, event, pid);
    DoAllPursues(next, steps, pid, InsertingEvent(event, []));
    PublishedStays(next, steps, rid);
    if DoAll(next, steps).phase.Closing() {
      ClosingIsQuiet(DoAll(next, steps));
    }
  }

  /** And so is every response that a call has begun to store. */
  lemma ResponseIsStored(s: Sys, rid: nat, response: Event, pid: nat, steps: seq<Shutdown.Step>)
    requires SysInv(s) && rid in s.rpcs && s.rpcs[rid].Answering? && pid !in s.machine.ops
    ensures var r := DoAll(Do(s, RpcRespond(rid, response, pid)), steps);
            r.phase.Closing() ==> StoredOrFailed(r, pid, response)
  {
    var next := Do(s, RpcRespond(rid, response, pid));
    DoKeepsInv(s, RpcRespond(rid, response, pid));
    DoAllKeepsInv(next, steps);
    ResponseStartsStoring(s, rid, response, pid);
    DoAllPursues(next, steps, pid, InsertingEvent(response, []));
    if DoAll(next, steps).phase.Closing() {
      ClosingIsQuiet(DoAll(next, steps));
    }
  }
}
