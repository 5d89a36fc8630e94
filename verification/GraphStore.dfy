/**
 * The graph store and its vector index as a system of steps. `StoreEvent` and
 * `AddEmbeddingToEvent` (internal/storage/sqlite/provider_pure.go) run as concurrent
 * operations; each database statement and each index update is one atomic step, may be
 * preceded by any steps of other operations, and a statement may fail.
 */
module GraphStore {
  import opened VectorCodec
  import opened EventCodec

  datatype Node = EventNode(doc: Document) | VectorNode(content: seq<Byte>)

  datatype Edge = Edge(source: string, target: string, relation: string)

  const EMBEDDING_OF := "embedding_of"

  /** The two tables by primary key, and the in-memory index. */
  datatype Store = Store(nodes: map<string, Node>, edges: map<string, Edge>, index: map<string, Vec>)

  const EMPTY_STORE := Store(map[], map[], map[])

  /** Where an operation stands: the statement it executes next, or how it ended. */
  datatype Operation =
    | InsertingEvent(event: Event, embedding: Vec)
    | CheckingEvent(eventId: string, embedding: Vec)
    | InsertingVector(eventId: string, embedding: Vec)
    | Indexing(vectorId: string, eventId: string, embedding: Vec)
    | Linking(vectorId: string, eventId: string, embedding: Vec)
    | Stored(storedId: string)
    | Linked(vectorId: string, eventId: string, embedding: Vec)
    | Failed
  {
    predicate Done() {
      Stored? || Linked? || Failed?
    }

    predicate Initial() {
      InsertingEvent? || CheckingEvent?
    }

    /** The operation has put its vector node in the table and has not ended. */
    predicate Holds() {
      Indexing? || Linking?
    }
  }

  /** What the surroundings decide for one step: the clock-made keys, and whether the statement fails. */
  datatype Env = Env(fault: bool, vectorId: string, edgeId: string)

  predicate IsEvent(store: Store, id: string) {
    id in store.nodes && store.nodes[id].EventNode?
  }

  predicate IsVector(store: Store, id: string) {
    id in store.nodes && store.nodes[id].VectorNode?
  }

  /** One statement of one operation. An insert fails when its primary key is taken. */
  function Step(store: Store, op: Operation, env: Env): (r: (Store, Operation)) {
    match op
    case InsertingEvent(event, embedding) =>
      if env.fault || event.id in store.nodes then (store, Failed)
      else (store.(nodes := store.nodes[event.id := EventNode(ToDocument(event))]),
            if |embedding| > 0 then InsertingVector(event.id, embedding) else Stored(event.id))
    case CheckingEvent(eventId, embedding) =>
      if env.fault || !IsEvent(store, eventId) then (store, Failed)
      else (store, InsertingVector(eventId, embedding))
    case InsertingVector(eventId, embedding) =>
      if env.fault || env.vectorId in store.nodes then (store, Failed)
      else (store.(nodes := store.nodes[env.vectorId := VectorNode(Encode(embedding))]),
            Indexing(env.vectorId, eventId, embedding))
    case Indexing(vectorId, eventId, embedding) =>
      (store.(index := store.index[vectorId := embedding]), Linking(vectorId, eventId, embedding))
    case Linking(vectorId, eventId, embedding) =>
      if env.fault || env.edgeId in store.edges then (store, Failed)
      else (store.(edges := store.edges[env.edgeId := Edge(vectorId, eventId, EMBEDDING_OF)]),
            Linked(vectorId, eventId, embedding))
    case _ => (store, op)
  }

  /** The store with every operation ever started, by a process number. */
  datatype Machine = Machine(store: Store, ops: map<nat, Operation>)

  datatype Action =
    | Start(pid: nat, op: Operation)
    | Advance(pid: nat, env: Env)

  /** One step of the system; an action that is not possible changes nothing. */
  function Next(m: Machine, a: Action): (r: Machine) {
    match a
    case Start(pid, op) =>
      if pid !in m.ops && op.Initial() then m.(ops := m.ops[pid := op]) else m
    case Advance(pid, env) =>
      if pid in m.ops then
        var (store, op) := Step(m.store, m.ops[pid], env);
        Machine(store, m.ops[pid := op])
      else m
  }

  function Run(m: Machine, actions: seq<Action>): (r: Machine)
    decreases |actions|
  {
    if actions == [] then m else Run(Next(m, actions[0]), actions[1..])
  }

  ghost predicate IsEdge(store: Store, e: string) {
    e in store.edges
  }

  /** The tables and the index agree, at whatever point the running operations stand. */
  ghost predicate StoreInv(store: Store) {
    && (forall v <- store.index :: IsVector(store, v) && store.nodes[v].content == Encode(store.index[v]))
    && (forall e | IsEdge(store, e) ::
          && store.edges[e].relation == EMBEDDING_OF
          && store.edges[e].source in store.index
          && IsEvent(store, store.edges[e].target))
    && (forall e, f | IsEdge(store, e) && IsEdge(store, f) && e != f :: store.edges[e].source != store.edges[f].source)
    && (forall id | IsEvent(store, id) :: StoredEventNode(store, id))
  }

  /** An event node holds the document of an event with that id. */
  ghost predicate StoredEventNode(store: Store, id: string)
    requires IsEvent(store, id)
  {
    exists e: Event :: e.id == id && store.nodes[id].doc == ToDocument(e)
  }

  /** What a running or finished operation may rely on. */
  ghost predicate OpInv(store: Store, op: Operation) {
    match op
    case InsertingVector(eventId, _) => IsEvent(store, eventId)
    case Indexing(v, eventId, embedding) =>
      && IsEvent(store, eventId) && IsVector(store, v) && store.nodes[v].content == Encode(embedding)
      && v !in store.index
    case Linking(v, eventId, embedding) =>
      && IsEvent(store, eventId) && v in store.index && store.index[v] == embedding
      && (forall e | IsEdge(store, e) :: store.edges[e].source != v)
    case Stored(id) => IsEvent(store, id)
    case Linked(v, eventId, embedding) =>
      && v in store.index && store.index[v] == embedding
      && (exists e :: IsEdge(store, e) && store.edges[e] == Edge(v, eventId, EMBEDDING_OF))
    case _ => true
  }

  ghost predicate Inv(m: Machine) {
    && StoreInv(m.store)
    && (forall pid <- m.ops :: OpInv(m.store, m.ops[pid]))
    && (forall p <- m.ops, q <- m.ops | p != q && m.ops[p].Holds() && m.ops[q].Holds() ::
          m.ops[p].vectorId != m.ops[q].vectorId)
    // a vector node outside the index is about to be added by its operation
    && (forall v | IsVector(m.store, v) && v !in m.store.index :: exists pid :: IndexingNow(m, pid, v))
  }

  ghost predicate IndexingNow(m: Machine, pid: nat, v: string) {
    pid in m.ops && m.ops[pid].Indexing? && m.ops[pid].vectorId == v
  }

  /** No operation is in the middle of its statements. */
  ghost predicate Quiet(m: Machine) {
    forall pid <- m.ops :: m.ops[pid].Done()
  }

  /** Both tables and the index only grow, and no row or entry ever changes. */
  ghost predicate Grows(before: Store, after: Store) {
    && (forall id <- before.nodes :: id in after.nodes && after.nodes[id] == before.nodes[id])
    && (forall e | IsEdge(before, e) :: IsEdge(after, e) && after.edges[e] == before.edges[e])
    && (forall v <- before.index :: v in after.index && after.index[v] == before.index[v])
  }

  lemma GrowsTransitive(a: Store, b: Store, c: Store)
    requires Grows(a, b) && Grows(b, c)
    ensures Grows(a, c)
  {
  }

  // ------------------------------------------------------------------ one step

  /** The rows and entries a step adds; each of the three collections gets at most one. */
  lemma StepGrows(store: Store, op: Operation, env: Env)
    requires OpInv(store, op)
    ensures Grows(store, Step(store, op, env).0)
  {
    match op
    case InsertingEvent(event, _) =>
      if event.id !in store.nodes {
        InsertNodeGrows(store, event.id, EventNode(ToDocument(event)));
      }
    case InsertingVector(_, embedding) =>
      if env.vectorId !in store.nodes {
        InsertNodeGrows(store, env.vectorId, VectorNode(Encode(embedding)));
      }
    case _ =>
  }

  lemma InsertNodeGrows(store: Store, id: string, node: Node)
    requires id !in store.nodes
    ensures Grows(store, store.(nodes := store.nodes[id := node]))
  {
  }

  lemma InsertNodeKeepsStoreInv(store: Store, id: string, node: Node)
    requires StoreInv(store) && id !in store.nodes
    requires node.EventNode? ==> exists e: Event :: e.id == id && node.doc == ToDocument(e)
    ensures StoreInv(store.(nodes := store.nodes[id := node]))
  {
    var after := store.(nodes := store.nodes[id := node]);
    forall x | IsEvent(after, x) ensures StoredEventNode(after, x) {
      if x != id {
        assert StoredEventNode(store, x);
      }
    }
    forall e | IsEdge(after, e) ensures IsEdge(store, e) && IsEvent(after, after.edges[e].target) {
      assert IsEdge(store, e);
    }
    assert forall v <- after.index :: IsVector(store, v);
  }

  lemma IndexKeepsStoreInv(store: Store, v: string, embedding: Vec)
    requires StoreInv(store) && v !in store.index
    requires IsVector(store, v) && store.nodes[v].content == Encode(embedding)
    ensures StoreInv(store.(index := store.index[v := embedding]))
  {
    WiderIndexKeepsStoreInv(store, store.(index := store.index[v := embedding]));
  }

  lemma WiderIndexKeepsStoreInv(store: Store, after: Store)
    requires StoreInv(store) && after.nodes == store.nodes && after.edges == store.edges
    requires forall v <- store.index :: v in after.index
    requires forall v <- after.index :: IsVector(after, v) && after.nodes[v].content == Encode(after.index[v])
    ensures StoreInv(after)
  {
    forall x | IsEvent(after, x) ensures StoredEventNode(after, x) {
      assert StoredEventNode(store, x);
    }
    forall e | IsEdge(after, e) ensures IsEdge(store, e) {
    }
  }

  lemma LinkKeepsStoreInv(store: Store, edge: string, v: string, eventId: string)
    requires StoreInv(store) && edge !in store.edges
    requires v in store.index && IsEvent(store, eventId)
    requires forall e | IsEdge(store, e) :: store.edges[e].source != v
    ensures StoreInv(store.(edges := store.edges[edge := Edge(v, eventId, EMBEDDING_OF)]))
  {
    var after := store.(edges := store.edges[edge := Edge(v, eventId, EMBEDDING_OF)]);
    forall x | IsEvent(after, x) ensures StoredEventNode(after, x) {
      assert StoredEventNode(store, x);
    }
    forall e | IsEdge(after, e) ensures e == edge || IsEdge(store, e) {
    }
  }

  lemma StepKeepsStoreInv(store: Store, op: Operation, env: Env)
    requires StoreInv(store) && OpInv(store, op)
    ensures StoreInv(Step(store, op, env).0)
  {
    match op
    case InsertingEvent(event, _) =>
      if !env.fault && event.id !in store.nodes {
        InsertNodeKeepsStoreInv(store, event.id, EventNode(ToDocument(event)));
      }
    case InsertingVector(_, embedding) =>
      if !env.fault && env.vectorId !in store.nodes {
        InsertNodeKeepsStoreInv(store, env.vectorId, VectorNode(Encode(embedding)));
      }
    case Indexing(v, _, embedding) => IndexKeepsStoreInv(store, v, embedding);
    case Linking(v, eventId, _) =>
      if !env.fault && env.edgeId !in store.edges {
        LinkKeepsStoreInv(store, env.edgeId, v, eventId);
      }
    case _ =>
  }

  lemma StepKeepsOpInv(store: Store, op: Operation, env: Env)
    requires StoreInv(store) && OpInv(store, op)
    ensures OpInv(Step(store, op, env).0, Step(store, op, env).1)
  {
    var after := Step(store, op, env).0;
    match op
    case InsertingVector(_, _) => assert env.vectorId in store.index ==> IsVector(store, env.vectorId);
    case Indexing(v, _, _) =>
      assert forall e | IsEdge(after, e) :: IsEdge(store, e) && store.edges[e].source in store.index;
    case Linking(_, _, _) => assert after != store ==> IsEdge(after, env.edgeId);
    case _ =>
  }

  lemma StepKeepsOthers(m: Machine, pid: nat, env: Env, q: nat)
    requires Inv(m) && pid in m.ops && q in m.ops && q != pid
    ensures OpInv(Step(m.store, m.ops[pid], env).0, m.ops[q])
  {
    var after := Step(m.store, m.ops[pid], env).0;
    StepGrows(m.store, m.ops[pid], env);
    assert OpInv(m.store, m.ops[q]);
    if m.ops[q].Holds() {
      assert m.ops[pid].Holds() ==> m.ops[pid].vectorId != m.ops[q].vectorId;
      if m.ops[q].Linking? && after.edges != m.store.edges {
        assert forall e | IsEdge(after, e) :: e == env.edgeId || IsEdge(m.store, e);
      }
    } else {
      GrowthKeepsOpInv(m.store, after, m.ops[q]);
    }
  }

  /** What an operation without a vector in hand relies on stays true however the store grows. */
  lemma GrowthKeepsOpInv(before: Store, after: Store, op: Operation)
    requires Grows(before, after) && OpInv(before, op) && !op.Holds()
    ensures OpInv(after, op)
  {
    if op.Linked? {
      var e :| IsEdge(before, e) && before.edges[e] == Edge(op.vectorId, op.eventId, EMBEDDING_OF);
      assert IsEdge(after, e);
    }
  }

  lemma StepKeepsHoldersApart(m: Machine, pid: nat, env: Env, q: nat)
    requires Inv(m) && pid in m.ops && q in m.ops && q != pid
    requires Step(m.store, m.ops[pid], env).1.Holds() && m.ops[q].Holds()
    ensures Step(m.store, m.ops[pid], env).1.vectorId != m.ops[q].vectorId
  {
    assert OpInv(m.store, m.ops[q]);
    if m.ops[pid].Holds() {
      assert m.ops[pid].vectorId != m.ops[q].vectorId;
    } else {
      // the new vector id was free, and the other operation's is taken
      assert IsVector(m.store, m.ops[q].vectorId);
    }
  }

  lemma StepKeepsPending(m: Machine, pid: nat, env: Env, v: string)
    requires Inv(m) && pid in m.ops
    requires var after := Next(m, Advance(pid, env)).store; IsVector(after, v) && v !in after.index
    ensures exists p :: IndexingNow(Next(m, Advance(pid, env)), p, v)
  {
    var after := Next(m, Advance(pid, env));
    if IsVector(m.store, v) {
      assert v !in m.store.index;
      var p :| IndexingNow(m, p, v);
      if m.ops[pid].Indexing? {
        assert m.ops[pid].vectorId in after.store.index;
      }
      assert IndexingNow(after, p, v);
    } else {
      assert IndexingNow(after, pid, v);
    }
  }

  lemma AdvanceKeepsInv(m: Machine, pid: nat, env: Env)
    requires Inv(m) && pid in m.ops
    ensures Inv(Next(m, Advance(pid, env)))
    ensures Grows(m.store, Next(m, Advance(pid, env)).store)
  {
    var after := Next(m, Advance(pid, env));
    StepGrows(m.store, m.ops[pid], env);
    StepKeepsStoreInv(m.store, m.ops[pid], env);
    StepKeepsOpInv(m.store, m.ops[pid], env);
    forall q <- after.ops ensures OpInv(after.store, after.ops[q]) {
      if q != pid {
        StepKeepsOthers(m, pid, env, q);
      }
    }
    forall p <- after.ops, q <- after.ops | p != q && after.ops[p].Holds() && after.ops[q].Holds()
      ensures after.ops[p].vectorId != after.ops[q].vectorId
    {
      if p == pid {
        StepKeepsHoldersApart(m, pid, env, q);
      } else if q == pid {
        StepKeepsHoldersApart(m, pid, env, p);
      }
    }
    forall v | IsVector(after.store, v) && v !in after.store.index
      ensures exists p :: IndexingNow(after, p, v)
    {
      StepKeepsPending(m, pid, env, v);
    }
  }

  /** Every step of every operation keeps the invariant and only adds to the store. */
  lemma NextKeepsInv(m: Machine, a: Action)
    requires Inv(m)
    ensures Inv(Next(m, a))
    ensures Grows(m.store, Next(m, a).store)
  {
    var after := Next(m, a);
    match a {
      case Start(pid, op) =>
        forall v | IsVector(after.store, v) && v !in after.store.index
          ensures exists p :: IndexingNow(after, p, v)
        {
          var p :| IndexingNow(m, p, v);
          assert IndexingNow(after, p, v);
        }
      case Advance(pid, env) =>
        if pid in m.ops {
          AdvanceKeepsInv(m, pid, env);
        }
    }
  }

  /**
   * At every point of every interleaving: edge sources are indexed, indexed keys are vector
   * nodes holding the indexed value, edge targets are event nodes, and a vector has at most
   * one edge, whichever statements failed; and everything present earlier is still there.
   */
  lemma {:induction false} RunKeepsInv(m: Machine, actions: seq<Action>)
    requires Inv(m)
    ensures Inv(Run(m, actions))
    ensures Grows(m.store, Run(m, actions).store)
    decreases |actions|
  {
    if actions != [] {
      NextKeepsInv(m, actions[0]);
      RunKeepsInv(Next(m, actions[0]), actions[1..]);
      GrowsTransitive(m.store, Next(m, actions[0]).store, Run(m, actions).store);
    }
  }

  /** A new database starts in a consistent state. */
  lemma FreshStart()
    ensures Inv(Machine(EMPTY_STORE, map[]))
  {
  }

  // ------------------------------------------------------------------ an operation does what was asked of it

  /** The operation attaches this embedding to this event, or has failed to. */
  predicate Attaches(op: Operation, id: string, embedding: Vec) {
    match op
    case CheckingEvent(eventId, vec) => eventId == id && vec == embedding
    case InsertingVector(eventId, vec) => eventId == id && vec == embedding
    case Indexing(_, eventId, vec) => eventId == id && vec == embedding
    case Linking(_, eventId, vec) => eventId == id && vec == embedding
    case Linked(_, eventId, vec) => eventId == id && vec == embedding
    case Failed => true
    case _ => false
  }

  /** The operation stores this event and then its embedding, if that is not empty, or has failed to. */
  predicate Stores(op: Operation, event: Event, embedding: Vec) {
    match op
    case InsertingEvent(e, vec) => e == event && vec == embedding
    case CheckingEvent(_, _) => false
    case Stored(id) => id == event.id && embedding == []
    case Failed => true
    case _ => embedding != [] && Attaches(op, event.id, embedding)
  }

  predicate Pursues(op: Operation, asked: Operation) {
    match asked
    case InsertingEvent(event, embedding) => Stores(op, event, embedding)
    case CheckingEvent(id, embedding) => Attaches(op, id, embedding)
    case _ => false
  }

  /** Past its first statement, an operation that stores an event has written its node. */
  predicate Wrote(store: Store, op: Operation, asked: Operation) {
    asked.InsertingEvent? && !op.InsertingEvent? && !op.Failed? ==>
      var id := asked.event.id; id in store.nodes && store.nodes[id] == EventNode(ToDocument(asked.event))
  }

  lemma StepPursues(store: Store, op: Operation, env: Env, asked: Operation)
    requires Pursues(op, asked) && Wrote(store, op, asked)
    ensures Pursues(Step(store, op, env).1, asked) && Wrote(Step(store, op, env).0, Step(store, op, env).1, asked)
  {
  }

  lemma NextPursues(m: Machine, a: Action, pid: nat, asked: Operation)
    requires Inv(m) && pid in m.ops && Pursues(m.ops[pid], asked) && Wrote(m.store, m.ops[pid], asked)
    ensures var r := Next(m, a); pid in r.ops && Pursues(r.ops[pid], asked) && Wrote(r.store, r.ops[pid], asked)
  {
    NextKeepsInv(m, a);
    if a.Advance? && a.pid == pid {
      StepPursues(m.store, m.ops[pid], a.env, asked);
    }
  }

  lemma {:induction false} RunPursues(m: Machine, actions: seq<Action>, pid: nat, asked: Operation)
    requires Inv(m) && pid in m.ops && Pursues(m.ops[pid], asked) && Wrote(m.store, m.ops[pid], asked)
    ensures var r := Run(m, actions); pid in r.ops && Pursues(r.ops[pid], asked) && Wrote(r.store, r.ops[pid], asked)
    decreases |actions|
  {
    if actions != [] {
      NextPursues(m, actions[0], pid, asked);
      NextKeepsInv(m, actions[0]);
      RunPursues(Next(m, actions[0]), actions[1..], pid, asked);
    }
  }

  /** A vector node and an index entry hold this embedding under one key, linked to this event. */
  ghost predicate Embeds(store: Store, v: string, id: string, embedding: Vec) {
    && v in store.nodes && store.nodes[v] == VectorNode(Encode(embedding))
    && v in store.index && store.index[v] == embedding
    && exists e :: IsEdge(store, e) && store.edges[e] == Edge(v, id, EMBEDDING_OF)
  }

  /**
   * In every interleaving an operation that has succeeded did what it was asked: the event's node is
   * in the table, and the embedding it was given is in a node and in the index under one key, with
   * an edge to that event.
   */
  lemma OperationDoesWhatWasAsked(m: Machine, actions: seq<Action>, pid: nat)
    requires Inv(m) && pid in m.ops && m.ops[pid].Initial()
    ensures var asked, r := m.ops[pid], Run(m, actions);
            && pid in r.ops
            && var done := r.ops[pid];
               (done.Done() && !done.Failed? ==>
                 && (asked.InsertingEvent? ==>
                       && asked.event.id in r.store.nodes
                       && r.store.nodes[asked.event.id] == EventNode(ToDocument(asked.event)))
                 && (asked.CheckingEvent? || asked.embedding != [] ==>
                       && done.Linked?
                       && Embeds(r.store, done.vectorId,
                                 if asked.InsertingEvent? then asked.event.id else asked.eventId, asked.embedding)))
  {
    RunPursues(m, actions, pid, m.ops[pid]);
    RunKeepsInv(m, actions);
    var r := Run(m, actions);
    assert OpInv(r.store, r.ops[pid]);
    if r.ops[pid].Linked? {
      assert IsVector(r.store, r.ops[pid].vectorId);
    }
  }

  // ------------------------------------------------------------------ rebuilding the index

  function VectorOf(node: Node): (embedding: Vec)
    requires node.VectorNode?
  {
    Decode(node.content)
  }

  /** The index rebuilt from the vector nodes; nodes that decode to nothing are skipped. */
  function Rebuilt(nodes: map<string, Node>): (index: map<string, Vec>) {
    map v | v in nodes && nodes[v].VectorNode? && VectorOf(nodes[v]) != [] :: VectorOf(nodes[v])
  }

  lemma PendingMeansRunning(m: Machine, v: string)
    requires Inv(m) && IsVector(m.store, v) && v !in m.store.index
    ensures !Quiet(m)
  {
    var p :| IndexingNow(m, p, v);
    assert !m.ops[p].Done();
  }

  /** With nothing in progress, rebuilding gives the live index exactly when no empty embedding was indexed. */
  lemma RebuildAgrees(m: Machine)
    requires Inv(m) && Quiet(m)
    ensures Rebuilt(m.store.nodes) == m.store.index <==> (forall v <- m.store.index :: m.store.index[v] != [])
  {
    var index, rebuilt := m.store.index, Rebuilt(m.store.nodes);
    forall v | IsVector(m.store, v)
      ensures v in index && Decode(m.store.nodes[v].content) == index[v]
    {
      if v !in index {
        PendingMeansRunning(m, v);
      }
      DecodeEncode(index[v]);
    }
    if forall v <- index :: index[v] != [] {
      assert forall v <- index :: IsVector(m.store, v) && v in rebuilt;
      assert rebuilt == index;
    }
  }

  /** In the middle of operations, rebuilding never loses or alters a non-empty indexed vector. */
  lemma RebuildCoversIndex(m: Machine, v: string)
    requires Inv(m) && v in m.store.index && m.store.index[v] != []
    ensures v in Rebuilt(m.store.nodes) && Rebuilt(m.store.nodes)[v] == m.store.index[v]
  {
    assert IsVector(m.store, v);
    DecodeEncode(m.store.index[v]);
  }

  /** Starting on existing tables with a given index, no operation running. */
  function Reopened(store: Store, index: map<string, Vec>): (m: Machine) {
    Machine(store.(index := index), map[])
  }

  /** After a clean stop, the saved index and a rebuilt one (if no embedding is empty) restore the invariant. */
  lemma ReopenAfterCleanStop(m: Machine)
    requires Inv(m) && Quiet(m)
    ensures Inv(Reopened(m.store, m.store.index))
    ensures (forall v <- m.store.index :: m.store.index[v] != []) ==>
              Reopened(m.store, Rebuilt(m.store.nodes)) == Reopened(m.store, m.store.index)
  {
    RebuildAgrees(m);
    var again := Reopened(m.store, m.store.index);
    forall v | IsVector(again.store, v) ensures v in again.store.index {
      assert IsVector(m.store, v);
      if v !in m.store.index {
        PendingMeansRunning(m, v);
      }
    }
    forall id | IsEvent(again.store, id) ensures StoredEventNode(again.store, id) {
      assert StoredEventNode(m.store, id);
    }
    assert forall e | IsEdge(again.store, e) :: IsEdge(m.store, e);
  }

  /**
   * After a crash at any point, rebuilding restores the invariant exactly when no stored vector
   * node is empty: an empty one would stay outside the index for ever.
   */
  lemma ReopenAfterCrash(m: Machine)
    requires Inv(m)
    ensures Inv(Reopened(m.store, Rebuilt(m.store.nodes))) <==>
            (forall v | IsVector(m.store, v) :: m.store.nodes[v].content != [])
  {
    if forall v | IsVector(m.store, v) :: m.store.nodes[v].content != [] {
      RebuiltStoreInv(m);
    } else {
      var v :| IsVector(m.store, v) && m.store.nodes[v].content == [];
      var again := Reopened(m.store, Rebuilt(m.store.nodes));
      assert IsVector(again.store, v) && v !in again.store.index;
      assert forall p :: !IndexingNow(again, p, v);
    }
  }

  lemma RebuiltStoreInv(m: Machine)
    requires Inv(m) && forall v | IsVector(m.store, v) :: m.store.nodes[v].content != []
    ensures Inv(Reopened(m.store, Rebuilt(m.store.nodes)))
  {
    var again := Reopened(m.store, Rebuilt(m.store.nodes));
    forall v | IsVector(again.store, v)
      ensures v in again.store.index && again.store.nodes[v].content == Encode(again.store.index[v])
    {
      assert IsVector(m.store, v);
      VectorNodeContent(m, v);
    }
    assert forall v <- again.store.index :: IsVector(again.store, v);
    forall id | IsEvent(again.store, id) ensures StoredEventNode(again.store, id) {
      assert StoredEventNode(m.store, id);
    }
    forall e | IsEdge(again.store, e)
      ensures IsEdge(m.store, e) && again.store.edges[e].source in again.store.index
      ensures IsEvent(again.store, again.store.edges[e].target)
    {
      assert IsEdge(m.store, e);
      assert IsVector(again.store, m.store.edges[e].source);
      assert IsEvent(m.store, m.store.edges[e].target);
    }
  }

  /** Every vector node holds the encoding of some embedding. */
  lemma VectorNodeContent(m: Machine, v: string)
    requires Inv(m) && IsVector(m.store, v)
    ensures Encode(Decode(m.store.nodes[v].content)) == m.store.nodes[v].content
    ensures |Decode(m.store.nodes[v].content)| > 0 <==> m.store.nodes[v].content != []
  {
    var embedding: Vec;
    if v in m.store.index {
      embedding := m.store.index[v];
    } else {
      var p :| IndexingNow(m, p, v);
      embedding := m.ops[p].embedding;
      assert OpInv(m.store, m.ops[p]);
    }
    assert m.store.nodes[v].content == Encode(embedding);
    DecodeEncode(embedding);
    EncodeLength(embedding);
  }

  // ------------------------------------------------------------------ one operation alone

  /** The statements an operation may still execute. */
  function Remaining(op: Operation): nat {
    match op
    case InsertingEvent(_, _) => 4
    case CheckingEvent(_, _) => 4
    case InsertingVector(_, _) => 3
    case Indexing(_, _, _) => 2
    case Linking(_, _, _) => 1
    case _ => 0
  }

  /** An operation run to its end with nothing in between; `env(n)` is what the n-th last statement meets. */
  function Solo(store: Store, op: Operation, env: nat -> Env): (r: (Store, Operation))
    decreases Remaining(op)
  {
    if op.Done() then (store, op)
    else
      var (next, op') := Step(store, op, env(Remaining(op)));
      Solo(next, op', env)
  }

  lemma SoloUnfold(store: Store, op: Operation, env: nat -> Env)
    requires !op.Done()
    ensures var (next, op') := Step(store, op, env(Remaining(op)));
            Solo(store, op, env) == Solo(next, op', env)
  {
  }

  /** Alone, an operation keeps the tables and the index in agreement whatever fails in it. */
  lemma {:induction false} SoloKeepsStoreInv(store: Store, op: Operation, env: nat -> Env)
    requires StoreInv(store) && OpInv(store, op)
    ensures StoreInv(Solo(store, op, env).0) && Grows(store, Solo(store, op, env).0)
    decreases Remaining(op)
  {
    if !op.Done() {
      var e := env(Remaining(op));
      var (next, op') := Step(store, op, e);
      StepKeepsStoreInv(store, op, e);
      StepKeepsOpInv(store, op, e);
      StepGrows(store, op, e);
      SoloKeepsStoreInv(next, op', env);
      GrowsTransitive(store, next, Solo(store, op, env).0);
    }
  }

  function SoloSchedule(op: Operation, pid: nat, env: nat -> Env, store: Store): (actions: seq<Action>)
    decreases Remaining(op)
  {
    if op.Done() then []
    else
      var (next, op') := Step(store, op, env(Remaining(op)));
      [Advance(pid, env(Remaining(op)))] + SoloSchedule(op', pid, env, next)
  }

  /** Running alone is one of the interleavings of the system. */
  lemma {:induction false} SoloIsARun(m: Machine, pid: nat, env: nat -> Env)
    requires pid in m.ops
    ensures var (store, op) := Solo(m.store, m.ops[pid], env);
            && Run(m, SoloSchedule(m.ops[pid], pid, env, m.store)) == Machine(store, m.ops[pid := op])
            && op.Done()
    decreases Remaining(m.ops[pid])
  {
    var op := m.ops[pid];
    if op.Done() {
      assert m.ops[pid := op] == m.ops;
    } else {
      var e := env(Remaining(op));
      var next := Next(m, Advance(pid, e));
      SoloIsARun(next, pid, env);
      var rest := SoloSchedule(next.ops[pid], pid, env, next.store);
      assert SoloSchedule(op, pid, env, m.store) == [Advance(pid, e)] + rest;
      assert ([Advance(pid, e)] + rest)[1..] == rest;
      var final := Solo(next.store, next.ops[pid], env).1;
      assert m.ops[pid := next.ops[pid]][pid := final] == m.ops[pid := final];
    }
  }
}
