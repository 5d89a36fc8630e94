/**
 * The storage provider as an object: its two tables and its index, updated in place
 * (internal/storage/sqlite/provider_pure.go). Each method is one operation of GraphStore
 * run alone, so its effect is one of the interleavings studied there.
 */
module StorageProvider {
  import opened Wrappers
  import opened VectorCodec
  import opened EventCodec
  import opened GraphStore

  /** The last three statements of an operation, one by one. */
  lemma UnfoldEmbedding(store: Store, op: Operation, env: nat -> Env)
    requires op.InsertingVector?
    ensures var (s1, op1) := Step(store, op, env(3));
            Solo(store, op, env) ==
            if op1.Failed? then (s1, op1) else
              var (s2, op2) := Step(s1, op1, env(2));
              Step(s2, op2, env(1))
  {
    SoloUnfold(store, op, env);
    var (s1, op1) := Step(store, op, env(3));
    if !op1.Failed? {
      SoloUnfold(s1, op1, env);
      var (s2, op2) := Step(s1, op1, env(2));
      SoloUnfold(s2, op2, env);
    }
  }

  /**
   * What attaching an embedding to an event leaves, with `env(3)` to `env(1)` met on the way: node
   * and index entry under one new key, and then the edge, each if its statement works.
   */
  ghost predicate Attached(before: Store, after: Store, id: string, embedding: Vec, env: nat -> Env, ok: bool) {
    var v, e := env(3).vectorId, env(1).edgeId;
    var inserted := !env(3).fault && v !in before.nodes;
    && ok == (inserted && !env(1).fault && e !in before.edges)
    && after.nodes == (if inserted then before.nodes[v := VectorNode(Encode(embedding))] else before.nodes)
    && after.index == (if inserted then before.index[v := embedding] else before.index)
    && after.edges == (if ok then before.edges[e := Edge(v, id, EMBEDDING_OF)] else before.edges)
  }

  /** The index of newly opened tables: a readable saved copy, or else rebuilt; in memory it starts empty. */
  function OpenedIndex(nodes: map<string, Node>, inMemory: bool,
      saved: Option<map<string, Vec>>): (index: map<string, Vec>)
  {
    if inMemory then map[] else if saved.Some? then saved.value else Rebuilt(nodes)
  }

  /** The index holds every vector node under its key, unless its blob decodes to nothing, and no more. */
  ghost predicate HoldsEvery(index: map<string, Vec>, nodes: map<string, Node>) {
    && (forall v :: v in index <==> v in nodes && nodes[v].VectorNode? && Decode(nodes[v].content) != [])
    && (forall v <- index :: index[v] == Decode(nodes[v].content))
  }

  /** The copy that closing leaves. */
  function ClosedIndex(index: map<string, Vec>, inMemory: bool, saveFails: bool): (saved: Option<map<string, Vec>>) {
    if inMemory || saveFails then None else Some(index)
  }

  /**
   * Closing and opening again gives the same index: always from the saved copy, and when saving
   * failed and there is no other copy exactly if no empty embedding was indexed.
   */
  lemma CloseThenOpen(m: Machine, saveFails: bool)
    requires Inv(m) && Quiet(m)
    ensures OpenedIndex(m.store.nodes, false, ClosedIndex(m.store.index, false, saveFails)) == m.store.index
            <==> !saveFails || (forall v <- m.store.index :: m.store.index[v] != [])
  {
    RebuildAgrees(m);
  }

  class Provider {
    var nodes: map<string, Node>
    var edges: map<string, Edge>
    var hnswIndex: map<string, Vec>
    const inMemory: bool

    ghost function State(): Store
      reads this
    {
      Store(nodes, edges, hnswIndex)
    }

    /** Opens existing tables, with the index still empty. */
    constructor (nodes: map<string, Node>, edges: map<string, Edge>, inMemory: bool)
      ensures this.nodes == nodes && this.edges == edges && this.inMemory == inMemory && hnswIndex == map[]
    {
      this.nodes, this.edges, this.inMemory := nodes, edges, inMemory;
      this.hnswIndex := map[];
    }

    /**
     * Fills the index of a newly opened provider; opening fails when the vector rows are needed and
     * cannot be read. A rebuilt index is saved at once, unless it is empty or saving fails.
     */
    method InitHNSWIndex(saved: Option<map<string, Vec>>, readFails: bool, saveFails: bool)
      returns (ok: bool, written: Option<map<string, Vec>>)
      requires hnswIndex == map[]
      modifies this`hnswIndex
      ensures ok <==> inMemory || saved.Some? || !readFails
      ensures ok ==> hnswIndex == OpenedIndex(nodes, inMemory, saved)
      ensures ok ==> if inMemory then hnswIndex == map[] else
                saved != Some(hnswIndex) ==> saved.None? && HoldsEvery(hnswIndex, nodes)
      ensures written == if ok && !inMemory && saved.None? && !saveFails && hnswIndex != map[]
              then Some(hnswIndex) else None
    {
      if inMemory {
        return true, None;
      }
      if saved.Some? {
        hnswIndex := saved.value;
        return true, None;
      }
      if readFails {
        return false, None;
      }
      RebuildIndex();
      if hnswIndex != map[] && !saveFails {
        return true, Some(hnswIndex);
      }
      return true, None;
    }

    method RebuildIndex()
      requires hnswIndex == map[]
      modifies this`hnswIndex
      ensures hnswIndex == Rebuilt(nodes) && HoldsEvery(hnswIndex, nodes)
    {
      var rows := set id | id in nodes && nodes[id].VectorNode?;
      ghost var done: set<string> := {};
      while rows != {}
        invariant rows !! done && rows + done == set id | id in nodes && nodes[id].VectorNode?
        invariant forall v :: v in hnswIndex <==> v in done && VectorOf(nodes[v]) != []
        invariant forall v <- hnswIndex :: hnswIndex[v] == VectorOf(nodes[v])
        decreases |rows|
      {
        var id :| id in rows;
        var embedding := DeserializeVector(nodes[id].content);
        assert embedding == VectorOf(nodes[id]);
        if |embedding| > 0 {
          hnswIndex := hnswIndex[id := embedding];
        }
        rows, done := rows - {id}, done + {id};
      }
    }

    /** INSERT INTO nodes: fails when the key exists or the statement is interrupted. */
    method InsertNode(id: string, node: Node, fault: bool) returns (ok: bool)
      modifies this`nodes
      ensures ok == (!fault && id !in old(nodes))
      ensures nodes == if ok then old(nodes)[id := node] else old(nodes)
    {
      ok := !fault && id !in nodes;
      if ok {
        nodes := nodes[id := node];
      }
    }

    method StoreVector(embedding: Vec, insert: Env) returns (vectorId: Option<string>)
      modifies this`nodes, this`hnswIndex
      ensures vectorId.Some? <==> !insert.fault && insert.vectorId !in old(nodes)
      ensures vectorId.Some? ==>
                && vectorId.value == insert.vectorId
                && nodes == old(nodes)[insert.vectorId := VectorNode(Encode(embedding))]
                && hnswIndex == old(hnswIndex)[insert.vectorId := embedding]
      ensures vectorId.None? ==> nodes == old(nodes) && hnswIndex == old(hnswIndex)
    {
      var bytes := SerializeVector(embedding);
      var ok := InsertNode(insert.vectorId, VectorNode(bytes), insert.fault);
      if !ok {
        return None;
      }
      hnswIndex := hnswIndex[insert.vectorId := embedding];
      return Some(insert.vectorId);
    }

    method CreateEdge(source: string, target: string, relation: string, env: Env) returns (ok: bool)
      modifies this`edges
      ensures ok == (!env.fault && env.edgeId !in old(edges))
      ensures edges == if ok then old(edges)[env.edgeId := Edge(source, target, relation)] else old(edges)
    {
      ok := !env.fault && env.edgeId !in edges;
      if ok {
        edges := edges[env.edgeId := Edge(source, target, relation)];
      }
    }

    /**
     * `env(4)` to `env(1)` are what its four statements meet. The node stays when a later statement
     * fails, and so does an indexed vector when its edge cannot be written.
     */
    method StoreEvent(event: Event, embedding: Vec, env: nat -> Env) returns (ok: bool)
      modifies this
      ensures env(4).fault || event.id in old(nodes) ==> !ok && State() == old(State())
      ensures !env(4).fault && event.id !in old(nodes) ==>
                var stored := old(nodes)[event.id := EventNode(ToDocument(event))];
                if embedding == [] then ok && State() == Store(stored, old(edges), old(hnswIndex))
                else Attached(Store(stored, old(edges), old(hnswIndex)), State(), event.id, embedding, env, ok)
      ensures State() == Solo(old(State()), InsertingEvent(event, embedding), env).0
      ensures ok == !Solo(old(State()), InsertingEvent(event, embedding), env).1.Failed?
    {
      ghost var start := InsertingEvent(event, embedding);
      SoloUnfold(State(), start, env);
      ghost var rest := Step(State(), start, env(4));
      ok := InsertNode(event.id, EventNode(ToDocument(event)), env(4).fault);
      if !ok {
        return;
      }
      if |embedding| > 0 {
        UnfoldEmbedding(rest.0, rest.1, env);
        var vectorId := StoreVector(embedding, env(3));
        if vectorId.None? {
          return false;
        }
        ok := CreateEdge(vectorId.value, event.id, EMBEDDING_OF, env(1));
      }
    }

    /** On success exactly one node, one index entry and one edge are new: the embedding, linked to the event. */
    method AddEmbeddingToEvent(eventId: string, embedding: Vec, env: nat -> Env) returns (ok: bool)
      modifies this
      ensures ok ==>
                && IsEvent(old(State()), eventId) && env(3).vectorId !in old(nodes) && env(1).edgeId !in old(edges)
                && nodes == old(nodes)[env(3).vectorId := VectorNode(Encode(embedding))]
                && hnswIndex == old(hnswIndex)[env(3).vectorId := embedding]
                && edges == old(edges)[env(1).edgeId := Edge(env(3).vectorId, eventId, EMBEDDING_OF)]
      ensures if env(4).fault || !IsEvent(old(State()), eventId) then !ok && State() == old(State())
              else Attached(old(State()), State(), eventId, embedding, env, ok)
      ensures State() == Solo(old(State()), CheckingEvent(eventId, embedding), env).0
      ensures ok == !Solo(old(State()), CheckingEvent(eventId, embedding), env).1.Failed?
    {
      SoloUnfold(State(), CheckingEvent(eventId, embedding), env);
      if env(4).fault || !(eventId in nodes && nodes[eventId].EventNode?) {
        return false;
      }
      UnfoldEmbedding(State(), InsertingVector(eventId, embedding), env);
      var vectorId := StoreVector(embedding, env(3));
      if vectorId.None? {
        return false;
      }
      ok := CreateEdge(vectorId.value, eventId, EMBEDDING_OF, env(1));
    }

    /** What Close writes to the index file; an in-memory index is not written. */
    method Close(saveFails: bool) returns (saved: Option<map<string, Vec>>)
      ensures saved == ClosedIndex(hnswIndex, inMemory, saveFails)
      ensures saved.Some? <==> !inMemory && !saveFails
      ensures saved.Some? ==> saved.value == hnswIndex
    {
      saved := None;
      if !inMemory && !saveFails {
        saved := Some(hnswIndex);
      }
    }
  }

  /**
   * Stopping and starting again on the same tables, with no operation running: the index is the same
   * exactly if it was saved or can be rebuilt without loss.
   */
  method Restart(p: Provider, ghost ops: map<nat, Operation>, closeFails: bool, saveFails: bool)
    returns (q: Provider)
    requires !p.inMemory && Inv(Machine(p.State(), ops)) && Quiet(Machine(p.State(), ops))
    ensures fresh(q) && q.nodes == p.nodes && q.edges == p.edges && !q.inMemory
    ensures q.hnswIndex == p.hnswIndex <==> !closeFails || (forall v <- p.hnswIndex :: p.hnswIndex[v] != [])
  {
    CloseThenOpen(Machine(p.State(), ops), closeFails);
    var saved := p.Close(closeFails);
    q := new Provider(p.nodes, p.edges, p.inMemory);
    var ok, written := q.InitHNSWIndex(saved, false, saveFails);
  }
}
