/** What the calls of the store do, said field by field: which bodies, receipts, embeddings, manifests and
    edges are new, with which contents, and that nothing else has changed. Index files are left to
    `IndexMeaning`: after every call they are exact for the bodies. */
module StoreMeaning {
  import opened Domain
  import opened Listings
  import opened RawIndexes
  import opened VectorShards
  import opened StoreModel
  import opened StoreEffects
  import opened StoreInvariants
  import opened StoreReplay
  import opened StoreRecovery
  import opened StoreProjections
  import opened StoreHistories
  import opened GraphEdges
  import opened IndexMeaning

  // ---------------------------------------------------------------- lifecycle patches

  /** Every stored node of `ids` has taken the states the patch carries and kept the rest of itself; every
      other node is as it was. */
  ghost predicate LifecycleUpdated(a: RawBodies, b: RawBodies, ids: seq<nat>, patch: RawLifecyclePatch) {
    && b.Keys == a.Keys
    && (forall id | id in a && id !in ids :: b[id] == a[id])
    && (forall id | id in a && id in ids ::
          && SameIdentity(a[id], b[id]) && b[id].content == a[id].content
          && b[id].distillation == (match patch.distillation case Some(state) => state case None => a[id].distillation)
          && b[id].overflow == (match patch.overflow case Some(policy) => policy case None => a[id].overflow))
  }

  /** `update_raw_lifecycle`: bodies, index files and the metadata timestamp, and nothing else. */
  lemma LifecycleMeans(d: Disk, ids: seq<nat>, patch: RawLifecyclePatch)
    requires Keyed(d.raw)
    ensures var e := LifecyclePatched(d, ids, patch);
            && LifecycleUpdated(d.raw, e.raw, ids, patch)
            && e == d.(raw := e.raw, files := e.files, metadata := e.metadata)
            && (e.metadata <==> d.metadata || exists id | id in ids :: id in d.raw)
  {
    PatchedRawAt(d.raw, ids, patch);
  }

  // ---------------------------------------------------------------- receipts

  ghost predicate ReceiptStored(a: Receipts, b: Receipts, id: nat, key: Option<string>) {
    match key
    case None => b == a
    case Some(text) => b == a[RECEIPT_DIGEST(text) := StoredId(id, text)]
  }

  /** The body `id` carries a key with the digest of `key`. */
  predicate SharesDigest(bodyKey: Option<string>, key: Option<string>) {
    bodyKey.Some? && key.Some? && RECEIPT_DIGEST(bodyKey.value) == RECEIPT_DIGEST(key.value)
  }

  ghost predicate RawKeyTaken(d: Disk, key: Option<string>) {
    exists id | id in d.raw :: SharesDigest(d.raw[id].operationKey, key)
  }

  ghost predicate AbstractKeyTaken(d: Disk, key: Option<string>) {
    exists id | id in d.abstracts :: SharesDigest(d.abstracts[id].operationKey, key)
  }

  lemma TakenIsTaken(d: Disk, key: Option<string>)
    ensures KeyTaken(RawKeys(d.raw), key) <==> RawKeyTaken(d, key)
    ensures KeyTaken(AbstractKeys(d.abstracts), key) <==> AbstractKeyTaken(d, key)
  {
    if key.Some? {
      forall id | id in d.raw
        ensures Owns(RawKeys(d.raw), RECEIPT_DIGEST(key.value), id) <==> SharesDigest(d.raw[id].operationKey, key)
      {
      }
      forall id | id in d.abstracts
        ensures Owns(AbstractKeys(d.abstracts), RECEIPT_DIGEST(key.value), id) <==> SharesDigest(d.abstracts[id].operationKey, key)
      {
      }
    }
  }

  /** What a raw write reports: its own node if no stored key has this digest; else the body with the same
      key; else a collision. */
  lemma ReturnedMeans(d: Disk, node: RawNode)
    requires Consistent(d)
    ensures !RawKeyTaken(d, node.operationKey) ==> ReturnedNode(d, node) == Some(node)
    ensures forall id | id in d.raw && SharesDigest(d.raw[id].operationKey, node.operationKey) ::
              ReturnedNode(d, node) == if d.raw[id].operationKey == node.operationKey then Some(d.raw[id]) else None
  {
    TakenIsTaken(d, node.operationKey);
    LookupRaw(d, node.operationKey);
    forall id | id in d.raw && SharesDigest(d.raw[id].operationKey, node.operationKey)
      ensures ReturnedNode(d, node) == if d.raw[id].operationKey == node.operationKey then Some(d.raw[id]) else None
    {
      assert RawKeys(d.raw)[id] == d.raw[id].operationKey;
    }
  }

  lemma ReturnedAbstractMeans(d: Disk, node: AbstractNode)
    requires Consistent(d)
    ensures !AbstractKeyTaken(d, node.operationKey) ==> ReturnedAbstract(d, node) == Some(node)
    ensures forall id | id in d.abstracts && SharesDigest(d.abstracts[id].operationKey, node.operationKey) ::
              ReturnedAbstract(d, node)
              == if d.abstracts[id].operationKey == node.operationKey then Some(d.abstracts[id]) else None
  {
    TakenIsTaken(d, node.operationKey);
    LookupAbstract(d, node.operationKey);
    forall id | id in d.abstracts && SharesDigest(d.abstracts[id].operationKey, node.operationKey)
      ensures ReturnedAbstract(d, node)
           == if d.abstracts[id].operationKey == node.operationKey then Some(d.abstracts[id]) else None
    {
      assert AbstractKeys(d.abstracts)[id] == d.abstracts[id].operationKey;
    }
  }

  // ---------------------------------------------------------------- embeddings

  /** `pushed` is `ids` with `id` moved, or added, to its end. */
  ghost predicate MovedLast(ids: seq<nat>, id: nat, pushed: seq<nat>) {
    || (id !in ids && pushed == ids + [id])
    || (exists p | 0 <= p < |ids| :: ids[p] == id && pushed == ids[..p] + ids[p + 1..] + [id])
  }

  /** The body carries the embedding, the time and the session it was indexed with; its id is the last of
      its session's manifest, from whose front everything beyond 4096 ids is evicted, bodies included; all
      other bodies and manifests are as they were. */
  ghost predicate EmbeddingStored(a: Vectors, b: Vectors, id: nat, embedding: seq<real>, at: int, session: Option<nat>) {
    exists pushed: Manifest, n: nat ::
      && MovedLast(if session in a.shards then a.shards[session] else [], id, pushed)
      && n < |pushed| && |pushed| - n <= 4096 && (n > 0 ==> |pushed| - n == 4096)
      && b.shards == a.shards[session := pushed[n..]]
      && b.bodies == map x | x in a.bodies.Keys + {id} && x !in pushed[..n] ::
                       if x == id then StoredEmbedding(id, embedding, at, session) else a.bodies[x]
  }

  lemma {:induction false} WithoutBetween(a: seq<nat>, id: nat, b: seq<nat>)
    requires id !in a && id !in b
    ensures WithoutId(a + [id] + b, id) == a + b
    decreases |a|
  {
    hide Distinct;
    var all := a + [id] + b;
    if a == [] {
      assert all[0] == id && all[1..] == b;
      assert a + b == b;
    } else {
      assert all[0] == a[0] && all[1..] == a[1..] + [id] + b;
      WithoutBetween(a[1..], id, b);
      assert [a[0]] + (a[1..] + b) == a + b;
    }
  }

  lemma PushedMovesLast(ids: Manifest, id: nat)
    ensures MovedLast(ids, id, Pushed(ids, id))
  {
    if p :| 0 <= p < |ids| && ids[p] == id {
      assert ids == ids[..p] + [id] + ids[p + 1..];
      WithoutBetween(ids[..p], id, ids[p + 1..]);
    }
  }

  lemma EmbeddingMeans(v: Vectors, id: nat, embedding: seq<real>, at: int, session: Option<nat>)
    ensures EmbeddingStored(v, IndexEmbedding(v, StoredEmbedding(id, embedding, at, session)), id, embedding, at, session)
  {
    var ids := ReadManifest(v.shards, session);
    PushedMovesLast(ids, id);
    PushedIdsDistinct(ids, id);
    var pushed: Manifest := Pushed(ids, id);
    var n := Overflow(pushed);
    var w := IndexEmbedding(v, StoredEmbedding(id, embedding, at, session));
    assert EvictedIds(ids, id) == pushed[..n];
    assert id !in pushed[..n] by { assert pushed[|pushed| - 1] == id; }
    assert w.bodies == map x | x in v.bodies.Keys + {id} && x !in pushed[..n] ::
                         if x == id then StoredEmbedding(id, embedding, at, session) else v.bodies[x];
  }

  // ---------------------------------------------------------------- edges

  /** The edges of a node are stored under its own id and session: its references and parseable relations,
      each once, in order. */
  ghost predicate EdgesStored(a: map<nat, StoredGraphEdges>, b: map<nat, StoredGraphEdges>, node: AbstractNode) {
    && node.id in b && b == a[node.id := b[node.id]]
    && b[node.id].nodeId == node.id && b[node.id].sessionId == node.sessionId
    && EdgesSorted(b[node.id].edges)
    && (forall e :: e in b[node.id].edges <==> IsReference(node.abstractReferences, e) || IsRelation(node.relations, e))
  }

  lemma EdgesMean(graph: map<nat, StoredGraphEdges>, node: AbstractNode)
    ensures EdgesStored(graph, graph[node.id := StoredEdgesOf(node)], node)
  {
    forall e
      ensures EdgesSorted(EdgesForAbstract(node))
      ensures e in EdgesForAbstract(node) <==> IsReference(node.abstractReferences, e) || IsRelation(node.relations, e)
    {
      EdgesForAbstractAre(node, e);
    }
    assert EdgesSorted(EdgesForAbstract(node)) by { EdgesForAbstractAre(node, GraphEdge(0, "")); }
  }

  // ---------------------------------------------------------------- calls

  /** A returned call on `d` has left `e`. A keyed write whose key's digest is taken has written nothing. */
  ghost predicate CallMeans(d: Disk, call: Call, e: Disk) {
    match call
    case CommitRawCall(node, embedding) =>
      if RawKeyTaken(d, node.operationKey) then e == d
      else
        && e == d.(raw := d.raw[node.id := node], rawReceipts := e.rawReceipts, files := e.files, rawVectors := e.rawVectors)
        && ReceiptStored(d.rawReceipts, e.rawReceipts, node.id, node.operationKey)
        && EmbeddingStored(d.rawVectors, e.rawVectors, node.id, embedding, node.timestamp, node.sessionId)
    case InsertRawCall(node) =>
      if RawKeyTaken(d, node.operationKey) then e == d
      else
        && e == d.(raw := d.raw[node.id := node], rawReceipts := e.rawReceipts, files := e.files)
        && ReceiptStored(d.rawReceipts, e.rawReceipts, node.id, node.operationKey)
    case CommitAbstractCall(node, embedding) =>
      if AbstractKeyTaken(d, node.operationKey) then e == d
      else
        && e == d.(abstracts := d.abstracts[node.id := node], abstractReceipts := e.abstractReceipts,
                   abstractVectors := e.abstractVectors, graph := e.graph)
        && ReceiptStored(d.abstractReceipts, e.abstractReceipts, node.id, node.operationKey)
        && EmbeddingStored(d.abstractVectors, e.abstractVectors, node.id, embedding, node.timestamp, node.sessionId)
        && EdgesStored(d.graph, e.graph, node)
    case UpdateLifecycleCall(ids, patch) =>
      && e == d.(raw := e.raw, files := e.files)
      && LifecycleUpdated(d.raw, e.raw, ids, patch)
    case InsertAbstractCall(node) =>
      if AbstractKeyTaken(d, node.operationKey) then e == d
      else
        && e == d.(abstracts := d.abstracts[node.id := node], abstractReceipts := e.abstractReceipts)
        && ReceiptStored(d.abstractReceipts, e.abstractReceipts, node.id, node.operationKey)
    case IndexCall(RawKind, record) =>
      && e == d.(rawVectors := e.rawVectors)
      && EmbeddingStored(d.rawVectors, e.rawVectors, record.id, record.embedding, record.indexedAt, record.sessionId)
    case IndexCall(AbstractKind, record) =>
      && e == d.(abstractVectors := e.abstractVectors)
      && EmbeddingStored(d.abstractVectors, e.abstractVectors, record.id, record.embedding, record.indexedAt, record.sessionId)
    case IndexGraphCall(node) =>
      && e == d.(graph := e.graph)
      && EdgesStored(d.graph, e.graph, node)
  }

  /** On a consistent store every call that returns has exactly this effect, and leaves every index file
      exact for the bodies: `IndexMeaning.IndexesMean` says what each of them then lists. */
  lemma {:induction false} CallsMean(d: Disk, call: Call)
    requires Consistent(d) && AdmissibleCall(d, call)
    ensures var e := Run(d, CallWrites(d, call));
            CallMeans(d, call, e) && Consistent(e)
  {
    hide Consistent, AdmissibleCall, CallEffect, CallWrites;
    assert ValidEvent(d, Returned(call));
    EventAtomic(d, Returned(call));
    AfterReturn(d, call);
    match call
    case CommitRawCall(node, embedding) => CommitRawMeans(d, node, embedding);
    case InsertRawCall(node) => InsertRawMeans(d, node);
    case CommitAbstractCall(node, embedding) => CommitAbstractMeans(d, node, embedding);
    case UpdateLifecycleCall(ids, patch) => UpdateMeans(d, ids, patch);
    case InsertAbstractCall(node) => InsertAbstractMeans(d, node);
    case IndexCall(kind, record) => IndexCallMeans(d, kind, record);
    case IndexGraphCall(node) => IndexGraphMeans(d, node);
  }

  lemma {:induction false} AfterReturn(d: Disk, call: Call)
    requires ValidEvent(d, Returned(call))
    ensures AfterEvent(d, Returned(call)) == Run(d, CallWrites(d, call))
  {
    assert CallWrites(d, call)[..|CallWrites(d, call)|] == CallWrites(d, call);
  }

  lemma {:induction false} Nothing(d: Disk)
    ensures Run(d, []) == d
  {
  }

  lemma {:induction false} CommitRawMeans(d: Disk, node: RawNode, embedding: seq<real>)
    requires Consistent(d)
    ensures var call := CommitRawCall(node, embedding); CallMeans(d, call, Run(d, CallWrites(d, call)))
  {
    hide Run, MutateWrites, EmbeddingStored, IndexEmbedding, IndexesExact, VectorsExact, ReceiptsExact, KeyTaken, RawKeyTaken;
    TakenIsTaken(d, node.operationKey);
    LookupRaw(d, node.operationKey);
    Nothing(d);
    RunMutate(d, CommitRaw(node, embedding));
    EmbeddingMeans(d.rawVectors, node.id, embedding, node.timestamp, node.sessionId);
  }

  lemma {:induction false} InsertRawMeans(d: Disk, node: RawNode)
    requires Consistent(d)
    ensures var call := InsertRawCall(node); CallMeans(d, call, Run(d, CallWrites(d, call)))
  {
    hide Run, InsertRawWrites, IndexesExact, VectorsExact, ReceiptsExact, KeyTaken, RawKeyTaken;
    TakenIsTaken(d, node.operationKey);
    LookupRaw(d, node.operationKey);
    Nothing(d);
    RunInsertRaw(d, node);
  }

  lemma {:induction false} CommitAbstractMeans(d: Disk, node: AbstractNode, embedding: seq<real>)
    requires Consistent(d)
    ensures var call := CommitAbstractCall(node, embedding); CallMeans(d, call, Run(d, CallWrites(d, call)))
  {
    hide Run, MutateWrites, EmbeddingStored, EdgesStored, IndexEmbedding, IndexesExact, VectorsExact, ReceiptsExact, KeyTaken, AbstractKeyTaken;
    TakenIsTaken(d, node.operationKey);
    LookupAbstract(d, node.operationKey);
    Nothing(d);
    RunMutate(d, CommitAbstract(node, embedding));
    EmbeddingMeans(d.abstractVectors, node.id, embedding, node.timestamp, node.sessionId);
    EdgesMean(d.graph, node);
  }

  lemma {:induction false} UpdateMeans(d: Disk, ids: seq<nat>, patch: RawLifecyclePatch)
    requires Consistent(d)
    ensures var call := UpdateLifecycleCall(ids, patch); CallMeans(d, call, Run(d, CallWrites(d, call)))
  {
    hide Run, MutateWrites, IndexesExact, VectorsExact, ReceiptsExact, LifecycleUpdated, LifecyclePatched;
    RunMutate(d, UpdateRawLifecycle(ids, patch));
    LifecycleMeans(d, ids, patch);
  }

  lemma {:induction false} InsertAbstractMeans(d: Disk, node: AbstractNode)
    requires Consistent(d)
    ensures var call := InsertAbstractCall(node); CallMeans(d, call, Run(d, CallWrites(d, call)))
  {
    hide IndexesExact, VectorsExact, ReceiptsExact, KeyTaken, AbstractKeyTaken;
    TakenIsTaken(d, node.operationKey);
    LookupAbstract(d, node.operationKey);
    Nothing(d);
    RunInsertAbstract(d, node);
  }

  lemma {:induction false} RunInsertAbstract(d: Disk, node: AbstractNode)
    ensures Run(d, InsertAbstractWrites(node))
         == d.(abstracts := d.abstracts[node.id := node],
               abstractReceipts := AddReceipt(d.abstractReceipts, node.id, node.operationKey), metadata := true)
  {
    var front := [PutAbstract(node)] + AbstractReceiptWrites(node);
    RunOne(d, PutAbstract(node));
    RunConcat(d, [PutAbstract(node)], AbstractReceiptWrites(node));
    RunAbstractReceipt(Perform(d, PutAbstract(node)), node);
    RunSnoc(d, front, TouchMetadata);
  }

  lemma {:induction false} IndexCallMeans(d: Disk, kind: Kind, record: StoredEmbedding)
    requires Consistent(d)
    ensures var call := IndexCall(kind, record); CallMeans(d, call, Run(d, CallWrites(d, call)))
  {
    hide EmbeddingStored, IndexEmbedding, IndexRawWrites, IndexAbstractWrites, IndexesExact, VectorsExact, ReceiptsExact;
    RunSnoc(d, ShardWrites(d, kind, record), TouchMetadata);
    EmbeddingMeans(VectorsOf(d, kind), record.id, record.embedding, record.indexedAt, record.sessionId);
    match kind
    case RawKind => RunIndexRaw(d, record);
    case AbstractKind => RunIndexAbstract(d, record);
  }

  lemma {:induction false} IndexGraphMeans(d: Disk, node: AbstractNode)
    requires Consistent(d)
    ensures var call := IndexGraphCall(node); CallMeans(d, call, Run(d, CallWrites(d, call)))
  {
    hide EdgesStored, IndexesExact, VectorsExact, ReceiptsExact;
    RunTwo(d, PutGraph(StoredEdgesOf(node)), TouchMetadata);
    EdgesMean(d.graph, node);
  }
}
