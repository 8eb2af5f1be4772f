/** What each write sequence amounts to once all of it has landed. */
module StoreEffects {
  import opened Domain
  import opened Listings
  import opened RawIndexes
  import opened VectorShards
  import opened StoreModel

  function AddReceipt(receipts: Receipts, id: nat, key: Option<string>): Receipts {
    if key.Some? then receipts[RECEIPT_DIGEST(key.value) := StoredId(id, key.value)] else receipts
  }

  function RawCommitted(d: Disk, node: RawNode, embedding: seq<real>): Disk {
    d.(raw := d.raw[node.id := node],
       rawReceipts := AddReceipt(d.rawReceipts, node.id, node.operationKey),
       files := Sync(d.files, node),
       rawVectors := IndexEmbedding(d.rawVectors, RawRecord(node, embedding)),
       metadata := true)
  }

  function AbstractCommitted(d: Disk, node: AbstractNode, embedding: seq<real>): Disk {
    d.(abstracts := d.abstracts[node.id := node],
       abstractReceipts := AddReceipt(d.abstractReceipts, node.id, node.operationKey),
       abstractVectors := IndexEmbedding(d.abstractVectors, AbstractRecord(node, embedding)),
       graph := d.graph[node.id := StoredEdgesOf(node)],
       metadata := true)
  }

  function RawInserted(d: Disk, node: RawNode): Disk {
    BodyAndIndexes(d, node).(metadata := true)
  }

  function BodyAndIndexes(d: Disk, node: RawNode): Disk {
    d.(raw := d.raw[node.id := node],
       rawReceipts := AddReceipt(d.rawReceipts, node.id, node.operationKey),
       files := Sync(d.files, node))
  }

  function BodyAndIndexWrites(d: Disk, node: RawNode): seq<Write> {
    [PutRaw(node)] + RawReceiptWrites(node) + SyncWrites(d.files, node, KeysOf(node))
  }

  function PatchedRaw(raw: RawBodies, ids: seq<nat>, patch: RawLifecyclePatch): RawBodies
    decreases |ids|
  {
    if ids == [] then raw
    else PatchedRaw(if ids[0] in raw then raw[ids[0] := Patched(raw[ids[0]], patch)] else raw, ids[1..], patch)
  }

  function PatchedFiles(raw: RawBodies, files: IndexFiles, ids: seq<nat>, patch: RawLifecyclePatch): IndexFiles
    decreases |ids|
  {
    if ids == [] then files
    else if ids[0] in raw then
      var node := Patched(raw[ids[0]], patch);
      PatchedFiles(raw[ids[0] := node], Sync(files, node), ids[1..], patch)
    else PatchedFiles(raw, files, ids[1..], patch)
  }

  function LifecyclePatched(d: Disk, ids: seq<nat>, patch: RawLifecyclePatch): Disk {
    d.(raw := PatchedRaw(d.raw, ids, patch),
       files := PatchedFiles(d.raw, d.files, ids, patch),
       metadata := d.metadata || exists id | id in ids :: id in d.raw)
  }

  function Applied(d: Disk, mutation: MutationJournal): Disk {
    match mutation
    case CommitRaw(node, embedding) => RawCommitted(d, node, embedding)
    case CommitAbstract(node, embedding) => AbstractCommitted(d, node, embedding)
    case UpdateRawLifecycle(ids, patch) => LifecyclePatched(d, ids, patch)
  }

  lemma {:induction false} RunSync(d: Disk, node: RawNode, keys: seq<IndexKey>)
    ensures Run(d, SyncWrites(d.files, node, keys)) == d.(files := SyncKeys(d.files, node, keys))
    decreases |keys|
  {
    if keys != [] {
      var next := d.(files := SyncFile(d.files, node, keys[0]));
      RunConcat(d, FileWrites(d.files, node, keys[0]), SyncWrites(next.files, node, keys[1..]));
      RunFile(d, node, keys[0]);
      RunSync(next, node, keys[1..]);
    }
  }

  lemma {:induction false} RunFile(d: Disk, node: RawNode, key: IndexKey)
    ensures Run(d, FileWrites(d.files, node, key)) == d.(files := SyncFile(d.files, node, key))
  {
    if Belongs(node, key) {
      RunOne(d, PutIndex(key, Kept(key, Upsert(Read(d.files, key), EntryOf(node)))));
    } else if key in d.files && |Without(d.files[key], node.id)| != |d.files[key]| {
      RunOne(d, PutIndex(key, Without(d.files[key], node.id)));
    }
  }

  lemma {:induction false} RunRemoveRaw(d: Disk, ids: seq<nat>)
    ensures Run(d, RemoveRawWrites(ids)) == d.(rawVectors := d.rawVectors.(bodies := d.rawVectors.bodies - Elements(ids)))
    decreases |ids|
  {
    if ids == [] {
      assert d.rawVectors.bodies - Elements(ids) == d.rawVectors.bodies;
    } else {
      RunRemoveRaw(Perform(d, RemoveRawEmbedding(ids[0])), ids[1..]);
      assert d.rawVectors.bodies - {ids[0]} - Elements(ids[1..]) == d.rawVectors.bodies - Elements(ids);
    }
  }

  lemma {:induction false} RunRemoveAbstract(d: Disk, ids: seq<nat>)
    ensures Run(d, RemoveAbstractWrites(ids))
         == d.(abstractVectors := d.abstractVectors.(bodies := d.abstractVectors.bodies - Elements(ids)))
    decreases |ids|
  {
    if ids == [] {
      assert d.abstractVectors.bodies - Elements(ids) == d.abstractVectors.bodies;
    } else {
      RunRemoveAbstract(Perform(d, RemoveAbstractEmbedding(ids[0])), ids[1..]);
      assert d.abstractVectors.bodies - {ids[0]} - Elements(ids[1..]) == d.abstractVectors.bodies - Elements(ids);
    }
  }

  lemma {:induction false} RunIndexRaw(d: Disk, record: StoredEmbedding)
    ensures Run(d, IndexRawWrites(d.rawVectors, record)) == d.(rawVectors := IndexEmbedding(d.rawVectors, record))
  {
    var ids := ReadManifest(d.rawVectors.shards, record.sessionId);
    var two := [PutRawEmbedding(record), PutRawManifest(record.sessionId, KeptIds(ids, record.id))];
    RunConcat(d, two, RemoveRawWrites(EvictedIds(ids, record.id)));
    RunTwo(d, two[0], two[1]);
    RunRemoveRaw(Run(d, two), EvictedIds(ids, record.id));
  }

  lemma {:induction false} RunIndexAbstract(d: Disk, record: StoredEmbedding)
    ensures Run(d, IndexAbstractWrites(d.abstractVectors, record))
         == d.(abstractVectors := IndexEmbedding(d.abstractVectors, record))
  {
    var ids := ReadManifest(d.abstractVectors.shards, record.sessionId);
    var two := [PutAbstractEmbedding(record), PutAbstractManifest(record.sessionId, KeptIds(ids, record.id))];
    RunConcat(d, two, RemoveAbstractWrites(EvictedIds(ids, record.id)));
    RunTwo(d, two[0], two[1]);
    RunRemoveAbstract(Run(d, two), EvictedIds(ids, record.id));
  }

  lemma {:induction false} RunOne(d: Disk, a: Write)
    ensures Run(d, [a]) == Perform(d, a)
  {
    assert Run(Perform(d, a), []) == Perform(d, a);
  }

  lemma {:induction false} RunTwo(d: Disk, a: Write, b: Write)
    ensures Run(d, [a, b]) == Perform(Perform(d, a), b)
  {
    RunConcat(d, [a], [b]);
    assert [a] + [b] == [a, b];
    RunOne(d, a);
    RunOne(Perform(d, a), b);
  }

  lemma {:induction false} RunRawReceipt(d: Disk, node: RawNode)
    ensures Run(d, RawReceiptWrites(node)) == d.(rawReceipts := AddReceipt(d.rawReceipts, node.id, node.operationKey))
  {
    if node.operationKey.Some? { RunOne(d, RawReceiptWrites(node)[0]); }
  }

  lemma {:induction false} RunAbstractReceipt(d: Disk, node: AbstractNode)
    ensures Run(d, AbstractReceiptWrites(node))
         == d.(abstractReceipts := AddReceipt(d.abstractReceipts, node.id, node.operationKey))
  {
    if node.operationKey.Some? { RunOne(d, AbstractReceiptWrites(node)[0]); }
  }

  lemma {:induction false} RunBodyAndIndexes(d: Disk, node: RawNode)
    ensures Run(d, BodyAndIndexWrites(d, node)) == BodyAndIndexes(d, node)
  {
    RunOne(d, PutRaw(node));
    RunConcat(d, [PutRaw(node)], RawReceiptWrites(node));
    RunRawReceipt(Perform(d, PutRaw(node)), node);
    RunConcat(d, [PutRaw(node)] + RawReceiptWrites(node), SyncWrites(d.files, node, KeysOf(node)));
    RunSync(Run(d, [PutRaw(node)] + RawReceiptWrites(node)), node, KeysOf(node));
  }

  lemma {:induction false} RunRawCommit(d: Disk, node: RawNode, embedding: seq<real>)
    ensures Run(d, RawCommitWrites(d, node, embedding)) == RawCommitted(d, node, embedding)
  {
    var front := BodyAndIndexWrites(d, node);
    var index := IndexRawWrites(d.rawVectors, RawRecord(node, embedding));
    RunBodyAndIndexes(d, node);
    RunConcat(d, front, index);
    RunIndexRaw(BodyAndIndexes(d, node), RawRecord(node, embedding));
    RunSnoc(d, front + index, TouchMetadata);
  }

  lemma {:induction false} RunInsertRaw(d: Disk, node: RawNode)
    ensures Run(d, InsertRawWrites(d, node)) == RawInserted(d, node)
  {
    RunBodyAndIndexes(d, node);
    RunSnoc(d, BodyAndIndexWrites(d, node), TouchMetadata);
  }

  lemma {:induction false} RunAbstractCommit(d: Disk, node: AbstractNode, embedding: seq<real>)
    ensures Run(d, AbstractCommitWrites(d, node, embedding)) == AbstractCommitted(d, node, embedding)
  {
    var record := AbstractRecord(node, embedding);
    RunOne(d, PutAbstract(node));
    RunConcat(d, [PutAbstract(node)], AbstractReceiptWrites(node));
    RunAbstractReceipt(Perform(d, PutAbstract(node)), node);
    var front := [PutAbstract(node)] + AbstractReceiptWrites(node);
    RunConcat(d, front, IndexAbstractWrites(d.abstractVectors, record));
    RunIndexAbstract(Run(d, front), record);
    RunConcat(d, front + IndexAbstractWrites(d.abstractVectors, record), [PutGraph(StoredEdgesOf(node)), TouchMetadata]);
    RunTwo(Run(d, front + IndexAbstractWrites(d.abstractVectors, record)), PutGraph(StoredEdgesOf(node)), TouchMetadata);
  }

  lemma {:induction false} RunPatches(d: Disk, ids: seq<nat>, patch: RawLifecyclePatch)
    requires Keyed(d.raw)
    ensures Run(d, PatchWrites(d.raw, d.files, ids, patch))
         == d.(raw := PatchedRaw(d.raw, ids, patch), files := PatchedFiles(d.raw, d.files, ids, patch))
    decreases |ids|
  {
    hide PatchOneWrites, Sync, Perform;
    if ids != [] {
      if ids[0] in d.raw {
        var node := Patched(d.raw[ids[0]], patch);
        var next := d.(raw := d.raw[node.id := node], files := Sync(d.files, node));
        RunPatchOne(d, node);
        RunConcat(d, PatchOneWrites(d.files, node), PatchWrites(next.raw, next.files, ids[1..], patch));
        RunPatches(next, ids[1..], patch);
      } else {
        RunPatches(d, ids[1..], patch);
      }
    }
  }

  lemma {:induction false} RunPatchOne(d: Disk, node: RawNode)
    ensures Run(d, PatchOneWrites(d.files, node)) == d.(raw := d.raw[node.id := node], files := Sync(d.files, node))
  {
    RunOne(d, PutRaw(node));
    RunConcat(d, [PutRaw(node)], SyncWrites(d.files, node, KeysOf(node)));
    RunSync(Perform(d, PutRaw(node)), node, KeysOf(node));
  }

  lemma {:induction false} RunLifecycle(d: Disk, ids: seq<nat>, patch: RawLifecyclePatch)
    requires Keyed(d.raw)
    ensures Run(d, LifecycleWrites(d, ids, patch)) == LifecyclePatched(d, ids, patch)
  {
    RunPatches(d, ids, patch);
    var front := PatchWrites(d.raw, d.files, ids, patch);
    assert front + [] == front;
    RunSnoc(d, front, TouchMetadata);
  }

  lemma {:induction false} RunApplied(d: Disk, mutation: MutationJournal)
    requires Keyed(d.raw)
    ensures Run(d, ApplyWrites(d, mutation)) == Applied(d, mutation)
  {
    match mutation
    case CommitRaw(node, embedding) => RunRawCommit(d, node, embedding);
    case CommitAbstract(node, embedding) => RunAbstractCommit(d, node, embedding);
    case UpdateRawLifecycle(ids, patch) => RunLifecycle(d, ids, patch);
  }
}
