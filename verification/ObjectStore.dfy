/** `FileObjectStore`: the mutating operations as the source performs them, one atomic file write at a
    time. Each method's contract gives the exact sequence of writes it performs on the disk it found;
    the crash lemmas are about the prefixes of those sequences. */
module ObjectStore {
  import opened Domain
  import opened Listings
  import opened RawIndexes
  import opened VectorShards
  import opened StoreModel
  import opened StoreEffects
  import opened StoreInvariants
  import opened StoreReplay
  import opened StoreRecovery
  import opened StoreHistories
  import opened StoreMeaning
  import opened IndexMeaning

  datatype NodeCommit = NodeCommit(node: RawNode, inserted: bool, projectionsCommitted: bool)

  datatype AbstractCommit = AbstractCommit(node: AbstractNode, inserted: bool, projectionsCommitted: bool)

  datatype StorageError = ReceiptCollision

  class FileObjectStore {
    var disk: Disk
    /** Every atomic write so far, in order. */
    ghost var writes: seq<Write>

    /** Exactly `ws` has been written since the old state, and the disk is what that leaves. */
    twostate predicate Performed(ws: seq<Write>)
      reads this
    {
      writes == old(writes) + ws && disk == Run(old(disk), ws)
    }

    constructor (initial: Disk)
      ensures disk == initial && writes == []
    {
      disk, writes := initial, [];
    }

    /** One `write_json` or `remove_file_if_exists`. */
    method Write(w: Write)
      modifies this
      ensures disk == Perform(old(disk), w) && writes == old(writes) + [w]
    {
      disk := Perform(disk, w);
      writes := writes + [w];
    }

    // -------------------------------------------------------------- index files

    method UpsertRawIndexEntry(key: IndexKey, entry: RawIndexEntry)
      modifies this
      ensures var w := PutIndex(key, Upsert(Read(old(disk).files, key), entry));
              writes == old(writes) + [w] && disk == Perform(old(disk), w)
    {
      var entries := Read(disk.files, key);
      entries := Without(entries, entry.id);
      entries := entries + [entry];
      entries := SortEntries(entries);
      Write(PutIndex(key, entries));
    }

    method UpsertBoundedRawIndexEntry(key: IndexKey, entry: RawIndexEntry, limit: nat)
      modifies this
      ensures var w := PutIndex(key, Newest(limit, Upsert(Read(old(disk).files, key), entry)));
              writes == old(writes) + [w] && disk == Perform(old(disk), w)
    {
      hide Without, SortEntries, Perform;
      var entries := Read(disk.files, key);
      entries := Without(entries, entry.id);
      entries := entries + [entry];
      entries := SortEntries(entries);
      if |entries| > limit {
        entries := entries[|entries| - limit..];
      }
      Write(PutIndex(key, entries));
    }

    method RemoveRawIndexEntry(key: IndexKey, id: nat)
      modifies this
      ensures var kept := Without(Read(old(disk).files, key), id);
              if |kept| == |Read(old(disk).files, key)| then writes == old(writes) && disk == old(disk)
              else writes == old(writes) + [PutIndex(key, kept)] && disk == Perform(old(disk), PutIndex(key, kept))
    {
      var entries := Read(disk.files, key);
      var before := |entries|;
      entries := Without(entries, id);
      if before != |entries| {
        Write(PutIndex(key, entries));
      }
    }

    /** One file of the synchronisation, by whichever of the three updates applies. */
    method SyncFileFor(node: RawNode, key: IndexKey)
      requires IsBacklog(key) || Belongs(node, key)
      modifies this
      ensures Performed(FileWrites(old(disk).files, node, key))
      ensures disk == old(disk).(files := SyncFile(old(disk).files, node, key))
    {
      if Belongs(node, key) {
        if key.SessionIndex? {
          UpsertBoundedRawIndexEntry(key, EntryOf(node), MAX_SESSION_INDEX_ENTRIES);
        } else if key.LoopIndex? {
          UpsertBoundedRawIndexEntry(key, EntryOf(node), MAX_LOOP_INDEX_ENTRIES);
        } else {
          UpsertRawIndexEntry(key, EntryOf(node));
        }
      } else {
        RemoveRawIndexEntry(key, node.id);
      }
      RunFile(old(disk), node, key);
    }

    /** The file at `key`, as the next step after `done`. */
    method SyncThen(node: RawNode, key: IndexKey, ghost base: Disk, ghost log: seq<Write>, ghost done: seq<Write>)
      requires IsBacklog(key) || Belongs(node, key)
      requires writes == log + done && disk == Run(base, done)
      modifies this
      ensures writes == log + (done + FileWrites(old(disk).files, node, key))
      ensures disk == Run(base, done + FileWrites(old(disk).files, node, key))
      ensures disk == old(disk).(files := SyncFile(old(disk).files, node, key))
    {
      SyncFileFor(node, key);
      RunConcat(base, done, FileWrites(old(disk).files, node, key));
      Regroup(log, done, FileWrites(old(disk).files, node, key));
    }

    /** `sync_raw_indexes_unlocked`: secondary indexes first, the timeline last. */
    method SyncRawIndexes(node: RawNode)
      modifies this
      ensures Performed(SyncWrites(old(disk).files, node, KeysOf(node)))
      ensures disk == old(disk).(files := Sync(old(disk).files, node))
    {
      SyncScoped(node);
      SyncRest(node, old(disk), old(writes), SyncWrites(old(disk).files, node, ScopeKeys(node)));
      SyncSplit(old(disk).files, node, ScopeKeys(node), RestKeys(node));
      assert ScopeKeys(node) + RestKeys(node) == KeysOf(node);
    }

    method SyncScoped(node: RawNode)
      modifies this
      ensures Performed(SyncWrites(old(disk).files, node, ScopeKeys(node)))
      ensures disk == old(disk).(files := SyncKeys(old(disk).files, node, ScopeKeys(node)))
    {
      if node.sessionId.Some? {
        SyncFileFor(node, SessionIndex(node.sessionId.value));
        SyncOne(old(disk).files, node, SessionIndex(node.sessionId.value));
      } else {
        SyncNone(old(disk).files, node);
      }
      ghost var f1 := disk.files;
      ghost var first := SyncWrites(old(disk).files, node, SessionKeys(node));
      if node.loopId.Some? {
        SyncThen(node, LoopIndex(node.loopId.value), old(disk), old(writes), first);
        SyncOne(f1, node, LoopIndex(node.loopId.value));
      } else {
        SyncNone(f1, node);
        assert first + [] == first;
      }
      SyncSplit(old(disk).files, node, SessionKeys(node), LoopKeys(node));
    }

    method SyncRest(node: RawNode, ghost base: Disk, ghost log: seq<Write>, ghost done: seq<Write>)
      requires writes == log + done && disk == Run(base, done)
      modifies this
      ensures var ws := done + SyncWrites(old(disk).files, node, RestKeys(node));
              writes == log + ws && disk == Run(base, ws)
      ensures disk == old(disk).(files := SyncKeys(old(disk).files, node, RestKeys(node)))
    {
      ghost var f2 := disk.files;
      SyncThen(node, Backlog, base, log, done);
      ghost var done2 := done + FileWrites(f2, node, Backlog);
      ghost var f3 := disk.files;
      SyncThen(node, PushedBacklog, base, log, done2);
      ghost var done3 := done2 + FileWrites(f3, node, PushedBacklog);
      SyncThen(node, TimelineShard(TimelineBucket(node.timestamp)), base, log, done3);
      TailUnrolled(f2, node);
      RegroupThree(done, FileWrites(f2, node, Backlog), FileWrites(f3, node, PushedBacklog),
                   FileWrites(SyncFile(f3, node, PushedBacklog), node, TimelineShard(TimelineBucket(node.timestamp))));
    }

    /** `upsert_manifest_id_unlocked` on the rawVectors shard of `session`. */
    method UpsertRawManifestId(session: Option<nat>, id: nat) returns (evicted: seq<nat>)
      modifies this
      ensures var ids := ReadManifest(old(disk).rawVectors.shards, session);
              && evicted == EvictedIds(ids, id)
              && writes == old(writes) + [PutRawManifest(session, KeptIds(ids, id))]
              && disk == Perform(old(disk), PutRawManifest(session, KeptIds(ids, id)))
    {
      var ids: seq<nat> := ReadManifest(disk.rawVectors.shards, session);
      PushedIdsDistinct(ids, id);
      ids := WithoutId(ids, id);
      ids := ids + [id];
      var overflow := Overflow(ids);
      evicted := ids[..overflow];
      ids := ids[overflow..];
      var unique := WithoutDuplicates(ids);
      Write(PutRawManifest(session, unique));
    }

    method RemoveRawEmbeddings(ids: seq<nat>)
      modifies this
      ensures Performed(RemoveRawWrites(ids))
    {
      var i := 0;
      while i < |ids|
        invariant 0 <= i <= |ids|
        invariant writes + RemoveRawWrites(ids[i..]) == old(writes) + RemoveRawWrites(ids)
        invariant Run(disk, RemoveRawWrites(ids[i..])) == Run(old(disk), RemoveRawWrites(ids))
      {
        assert ids[i..][0] == ids[i] && ids[i..][1..] == ids[i + 1..];
        Regroup(writes, [RemoveRawEmbedding(ids[i])], RemoveRawWrites(ids[i + 1..]));
        Write(RemoveRawEmbedding(ids[i]));
        i := i + 1;
      }
      assert ids[i..] == [];
    }

    method PutRawEmbeddingAndManifest(record: StoredEmbedding) returns (evicted: seq<nat>)
      modifies this
      ensures var ids := ReadManifest(old(disk).rawVectors.shards, record.sessionId);
              && evicted == EvictedIds(ids, record.id)
              && Performed([PutRawEmbedding(record), PutRawManifest(record.sessionId, KeptIds(ids, record.id))])
    {
      ghost var put := PutRawManifest(record.sessionId, KeptIds(ReadManifest(disk.rawVectors.shards, record.sessionId), record.id));
      Write(PutRawEmbedding(record));
      evicted := UpsertRawManifestId(record.sessionId, record.id);
      RunTwo(old(disk), PutRawEmbedding(record), put);
      assert old(writes) + [PutRawEmbedding(record)] + [put] == old(writes) + [PutRawEmbedding(record), put];
    }

    /** Body, manifest, evicted bodies. */
    method IndexRawEmbedding(record: StoredEmbedding)
      modifies this
      ensures Performed(IndexRawWrites(old(disk).rawVectors, record))
      ensures disk == old(disk).(rawVectors := IndexEmbedding(old(disk).rawVectors, record))
    {
      ghost var ids := ReadManifest(disk.rawVectors.shards, record.sessionId);
      ghost var two := [PutRawEmbedding(record), PutRawManifest(record.sessionId, KeptIds(ids, record.id))];
      var evicted := PutRawEmbeddingAndManifest(record);
      RunConcat(old(disk), two, RemoveRawWrites(evicted));
      RemoveRawEmbeddings(evicted);
      Regroup(old(writes), two, RemoveRawWrites(evicted));
      RunIndexRaw(old(disk), record);
    }

    /** `upsert_manifest_id_unlocked` on the abstractVectors shard of `session`. */
    method UpsertAbstractManifestId(session: Option<nat>, id: nat) returns (evicted: seq<nat>)
      modifies this
      ensures var ids := ReadManifest(old(disk).abstractVectors.shards, session);
              && evicted == EvictedIds(ids, id)
              && writes == old(writes) + [PutAbstractManifest(session, KeptIds(ids, id))]
              && disk == Perform(old(disk), PutAbstractManifest(session, KeptIds(ids, id)))
    {
      var ids: seq<nat> := ReadManifest(disk.abstractVectors.shards, session);
      PushedIdsDistinct(ids, id);
      ids := WithoutId(ids, id);
      ids := ids + [id];
      var overflow := Overflow(ids);
      evicted := ids[..overflow];
      ids := ids[overflow..];
      var unique := WithoutDuplicates(ids);
      Write(PutAbstractManifest(session, unique));
    }

    method RemoveAbstractEmbeddings(ids: seq<nat>)
      modifies this
      ensures Performed(RemoveAbstractWrites(ids))
    {
      var i := 0;
      while i < |ids|
        invariant 0 <= i <= |ids|
        invariant writes + RemoveAbstractWrites(ids[i..]) == old(writes) + RemoveAbstractWrites(ids)
        invariant Run(disk, RemoveAbstractWrites(ids[i..])) == Run(old(disk), RemoveAbstractWrites(ids))
      {
        assert ids[i..][0] == ids[i] && ids[i..][1..] == ids[i + 1..];
        Regroup(writes, [RemoveAbstractEmbedding(ids[i])], RemoveAbstractWrites(ids[i + 1..]));
        Write(RemoveAbstractEmbedding(ids[i]));
        i := i + 1;
      }
      assert ids[i..] == [];
    }

    method PutAbstractEmbeddingAndManifest(record: StoredEmbedding) returns (evicted: seq<nat>)
      modifies this
      ensures var ids := ReadManifest(old(disk).abstractVectors.shards, record.sessionId);
              && evicted == EvictedIds(ids, record.id)
              && Performed([PutAbstractEmbedding(record), PutAbstractManifest(record.sessionId, KeptIds(ids, record.id))])
    {
      ghost var put := PutAbstractManifest(record.sessionId, KeptIds(ReadManifest(disk.abstractVectors.shards, record.sessionId), record.id));
      Write(PutAbstractEmbedding(record));
      evicted := UpsertAbstractManifestId(record.sessionId, record.id);
      RunTwo(old(disk), PutAbstractEmbedding(record), put);
      assert old(writes) + [PutAbstractEmbedding(record)] + [put] == old(writes) + [PutAbstractEmbedding(record), put];
    }

    /** Body, manifest, evicted bodies. */
    method IndexAbstractEmbedding(record: StoredEmbedding)
      modifies this
      ensures Performed(IndexAbstractWrites(old(disk).abstractVectors, record))
      ensures disk == old(disk).(abstractVectors := IndexEmbedding(old(disk).abstractVectors, record))
    {
      ghost var ids := ReadManifest(disk.abstractVectors.shards, record.sessionId);
      ghost var two := [PutAbstractEmbedding(record), PutAbstractManifest(record.sessionId, KeptIds(ids, record.id))];
      var evicted := PutAbstractEmbeddingAndManifest(record);
      RunConcat(old(disk), two, RemoveAbstractWrites(evicted));
      RemoveAbstractEmbeddings(evicted);
      Regroup(old(writes), two, RemoveAbstractWrites(evicted));
      RunIndexAbstract(old(disk), record);
    }

    /** `index_raw_with_session` (the receiver's clock supplies `now`). */
    method IndexRawWithSession(id: nat, embedding: seq<real>, session: Option<nat>, now: int)
      modifies this
      ensures Performed(CallWrites(old(disk), IndexCall(RawKind, StoredEmbedding(id, embedding, now, session))))
    {
      ghost var ws := IndexRawWrites(disk.rawVectors, StoredEmbedding(id, embedding, now, session));
      IndexRawEmbedding(StoredEmbedding(id, embedding, now, session));
      Write(TouchMetadata);
      RunSnoc(old(disk), ws, TouchMetadata);
      Regroup(old(writes), ws, [TouchMetadata]);
    }

    /** `index_abstract_with_session` */
    method IndexAbstractWithSession(id: nat, embedding: seq<real>, session: Option<nat>, now: int)
      modifies this
      ensures Performed(CallWrites(old(disk), IndexCall(AbstractKind, StoredEmbedding(id, embedding, now, session))))
    {
      ghost var ws := IndexAbstractWrites(disk.abstractVectors, StoredEmbedding(id, embedding, now, session));
      IndexAbstractEmbedding(StoredEmbedding(id, embedding, now, session));
      Write(TouchMetadata);
      RunSnoc(old(disk), ws, TouchMetadata);
      Regroup(old(writes), ws, [TouchMetadata]);
    }

    /** The graph repository's `index_abstract`. */
    method IndexGraph(node: AbstractNode)
      modifies this
      ensures Performed(CallWrites(old(disk), IndexGraphCall(node)))
    {
      Write(PutGraph(StoredEdgesOf(node)));
      Write(TouchMetadata);
      RunTwo(old(disk), PutGraph(StoredEdgesOf(node)), TouchMetadata);
      Regroup(old(writes), [PutGraph(StoredEdgesOf(node))], [TouchMetadata]);
      assert [PutGraph(StoredEdgesOf(node))] + [TouchMetadata] == [PutGraph(StoredEdgesOf(node)), TouchMetadata];
    }

    // -------------------------------------------------------------- journaled mutations

    method WriteRawBody(node: RawNode)
      modifies this
      ensures Performed([PutRaw(node)] + RawReceiptWrites(node))
      ensures disk.files == old(disk).files && disk.rawVectors == old(disk).rawVectors
    {
      Write(PutRaw(node));
      RunOne(old(disk), PutRaw(node));
      if node.operationKey.Some? {
        Write(PutRawReceipt(StoredId(node.id, node.operationKey.value)));
        RunSnoc(old(disk), [PutRaw(node)], PutRawReceipt(StoredId(node.id, node.operationKey.value)));
        Regroup(old(writes), [PutRaw(node)], RawReceiptWrites(node));
      } else {
        assert [PutRaw(node)] + RawReceiptWrites(node) == [PutRaw(node)];
      }
    }

    method WriteRawAndIndexes(node: RawNode)
      modifies this
      ensures Performed(BodyAndIndexWrites(old(disk), node))
      ensures disk == BodyAndIndexes(old(disk), node)
    {
      WriteRawBody(node);
      SyncRawIndexes(node);
      ghost var front := [PutRaw(node)] + RawReceiptWrites(node);
      ghost var sync := SyncWrites(old(disk).files, node, KeysOf(node));
      RunConcat(old(disk), front, sync);
      Regroup(old(writes), front, sync);
      RunBodyAndIndexes(old(disk), node);
    }

    method ApplyRawCommit(node: RawNode, embedding: seq<real>)
      modifies this
      ensures Performed(RawCommitWrites(old(disk), node, embedding))
    {
      WriteRawAndIndexes(node);
      IndexRawEmbedding(RawRecord(node, embedding));
      ghost var front := BodyAndIndexWrites(old(disk), node);
      ghost var index := IndexRawWrites(old(disk).rawVectors, RawRecord(node, embedding));
      RunConcat(old(disk), front, index);
      Regroup(old(writes), front, index);
      Write(TouchMetadata);
      RunSnoc(old(disk), front + index, TouchMetadata);
      Regroup(old(writes), front + index, [TouchMetadata]);
    }

    method ApplyAbstractCommit(node: AbstractNode, embedding: seq<real>)
      modifies this
      ensures Performed(AbstractCommitWrites(old(disk), node, embedding))
    {
      WriteAbstractBody(node);
      IndexAbstractEmbedding(AbstractRecord(node, embedding));
      ghost var front := [PutAbstract(node)] + AbstractReceiptWrites(node);
      ghost var index := IndexAbstractWrites(old(disk).abstractVectors, AbstractRecord(node, embedding));
      RunConcat(old(disk), front, index);
      Regroup(old(writes), front, index);
      ghost var before := disk;
      Write(PutGraph(StoredEdgesOf(node)));
      Write(TouchMetadata);
      ghost var last := [PutGraph(StoredEdgesOf(node)), TouchMetadata];
      RunTwo(before, last[0], last[1]);
      RunConcat(old(disk), front + index, last);
      Regroup(old(writes), front + index, last);
    }

    method WriteAbstractBody(node: AbstractNode)
      modifies this
      ensures Performed([PutAbstract(node)] + AbstractReceiptWrites(node))
      ensures disk.abstractVectors == old(disk).abstractVectors
    {
      Write(PutAbstract(node));
      RunOne(old(disk), PutAbstract(node));
      if node.operationKey.Some? {
        Write(PutAbstractReceipt(StoredId(node.id, node.operationKey.value)));
        RunSnoc(old(disk), [PutAbstract(node)], PutAbstractReceipt(StoredId(node.id, node.operationKey.value)));
        Regroup(old(writes), [PutAbstract(node)], AbstractReceiptWrites(node));
      } else {
        assert [PutAbstract(node)] + AbstractReceiptWrites(node) == [PutAbstract(node)];
      }
    }

    method PatchOne(node: RawNode)
      modifies this
      ensures Performed(PatchOneWrites(old(disk).files, node))
      ensures disk == old(disk).(raw := old(disk).raw[node.id := node], files := Sync(old(disk).files, node))
    {
      Write(PutRaw(node));
      RunOne(old(disk), PutRaw(node));
      SyncRawIndexes(node);
      ghost var sync := SyncWrites(old(disk).files, node, KeysOf(node));
      RunConcat(old(disk), [PutRaw(node)], sync);
      Regroup(old(writes), [PutRaw(node)], sync);
    }

    /** Ids that are not stored are skipped; ids may repeat. */
    method PatchAll(ids: seq<nat>, patch: RawLifecyclePatch) returns (changed: bool)
      requires Keyed(disk.raw)
      modifies this
      ensures Performed(PatchWrites(old(disk).raw, old(disk).files, ids, patch))
      ensures changed <==> exists id | id in ids :: id in old(disk).raw
    {
      hide PatchWrites, Run, Patched;
      changed := false;
      var i := 0;
      assert ids[0..] == ids;
      while i < |ids|
        invariant 0 <= i <= |ids|
        invariant Keyed(disk.raw) && disk.raw.Keys == old(disk).raw.Keys
        invariant changed <==> exists k | 0 <= k < i :: ids[k] in old(disk).raw
        invariant writes + PatchWrites(disk.raw, disk.files, ids[i..], patch) == old(writes) + PatchWrites(old(disk).raw, old(disk).files, ids, patch)
        invariant Run(disk, PatchWrites(disk.raw, disk.files, ids[i..], patch))
               == Run(old(disk), PatchWrites(old(disk).raw, old(disk).files, ids, patch))
      {
        NextPatch(disk, ids, i, patch);
        if ids[i] in disk.raw {
          var node := PatchedNode(disk.raw, ids[i], patch);
          ghost var rest := PatchWrites(disk.raw[node.id := node], Sync(disk.files, node), ids[i + 1..], patch);
          Regroup(writes, PatchOneWrites(disk.files, node), rest);
          PatchOne(node);
          changed := true;
        }
        i := i + 1;
      }
      NoPatches(disk, ids[i..], patch);
    }

    method ApplyRawLifecycle(ids: seq<nat>, patch: RawLifecyclePatch)
      requires Keyed(disk.raw)
      modifies this
      ensures Performed(LifecycleWrites(old(disk), ids, patch))
      ensures LifecycleUpdated(old(disk).raw, disk.raw, ids, patch)
      ensures disk == old(disk).(raw := disk.raw, files := disk.files, metadata := disk.metadata)
      ensures disk.metadata <==> old(disk).metadata || exists id | id in ids :: id in old(disk).raw
    {
      hide PatchWrites, Run, LifecyclePatched, LifecycleUpdated, Keyed;
      RunLifecycle(disk, ids, patch);
      LifecycleMeans(disk, ids, patch);
      ghost var ws := PatchWrites(disk.raw, disk.files, ids, patch);
      var changed := PatchAll(ids, patch);
      if changed {
        Write(TouchMetadata);
        RunSnoc(old(disk), ws, TouchMetadata);
        Regroup(old(writes), ws, [TouchMetadata]);
      } else {
        assert ws + [] == ws;
      }
    }

    method ApplyMutation(mutation: MutationJournal)
      requires Keyed(disk.raw)
      modifies this
      ensures Performed(ApplyWrites(old(disk), mutation))
    {
      match mutation
      case CommitRaw(node, embedding) => ApplyRawCommit(node, embedding);
      case CommitAbstract(node, embedding) => ApplyAbstractCommit(node, embedding);
      case UpdateRawLifecycle(ids, patch) => ApplyRawLifecycle(ids, patch);
    }

    /** `commit_raw_unlocked`, `commit_abstract_unlocked` and `update_raw_lifecycle_unlocked`: write
        the journal, apply, clear the journal. */
    method Mutate(mutation: MutationJournal)
      requires Keyed(disk.raw)
      modifies this
      ensures Performed(MutateWrites(old(disk), mutation))
    {
      hide ApplyWrites;
      Write(PutJournal(mutation));
      RunOne(old(disk), PutJournal(mutation));
      SameWrites(old(disk), mutation);
      ghost var ws := ApplyWrites(disk, mutation);
      RunConcat(old(disk), [PutJournal(mutation)], ws);
      Regroup(old(writes), [PutJournal(mutation)], ws);
      ApplyMutation(mutation);
      Write(RemoveJournal);
      RunSnoc(old(disk), [PutJournal(mutation)] + ws, RemoveJournal);
      Regroup(old(writes), [PutJournal(mutation)] + ws, [RemoveJournal]);
    }

    method ReplayJournal()
      requires Keyed(disk.raw)
      modifies this
      ensures Performed(ReplayWrites(old(disk)))
    {
      if disk.journal.Some? {
        ghost var ws := ApplyWrites(disk, disk.journal.value);
        ApplyMutation(disk.journal.value);
        Write(RemoveJournal);
        RunSnoc(old(disk), ws, RemoveJournal);
        Regroup(old(writes), ws, [RemoveJournal]);
      } else {
        assert old(writes) + [] == old(writes);
      }
    }

    /** The stored nodes of `ids` take the patch, every other part of the store keeps its contents, and the
        index files of a consistent store follow: both backlogs list by the new states. */
    method UpdateRawLifecycle(ids: seq<nat>, patch: RawLifecyclePatch)
      requires Keyed(disk.raw)
      modifies this
      ensures Performed(CallWrites(old(disk), UpdateLifecycleCall(ids, patch)))
      ensures LifecycleUpdated(old(disk).raw, disk.raw, ids, patch)
      ensures disk == old(disk).(raw := disk.raw, files := disk.files, metadata := disk.metadata, journal := None)
      ensures Consistent(old(disk)) ==>
                && Lists(disk.raw, Read(disk.files, Backlog), None, ToDistill(false))
                && Lists(disk.raw, Read(disk.files, PushedBacklog), None, ToDistill(true))
    {
      hide Run, MutateWrites, LifecyclePatched, LifecycleUpdated, Consistent, Lists, Keyed;
      ghost var call := UpdateLifecycleCall(ids, patch);
      RunMutated(disk, MutationJournal.UpdateRawLifecycle(ids, patch));
      LifecycleMeans(disk, ids, patch);
      if Consistent(disk) {
        CallsMean(disk, call);
        ConsistentBacklogs(Run(disk, CallWrites(disk, call)));
      }
      Mutate(MutationJournal.UpdateRawLifecycle(ids, patch));
    }

    // -------------------------------------------------------------- keyed writes

    /** The receipt lookup shared by `commit_raw` and `insert_raw_once`. */
    method FindRawReceipt(key: Option<string>) returns (found: Lookup)
      ensures found == LookupReceipt(disk.rawReceipts, disk.raw.Keys, key)
    {
      found := Free;
      if key.Some? && RECEIPT_DIGEST(key.value) in disk.rawReceipts {
        var record := disk.rawReceipts[RECEIPT_DIGEST(key.value)];
        if record.operationKey != key.value {
          found := Collision;
        } else if record.id in disk.raw {
          found := Existing(record.id);
        }
      }
    }

    method CommitRawNode(node: RawNode, embedding: seq<real>) returns (r: Result<NodeCommit, StorageError>)
      requires Keyed(disk.raw)
      modifies this
      ensures Performed(CallWrites(old(disk), CommitRawCall(node, embedding)))
      ensures match ReturnedNode(old(disk), node)
              case None => r == Err(ReceiptCollision)
              case Some(n) => r.Ok? && r.value.node == n
      ensures r.Ok? ==> (r.value.inserted <==> LookupReceipt(old(disk).rawReceipts, old(disk).raw.Keys, node.operationKey).Free?)
      ensures r.Ok? ==> r.value.projectionsCommitted == r.value.inserted
    {
      var found := FindRawReceipt(node.operationKey);
      match found
      case Collision => r := Err(ReceiptCollision);
      case Existing(id) => r := Ok(NodeCommit(disk.raw[id], false, false));
      case Free =>
        Mutate(CommitRaw(node, embedding));
        r := Ok(NodeCommit(node, true, true));
    }

    method InsertRawOnce(node: RawNode) returns (r: Result<NodeCommit, StorageError>)
      modifies this
      ensures Performed(CallWrites(old(disk), InsertRawCall(node)))
      ensures match ReturnedNode(old(disk), node)
              case None => r == Err(ReceiptCollision)
              case Some(n) => r.Ok? && r.value.node == n
      ensures r.Ok? ==> (r.value.inserted <==> LookupReceipt(old(disk).rawReceipts, old(disk).raw.Keys, node.operationKey).Free?)
      ensures r.Ok? ==> !r.value.projectionsCommitted
    {
      var found := FindRawReceipt(node.operationKey);
      match found
      case Collision => r := Err(ReceiptCollision);
      case Existing(id) => r := Ok(NodeCommit(disk.raw[id], false, false));
      case Free =>
        ghost var front := BodyAndIndexWrites(disk, node);
        WriteRawAndIndexes(node);
        Write(TouchMetadata);
        RunSnoc(old(disk), front, TouchMetadata);
        Regroup(old(writes), front, [TouchMetadata]);
        r := Ok(NodeCommit(node, true, false));
    }

    /** The receipt lookup shared by `commit_abstract` and `insert_abstract_once`. */
    method FindAbstractReceipt(key: Option<string>) returns (found: Lookup)
      ensures found == LookupReceipt(disk.abstractReceipts, disk.abstracts.Keys, key)
    {
      found := Free;
      if key.Some? && RECEIPT_DIGEST(key.value) in disk.abstractReceipts {
        var record := disk.abstractReceipts[RECEIPT_DIGEST(key.value)];
        if record.operationKey != key.value {
          found := Collision;
        } else if record.id in disk.abstracts {
          found := Existing(record.id);
        }
      }
    }

    method CommitAbstractNode(node: AbstractNode, embedding: seq<real>) returns (r: Result<AbstractCommit, StorageError>)
      requires Keyed(disk.raw)
      modifies this
      ensures Performed(CallWrites(old(disk), CommitAbstractCall(node, embedding)))
      ensures match ReturnedAbstract(old(disk), node)
              case None => r == Err(ReceiptCollision)
              case Some(n) => r.Ok? && r.value.node == n
      ensures r.Ok? ==> (r.value.inserted <==> LookupReceipt(old(disk).abstractReceipts, old(disk).abstracts.Keys, node.operationKey).Free?)
      ensures r.Ok? ==> r.value.projectionsCommitted == r.value.inserted
    {
      var found := FindAbstractReceipt(node.operationKey);
      match found
      case Collision => r := Err(ReceiptCollision);
      case Existing(id) => r := Ok(AbstractCommit(disk.abstracts[id], false, false));
      case Free =>
        Mutate(CommitAbstract(node, embedding));
        r := Ok(AbstractCommit(node, true, true));
    }

    method InsertAbstractOnce(node: AbstractNode) returns (r: Result<AbstractCommit, StorageError>)
      modifies this
      ensures Performed(CallWrites(old(disk), InsertAbstractCall(node)))
      ensures match ReturnedAbstract(old(disk), node)
              case None => r == Err(ReceiptCollision)
              case Some(n) => r.Ok? && r.value.node == n
      ensures r.Ok? ==> (r.value.inserted <==> LookupReceipt(old(disk).abstractReceipts, old(disk).abstracts.Keys, node.operationKey).Free?)
      ensures r.Ok? ==> !r.value.projectionsCommitted
    {
      var found := FindAbstractReceipt(node.operationKey);
      match found
      case Collision => r := Err(ReceiptCollision);
      case Existing(id) => r := Ok(AbstractCommit(disk.abstracts[id], false, false));
      case Free =>
        ghost var front := [PutAbstract(node)] + AbstractReceiptWrites(node);
        WriteAbstractBody(node);
        Write(TouchMetadata);
        RunSnoc(old(disk), front, TouchMetadata);
        Regroup(old(writes), front, [TouchMetadata]);
        r := Ok(AbstractCommit(node, true, false));
    }

    // -------------------------------------------------------------- completeness probes

    /** Collect every id the timeline lists, then look up every raw body. */
    method IndexesAreComplete() returns (complete: bool)
      ensures complete <==> TimelineCovers(disk)
    {
      var indexed: set<nat> := {};
      var pending := set key | key in disk.files && key.TimelineShard?;
      ghost var all := pending;
      while pending != {}
        invariant pending <= all
        invariant forall id :: id in indexed <==> ListsId(disk.files, all - pending, id)
      {
        var key :| key in pending;
        indexed := indexed + EntryIds(disk.files[key]);
        assert all - (pending - {key}) == (all - pending) + {key};
        pending := pending - {key};
      }
      complete := forall id | id in disk.raw :: id in indexed;
      IndexedIsTimeline(disk, all, indexed);
    }

    method EmbeddingDirCovered(kind: Kind) returns (covered: bool)
      ensures covered <==> Covered(VectorsOf(disk, kind))
    {
      var v := VectorsOf(disk, kind);
      var listed: set<nat> := {};
      var pending := v.shards.Keys;
      while pending != {}
        invariant pending <= v.shards.Keys
        invariant forall id :: id in listed <==> exists session :: session in v.shards.Keys - pending && id in v.shards[session]
      {
        var session :| session in pending;
        listed := listed + Elements(v.shards[session]);
        pending := pending - {session};
      }
      covered := forall id | id in v.bodies :: id in listed;
    }

    // -------------------------------------------------------------- rebuild

    /** A rebuild of `d` is under way: since the writes of `log` every disk exposed is one that a
        restarted rebuild brings to the same end. */
    ghost predicate OnTrack(d: Disk, log: seq<Write>)
      reads this
    {
      && log <= writes
      && disk == Run(d, writes[|log|..])
      && MidRebuild(d, disk)
      && RebuildLog(d, writes[|log|..])
    }

    method WriteOnTrack(w: Write, ghost d: Disk, ghost log: seq<Write>)
      requires OnTrack(d, log) && MidRebuild(d, Perform(disk, w))
      modifies this
      ensures OnTrack(d, log)
      ensures disk == Perform(old(disk), w) && writes == old(writes) + [w]
    {
      hide MidRebuild, RebuildLog;
      ghost var before := writes[|log|..];
      Write(w);
      assert writes[|log|..] == before + [w];
      RunSnoc(d, before, w);
      RebuildLogSnoc(d, before, w);
    }

    /** `fs::remove_dir_all(index_root)` followed by recreating the empty layout. */
    method ResetIndexes(ghost d: Disk)
      requires disk == d
      modifies this
      ensures OnTrack(d, old(writes))
      ensures disk == Perform(d, ResetIndexRoot) && writes == old(writes) + [ResetIndexRoot]
    {
      hide MidRebuild, RebuiltVectors;
      Write(ResetIndexRoot);
      ghost var log := old(writes);
      assert writes[|log|..] == [ResetIndexRoot];
      RunOne(d, ResetIndexRoot);
      ResetStartsRebuild(d);
      RebuildLogSnoc(d, [], ResetIndexRoot);
      assert [] + [ResetIndexRoot] == [ResetIndexRoot];
    }

    /** `list_raw_nodes_scan_unlocked`: every body, ordered by `(timestamp, id)`. */
    method ScanRawNodes() returns (nodes: seq<RawNode>)
      requires Keyed(disk.raw)
      ensures Scanned(disk.raw, nodes)
    {
      var entries: seq<RawIndexEntry> := [];
      var pending := disk.raw.Keys;
      while pending != {}
        invariant pending <= disk.raw.Keys
        invariant Distinct(entries)
        invariant forall e :: e in entries <==> e.id in disk.raw.Keys - pending && e == EntryOf(disk.raw[e.id])
      {
        var id :| id in pending;
        entries := entries + [EntryOf(disk.raw[id])];
        pending := pending - {id};
      }
      SortSorted(entries);
      var sorted := SortEntries(entries);
      SameMembers(sorted, entries);
      nodes := LoadNodes(disk.raw, sorted);
    }

    method RewriteRawReceipt(node: RawNode, ghost d: Disk, ghost log: seq<Write>)
      requires Intact(d) && OnTrack(d, log) && node.id in d.raw && d.raw[node.id] == node
      modifies this
      ensures OnTrack(d, log)
      ensures disk == old(disk).(rawReceipts := disk.rawReceipts)
      ensures HasReceipt(disk.rawReceipts, node.id, node.operationKey)
      ensures ReceiptsKept(RawKeys(d.raw), old(disk).rawReceipts, disk.rawReceipts)
    {
      if node.operationKey.Some? {
        RawReceiptStays(d, disk, node.id);
        WriteOnTrack(PutRawReceipt(StoredId(node.id, node.operationKey.value)), d, log);
      }
    }

    /** The loop over the scanned nodes: group their entries and rewrite their receipts. */
    method GroupNodes(nodes: seq<RawNode>, ghost d: Disk, ghost log: seq<Write>)
      returns (groups: IndexFiles, undistilled: seq<RawIndexEntry>, pushedUndistilled: seq<RawIndexEntry>)
      requires Intact(d) && OnTrack(d, log) && Scanned(d.raw, nodes)
      modifies this
      ensures OnTrack(d, log)
      ensures disk == old(disk).(rawReceipts := RebuiltReceipts(RawKeys(d.raw), d.rawReceipts))
      ensures AllGrouped(nodes, groups, undistilled, pushedUndistilled)
    {
      hide MidRebuild, RebuildLog, RebuiltReceipts, AllGrouped, ReceiptsKept;
      groups, undistilled, pushedUndistilled := map[], [], [];
      NothingGrouped();
      ScanKeepsBodies(d, disk);
      for i := 0 to |nodes|
        invariant OnTrack(d, log)
        invariant disk == old(disk).(rawReceipts := disk.rawReceipts)
        invariant AllGrouped(nodes[..i], groups, undistilled, pushedUndistilled)
        invariant Receipted(nodes[..i], disk.rawReceipts)
      {
        NextNode(d.raw, nodes, i);
        groups, undistilled, pushedUndistilled := GroupNode(nodes[i], groups, undistilled, pushedUndistilled, nodes[..i]);
        ghost var before := disk.rawReceipts;
        RewriteRawReceipt(nodes[i], d, log);
        ReceiptedStep(d.raw, nodes[..i], nodes[i], before, disk.rawReceipts);
      }
      assert nodes[..|nodes|] == nodes;
      ScanKeepsBodies(d, disk);
      ScannedReceipts(d.raw, nodes, disk.rawReceipts);
      ReceiptsDone(RawKeys(d.raw), d.rawReceipts, disk.rawReceipts);
    }

    method PutIndexOnTrack(key: IndexKey, entries: seq<RawIndexEntry>, ghost d: Disk, ghost log: seq<Write>)
      requires OnTrack(d, log)
      modifies this
      ensures OnTrack(d, log)
      ensures disk == old(disk).(files := old(disk).files[key := entries])
    {
      hide MidRebuild, RebuildLog;
      IndexFilesMayChange(d, disk, key, entries);
      WriteOnTrack(PutIndex(key, entries), d, log);
    }

    /** One file per group: sorted, and cut to the bound of its kind. */
    method WriteGroups(groups: IndexFiles, keys: set<IndexKey>, ghost sorted: IndexFiles, ghost d: Disk, ghost log: seq<Write>)
      requires OnTrack(d, log) && keys <= groups.Keys && IsSorted(groups, sorted)
      modifies this
      ensures OnTrack(d, log)
      ensures disk == old(disk).(files := old(disk).files + Only(sorted, keys))
    {
      hide MidRebuild, RebuildLog, SortEntries, Kept;
      var pending := keys;
      ghost var files := disk.files;
      assert files + Only(sorted, {}) == files;
      assert keys - pending == {};
      while pending != {}
        invariant pending <= keys
        invariant OnTrack(d, log)
        invariant disk == old(disk).(files := files + Only(sorted, keys - pending))
      {
        var key :| key in pending;
        var entries := Kept(key, SortEntries(groups[key]));
        OnlyStep(files, sorted, keys - pending, key);
        PutIndexOnTrack(key, entries, d, log);
        assert keys - (pending - {key}) == (keys - pending) + {key};
        pending := pending - {key};
      }
      assert keys - pending == keys;
    }

    /** Timeline shards, then the two backlogs. */
    method WriteTimelineFiles(groups: IndexFiles, undistilled: seq<RawIndexEntry>, pushedUndistilled: seq<RawIndexEntry>,
                              ghost sorted: IndexFiles, ghost d: Disk, ghost log: seq<Write>)
      requires OnTrack(d, log) && IsSorted(groups, sorted)
      modifies this
      ensures OnTrack(d, log)
      ensures disk == old(disk).(files := TimelineFiles(old(disk).files, groups, sorted, undistilled, pushedUndistilled))
    {
      hide MidRebuild, RebuildLog, SortEntries, Kept, Only, IsSorted;
      var days := set key | key in groups && key.TimelineShard?;
      WriteGroups(groups, days, sorted, d, log);
      PutIndexOnTrack(Backlog, SortEntries(undistilled), d, log);
      PutIndexOnTrack(PushedBacklog, SortEntries(pushedUndistilled), d, log);
    }

    method WriteScopedFiles(groups: IndexFiles, ghost sorted: IndexFiles, ghost d: Disk, ghost log: seq<Write>)
      requires OnTrack(d, log) && IsSorted(groups, sorted)
      modifies this
      ensures OnTrack(d, log)
      ensures disk == old(disk).(files := ScopedFiles(old(disk).files, groups, sorted))
    {
      hide MidRebuild, RebuildLog, SortEntries, Kept, Only, IsSorted;
      var sessions := set key | key in groups && key.SessionIndex?;
      var loops := set key | key in groups && key.LoopIndex?;
      WriteGroups(groups, sessions, sorted, d, log);
      WriteGroups(groups, loops, sorted, d, log);
    }

    method WriteIndexFiles(nodes: seq<RawNode>, groups: IndexFiles, undistilled: seq<RawIndexEntry>,
                           pushedUndistilled: seq<RawIndexEntry>, ghost d: Disk, ghost log: seq<Write>)
      requires OnTrack(d, log) && disk.files == map[]
      requires Keyed(d.raw) && Scanned(d.raw, nodes) && AllGrouped(nodes, groups, undistilled, pushedUndistilled)
      modifies this
      ensures OnTrack(d, log)
      ensures disk == old(disk).(files := RebuiltFiles(d.raw))
    {
      hide MidRebuild, RebuildLog, SortEntries, RebuiltFiles, Only, IsSorted, TimelineFiles, ScopedFiles;
      ghost var sorted := SortedOf(groups);
      FilesOfGroups(d.raw, nodes, groups, undistilled, pushedUndistilled);
      WriteTimelineFiles(groups, undistilled, pushedUndistilled, sorted, d, log);
      WriteScopedFiles(groups, sorted, d, log);
    }

    method RewriteAbstractReceipt(id: nat, ghost d: Disk, ghost log: seq<Write>)
      requires Intact(d) && OnTrack(d, log) && id in disk.abstracts
      modifies this
      ensures OnTrack(d, log)
      ensures disk == old(disk).(abstractReceipts := disk.abstractReceipts)
      ensures HasReceipt(disk.abstractReceipts, id, disk.abstracts[id].operationKey)
      ensures ReceiptsKept(AbstractKeys(d.abstracts), old(disk).abstractReceipts, disk.abstractReceipts)
    {
      hide MidRebuild, RebuildLog;
      MidKeepsBodies(d, disk);
      var key := disk.abstracts[id].operationKey;
      if key.Some? {
        AbstractReceiptStays(d, disk, id);
        WriteOnTrack(PutAbstractReceipt(StoredId(id, key.value)), d, log);
      }
    }

    method RewriteAbstractReceipts(ghost d: Disk, ghost log: seq<Write>)
      requires Intact(d) && OnTrack(d, log)
      modifies this
      ensures OnTrack(d, log)
      ensures disk == old(disk).(abstractReceipts := RebuiltReceipts(AbstractKeys(d.abstracts), d.abstractReceipts))
    {
      var pending := disk.abstracts.Keys;
      ghost var keys := AbstractKeys(d.abstracts);
      while pending != {}
        invariant pending <= keys.Keys
        invariant OnTrack(d, log)
        invariant disk == old(disk).(abstractReceipts := disk.abstractReceipts)
        invariant forall id | id in keys.Keys - pending :: HasReceipt(disk.abstractReceipts, id, keys[id])
      {
        var id :| id in pending;
        RewriteAbstractReceipt(id, d, log);
        assert keys[id] == disk.abstracts[id].operationKey;
        pending := pending - {id};
      }
      ReceiptsDone(keys, d.abstractReceipts, disk.abstractReceipts);
    }

    method GroupEmbeddings(kind: Kind) returns (groups: EmbeddingGroups)
      requires BodiesKeyed(VectorsOf(disk, kind).bodies)
      ensures GroupsBodies(VectorsOf(disk, kind).bodies, groups)
    {
      var bodies := VectorsOf(disk, kind).bodies;
      var pending := bodies.Keys;
      ghost var done: EmbeddingBodies := map[];
      groups := map[];
      while pending != {}
        invariant pending <= bodies.Keys
        invariant done == bodies - pending
        invariant GroupsBodies(done, groups)
      {
        var id :| id in pending;
        var record := bodies[id];
        GroupsBodiesStep(done, record, groups);
        groups := PushEmbedding(groups, record.sessionId, RawIndexEntry(record.id, record.indexedAt));
        pending := pending - {id};
        done := done[id := record];
      }
      assert done == bodies;
    }

    method RemoveEvicted(kind: Kind, evicted: seq<RawIndexEntry>, ghost d: Disk, ghost log: seq<Write>)
      requires OnTrack(d, log)
      requires forall e | e in evicted :: e.id !in RebuiltVectors(VectorsOf(d, kind).bodies).bodies
      modifies this
      ensures OnTrack(d, log)
      ensures disk == WithVectors(old(disk), kind, VectorsOf(old(disk), kind).(
                bodies := VectorsOf(old(disk), kind).bodies - (set e | e in evicted :: e.id)))
    {
      hide MidRebuild, RebuildLog, RebuiltVectors;
      var i := 0;
      ghost var v := VectorsOf(disk, kind);
      NothingRemoved(v.bodies, evicted);
      SetVectors(disk, kind);
      while i < |evicted|
        invariant 0 <= i <= |evicted|
        invariant OnTrack(d, log)
        invariant disk == WithVectors(old(disk), kind, v.(bodies := v.bodies - (set e | e in evicted[..i] :: e.id)))
      {
        ghost var before := disk;
        RemovalStays(d, disk, kind, evicted[i].id);
        WriteOnTrack(RemoveWrite(kind, evicted[i].id), d, log);
        RemovedOneMore(v.bodies, evicted, i);
        SetVectorsTwice(old(disk), kind, VectorsOf(before, kind), VectorsOf(disk, kind));
        i := i + 1;
      }
      assert evicted[..|evicted|] == evicted;
    }

    /** Sort, remove the bodies beyond the bound, write the manifest of the rest. */
    method RebuildShard(kind: Kind, session: Option<nat>, group: seq<RawIndexEntry>, ghost done: set<Option<nat>>,
                        ghost d: Disk, ghost log: seq<Write>)
      requires OnTrack(d, log) && session !in done
      requires Distinct(group) && Elements(group) == EmbeddingEntries(VectorsOf(d, kind).bodies, session)
      requires VectorsOf(disk, kind) == RebuiltPart(VectorsOf(d, kind).bodies, done)
      modifies this
      ensures OnTrack(d, log)
      ensures disk == WithVectors(old(disk), kind, RebuiltPart(VectorsOf(d, kind).bodies, done + {session}))
    {
      hide MidRebuild, RebuildLog, RebuiltVectors, RebuiltPart, EmbeddingEntries, NewestEmbeddings;
      ghost var bodies := VectorsOf(d, kind).bodies;
      var sorted := SortEntries(group);
      SortedShard(bodies, session, group);
      RemoveEvicted(kind, sorted[..Overflow(sorted)], d, log);
      ghost var before := disk;
      var ids := IdsOf(sorted[Overflow(sorted)..]);
      var unique := WithoutDuplicates(ids);
      ManifestStays(d, disk, kind, session, unique);
      WriteOnTrack(ManifestWrite(kind, session, unique), d, log);
      PartStep(bodies, done, session, VectorsOf(disk, kind));
      SetVectorsTwice(old(disk), kind, VectorsOf(before, kind), VectorsOf(disk, kind));
    }

    /** `rebuild_embedding_shards_unlocked`: the shards in any order. */
    method RebuildEmbeddingShards(kind: Kind, ghost d: Disk, ghost log: seq<Write>)
      requires Intact(d) && OnTrack(d, log)
      requires VectorsOf(disk, kind) == Vectors(VectorsOf(d, kind).bodies, map[])
      modifies this
      ensures OnTrack(d, log)
      ensures disk == WithVectors(old(disk), kind, RebuiltVectors(VectorsOf(d, kind).bodies))
    {
      hide MidRebuild, RebuildLog, RebuiltVectors, RebuiltPart, EmbeddingEntries;
      ghost var bodies := VectorsOf(d, kind).bodies;
      var groups := GroupEmbeddings(kind);
      var pending := groups.Keys;
      RebuiltInParts(bodies);
      SetVectors(disk, kind);
      assert groups.Keys - pending == {};
      while pending != {}
        invariant pending <= groups.Keys
        invariant OnTrack(d, log)
        invariant disk == WithVectors(old(disk), kind, RebuiltPart(bodies, groups.Keys - pending))
      {
        var session :| session in pending;
        ghost var before := disk;
        RebuildShard(kind, session, groups[session], groups.Keys - pending, d, log);
        SetVectorsTwice(old(disk), kind, VectorsOf(before, kind), VectorsOf(disk, kind));
        assert groups.Keys - (pending - {session}) == (groups.Keys - pending) + {session};
        pending := pending - {session};
      }
      assert groups.Keys - pending == groups.Keys;
      GroupedSessions(bodies, groups);
    }

    /** The part of a rebuild that fills the index files and the receipts. */
    method RebuildFiles(ghost d: Disk, ghost log: seq<Write>)
      requires Intact(d) && OnTrack(d, log) && disk == Perform(d, ResetIndexRoot)
      modifies this
      ensures OnTrack(d, log)
      ensures disk == FilesRebuilt(d)
    {
      hide MidRebuild, RebuildLog, RebuiltReceipts, RebuiltFiles, AllGrouped;
      var nodes := ScanRawNodes();
      var groups, undistilled, pushedUndistilled := GroupNodes(nodes, d, log);
      WriteIndexFiles(nodes, groups, undistilled, pushedUndistilled, d, log);
      RewriteAbstractReceipts(d, log);
    }

    /** All of a rebuild but the version marker. */
    method RebuildUnmarked(ghost d: Disk)
      requires Intact(d) && disk == d
      modifies this
      ensures OnTrack(d, old(writes))
      ensures disk == RebuiltDisk(d).(indexVersion := None)
    {
      hide MidRebuild, RebuildLog, RebuiltReceipts, RebuiltFiles, RebuiltVectors;
      ghost var log := writes;
      ResetIndexes(d);
      RebuildFiles(d, log);
      RebuildEmbeddingShards(RawKind, d, log);
      RebuildEmbeddingShards(AbstractKind, d, log);
      TouchDuringRebuild(d, disk);
      WriteOnTrack(TouchMetadata, d, log);
    }

    /** `rebuild_indexes_unlocked`: the version marker is written last, so an interrupted rebuild is
        always started over. */
    method RebuildIndexes()
      requires Intact(disk)
      modifies this
      ensures disk == RebuiltDisk(old(disk))
      ensures old(writes) <= writes && RebuildOf(old(disk), writes[|old(writes)|..])
    {
      hide MidRebuild, RebuildLog, RebuiltReceipts, RebuiltFiles, RebuiltVectors;
      RebuildUnmarked(disk);
      ghost var ws := writes[|old(writes)|..];
      Write(PutIndexVersion);
      RunSnoc(old(disk), ws, PutIndexVersion);
      assert writes[|old(writes)|..] == ws + [PutIndexVersion];
      MarkedLast(old(disk), ws);
    }

    // -------------------------------------------------------------- opening

    method IndexesTrusted() returns (trusted: bool)
      ensures trusted <==> ProbesPass(disk)
    {
      trusted := disk.indexVersion == Some(INDEX_VERSION);
      if trusted {
        trusted := IndexesAreComplete();
      }
      if trusted {
        trusted := EmbeddingDirCovered(RawKind);
      }
      if trusted {
        trusted := EmbeddingDirCovered(AbstractKind);
      }
    }

    method EnsureMetadata()
      modifies this
      ensures disk == old(disk).(metadata := true)
      ensures Performed(if old(disk).metadata then [] else [TouchMetadata])
    {
      if !disk.metadata {
        Write(TouchMetadata);
        RunOne(old(disk), TouchMetadata);
      } else {
        assert disk.(metadata := true) == disk && old(writes) + [] == old(writes);
      }
    }

    method ReplayAndEnsure()
      requires Keyed(disk.raw)
      modifies this
      ensures disk == Replayed(old(disk)).(metadata := true)
      ensures Performed(HeadWrites(old(disk)))
    {
      ReplayJournal();
      ReplayRun(old(disk));
      ghost var replayed := disk;
      EnsureMetadata();
      ghost var m := if replayed.metadata then [] else [TouchMetadata];
      RunConcat(old(disk), ReplayWrites(old(disk)), m);
      Regroup(old(writes), ReplayWrites(old(disk)), m);
    }

    /** `ensure_indexes`, the recovery every `open` runs: replay, probe, rebuild if a probe fails. The
        disk it leaves is `Opened`, and every disk it exposes on the way is an `OpenImage`. */
    method EnsureIndexes()
      requires Keyed(disk.raw) && Intact(Replayed(disk))
      modifies this
      ensures disk == Opened(old(disk))
      ensures old(writes) <= writes
      ensures forall n | 0 <= n <= |writes| - |old(writes)| ::
                OpenImage(old(disk), Run(old(disk), writes[|old(writes)|..][..n]))
    {
      hide RebuildOf, OpenImage, HeadWrites, Replayed, ProbesPass, RebuiltDisk, Intact;
      ghost var d := disk;
      ReplayAndEnsure();
      ghost var log := writes;
      var trusted := IndexesTrusted();
      if trusted {
        assert writes[|old(writes)|..] == HeadWrites(d);
        HeadImages(d);
      } else {
        IntactWithMetadata(Replayed(d));
        RebuildIndexes();
        ghost var ws := writes[|log|..];
        assert writes[|old(writes)|..] == HeadWrites(d) + ws;
        OpenImages(d, ws);
      }
    }
  }

  lemma SameMembers(a: seq<RawIndexEntry>, b: seq<RawIndexEntry>)
    requires Elements(a) == Elements(b)
    ensures forall e :: e in a <==> e in b
  {
    assert forall e :: (e in a <==> e in Elements(a)) && (e in b <==> e in Elements(b));
  }

  /** The node of every sorted entry. */
  method LoadNodes(raw: RawBodies, sorted: seq<RawIndexEntry>) returns (nodes: seq<RawNode>)
    requires Keyed(raw) && Sorted(sorted)
    requires forall e :: e in sorted <==> e.id in raw && e == EntryOf(raw[e.id])
    ensures Scanned(raw, nodes)
  {
    nodes := [];
    for i := 0 to |sorted|
      invariant |nodes| == i
      invariant forall j | 0 <= j < i :: nodes[j].id in raw && nodes[j] == raw[nodes[j].id] && EntryOf(nodes[j]) == sorted[j]
    {
      assert sorted[i] in sorted;
      nodes := nodes + [raw[sorted[i].id]];
    }
    ScanFromSorted(raw, sorted, nodes);
  }

  /** A mutation also clears a journal it found. */
  lemma {:induction false} RunMutated(d: Disk, mutation: MutationJournal)
    requires Keyed(d.raw)
    ensures Run(d, MutateWrites(d, mutation)) == Applied(d, mutation).(journal := None)
  {
    hide ApplyWrites, Applied;
    RunJournaled(d, mutation);
    RunSnoc(d, [PutJournal(mutation)] + ApplyWrites(d, mutation), RemoveJournal);
  }

  lemma ConsistentBacklogs(d: Disk)
    requires Consistent(d)
    ensures Lists(d.raw, Read(d.files, Backlog), None, ToDistill(false))
    ensures Lists(d.raw, Read(d.files, PushedBacklog), None, ToDistill(true))
  {
    IndexesMean(d.raw, d.files, 0, 0);
  }

  function PatchedNode(raw: RawBodies, id: nat, patch: RawLifecyclePatch): (node: RawNode)
    requires Keyed(raw) && id in raw
    ensures node.id == id && node == Patched(raw[id], patch)
  {
    Patched(raw[id], patch)
  }

  lemma {:induction false} NoPatches(d: Disk, ids: seq<nat>, patch: RawLifecyclePatch)
    requires ids == []
    ensures PatchWrites(d.raw, d.files, ids, patch) == [] && Run(d, []) == d
  {
  }

  /** The patches still to be written, one id further. */
  lemma {:induction false} NextPatch(d: Disk, ids: seq<nat>, i: nat, patch: RawLifecyclePatch)
    requires Keyed(d.raw) && i < |ids|
    ensures if ids[i] in d.raw then
              var node := PatchedNode(d.raw, ids[i], patch);
              var rest := PatchWrites(d.raw[node.id := node], Sync(d.files, node), ids[i + 1..], patch);
              && PatchWrites(d.raw, d.files, ids[i..], patch) == PatchOneWrites(d.files, node) + rest
              && Run(d, PatchOneWrites(d.files, node) + rest) == Run(Run(d, PatchOneWrites(d.files, node)), rest)
            else
              PatchWrites(d.raw, d.files, ids[i..], patch) == PatchWrites(d.raw, d.files, ids[i + 1..], patch)
  {
    assert ids[i..][0] == ids[i] && ids[i..][1..] == ids[i + 1..];
    if ids[i] in d.raw {
      var node := PatchedNode(d.raw, ids[i], patch);
      RunConcat(d, PatchOneWrites(d.files, node), PatchWrites(d.raw[node.id := node], Sync(d.files, node), ids[i + 1..], patch));
    }
  }

  // ---------------------------------------------------------------- openings

  /** A rebuild whose index root is still to be filled from the bodies. */
  ghost function FilesRebuilt(d: Disk): Disk {
    Perform(d, ResetIndexRoot).(
      files := RebuiltFiles(d.raw),
      rawReceipts := RebuiltReceipts(RawKeys(d.raw), d.rawReceipts),
      abstractReceipts := RebuiltReceipts(AbstractKeys(d.abstracts), d.abstractReceipts))
  }

  lemma TouchDuringRebuild(d: Disk, m: Disk)
    requires MidRebuild(d, m)
    ensures MidRebuild(d, Perform(m, TouchMetadata))
  {
  }

  /** `ws` rebuilds `d`, and only its last write makes the result trusted. */
  ghost predicate RebuildOf(d: Disk, ws: seq<Write>) {
    && Run(d, ws) == RebuiltDisk(d)
    && forall n | 0 < n < |ws| :: MidRebuild(d, Run(d, ws[..n]))
  }

  lemma {:induction false} MarkedLast(d: Disk, ws: seq<Write>)
    requires RebuildLog(d, ws) && Run(d, ws + [PutIndexVersion]) == RebuiltDisk(d)
    ensures RebuildOf(d, ws + [PutIndexVersion])
  {
    hide MidRebuild, RebuiltDisk;
    var all := ws + [PutIndexVersion];
    forall n | 0 < n < |all|
      ensures MidRebuild(d, Run(d, all[..n]))
    {
      assert all[..n] == ws[..n];
    }
  }

  /** Replay, then the metadata file if there is none. */
  function HeadWrites(d: Disk): seq<Write> {
    ReplayWrites(d) + if Replayed(d).metadata then [] else [TouchMetadata]
  }

  lemma {:induction false} ReplayRun(d: Disk)
    requires Keyed(d.raw)
    ensures Run(d, ReplayWrites(d)) == Replayed(d)
  {
    hide ApplyWrites, Applied;
    if d.journal.Some? {
      RunApplied(d, d.journal.value);
      RunSnoc(d, ApplyWrites(d, d.journal.value), RemoveJournal);
    }
  }

  lemma {:induction false} HeadRun(d: Disk)
    requires Keyed(d.raw)
    ensures Run(d, HeadWrites(d)) == Replayed(d).(metadata := true)
  {
    ReplayRun(d);
    if Replayed(d).metadata {
      assert ReplayWrites(d) + [] == ReplayWrites(d);
    } else {
      RunSnoc(d, ReplayWrites(d), TouchMetadata);
    }
  }

  lemma {:induction false} HeadImages(d: Disk)
    requires Keyed(d.raw)
    ensures forall n | 0 <= n <= |HeadWrites(d)| :: OpenImage(d, Run(d, HeadWrites(d)[..n]))
  {
    hide OpenImage, Run, HeadWrites;
    forall n: nat | n <= |HeadWrites(d)|
      ensures OpenImage(d, Run(d, HeadWrites(d)[..n]))
    {
      HeadImageAt(d, n);
    }
  }

  lemma {:induction false} HeadImageAt(d: Disk, n: nat)
    requires Keyed(d.raw) && n <= |HeadWrites(d)|
    ensures OpenImage(d, Run(d, HeadWrites(d)[..n]))
  {
    hide Replayed, ProbesPass, MidRebuild, RebuiltDisk;
    var ws := HeadWrites(d);
    if n <= |ReplayWrites(d)| {
      assert ws[..n] == ReplayWrites(d)[..n];
    } else {
      assert ws[..n] == ws;
      HeadRun(d);
    }
  }

  lemma {:induction false} OpenImages(d: Disk, ws: seq<Write>)
    requires Keyed(d.raw) && !ProbesPass(Replayed(d).(metadata := true)) && RebuildOf(Replayed(d).(metadata := true), ws)
    ensures forall n | 0 <= n <= |HeadWrites(d) + ws| :: OpenImage(d, Run(d, (HeadWrites(d) + ws)[..n]))
  {
    hide Replayed, ProbesPass, RebuildOf, OpenImage, Run, HeadWrites;
    forall n: nat | n <= |HeadWrites(d) + ws|
      ensures OpenImage(d, Run(d, (HeadWrites(d) + ws)[..n]))
    {
      OpenImageAt(d, ws, n);
    }
  }

  lemma {:induction false} OpenImageAt(d: Disk, ws: seq<Write>, n: nat)
    requires Keyed(d.raw) && !ProbesPass(Replayed(d).(metadata := true)) && RebuildOf(Replayed(d).(metadata := true), ws)
    requires n <= |HeadWrites(d) + ws|
    ensures OpenImage(d, Run(d, (HeadWrites(d) + ws)[..n]))
  {
    hide Replayed, ProbesPass, RebuildOf, OpenImage, Run, HeadWrites;
    if n <= |HeadWrites(d)| {
      HeadImageAt(d, n);
      TakeFront(HeadWrites(d), ws, n);
    } else {
      ImageAfterHead(d, ws, n - |HeadWrites(d)|);
      TakeBeyond(HeadWrites(d), ws, n);
    }
  }

  lemma {:induction false} ImageAfterHead(d: Disk, ws: seq<Write>, k: nat)
    requires Keyed(d.raw) && !ProbesPass(Replayed(d).(metadata := true)) && RebuildOf(Replayed(d).(metadata := true), ws)
    requires 0 < k <= |ws|
    ensures OpenImage(d, Run(d, HeadWrites(d) + ws[..k]))
  {
    hide Replayed, ProbesPass, RebuildOf, OpenImage, Run, HeadWrites;
    RunConcat(d, HeadWrites(d), ws[..k]);
    HeadRun(d);
    RebuildImage(d, ws, k);
  }

  lemma TakeFront(a: seq<Write>, b: seq<Write>, n: nat)
    requires n <= |a|
    ensures (a + b)[..n] == a[..n]
  {
  }

  lemma TakeBeyond(a: seq<Write>, b: seq<Write>, n: nat)
    requires |a| < n <= |a + b|
    ensures (a + b)[..n] == a + b[..n - |a|]
  {
  }

  lemma {:induction false} RebuildImage(d: Disk, ws: seq<Write>, k: nat)
    requires !ProbesPass(Replayed(d).(metadata := true)) && RebuildOf(Replayed(d).(metadata := true), ws) && 0 < k <= |ws|
    ensures OpenImage(d, Run(Replayed(d).(metadata := true), ws[..k]))
  {
    hide Replayed, ProbesPass, MidRebuild, RebuiltDisk;
    if k == |ws| {
      assert ws[..k] == ws;
    }
  }

  /** Every disk a history can expose meets what `EnsureIndexes` asks for. */
  lemma RecoverableMayOpen(core: Core, m: Disk)
    requires Recoverable(core, m)
    ensures Keyed(m.raw) && Intact(Replayed(m))
  {
    hide Applied, Consistent, Between, Admissible, ProbesPass, Intact;
    if Quiet(m) && CoreOf(m) == core {
      QuietMayOpen(m);
    } else {
      var d0, mutation :| Pending(core, d0, mutation, m);
      ReplayedQuiet(d0, mutation, m);
      BetweenKeyed(d0, mutation, m);
    }
  }

  lemma QuietMayOpen(m: Disk)
    requires Quiet(m)
    ensures Keyed(m.raw) && Intact(Replayed(m))
  {
  }

  lemma BetweenKeyed(d0: Disk, mutation: MutationJournal, m: Disk)
    requires Consistent(d0) && Admissible(d0, mutation) && Between(d0, mutation, m)
    ensures Keyed(m.raw) && m.journal == Some(mutation)
  {
    if mutation.UpdateRawLifecycle? {
      PatchedRawAt(d0.raw, mutation.ids, mutation.patch);
    }
  }

  lemma IntactWithMetadata(d: Disk)
    requires Intact(d)
    ensures Intact(d.(metadata := true))
  {
  }

  lemma NothingGrouped()
    ensures AllGrouped([], map[], [], [])
  {
  }

  lemma ScanKeepsBodies(d: Disk, m: Disk)
    requires MidRebuild(d, m)
    ensures m.raw == d.raw && ReceiptsBetween(d.rawReceipts, RebuiltReceipts(RawKeys(d.raw), d.rawReceipts), m.rawReceipts)
  {
  }

  ghost predicate Receipted(nodes: seq<RawNode>, receipts: Receipts) {
    forall n | n in nodes :: HasReceipt(receipts, n.id, n.operationKey)
  }

  lemma NextNode(raw: RawBodies, nodes: seq<RawNode>, i: nat)
    requires Scanned(raw, nodes) && i < |nodes|
    ensures nodes[..i + 1] == nodes[..i] + [nodes[i]]
    ensures nodes[i].id in raw && raw[nodes[i].id] == nodes[i]
    ensures forall n | n in nodes[..i] :: n.id != nodes[i].id && n.id in raw && raw[n.id] == n
  {
    NewToPrefix(raw, nodes, i);
  }

  lemma ReceiptedStep(raw: RawBodies, nodes: seq<RawNode>, node: RawNode, a: Receipts, b: Receipts)
    requires Receipted(nodes, a) && ReceiptsKept(RawKeys(raw), a, b) && HasReceipt(b, node.id, node.operationKey)
    requires forall n | n in nodes :: n.id in raw && raw[n.id] == n
    ensures Receipted(nodes + [node], b)
  {
    forall n | n in nodes
      ensures HasReceipt(b, n.id, n.operationKey)
    {
      assert RawKeys(raw)[n.id] == n.operationKey;
    }
  }

  /** One node's pushes onto the groups it belongs to. */
  method GroupNode(node: RawNode, groups: IndexFiles, undistilled: seq<RawIndexEntry>, pushedUndistilled: seq<RawIndexEntry>,
                   ghost nodes: seq<RawNode>)
    returns (groups': IndexFiles, undistilled': seq<RawIndexEntry>, pushedUndistilled': seq<RawIndexEntry>)
    requires AllGrouped(nodes, groups, undistilled, pushedUndistilled) && forall n | n in nodes :: n.id != node.id
    ensures AllGrouped(nodes + [node], groups', undistilled', pushedUndistilled')
  {
    var entry := EntryOf(node);
    groups' := Push(groups, TimelineShard(TimelineBucket(node.timestamp)), entry);
    if node.sessionId.Some? {
      groups' := Push(groups', SessionIndex(node.sessionId.value), entry);
    }
    if node.loopId.Some? {
      groups' := Push(groups', LoopIndex(node.loopId.value), entry);
    }
    undistilled', pushedUndistilled' := undistilled, pushedUndistilled;
    if node.distillation != Distilled {
      undistilled' := undistilled + [entry];
      if node.overflow.wasPushedOutOfSession {
        pushedUndistilled' := pushedUndistilled + [entry];
      }
    }
    GroupsStep(nodes, node, groups);
    BacklogStep(nodes, node, Backlog, undistilled);
    BacklogStep(nodes, node, PushedBacklog, pushedUndistilled);
  }

  ghost predicate AllGrouped(nodes: seq<RawNode>, groups: IndexFiles, undistilled: seq<RawIndexEntry>, pushedUndistilled: seq<RawIndexEntry>) {
    GroupsMatch(nodes, groups) && Grouped(nodes, Backlog, undistilled) && Grouped(nodes, PushedBacklog, pushedUndistilled)
  }

  /** No receipt of a body was lost or changed. */
  ghost predicate ReceiptsKept(keys: OperationKeys, a: Receipts, b: Receipts) {
    forall id | id in keys && HasReceipt(a, id, keys[id]) :: HasReceipt(b, id, keys[id])
  }

  lemma ScannedReceipts(raw: RawBodies, nodes: seq<RawNode>, receipts: Receipts)
    requires Keyed(raw) && Scanned(raw, nodes) && Receipted(nodes, receipts)
    ensures forall id | id in RawKeys(raw) :: HasReceipt(receipts, id, RawKeys(raw)[id])
  {
    forall id | id in raw
      ensures HasReceipt(receipts, id, raw[id].operationKey)
    {
      assert raw[id] in nodes && raw[id].id == id;
    }
  }

  /** Every disk exposed after the first write of `ws` is an interrupted rebuild of `d`. */
  ghost predicate RebuildLog(d: Disk, ws: seq<Write>) {
    forall n | 0 < n <= |ws| :: MidRebuild(d, Run(d, ws[..n]))
  }

  lemma IndexFilesMayChange(d: Disk, m: Disk, key: IndexKey, entries: seq<RawIndexEntry>)
    requires MidRebuild(d, m)
    ensures MidRebuild(d, Perform(m, PutIndex(key, entries)))
  {
  }

  lemma ResetStartsRebuild(d: Disk)
    ensures MidRebuild(d, Perform(d, ResetIndexRoot)) && RebuildLog(d, [])
  {
    SurvivorsWithin(d.rawVectors.bodies);
    SurvivorsWithin(d.abstractVectors.bodies);
  }

  lemma {:induction false} RebuildLogSnoc(d: Disk, ws: seq<Write>, w: Write)
    requires RebuildLog(d, ws) && MidRebuild(d, Perform(Run(d, ws), w))
    ensures RebuildLog(d, ws + [w])
  {
    hide MidRebuild, Perform;
    RunSnoc(d, ws, w);
    forall n | 0 < n <= |ws + [w]|
      ensures MidRebuild(d, Run(d, (ws + [w])[..n]))
    {
      if n <= |ws| {
        assert (ws + [w])[..n] == ws[..n];
      } else {
        assert (ws + [w])[..n] == ws + [w];
      }
    }
  }

  /** Every body exactly once. */
  ghost predicate Scanned(raw: RawBodies, nodes: seq<RawNode>) {
    && Distinct(nodes)
    && (forall i | 0 <= i < |nodes| :: nodes[i].id in raw && raw[nodes[i].id] == nodes[i])
    && (forall id | id in raw :: raw[id] in nodes)
  }

  lemma ScanFromSorted(raw: RawBodies, sorted: seq<RawIndexEntry>, nodes: seq<RawNode>)
    requires Keyed(raw) && Sorted(sorted) && |nodes| == |sorted|
    requires forall e :: e in sorted <==> e.id in raw && e == EntryOf(raw[e.id])
    requires forall j | 0 <= j < |nodes| :: nodes[j].id in raw && nodes[j] == raw[nodes[j].id] && EntryOf(nodes[j]) == sorted[j]
    ensures Scanned(raw, nodes)
  {
    forall i, j | 0 <= i < j < |nodes|
      ensures nodes[i] != nodes[j]
    {
      assert Before(sorted[i], sorted[j]);
    }
    forall id | id in raw
      ensures raw[id] in nodes
    {
      assert EntryOf(raw[id]) in sorted;
      var j :| 0 <= j < |sorted| && sorted[j] == EntryOf(raw[id]);
      assert nodes[j] == raw[id];
    }
  }

  lemma SurvivorsWithin(bodies: EmbeddingBodies)
    ensures Within(RebuiltVectors(bodies).bodies, bodies)
  {
  }

  ghost predicate HasReceipt(receipts: Receipts, id: nat, key: Option<string>) {
    key.Some? ==> RECEIPT_DIGEST(key.value) in receipts && receipts[RECEIPT_DIGEST(key.value)] == StoredId(id, key.value)
  }

  lemma ReceiptsDone(keys: OperationKeys, a: Receipts, m: Receipts)
    requires KeysDistinct(keys) && ReceiptsBetween(a, RebuiltReceipts(keys, a), m)
    requires forall id | id in keys :: HasReceipt(m, id, keys[id])
    ensures m == RebuiltReceipts(keys, a)
  {
    var r := RebuiltReceipts(keys, a);
    forall digest
      ensures digest in m <==> digest in r
      ensures digest in r ==> m[digest] == r[digest]
    {
      if digest in OwnedDigests(keys) {
        var id := Owner(keys, digest);
        assert Owns(keys, digest, id) && HasReceipt(m, id, keys[id]);
        RebuiltReceiptOf(keys, a, id);
      }
    }
  }

  lemma {:induction false} ReceiptPutStays(keys: OperationKeys, a: Receipts, m: Receipts, id: nat)
    requires KeysDistinct(keys) && id in keys && keys[id].Some? && ReceiptsBetween(a, RebuiltReceipts(keys, a), m)
    ensures ReceiptsBetween(a, RebuiltReceipts(keys, a), m[RECEIPT_DIGEST(keys[id].value) := StoredId(id, keys[id].value)])
    ensures ReceiptsKept(keys, m, m[RECEIPT_DIGEST(keys[id].value) := StoredId(id, keys[id].value)])
  {
    hide RebuiltReceipts;
    RebuiltReceiptOf(keys, a, id);
    PutKeepsReceipts(keys, m, id);
  }

  /** Putting a key's own receipt overwrites no other id's. */
  lemma PutKeepsReceipts(keys: OperationKeys, m: Receipts, id: nat)
    requires KeysDistinct(keys) && id in keys && keys[id].Some?
    ensures ReceiptsKept(keys, m, m[RECEIPT_DIGEST(keys[id].value) := StoredId(id, keys[id].value)])
  {
  }

  lemma RawReceiptStays(d: Disk, m: Disk, id: nat)
    requires Intact(d) && MidRebuild(d, m) && id in d.raw && d.raw[id].operationKey.Some?
    ensures var key := d.raw[id].operationKey.value;
            var receipts := m.rawReceipts[RECEIPT_DIGEST(key) := StoredId(id, key)];
            MidRebuild(d, m.(rawReceipts := receipts)) && ReceiptsKept(RawKeys(d.raw), m.rawReceipts, receipts)
  {
    var key := d.raw[id].operationKey.value;
    ReceiptPutStays(RawKeys(d.raw), d.rawReceipts, m.rawReceipts, id);
    WithReceipts(d, m, m.rawReceipts[RECEIPT_DIGEST(key) := StoredId(id, key)], m.abstractReceipts);
  }

  lemma AbstractReceiptStays(d: Disk, m: Disk, id: nat)
    requires Intact(d) && MidRebuild(d, m) && id in d.abstracts && d.abstracts[id].operationKey.Some?
    ensures var key := d.abstracts[id].operationKey.value;
            var receipts := m.abstractReceipts[RECEIPT_DIGEST(key) := StoredId(id, key)];
            MidRebuild(d, m.(abstractReceipts := receipts)) && ReceiptsKept(AbstractKeys(d.abstracts), m.abstractReceipts, receipts)
  {
    var key := d.abstracts[id].operationKey.value;
    ReceiptPutStays(AbstractKeys(d.abstracts), d.abstractReceipts, m.abstractReceipts, id);
    WithReceipts(d, m, m.rawReceipts, m.abstractReceipts[RECEIPT_DIGEST(key) := StoredId(id, key)]);
  }

  lemma MidKeepsBodies(d: Disk, m: Disk)
    requires MidRebuild(d, m)
    ensures m.raw == d.raw && m.abstracts == d.abstracts
  {
  }

  lemma WithReceipts(d: Disk, m: Disk, raw: Receipts, abstract_: Receipts)
    requires MidRebuild(d, m)
    requires ReceiptsBetween(d.rawReceipts, RebuiltReceipts(RawKeys(d.raw), d.rawReceipts), raw)
    requires ReceiptsBetween(d.abstractReceipts, RebuiltReceipts(AbstractKeys(d.abstracts), d.abstractReceipts), abstract_)
    ensures MidRebuild(d, m.(rawReceipts := raw, abstractReceipts := abstract_))
  {
  }

  // ---------------------------------------------------------------- grouping

  ghost function EntriesOf(nodes: seq<RawNode>, key: IndexKey): set<RawIndexEntry> {
    set n | n in nodes && Belongs(n, key) :: EntryOf(n)
  }

  ghost predicate Grouped(nodes: seq<RawNode>, key: IndexKey, group: seq<RawIndexEntry>) {
    Distinct(group) && Elements(group) == EntriesOf(nodes, key)
  }

  /** Each hash-map group holds the entries of its key once; a key is present once it has one. */
  ghost predicate GroupsMatch(nodes: seq<RawNode>, groups: IndexFiles) {
    forall key: IndexKey ::
      if IsBacklog(key) then key !in groups
      else (key in groups <==> EntriesOf(nodes, key) != {}) && Grouped(nodes, key, Read(groups, key))
  }

  /** `entry(key).or_default().push(e)` */
  function Push(groups: IndexFiles, key: IndexKey, e: RawIndexEntry): IndexFiles {
    groups[key := Read(groups, key) + [e]]
  }

  lemma NewToPrefix(raw: RawBodies, nodes: seq<RawNode>, i: nat)
    requires Scanned(raw, nodes) && i < |nodes|
    ensures forall n | n in nodes[..i] :: n.id != nodes[i].id
  {
  }

  lemma EntriesStep(nodes: seq<RawNode>, node: RawNode, key: IndexKey)
    ensures EntriesOf(nodes + [node], key) == EntriesOf(nodes, key) + if Belongs(node, key) then {EntryOf(node)} else {}
  {
  }

  lemma BacklogStep(nodes: seq<RawNode>, node: RawNode, key: IndexKey, group: seq<RawIndexEntry>)
    requires Grouped(nodes, key, group) && forall n | n in nodes :: n.id != node.id
    ensures Grouped(nodes + [node], key, if Belongs(node, key) then group + [EntryOf(node)] else group)
  {
    EntriesStep(nodes, node, key);
    assert EntryOf(node) in group ==> EntryOf(node) in Elements(group);
    assert Elements(group + [EntryOf(node)]) == Elements(group) + {EntryOf(node)};
  }

  function PushAll(groups: IndexFiles, node: RawNode): IndexFiles {
    var g1 := Push(groups, TimelineShard(TimelineBucket(node.timestamp)), EntryOf(node));
    var g2 := if node.sessionId.Some? then Push(g1, SessionIndex(node.sessionId.value), EntryOf(node)) else g1;
    if node.loopId.Some? then Push(g2, LoopIndex(node.loopId.value), EntryOf(node)) else g2
  }

  lemma PushAllAt(groups: IndexFiles, node: RawNode, key: IndexKey)
    requires !IsBacklog(key)
    ensures var r := PushAll(groups, node);
            && (key in r <==> key in groups || Belongs(node, key))
            && Read(r, key) == if Belongs(node, key) then Read(groups, key) + [EntryOf(node)] else Read(groups, key)
  {
  }

  lemma GroupsStep(nodes: seq<RawNode>, node: RawNode, groups: IndexFiles)
    requires GroupsMatch(nodes, groups) && forall n | n in nodes :: n.id != node.id
    ensures GroupsMatch(nodes + [node], PushAll(groups, node))
  {
    forall key: IndexKey
      ensures if IsBacklog(key) then key !in PushAll(groups, node)
              else (key in PushAll(groups, node) <==> EntriesOf(nodes + [node], key) != {})
                   && Grouped(nodes + [node], key, Read(PushAll(groups, node), key))
    {
      if !IsBacklog(key) {
        PushAllAt(groups, node, key);
        BacklogStep(nodes, node, key, Read(groups, key));
        EntriesStep(nodes, node, key);
      }
    }
  }

  ghost predicate IsSorted(groups: IndexFiles, sorted: IndexFiles) {
    sorted.Keys == groups.Keys && forall key | key in groups :: sorted[key] == Kept(key, SortEntries(groups[key]))
  }

  ghost function Only(files: IndexFiles, keys: set<IndexKey>): IndexFiles {
    map key | key in keys && key in files :: files[key]
  }

  lemma OnlyStep(files: IndexFiles, sorted: IndexFiles, done: set<IndexKey>, key: IndexKey)
    requires key in sorted
    ensures files + Only(sorted, done + {key}) == (files + Only(sorted, done))[key := sorted[key]]
  {
  }

  /** The three families of groups and the two backlog files make up all the files. */
  lemma AssembledFiles(sorted: IndexFiles, undistilled: seq<RawIndexEntry>, pushedUndistilled: seq<RawIndexEntry>)
    requires Backlog !in sorted && PushedBacklog !in sorted
    ensures sorted[Backlog := undistilled][PushedBacklog := pushedUndistilled]
         == (map[] + Only(sorted, (set key | key in sorted && key.TimelineShard?)))[Backlog := undistilled][PushedBacklog := pushedUndistilled]
            + Only(sorted, (set key | key in sorted && key.SessionIndex?)) + Only(sorted, (set key | key in sorted && key.LoopIndex?))
  {
  }

  ghost function SortedOf(groups: IndexFiles): (sorted: IndexFiles)
    ensures IsSorted(groups, sorted)
  {
    map key | key in groups :: Kept(key, SortEntries(groups[key]))
  }

  ghost function TimelineFiles(files: IndexFiles, groups: IndexFiles, sorted: IndexFiles,
                               undistilled: seq<RawIndexEntry>, pushedUndistilled: seq<RawIndexEntry>): IndexFiles {
    (files + Only(sorted, (set key | key in groups && key.TimelineShard?)))
      [Backlog := SortEntries(undistilled)][PushedBacklog := SortEntries(pushedUndistilled)]
  }

  ghost function ScopedFiles(files: IndexFiles, groups: IndexFiles, sorted: IndexFiles): IndexFiles {
    files + Only(sorted, (set key | key in groups && key.SessionIndex?)) + Only(sorted, (set key | key in groups && key.LoopIndex?))
  }

  /** The files the rebuild writes, family by family, are exactly the rebuilt ones. */
  lemma FilesOfGroups(raw: RawBodies, nodes: seq<RawNode>, groups: IndexFiles, undistilled: seq<RawIndexEntry>,
                      pushedUndistilled: seq<RawIndexEntry>)
    requires Keyed(raw) && Scanned(raw, nodes) && AllGrouped(nodes, groups, undistilled, pushedUndistilled)
    ensures RebuiltFiles(raw)
         == ScopedFiles(TimelineFiles(map[], groups, SortedOf(groups), undistilled, pushedUndistilled), groups, SortedOf(groups))
  {
    var sorted := SortedOf(groups);
    var files := sorted[Backlog := SortEntries(undistilled)][PushedBacklog := SortEntries(pushedUndistilled)];
    AssembledExact(raw, nodes, groups, sorted, undistilled, pushedUndistilled);
    RebuiltFilesExact(raw);
    ExactUnique(raw, files, RebuiltFiles(raw));
    SortedHasNoBacklog(nodes, groups);
    AssembledFiles(sorted, SortEntries(undistilled), SortEntries(pushedUndistilled));
    SameFamilies(groups, sorted);
  }

  lemma SortedHasNoBacklog(nodes: seq<RawNode>, groups: IndexFiles)
    requires GroupsMatch(nodes, groups)
    ensures Backlog !in groups && PushedBacklog !in groups
  {
  }

  lemma SameFamilies(groups: IndexFiles, sorted: IndexFiles)
    requires sorted.Keys == groups.Keys
    ensures (set key | key in groups && key.TimelineShard?) == (set key | key in sorted && key.TimelineShard?)
    ensures (set key | key in groups && key.SessionIndex?) == (set key | key in sorted && key.SessionIndex?)
    ensures (set key | key in groups && key.LoopIndex?) == (set key | key in sorted && key.LoopIndex?)
  {
  }

  lemma ScannedMembers(raw: RawBodies, nodes: seq<RawNode>, key: IndexKey)
    requires Keyed(raw) && Scanned(raw, nodes)
    ensures EntriesOf(nodes, key) == Members(raw, key)
  {
    forall x
      ensures x in EntriesOf(nodes, key) <==> x in Members(raw, key)
    {
      if x in Members(raw, key) {
        MembersFixIds(raw, key);
        assert raw[x.id] in nodes;
      }
    }
  }

  lemma {:induction false} SortedGroup(raw: RawBodies, nodes: seq<RawNode>, key: IndexKey, group: seq<RawIndexEntry>)
    requires Keyed(raw) && Scanned(raw, nodes) && Grouped(nodes, key, group)
    ensures SortEntries(group) == Listing(Members(raw, key))
  {
    ScannedMembers(raw, nodes, key);
    SortSorted(group);
    ListingUnique(SortEntries(group), Members(raw, key));
  }

  lemma {:induction false} SortedFile(raw: RawBodies, nodes: seq<RawNode>, key: IndexKey, group: seq<RawIndexEntry>, files: IndexFiles)
    requires Keyed(raw) && Scanned(raw, nodes) && Grouped(nodes, key, group)
    requires key in files <==> IsBacklog(key) || EntriesOf(nodes, key) != {}
    requires key in files ==> files[key] == Kept(key, SortEntries(group))
    ensures FileExact(raw, files, key)
  {
    hide Grouped, EntriesOf, Scanned, Keyed, Members, Listing, SortEntries;
    ScannedMembers(raw, nodes, key);
    SortedGroup(raw, nodes, key, group);
  }

  lemma {:induction false} AssembledExact(raw: RawBodies, nodes: seq<RawNode>, groups: IndexFiles, sorted: IndexFiles,
                       undistilled: seq<RawIndexEntry>, pushedUndistilled: seq<RawIndexEntry>)
    requires Keyed(raw) && Scanned(raw, nodes) && AllGrouped(nodes, groups, undistilled, pushedUndistilled)
    requires IsSorted(groups, sorted)
    ensures IndexesExact(raw, sorted[Backlog := SortEntries(undistilled)][PushedBacklog := SortEntries(pushedUndistilled)])
  {
    hide Grouped, EntriesOf, Scanned, Keyed, SortEntries, FileExact;
    var files := sorted[Backlog := SortEntries(undistilled)][PushedBacklog := SortEntries(pushedUndistilled)];
    forall key: IndexKey
      ensures FileExact(raw, files, key)
    {
      if key == Backlog {
        SortedFile(raw, nodes, key, undistilled, files);
      } else if key == PushedBacklog {
        SortedFile(raw, nodes, key, pushedUndistilled, files);
      } else {
        SortedFile(raw, nodes, key, Read(groups, key), files);
      }
    }
  }

  function RemoveWrite(kind: Kind, id: nat): Write {
    match kind
    case RawKind => RemoveRawEmbedding(id)
    case AbstractKind => RemoveAbstractEmbedding(id)
  }

  lemma SetVectors(d: Disk, kind: Kind)
    ensures WithVectors(d, kind, VectorsOf(d, kind)) == d
  {
  }

  lemma SetVectorsTwice(d: Disk, kind: Kind, a: Vectors, b: Vectors)
    ensures WithVectors(WithVectors(d, kind, a), kind, b) == WithVectors(d, kind, b)
    ensures VectorsOf(WithVectors(d, kind, a), kind) == a
  {
  }

  lemma NothingRemoved(bodies: EmbeddingBodies, evicted: seq<RawIndexEntry>)
    ensures bodies - (set e | e in evicted[..0] :: e.id) == bodies
  {
  }

  lemma RemovedOneMore(bodies: EmbeddingBodies, evicted: seq<RawIndexEntry>, i: nat)
    requires i < |evicted|
    ensures bodies - (set e | e in evicted[..i] :: e.id) - {evicted[i].id} == bodies - (set e | e in evicted[..i + 1] :: e.id)
  {
    assert evicted[..i + 1] == evicted[..i] + [evicted[i]];
    assert (set e | e in evicted[..i + 1] :: e.id) == (set e | e in evicted[..i] :: e.id) + {evicted[i].id};
  }

  lemma RemovalStays(d: Disk, m: Disk, kind: Kind, id: nat)
    requires MidRebuild(d, m) && id !in RebuiltVectors(VectorsOf(d, kind).bodies).bodies
    ensures MidRebuild(d, Perform(m, RemoveWrite(kind, id)))
    ensures Perform(m, RemoveWrite(kind, id)) == WithVectors(m, kind, RemoveBody(VectorsOf(m, kind), id))
  {
    hide RebuiltVectors, RebuiltReceipts;
  }

  lemma ManifestStays(d: Disk, m: Disk, kind: Kind, session: Option<nat>, ids: Manifest)
    requires MidRebuild(d, m)
    ensures MidRebuild(d, Perform(m, ManifestWrite(kind, session, ids)))
    ensures Perform(m, ManifestWrite(kind, session, ids)) == WithVectors(m, kind, PutManifest(VectorsOf(m, kind), session, ids))
  {
    hide RebuiltVectors, RebuiltReceipts;
  }

  /** The sorted group is the shard's listing: its front does not survive, the ids of the rest are
      the new manifest. */
  lemma {:induction false} SortedShard(bodies: EmbeddingBodies, session: Option<nat>, group: seq<RawIndexEntry>)
    requires Distinct(group) && Elements(group) == EmbeddingEntries(bodies, session)
    ensures var sorted := SortEntries(group);
            && sorted == Listing(EmbeddingEntries(bodies, session))
            && (forall e | e in sorted[..Overflow(sorted)] :: e.id !in RebuiltVectors(bodies).bodies)
            && IdsOf(sorted[Overflow(sorted)..]) == NewestIds(bodies, session)
  {
    SortSorted(group);
    ListingUnique(SortEntries(group), EmbeddingEntries(bodies, session));
    ShardSplits(bodies, session);
    assert Evictees(SortEntries(group)) == SortEntries(group)[..Overflow(SortEntries(group))];
  }

  ghost predicate ListsId(files: IndexFiles, keys: set<IndexKey>, id: nat)
    requires keys <= files.Keys
  {
    exists key, e :: key in keys && e in files[key] && e.id == id
  }

  function EntryIds(entries: seq<RawIndexEntry>): set<nat> {
    set e | e in entries :: e.id
  }

  lemma IndexedIsTimeline(d: Disk, keys: set<IndexKey>, indexed: set<nat>)
    requires keys == set key | key in d.files && key.TimelineShard?
    requires forall id :: id in indexed <==> ListsId(d.files, keys, id)
    ensures TimelineCovers(d) <==> forall id | id in d.raw :: id in indexed
  {
    forall id
      ensures id in indexed <==> exists day, e :: TimelineShard(day) in d.files && e in d.files[TimelineShard(day)] && e.id == id
    {
      if key, e :| key in keys && e in d.files[key] && e.id == id {
        assert key == TimelineShard(key.day);
      }
      if day, e :| TimelineShard(day) in d.files && e in d.files[TimelineShard(day)] && e.id == id {
        assert TimelineShard(day) in keys;
      }
    }
  }

  /** `write_manifest_unlocked`: ids already seen are skipped. */
  method WithoutDuplicates(ids: seq<nat>) returns (unique: seq<nat>)
    ensures Distinct(unique) && Elements(unique) == Elements(ids)
    ensures Distinct(ids) ==> unique == ids
  {
    unique := [];
    for i := 0 to |ids|
      invariant Distinct(unique) && Elements(unique) == Elements(ids[..i])
      invariant Distinct(ids) ==> unique == ids[..i]
    {
      assert ids[..i + 1] == ids[..i] + [ids[i]];
      assert Elements(ids[..i + 1]) == Elements(ids[..i]) + {ids[i]};
      assert ids[i] in unique <==> ids[i] in Elements(unique);
      if ids[i] !in unique {
        unique := unique + [ids[i]];
      }
    }
    assert ids[..|ids|] == ids;
  }

  function SessionKeys(node: RawNode): seq<IndexKey> {
    if node.sessionId.Some? then [SessionIndex(node.sessionId.value)] else []
  }

  function LoopKeys(node: RawNode): seq<IndexKey> {
    if node.loopId.Some? then [LoopIndex(node.loopId.value)] else []
  }

  function ScopeKeys(node: RawNode): seq<IndexKey> {
    SessionKeys(node) + LoopKeys(node)
  }

  function RestKeys(node: RawNode): seq<IndexKey> {
    [Backlog, PushedBacklog, TimelineShard(TimelineBucket(node.timestamp))]
  }

  lemma Regroup(a: seq<Write>, b: seq<Write>, c: seq<Write>)
    ensures a + (b + c) == a + b + c
  {
  }

  lemma RegroupThree(a: seq<Write>, b: seq<Write>, c: seq<Write>, d: seq<Write>)
    ensures a + (b + (c + d)) == a + b + c + d
  {
  }

  lemma {:induction false} SyncNone(files: IndexFiles, node: RawNode)
    ensures SyncWrites(files, node, []) == [] && SyncKeys(files, node, []) == files
  {
  }

  lemma {:induction false} SyncOne(files: IndexFiles, node: RawNode, key: IndexKey)
    ensures SyncKeys(files, node, [key]) == SyncFile(files, node, key)
    ensures SyncWrites(files, node, [key]) == FileWrites(files, node, key)
  {
    SyncNone(SyncFile(files, node, key), node);
  }

  lemma {:induction false} SyncSplit(files: IndexFiles, node: RawNode, a: seq<IndexKey>, b: seq<IndexKey>)
    ensures SyncKeys(files, node, a + b) == SyncKeys(SyncKeys(files, node, a), node, b)
    ensures SyncWrites(files, node, a + b) == SyncWrites(files, node, a) + SyncWrites(SyncKeys(files, node, a), node, b)
    decreases |a|
  {
    if a == [] {
      assert a + b == b;
    } else {
      var next := SyncFile(files, node, a[0]);
      assert (a + b)[0] == a[0] && (a + b)[1..] == a[1..] + b;
      SyncSplit(next, node, a[1..], b);
      Regroup(FileWrites(files, node, a[0]), SyncWrites(next, node, a[1..]), SyncWrites(SyncKeys(next, node, a[1..]), node, b));
    }
  }

  lemma {:induction false} TailUnrolled(f2: IndexFiles, node: RawNode)
    ensures var timeline := TimelineShard(TimelineBucket(node.timestamp));
            var f3 := SyncFile(f2, node, Backlog);
            var f4 := SyncFile(f3, node, PushedBacklog);
            && SyncWrites(f2, node, RestKeys(node))
               == FileWrites(f2, node, Backlog) + (FileWrites(f3, node, PushedBacklog) + FileWrites(f4, node, timeline))
            && SyncKeys(f2, node, RestKeys(node)) == SyncFile(f4, node, timeline)
  {
    hide SyncFile, FileWrites, SyncWrites, SyncKeys;
    var timeline := TimelineShard(TimelineBucket(node.timestamp));
    var f3 := SyncFile(f2, node, Backlog);
    SyncSplit(f2, node, [Backlog], [PushedBacklog, timeline]);
    SyncOne(f2, node, Backlog);
    SyncSplit(f3, node, [PushedBacklog], [timeline]);
    SyncOne(f3, node, PushedBacklog);
    SyncOne(SyncFile(f3, node, PushedBacklog), node, timeline);
    assert [Backlog] + [PushedBacklog, timeline] == RestKeys(node);
    assert [PushedBacklog] + [timeline] == [PushedBacklog, timeline];
  }
}
