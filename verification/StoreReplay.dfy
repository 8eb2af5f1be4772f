/** Journaled mutations: what a crash can expose, and where replaying the journal leads.

    Fix the consistent disk `d0` a mutation started from. `Between(d0, mutation, m)` holds of every
    disk that any number of partial applications of the journaled mutation can produce; one complete
    application from any of them ends in `Applied(d0, mutation)`. */
module StoreReplay {
  import opened Domain
  import opened Listings
  import opened RawIndexes
  import opened VectorShards
  import opened StoreModel
  import opened StoreEffects
  import opened StoreInvariants

  // ---------------------------------------------------------------- what callers guarantee

  /** A receipt for this key, if there is one, already names this id. */
  predicate KeyFree(receipts: Receipts, id: nat, key: Option<string>) {
    key.Some? && RECEIPT_DIGEST(key.value) in receipts ==> receipts[RECEIPT_DIGEST(key.value)] == StoredId(id, key.value)
  }

  /** A raw id fixes its timestamp, session, loop and key; an embedding id fixes its session. */
  ghost predicate Admissible(d: Disk, mutation: MutationJournal) {
    match mutation
    case CommitRaw(node, embedding) =>
      && (node.id in d.raw ==> SameIdentity(d.raw[node.id], node))
      && KeyFree(d.rawReceipts, node.id, node.operationKey)
      && SessionStable(d.rawVectors, RawRecord(node, embedding))
    case CommitAbstract(node, embedding) =>
      && (node.id in d.abstracts ==> d.abstracts[node.id].operationKey == node.operationKey)
      && KeyFree(d.abstractReceipts, node.id, node.operationKey)
      && SessionStable(d.abstractVectors, AbstractRecord(node, embedding))
    case UpdateRawLifecycle(_, _) => true
  }

  /** The mutation evicts no embedding. */
  predicate FitsShards(d: Disk, mutation: MutationJournal) {
    match mutation
    case CommitRaw(node, embedding) => FitsShard(d.rawVectors, RawRecord(node, embedding))
    case CommitAbstract(node, embedding) => FitsShard(d.abstractVectors, AbstractRecord(node, embedding))
    case UpdateRawLifecycle(_, _) => true
  }

  // ---------------------------------------------------------------- lifecycle patches on bodies

  lemma PatchIdempotent(node: RawNode, patch: RawLifecyclePatch)
    ensures Patched(Patched(node, patch), patch) == Patched(node, patch)
    ensures SameIdentity(node, Patched(node, patch))
  {
  }

  /** A patch over a list of ids changes each listed body once, however often it is listed. */
  lemma {:induction false} PatchedRawAt(raw: RawBodies, ids: seq<nat>, patch: RawLifecyclePatch)
    requires Keyed(raw)
    ensures var r := PatchedRaw(raw, ids, patch);
            && r.Keys == raw.Keys
            && Evolves(raw, r)
            && forall id | id in raw :: r[id] == if id in ids then Patched(raw[id], patch) else raw[id]
    decreases |ids|
  {
    if ids != [] {
      assert ids == [ids[0]] + ids[1..];
      if ids[0] in raw {
        PatchIdempotent(raw[ids[0]], patch);
        PatchedRawAt(raw[ids[0] := Patched(raw[ids[0]], patch)], ids[1..], patch);
      } else {
        PatchedRawAt(raw, ids[1..], patch);
      }
    }
  }

  /** Bodies part-way through a lifecycle patch: each is still the old one or already the new one. */
  ghost predicate BodiesBetween(raw0: RawBodies, raw1: RawBodies, raw: RawBodies) {
    && raw.Keys == raw0.Keys == raw1.Keys
    && forall id | id in raw :: raw[id] == raw0[id] || raw[id] == raw1[id]
  }

  lemma LifecycleAddsOnly(raw0: RawBodies, raw1: RawBodies, id: nat)
    requires Evolves(raw0, raw1) && raw0.Keys == raw1.Keys && id in raw1
    ensures AddsOnly(raw0, raw1, id)
  {
    forall key: IndexKey | !IsBacklog(key) && Belongs(raw1[id], key)
      ensures Members(raw1, key) == Members(raw0, key) + {EntryOf(raw1[id])}
    {
      ChangedLifecycleOnly(raw0, raw1, key);
      assert EntryOf(raw1[id]) in Members(raw1, key);
    }
  }

  lemma ChangedLifecycleOnly(raw0: RawBodies, raw1: RawBodies, key: IndexKey)
    requires Evolves(raw0, raw1) && raw0.Keys == raw1.Keys && !IsBacklog(key)
    ensures Members(raw0, key) == Members(raw1, key)
  {
    forall x
      ensures x in Members(raw0, key) <==> x in Members(raw1, key)
    {
      if x in Members(raw0, key) {
        MembersFixIds(raw0, key);
        assert SameIdentity(raw0[x.id], raw1[x.id]) && Belongs(raw1[x.id], key);
      }
      if x in Members(raw1, key) {
        MembersFixIds(raw1, key);
        assert SameIdentity(raw0[x.id], raw1[x.id]) && Belongs(raw0[x.id], key);
      }
    }
  }

  // ---------------------------------------------------------------- disks between two points

  ghost predicate Between(d0: Disk, mutation: MutationJournal, m: Disk) {
    match mutation
    case CommitRaw(node, embedding) =>
      var raw1 := d0.raw[node.id := node];
      && (m.raw == d0.raw || m.raw == raw1)
      && (m.rawReceipts == d0.rawReceipts || m.rawReceipts == AddReceipt(d0.rawReceipts, node.id, node.operationKey))
      && FilesBetween(d0.raw, raw1, m.files)
      && VectorImage(d0.rawVectors, RawRecord(node, embedding), m.rawVectors)
      && m == d0.(raw := m.raw, rawReceipts := m.rawReceipts, files := m.files, rawVectors := m.rawVectors, journal := Some(mutation))
    case CommitAbstract(node, embedding) =>
      && (m.abstracts == d0.abstracts || m.abstracts == d0.abstracts[node.id := node])
      && (m.abstractReceipts == d0.abstractReceipts
          || m.abstractReceipts == AddReceipt(d0.abstractReceipts, node.id, node.operationKey))
      && VectorImage(d0.abstractVectors, AbstractRecord(node, embedding), m.abstractVectors)
      && (m.graph == d0.graph || m.graph == d0.graph[node.id := StoredEdgesOf(node)])
      && m == d0.(abstracts := m.abstracts, abstractReceipts := m.abstractReceipts, abstractVectors := m.abstractVectors,
                  graph := m.graph, journal := Some(mutation))
    case UpdateRawLifecycle(ids, patch) =>
      var raw1 := PatchedRaw(d0.raw, ids, patch);
      && BodiesBetween(d0.raw, raw1, m.raw)
      && FilesBetween(d0.raw, raw1, m.files)
      && m == d0.(raw := m.raw, files := m.files, journal := Some(mutation))
  }

  /** Every disk from `m` through all prefixes of `ws` stays between. */
  ghost predicate StaysBetween(d0: Disk, mutation: MutationJournal, m: Disk, ws: seq<Write>)
    decreases |ws|
  {
    && Between(d0, mutation, m)
    && (ws != [] ==> StaysBetween(d0, mutation, Perform(m, ws[0]), ws[1..]))
  }

  lemma {:induction false} StaysConcat(d0: Disk, mutation: MutationJournal, m: Disk, a: seq<Write>, b: seq<Write>)
    requires StaysBetween(d0, mutation, m, a) && StaysBetween(d0, mutation, Run(m, a), b)
    ensures StaysBetween(d0, mutation, m, a + b)
    decreases |a|
  {
    if a == [] {
      assert a + b == b;
    } else {
      assert (a + b)[1..] == a[1..] + b;
      StaysConcat(d0, mutation, Perform(m, a[0]), a[1..], b);
    }
  }

  lemma {:induction false} StaysAt(d0: Disk, mutation: MutationJournal, m: Disk, ws: seq<Write>, n: nat)
    requires StaysBetween(d0, mutation, m, ws) && n <= |ws|
    ensures Between(d0, mutation, Run(m, ws[..n]))
    decreases n
  {
    if n > 0 {
      assert ws[..n][1..] == ws[1..][..n - 1];
      StaysAt(d0, mutation, Perform(m, ws[0]), ws[1..], n - 1);
    }
  }

  /** The writes `ws` lead from `m` to `m2`, between the two points all the way. */
  ghost predicate Reaches(d0: Disk, mutation: MutationJournal, m: Disk, ws: seq<Write>, m2: Disk) {
    Between(d0, mutation, m2) && StaysBetween(d0, mutation, m, ws) && Run(m, ws) == m2
  }

  lemma ReachNone(d0: Disk, mutation: MutationJournal, m: Disk)
    requires Between(d0, mutation, m)
    ensures Reaches(d0, mutation, m, [], m)
  {
  }

  lemma ReachOne(d0: Disk, mutation: MutationJournal, m: Disk, w: Write)
    requires Between(d0, mutation, m) && Between(d0, mutation, Perform(m, w))
    ensures Reaches(d0, mutation, m, [w], Perform(m, w))
  {
    assert StaysBetween(d0, mutation, Perform(m, w), []);
    RunOne(m, w);
  }

  lemma Chain(d0: Disk, mutation: MutationJournal, m: Disk, a: seq<Write>, m2: Disk, b: seq<Write>, m3: Disk)
    requires Reaches(d0, mutation, m, a, m2) && Reaches(d0, mutation, m2, b, m3)
    ensures Reaches(d0, mutation, m, a + b, m3)
  {
    StaysConcat(d0, mutation, m, a, b);
    RunConcat(m, a, b);
  }

  // ---------------------------------------------------------------- one partial application

  /** The mutation's target bodies, and the nodes whose index entries it writes. */
  ghost function TargetRaw(d0: Disk, mutation: MutationJournal): RawBodies {
    match mutation
    case CommitRaw(node, _) => d0.raw[node.id := node]
    case CommitAbstract(_, _) => d0.raw
    case UpdateRawLifecycle(ids, patch) => PatchedRaw(d0.raw, ids, patch)
  }

  ghost predicate Syncs(d0: Disk, mutation: MutationJournal, id: nat) {
    && !mutation.CommitAbstract?
    && Evolves(d0.raw, TargetRaw(d0, mutation))
    && id in TargetRaw(d0, mutation)
    && AddsOnly(d0.raw, TargetRaw(d0, mutation), id)
  }

  lemma {:induction false} SyncStays(d0: Disk, mutation: MutationJournal, m: Disk, id: nat, keys: seq<IndexKey>)
    requires Syncs(d0, mutation, id) && Between(d0, mutation, m)
    requires forall key | key in keys :: IsBacklog(key) || Belongs(TargetRaw(d0, mutation)[id], key)
    ensures var node := TargetRaw(d0, mutation)[id];
            Reaches(d0, mutation, m, SyncWrites(m.files, node, keys), m.(files := SyncKeys(m.files, node, keys)))
    decreases |keys|
  {
    if keys == [] {
      ReachNone(d0, mutation, m);
    } else {
      var node := TargetRaw(d0, mutation)[id];
      var next := m.(files := SyncFile(m.files, node, keys[0]));
      FileStays(d0, mutation, m, id, keys[0]);
      SyncStays(d0, mutation, next, id, keys[1..]);
      Chain(d0, mutation, m, FileWrites(m.files, node, keys[0]), next,
            SyncWrites(next.files, node, keys[1..]), m.(files := SyncKeys(m.files, node, keys)));
    }
  }

  lemma {:induction false} FileStays(d0: Disk, mutation: MutationJournal, m: Disk, id: nat, key: IndexKey)
    requires Syncs(d0, mutation, id) && Between(d0, mutation, m)
    requires IsBacklog(key) || Belongs(TargetRaw(d0, mutation)[id], key)
    ensures var node := TargetRaw(d0, mutation)[id];
            Reaches(d0, mutation, m, FileWrites(m.files, node, key), m.(files := SyncFile(m.files, node, key)))
  {
    var node := TargetRaw(d0, mutation)[id];
    var next := m.(files := SyncFile(m.files, node, key));
    SyncStep(d0.raw, TargetRaw(d0, mutation), m.files, id, key);
    assert Between(d0, mutation, next);
    var ws := FileWrites(m.files, node, key);
    RunFile(m, node, key);
    if ws == [] {
      ReachNone(d0, mutation, m);
    } else {
      assert ws == [ws[0]];
      RunOne(m, ws[0]);
      ReachOne(d0, mutation, m, ws[0]);
    }
  }

  // ---------------------------------------------------------------- embedding writes

  /** The new manifest is in place; some evicted bodies may remain. */
  ghost predicate ManifestDone(v0: Vectors, record: StoredEmbedding, v: Vectors) {
    var v1 := IndexEmbedding(v0, record);
    v.shards == v1.shards && Within(v1.bodies, v.bodies) && Within(v.bodies, v0.bodies[record.id := record])
  }

  lemma BodyStep(v0: Vectors, record: StoredEmbedding, v: Vectors)
    requires VectorsExact(v0) && VectorImage(v0, record, v)
    ensures VectorImage(v0, record, PutBody(v, record))
    ensures PutBody(v, record) == v0.(bodies := v0.bodies[record.id := record]) || PutBody(v, record) == v
  {
    if v != v0 && v != v0.(bodies := v0.bodies[record.id := record]) {
      IndexedPresent(v0, record);
      assert v.bodies[record.id := record] == v.bodies;
    } else {
      assert v.bodies[record.id := record] == v0.bodies[record.id := record];
    }
  }

  lemma ManifestStep(v0: Vectors, record: StoredEmbedding, v: Vectors)
    requires VectorsExact(v0)
    requires v == v0.(bodies := v0.bodies[record.id := record]) || ManifestDone(v0, record, v)
    ensures var ids := ReadManifest(v.shards, record.sessionId);
            && ManifestDone(v0, record, PutManifest(v, record.sessionId, KeptIds(ids, record.id)))
            && (EvictedIds(ids, record.id) == []
                || EvictedIds(ids, record.id) == EvictedIds(ReadManifest(v0.shards, record.sessionId), record.id))
  {
    if v != v0.(bodies := v0.bodies[record.id := record]) {
      ManifestAgain(v0, record, v);
    }
  }

  lemma ManifestAgain(v0: Vectors, record: StoredEmbedding, v: Vectors)
    requires VectorsExact(v0) && ManifestDone(v0, record, v)
    ensures var ids := ReadManifest(v.shards, record.sessionId);
            PutManifest(v, record.sessionId, KeptIds(ids, record.id)) == v && EvictedIds(ids, record.id) == []
  {
    assert ShardExact(v0, record.sessionId);
    ShardsAgain(v0.shards, record.sessionId, record.id);
  }

  lemma ShardsAgain(shards: Manifests, session: Option<nat>, id: nat)
    requires |ReadManifest(shards, session)| <= MAX_VECTOR_SHARD_ENTRIES
    ensures var once := shards[session := KeptIds(ReadManifest(shards, session), id)];
            var ids := ReadManifest(once, session);
            once[session := KeptIds(ids, id)] == once && EvictedIds(ids, id) == []
  {
    hide KeptIds, EvictedIds;
    PushAgain(ReadManifest(shards, session), id);
  }

  lemma RemoveStep(v0: Vectors, record: StoredEmbedding, v: Vectors, id: nat)
    requires ManifestDone(v0, record, v)
    requires id in EvictedIds(ReadManifest(v0.shards, record.sessionId), record.id)
    ensures ManifestDone(v0, record, RemoveBody(v, id))
  {
    assert id !in IndexEmbedding(v0, record).bodies;
  }

  lemma {:induction false} RemovalsStayRaw(d0: Disk, node: RawNode, embedding: seq<real>, m: Disk, ids: seq<nat>)
    requires VectorsExact(d0.rawVectors) && Between(d0, CommitRaw(node, embedding), m)
    requires ManifestDone(d0.rawVectors, RawRecord(node, embedding), m.rawVectors)
    requires forall id | id in ids :: id in EvictedIds(ReadManifest(d0.rawVectors.shards, node.sessionId), node.id)
    ensures Reaches(d0, CommitRaw(node, embedding), m, RemoveRawWrites(ids), Run(m, RemoveRawWrites(ids)))
    decreases |ids|
  {
    var mutation := CommitRaw(node, embedding);
    if ids == [] {
      ReachNone(d0, mutation, m);
    } else {
      var w, rest := RemoveRawEmbedding(ids[0]), RemoveRawWrites(ids[1..]);
      var next := Perform(m, w);
      RemoveStep(d0.rawVectors, RawRecord(node, embedding), m.rawVectors, ids[0]);
      RemovalsStayRaw(d0, node, embedding, next, ids[1..]);
      ReachOne(d0, mutation, m, w);
      Chain(d0, mutation, m, [w], next, rest, Run(next, rest));
    }
  }

  lemma BodyStaysRaw(d0: Disk, node: RawNode, embedding: seq<real>, m: Disk)
    requires VectorsExact(d0.rawVectors) && Between(d0, CommitRaw(node, embedding), m)
    ensures var record := RawRecord(node, embedding);
            && Reaches(d0, CommitRaw(node, embedding), m, [PutRawEmbedding(record)], Perform(m, PutRawEmbedding(record)))
            && (PutBody(m.rawVectors, record) == d0.rawVectors.(bodies := d0.rawVectors.bodies[record.id := record])
                || ManifestDone(d0.rawVectors, record, PutBody(m.rawVectors, record)))
  {
    var record := RawRecord(node, embedding);
    BodyStep(d0.rawVectors, record, m.rawVectors);
    ReachOne(d0, CommitRaw(node, embedding), m, PutRawEmbedding(record));
  }

  lemma ManifestStaysRaw(d0: Disk, node: RawNode, embedding: seq<real>, m: Disk)
    requires VectorsExact(d0.rawVectors) && Between(d0, CommitRaw(node, embedding), m)
    requires var record := RawRecord(node, embedding);
             m.rawVectors == d0.rawVectors.(bodies := d0.rawVectors.bodies[record.id := record]) || ManifestDone(d0.rawVectors, record, m.rawVectors)
    ensures var ids := ReadManifest(m.rawVectors.shards, node.sessionId);
            var put := PutRawManifest(node.sessionId, KeptIds(ids, node.id));
            && Reaches(d0, CommitRaw(node, embedding), m, [put], Perform(m, put))
            && Reaches(d0, CommitRaw(node, embedding), Perform(m, put), RemoveRawWrites(EvictedIds(ids, node.id)),
                       Run(Perform(m, put), RemoveRawWrites(EvictedIds(ids, node.id))))
  {
    var record := RawRecord(node, embedding);
    var ids := ReadManifest(m.rawVectors.shards, node.sessionId);
    var put := PutRawManifest(node.sessionId, KeptIds(ids, node.id));
    ManifestStep(d0.rawVectors, record, m.rawVectors);
    ReachOne(d0, CommitRaw(node, embedding), m, put);
    RemovalsStayRaw(d0, node, embedding, Perform(m, put), EvictedIds(ids, node.id));
  }

  lemma IndexStaysRaw(d0: Disk, node: RawNode, embedding: seq<real>, m: Disk)
    requires VectorsExact(d0.rawVectors) && Between(d0, CommitRaw(node, embedding), m)
    ensures var record := RawRecord(node, embedding);
            Reaches(d0, CommitRaw(node, embedding), m, IndexRawWrites(m.rawVectors, record),
                    m.(rawVectors := IndexEmbedding(m.rawVectors, record)))
  {
    var record, mutation := RawRecord(node, embedding), CommitRaw(node, embedding);
    var ids := ReadManifest(m.rawVectors.shards, node.sessionId);
    var put, put2 := PutRawEmbedding(record), PutRawManifest(node.sessionId, KeptIds(ids, node.id));
    BodyStaysRaw(d0, node, embedding, m);
    var m1 := Perform(m, put);
    ManifestStaysRaw(d0, node, embedding, m1);
    var m2 := Perform(m1, put2);
    var removals := RemoveRawWrites(EvictedIds(ids, node.id));
    Chain(d0, mutation, m, [put], m1, [put2], m2);
    Chain(d0, mutation, m, [put] + [put2], m2, removals, Run(m2, removals));
    RunIndexRaw(m, record);
    assert [put] + [put2] == [put, put2];
  }

  lemma {:induction false} RemovalsStayAbstract(d0: Disk, node: AbstractNode, embedding: seq<real>, m: Disk, ids: seq<nat>)
    requires VectorsExact(d0.abstractVectors) && Between(d0, CommitAbstract(node, embedding), m)
    requires ManifestDone(d0.abstractVectors, AbstractRecord(node, embedding), m.abstractVectors)
    requires forall id | id in ids :: id in EvictedIds(ReadManifest(d0.abstractVectors.shards, node.sessionId), node.id)
    ensures Reaches(d0, CommitAbstract(node, embedding), m, RemoveAbstractWrites(ids), Run(m, RemoveAbstractWrites(ids)))
    decreases |ids|
  {
    var mutation := CommitAbstract(node, embedding);
    if ids == [] {
      ReachNone(d0, mutation, m);
    } else {
      var w, rest := RemoveAbstractEmbedding(ids[0]), RemoveAbstractWrites(ids[1..]);
      var next := Perform(m, w);
      RemoveStep(d0.abstractVectors, AbstractRecord(node, embedding), m.abstractVectors, ids[0]);
      RemovalsStayAbstract(d0, node, embedding, next, ids[1..]);
      ReachOne(d0, mutation, m, w);
      Chain(d0, mutation, m, [w], next, rest, Run(next, rest));
    }
  }

  lemma BodyStaysAbstract(d0: Disk, node: AbstractNode, embedding: seq<real>, m: Disk)
    requires VectorsExact(d0.abstractVectors) && Between(d0, CommitAbstract(node, embedding), m)
    ensures var record := AbstractRecord(node, embedding);
            && Reaches(d0, CommitAbstract(node, embedding), m, [PutAbstractEmbedding(record)], Perform(m, PutAbstractEmbedding(record)))
            && (PutBody(m.abstractVectors, record) == d0.abstractVectors.(bodies := d0.abstractVectors.bodies[record.id := record])
                || ManifestDone(d0.abstractVectors, record, PutBody(m.abstractVectors, record)))
  {
    var record := AbstractRecord(node, embedding);
    BodyStep(d0.abstractVectors, record, m.abstractVectors);
    ReachOne(d0, CommitAbstract(node, embedding), m, PutAbstractEmbedding(record));
  }

  lemma ManifestStaysAbstract(d0: Disk, node: AbstractNode, embedding: seq<real>, m: Disk)
    requires VectorsExact(d0.abstractVectors) && Between(d0, CommitAbstract(node, embedding), m)
    requires var record := AbstractRecord(node, embedding);
             m.abstractVectors == d0.abstractVectors.(bodies := d0.abstractVectors.bodies[record.id := record]) || ManifestDone(d0.abstractVectors, record, m.abstractVectors)
    ensures var ids := ReadManifest(m.abstractVectors.shards, node.sessionId);
            var put := PutAbstractManifest(node.sessionId, KeptIds(ids, node.id));
            && Reaches(d0, CommitAbstract(node, embedding), m, [put], Perform(m, put))
            && Reaches(d0, CommitAbstract(node, embedding), Perform(m, put), RemoveAbstractWrites(EvictedIds(ids, node.id)),
                       Run(Perform(m, put), RemoveAbstractWrites(EvictedIds(ids, node.id))))
  {
    var record := AbstractRecord(node, embedding);
    var ids := ReadManifest(m.abstractVectors.shards, node.sessionId);
    var put := PutAbstractManifest(node.sessionId, KeptIds(ids, node.id));
    ManifestStep(d0.abstractVectors, record, m.abstractVectors);
    ReachOne(d0, CommitAbstract(node, embedding), m, put);
    RemovalsStayAbstract(d0, node, embedding, Perform(m, put), EvictedIds(ids, node.id));
  }

  lemma IndexStaysAbstract(d0: Disk, node: AbstractNode, embedding: seq<real>, m: Disk)
    requires VectorsExact(d0.abstractVectors) && Between(d0, CommitAbstract(node, embedding), m)
    ensures var record := AbstractRecord(node, embedding);
            Reaches(d0, CommitAbstract(node, embedding), m, IndexAbstractWrites(m.abstractVectors, record),
                    m.(abstractVectors := IndexEmbedding(m.abstractVectors, record)))
  {
    var record, mutation := AbstractRecord(node, embedding), CommitAbstract(node, embedding);
    var ids := ReadManifest(m.abstractVectors.shards, node.sessionId);
    var put, put2 := PutAbstractEmbedding(record), PutAbstractManifest(node.sessionId, KeptIds(ids, node.id));
    BodyStaysAbstract(d0, node, embedding, m);
    var m1 := Perform(m, put);
    ManifestStaysAbstract(d0, node, embedding, m1);
    var m2 := Perform(m1, put2);
    var removals := RemoveAbstractWrites(EvictedIds(ids, node.id));
    Chain(d0, mutation, m, [put], m1, [put2], m2);
    Chain(d0, mutation, m, [put] + [put2], m2, removals, Run(m2, removals));
    RunIndexAbstract(m, record);
    assert [put] + [put2] == [put, put2];
  }

  // ---------------------------------------------------------------- whole applications

  lemma ReceiptStaysRaw(d0: Disk, node: RawNode, embedding: seq<real>, m: Disk)
    requires Between(d0, CommitRaw(node, embedding), m)
    ensures Reaches(d0, CommitRaw(node, embedding), m, RawReceiptWrites(node),
                    m.(rawReceipts := AddReceipt(m.rawReceipts, node.id, node.operationKey)))
  {
    var next := m.(rawReceipts := AddReceipt(m.rawReceipts, node.id, node.operationKey));
    assert next.rawReceipts == AddReceipt(d0.rawReceipts, node.id, node.operationKey);
    assert Between(d0, CommitRaw(node, embedding), next);
    if node.operationKey.Some? {
      ReachOne(d0, CommitRaw(node, embedding), m, RawReceiptWrites(node)[0]);
    } else {
      ReachNone(d0, CommitRaw(node, embedding), m);
    }
  }

  lemma ReceiptStaysAbstract(d0: Disk, node: AbstractNode, embedding: seq<real>, m: Disk)
    requires Between(d0, CommitAbstract(node, embedding), m)
    ensures Reaches(d0, CommitAbstract(node, embedding), m, AbstractReceiptWrites(node),
                    m.(abstractReceipts := AddReceipt(m.abstractReceipts, node.id, node.operationKey)))
  {
    var next := m.(abstractReceipts := AddReceipt(m.abstractReceipts, node.id, node.operationKey));
    assert next.abstractReceipts == AddReceipt(d0.abstractReceipts, node.id, node.operationKey);
    assert Between(d0, CommitAbstract(node, embedding), next);
    if node.operationKey.Some? {
      ReachOne(d0, CommitAbstract(node, embedding), m, AbstractReceiptWrites(node)[0]);
    } else {
      ReachNone(d0, CommitAbstract(node, embedding), m);
    }
  }

  lemma {:induction false} IndexFilesStay(d0: Disk, node: RawNode, embedding: seq<real>, m: Disk)
    requires Consistent(d0) && Admissible(d0, CommitRaw(node, embedding)) && Between(d0, CommitRaw(node, embedding), m)
    ensures Reaches(d0, CommitRaw(node, embedding), m, SyncWrites(m.files, node, KeysOf(node)), m.(files := Sync(m.files, node)))
  {
    OneNodeAddsOnly(d0.raw, node);
    assert TargetRaw(d0, CommitRaw(node, embedding))[node.id] == node;
    SyncStays(d0, CommitRaw(node, embedding), m, node.id, KeysOf(node));
  }

  lemma FrontStaysRaw(d0: Disk, node: RawNode, embedding: seq<real>, m: Disk)
    requires Consistent(d0) && Admissible(d0, CommitRaw(node, embedding)) && Between(d0, CommitRaw(node, embedding), m)
    ensures Reaches(d0, CommitRaw(node, embedding), m, BodyAndIndexWrites(m, node), BodyAndIndexes(m, node))
  {
    var mutation := CommitRaw(node, embedding);
    var m1 := Perform(m, PutRaw(node));
    assert m1.raw == d0.raw[node.id := node];
    ReachOne(d0, mutation, m, PutRaw(node));
    ReceiptStaysRaw(d0, node, embedding, m1);
    var m2 := m1.(rawReceipts := AddReceipt(m1.rawReceipts, node.id, node.operationKey));
    Chain(d0, mutation, m, [PutRaw(node)], m1, RawReceiptWrites(node), m2);
    IndexFilesStay(d0, node, embedding, m2);
    Chain(d0, mutation, m, [PutRaw(node)] + RawReceiptWrites(node), m2,
          SyncWrites(m.files, node, KeysOf(node)), BodyAndIndexes(m, node));
  }

  lemma TouchStays(d0: Disk, mutation: MutationJournal, m: Disk)
    requires d0.metadata && Between(d0, mutation, m)
    ensures Reaches(d0, mutation, m, [TouchMetadata], m)
  {
    assert Perform(m, TouchMetadata) == m;
    ReachOne(d0, mutation, m, TouchMetadata);
  }

  lemma RawCommitStays(d0: Disk, node: RawNode, embedding: seq<real>, m: Disk)
    requires Consistent(d0) && Admissible(d0, CommitRaw(node, embedding)) && Between(d0, CommitRaw(node, embedding), m)
    ensures Reaches(d0, CommitRaw(node, embedding), m, RawCommitWrites(m, node, embedding), RawCommitted(m, node, embedding))
  {
    var mutation, record := CommitRaw(node, embedding), RawRecord(node, embedding);
    FrontStaysRaw(d0, node, embedding, m);
    var m1 := BodyAndIndexes(m, node);
    IndexStaysRaw(d0, node, embedding, m1);
    var m2 := m1.(rawVectors := IndexEmbedding(m.rawVectors, record));
    var index := IndexRawWrites(m.rawVectors, record);
    Chain(d0, mutation, m, BodyAndIndexWrites(m, node), m1, index, m2);
    TouchStays(d0, mutation, m2);
    Chain(d0, mutation, m, BodyAndIndexWrites(m, node) + index, m2, [TouchMetadata], m2);
  }

  lemma AbstractFrontStays(d0: Disk, node: AbstractNode, embedding: seq<real>, m: Disk)
    requires Consistent(d0) && Between(d0, CommitAbstract(node, embedding), m)
    ensures Reaches(d0, CommitAbstract(node, embedding), m, [PutAbstract(node)] + AbstractReceiptWrites(node),
                    m.(abstracts := m.abstracts[node.id := node],
                       abstractReceipts := AddReceipt(m.abstractReceipts, node.id, node.operationKey)))
  {
    var mutation := CommitAbstract(node, embedding);
    var m1 := Perform(m, PutAbstract(node));
    assert m1.abstracts == d0.abstracts[node.id := node];
    ReachOne(d0, mutation, m, PutAbstract(node));
    ReceiptStaysAbstract(d0, node, embedding, m1);
    var m2 := m1.(abstractReceipts := AddReceipt(m1.abstractReceipts, node.id, node.operationKey));
    Chain(d0, mutation, m, [PutAbstract(node)], m1, AbstractReceiptWrites(node), m2);
  }

  lemma GraphStays(d0: Disk, node: AbstractNode, embedding: seq<real>, m: Disk)
    requires Consistent(d0) && Between(d0, CommitAbstract(node, embedding), m)
    ensures Reaches(d0, CommitAbstract(node, embedding), m, [PutGraph(StoredEdgesOf(node)), TouchMetadata],
                    m.(graph := m.graph[node.id := StoredEdgesOf(node)]))
  {
    var mutation, put := CommitAbstract(node, embedding), PutGraph(StoredEdgesOf(node));
    var m1 := Perform(m, put);
    assert m1.graph == d0.graph[node.id := StoredEdgesOf(node)];
    ReachOne(d0, mutation, m, put);
    TouchStays(d0, mutation, m1);
    Chain(d0, mutation, m, [put], m1, [TouchMetadata], m1);
    assert [put] + [TouchMetadata] == [put, TouchMetadata];
  }

  lemma AbstractCommitStays(d0: Disk, node: AbstractNode, embedding: seq<real>, m: Disk)
    requires Consistent(d0) && Between(d0, CommitAbstract(node, embedding), m)
    ensures Reaches(d0, CommitAbstract(node, embedding), m, AbstractCommitWrites(m, node, embedding),
                    AbstractCommitted(m, node, embedding))
  {
    var mutation, record := CommitAbstract(node, embedding), AbstractRecord(node, embedding);
    AbstractFrontStays(d0, node, embedding, m);
    var front := [PutAbstract(node)] + AbstractReceiptWrites(node);
    var m1 := m.(abstracts := m.abstracts[node.id := node],
                 abstractReceipts := AddReceipt(m.abstractReceipts, node.id, node.operationKey));
    IndexStaysAbstract(d0, node, embedding, m1);
    var m2 := m1.(abstractVectors := IndexEmbedding(m.abstractVectors, record));
    var index := IndexAbstractWrites(m.abstractVectors, record);
    Chain(d0, mutation, m, front, m1, index, m2);
    GraphStays(d0, node, embedding, m2);
    var m3 := m2.(graph := m.graph[node.id := StoredEdgesOf(node)]);
    Chain(d0, mutation, m, front + index, m2, [PutGraph(StoredEdgesOf(node)), TouchMetadata], m3);
    assert m3 == m3.(metadata := true);
  }

  lemma {:induction false} PatchTarget(d0: Disk, ids: seq<nat>, patch: RawLifecyclePatch, m: Disk, id: nat)
    requires Consistent(d0) && Between(d0, UpdateRawLifecycle(ids, patch), m)
    requires id in ids && id in m.raw
    ensures var raw1 := PatchedRaw(d0.raw, ids, patch);
            && id in raw1 && Patched(m.raw[id], patch) == raw1[id] && raw1[id].id == id
            && Syncs(d0, UpdateRawLifecycle(ids, patch), id)
            && Between(d0, UpdateRawLifecycle(ids, patch), m.(raw := m.raw[id := raw1[id]]))
  {
    PatchedRawAt(d0.raw, ids, patch);
    PatchIdempotent(d0.raw[id], patch);
    LifecycleAddsOnly(d0.raw, PatchedRaw(d0.raw, ids, patch), id);
  }

  /** One listed node of a lifecycle patch: its body and its index entries become final. */
  lemma {:induction false} PatchOneStays(d0: Disk, ids: seq<nat>, patch: RawLifecyclePatch, m: Disk, id: nat)
    requires Consistent(d0) && Between(d0, UpdateRawLifecycle(ids, patch), m)
    requires id in ids && id in m.raw
    ensures var mutation, node := UpdateRawLifecycle(ids, patch), Patched(m.raw[id], patch);
            var raw1 := PatchedRaw(d0.raw, ids, patch);
            && id in raw1 && node == raw1[id]
            && Reaches(d0, mutation, m, PatchOneWrites(m.files, node), m.(raw := m.raw[id := node], files := Sync(m.files, node)))
            && Settled(raw1, Sync(m.files, node), id)
            && (forall i | i in raw1 && Settled(raw1, m.files, i) :: Settled(raw1, Sync(m.files, node), i))
  {
    var mutation := UpdateRawLifecycle(ids, patch);
    PatchTarget(d0, ids, patch, m, id);
    var node := Patched(m.raw[id], patch);
    var m1 := Perform(m, PutRaw(node));
    ReachOne(d0, mutation, m, PutRaw(node));
    SyncStays(d0, mutation, m1, id, KeysOf(node));
    Chain(d0, mutation, m, [PutRaw(node)], m1, SyncWrites(m.files, node, KeysOf(node)), m1.(files := Sync(m.files, node)));
    SyncSettles(d0.raw, TargetRaw(d0, mutation), m.files, id);
  }

  /** Processing a tail of the id list: everything it lists becomes final, nothing else moves. */
  lemma {:induction false} PatchesStay(d0: Disk, ids: seq<nat>, patch: RawLifecyclePatch, m: Disk, tail: seq<nat>)
    requires Consistent(d0) && Between(d0, UpdateRawLifecycle(ids, patch), m)
    requires forall id | id in tail :: id in ids
    ensures Reaches(d0, UpdateRawLifecycle(ids, patch), m, PatchWrites(m.raw, m.files, tail, patch),
                    m.(raw := PatchedRaw(m.raw, tail, patch), files := PatchedFiles(m.raw, m.files, tail, patch)))
    decreases |tail|
  {
    hide Reaches, Between, Consistent, Sync, Patched, PatchOneWrites, Settled;
    var mutation := UpdateRawLifecycle(ids, patch);
    var m2 := m.(raw := PatchedRaw(m.raw, tail, patch), files := PatchedFiles(m.raw, m.files, tail, patch));
    PatchedKeys(d0, ids, patch, m);
    if tail == [] {
      ReachNone(d0, mutation, m);
      assert m2 == m;
    } else if tail[0] in m.raw {
      var node := Patched(m.raw[tail[0]], patch);
      PatchOneStays(d0, ids, patch, m, tail[0]);
      var next := m.(raw := m.raw[tail[0] := node], files := Sync(m.files, node));
      ReachesBetween(d0, mutation, m, PatchOneWrites(m.files, node), next);
      PatchesStay(d0, ids, patch, next, tail[1..]);
      Chain(d0, mutation, m, PatchOneWrites(m.files, node), next, PatchWrites(next.raw, next.files, tail[1..], patch), m2);
    } else {
      PatchesStay(d0, ids, patch, m, tail[1..]);
    }
  }

  /** The patched nodes are settled, and settled nodes stay so. */
  lemma {:induction false} PatchesSettle(d0: Disk, ids: seq<nat>, patch: RawLifecyclePatch, m: Disk, tail: seq<nat>)
    requires Consistent(d0) && Between(d0, UpdateRawLifecycle(ids, patch), m)
    requires forall id | id in tail :: id in ids
    ensures var raw1, files := PatchedRaw(d0.raw, ids, patch), PatchedFiles(m.raw, m.files, tail, patch);
            && (forall id | id in tail && id in raw1 :: Settled(raw1, files, id))
            && (forall id | id in raw1 && Settled(raw1, m.files, id) :: Settled(raw1, files, id))
    decreases |tail|
  {
    hide Reaches, Between, Consistent, Sync, Patched, PatchOneWrites, Settled;
    var mutation := UpdateRawLifecycle(ids, patch);
    PatchedKeys(d0, ids, patch, m);
    if tail != [] {
      assert tail == [tail[0]] + tail[1..];
      if tail[0] in m.raw {
        var node := Patched(m.raw[tail[0]], patch);
        PatchOneStays(d0, ids, patch, m, tail[0]);
        var next := m.(raw := m.raw[tail[0] := node], files := Sync(m.files, node));
        ReachesBetween(d0, mutation, m, PatchOneWrites(m.files, node), next);
        PatchesSettle(d0, ids, patch, next, tail[1..]);
      } else {
        PatchesSettle(d0, ids, patch, m, tail[1..]);
      }
    }
  }

  lemma ReachesBetween(d0: Disk, mutation: MutationJournal, m: Disk, ws: seq<Write>, m2: Disk)
    requires Reaches(d0, mutation, m, ws, m2)
    ensures Between(d0, mutation, m2)
  {
  }

  lemma {:induction false} PatchedKeys(d0: Disk, ids: seq<nat>, patch: RawLifecyclePatch, m: Disk)
    requires Consistent(d0) && Between(d0, UpdateRawLifecycle(ids, patch), m)
    ensures PatchedRaw(d0.raw, ids, patch).Keys == d0.raw.Keys == m.raw.Keys
    ensures forall id | id in m.raw :: m.raw[id].id == id && Patched(m.raw[id], patch).id == id
  {
    PatchedRawAt(d0.raw, ids, patch);
  }

  lemma {:induction false} LifecycleStays(d0: Disk, ids: seq<nat>, patch: RawLifecyclePatch, m: Disk)
    requires Consistent(d0) && Between(d0, UpdateRawLifecycle(ids, patch), m)
    ensures Reaches(d0, UpdateRawLifecycle(ids, patch), m, LifecycleWrites(m, ids, patch), LifecyclePatched(m, ids, patch))
  {
    var mutation := UpdateRawLifecycle(ids, patch);
    PatchesStay(d0, ids, patch, m, ids);
    var ws := PatchWrites(m.raw, m.files, ids, patch);
    var m2 := m.(raw := PatchedRaw(m.raw, ids, patch), files := PatchedFiles(m.raw, m.files, ids, patch));
    assert m2 == LifecyclePatched(m, ids, patch);
    if exists id | id in ids :: id in m.raw {
      TouchStays(d0, mutation, m2);
      Chain(d0, mutation, m, ws, m2, [TouchMetadata], m2);
    } else {
      ReachNone(d0, mutation, m2);
      Chain(d0, mutation, m, ws, m2, [], m2);
    }
  }

  /** Every disk a partial application passes through is between the two points, from any disk
      between them. */
  lemma ApplicationStays(d0: Disk, mutation: MutationJournal, m: Disk)
    requires Consistent(d0) && Admissible(d0, mutation) && Between(d0, mutation, m)
    ensures Reaches(d0, mutation, m, ApplyWrites(m, mutation), Applied(m, mutation))
  {
    match mutation
    case CommitRaw(node, embedding) => RawCommitStays(d0, node, embedding, m);
    case CommitAbstract(node, embedding) => AbstractCommitStays(d0, node, embedding, m);
    case UpdateRawLifecycle(ids, patch) => LifecycleStays(d0, ids, patch, m);
  }

  // ---------------------------------------------------------------- convergence

  /** The mutation's index files, once applied in full from anywhere between, are exactly those of
      the target bodies. */
  lemma AppliedFilesExact(d0: Disk, mutation: MutationJournal, m: Disk)
    requires Consistent(d0) && Admissible(d0, mutation) && Between(d0, mutation, m)
    ensures Applied(m, mutation).raw == TargetRaw(d0, mutation)
    ensures IndexesExact(TargetRaw(d0, mutation), Applied(m, mutation).files)
  {
    hide Settled, IndexesExact, FilesBetween, VectorImage, IndexEmbedding, PatchedRaw, PatchedFiles, Sync;
    var raw1 := TargetRaw(d0, mutation);
    match mutation
    case CommitRaw(node, embedding) =>
      OneNodeAddsOnly(d0.raw, node);
      SyncSettles(d0.raw, raw1, m.files, node.id);
      SettledIsExact(d0.raw, raw1, Sync(m.files, node));
    case CommitAbstract(_, _) =>
    case UpdateRawLifecycle(ids, patch) =>
      LifecycleFilesExact(d0, ids, patch, m);
  }

  lemma {:induction false} LifecycleFilesExact(d0: Disk, ids: seq<nat>, patch: RawLifecyclePatch, m: Disk)
    requires Consistent(d0) && Between(d0, UpdateRawLifecycle(ids, patch), m)
    ensures PatchedRaw(m.raw, ids, patch) == PatchedRaw(d0.raw, ids, patch)
    ensures IndexesExact(PatchedRaw(d0.raw, ids, patch), PatchedFiles(m.raw, m.files, ids, patch))
  {
    var raw1 := PatchedRaw(d0.raw, ids, patch);
    PatchedRawAt(d0.raw, ids, patch);
    PatchesStay(d0, ids, patch, m, ids);
    PatchesSettle(d0, ids, patch, m, ids);
    var files := PatchedFiles(m.raw, m.files, ids, patch);
    assert FilesBetween(d0.raw, raw1, files);
    SettledIsExact(d0.raw, raw1, files);
    assert Keyed(m.raw);
    PatchedRawAt(m.raw, ids, patch);
    forall id | id in m.raw
      ensures PatchedRaw(m.raw, ids, patch)[id] == raw1[id]
    {
      PatchIdempotent(d0.raw[id], patch);
    }
  }

  /** Replay converges: from any disk that any number of partial applications left behind, one
      complete application yields the same disk as a single uninterrupted one. Only an eviction
      whose manifest write had landed can be missing, and only if the mutation overflows a shard. */
  lemma ReplayConverges(d0: Disk, mutation: MutationJournal, m: Disk)
    requires Consistent(d0) && Admissible(d0, mutation) && Between(d0, mutation, m)
    ensures var once, again := Applied(d0, mutation), Applied(m, mutation).(journal := None);
            && again == once.(rawVectors := again.rawVectors, abstractVectors := again.abstractVectors)
            && again.rawVectors.shards == once.rawVectors.shards
            && again.abstractVectors.shards == once.abstractVectors.shards
            && (FitsShards(d0, mutation) ==> again == once)
  {
    StartIsBetween(d0, mutation);
    AppliedFilesExact(d0, mutation, d0.(journal := Some(mutation)));
    AppliedFilesExact(d0, mutation, m);
    ExactUnique(TargetRaw(d0, mutation), Applied(d0, mutation).files, Applied(m, mutation).files);
    match mutation
    case CommitRaw(node, embedding) => RawCommitConverges(d0, node, embedding, m);
    case CommitAbstract(node, embedding) => AbstractCommitConverges(d0, node, embedding, m);
    case UpdateRawLifecycle(ids, patch) => LifecycleFilesExact(d0, ids, patch, m);
  }

  lemma RawCommitConverges(d0: Disk, node: RawNode, embedding: seq<real>, m: Disk)
    requires Consistent(d0) && Between(d0, CommitRaw(node, embedding), m)
    ensures var once, again := RawCommitted(d0, node, embedding), RawCommitted(m, node, embedding).(journal := None);
            && again == once.(files := again.files, rawVectors := again.rawVectors)
            && again.rawVectors.shards == once.rawVectors.shards
            && (FitsShard(d0.rawVectors, RawRecord(node, embedding)) ==> again.rawVectors == once.rawVectors)
  {
    ReplayVectors(d0.rawVectors, RawRecord(node, embedding), m.rawVectors);
    assert m.raw[node.id := node] == d0.raw[node.id := node];
    assert AddReceipt(m.rawReceipts, node.id, node.operationKey) == AddReceipt(d0.rawReceipts, node.id, node.operationKey);
  }

  lemma AbstractCommitConverges(d0: Disk, node: AbstractNode, embedding: seq<real>, m: Disk)
    requires Consistent(d0) && Between(d0, CommitAbstract(node, embedding), m)
    ensures var once, again := AbstractCommitted(d0, node, embedding), AbstractCommitted(m, node, embedding).(journal := None);
            && again == once.(files := again.files, abstractVectors := again.abstractVectors)
            && again.abstractVectors.shards == once.abstractVectors.shards
            && (FitsShard(d0.abstractVectors, AbstractRecord(node, embedding)) ==> again.abstractVectors == once.abstractVectors)
  {
    hide IndexEmbedding, VectorImage, FitsShard, StoredEdgesOf, VectorsExact, IndexesExact, ReceiptsExact, RebuiltVectors;
    ReplayVectors(d0.abstractVectors, AbstractRecord(node, embedding), m.abstractVectors);
    assert m.abstracts[node.id := node] == d0.abstracts[node.id := node];
    assert m.graph[node.id := StoredEdgesOf(node)] == d0.graph[node.id := StoredEdgesOf(node)];
    assert AddReceipt(m.abstractReceipts, node.id, node.operationKey) == AddReceipt(d0.abstractReceipts, node.id, node.operationKey);
  }

  lemma StartIsBetween(d0: Disk, mutation: MutationJournal)
    requires Consistent(d0)
    ensures Between(d0, mutation, d0.(journal := Some(mutation)))
  {
    ExactIsBetween(d0.raw, TargetRaw(d0, mutation), d0.files);
    if mutation.UpdateRawLifecycle? { PatchedRawAt(d0.raw, mutation.ids, mutation.patch); }
  }
}
