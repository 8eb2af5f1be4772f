/** Unjournaled writes to what is derived from nodes: one embedding's body and manifest, or one
    node's edges. No journal is replayed for them; the embedding probe and the rebuild recover. */
module StoreProjections {
  import opened Domain
  import opened Listings
  import opened RawIndexes
  import opened VectorShards
  import opened StoreModel
  import opened StoreEffects
  import opened StoreInvariants
  import opened StoreReplay
  import opened StoreRecovery

  // ---------------------------------------------------------------- one shard

  /** The embeddings after `n` writes of an indexing: nothing, the body, the manifest, the eviction. */
  function Stage(v0: Vectors, record: StoredEmbedding, n: nat): Vectors {
    if n == 0 then v0
    else if n == 1 then PutBody(v0, record)
    else if n == 2 then Vectors(v0.bodies[record.id := record], IndexEmbedding(v0, record).shards)
    else IndexEmbedding(v0, record)
  }

  /** What opening a store makes of its embeddings. */
  ghost function Reopened(v: Vectors): Vectors {
    if Covered(v) then v else RebuiltVectors(v.bodies)
  }

  /** A new body that no manifest lists fails the probe; a known one is still listed. */
  lemma BodyOnly(v0: Vectors, record: StoredEmbedding)
    requires VectorsExact(v0) && SessionStable(v0, record)
    ensures var v := PutBody(v0, record);
            if record.id in v0.bodies then VectorsExact(v) && Covered(v) else !Covered(v)
  {
    var v := PutBody(v0, record);
    if record.id in v0.bodies {
      forall session: Option<nat>
        ensures ShardExact(v, session)
      {
        assert ShardExact(v0, session);
        assert SessionIds(v.bodies, session) == SessionIds(v0.bodies, session);
      }
      ExactCovered(v);
    } else {
      forall session | session in v.shards
        ensures record.id !in v.shards[session]
      {
        assert ShardExact(v0, session);
        assert record.id in v.shards[session] ==> record.id in SessionIds(v0.bodies, session);
      }
      assert record.id in v.bodies;
    }
  }

  lemma UnfitIsNew(v0: Vectors, record: StoredEmbedding)
    requires VectorsExact(v0) && SessionStable(v0, record) && !FitsShard(v0, record)
    ensures record.id !in v0.bodies
  {
    assert ShardExact(v0, record.sessionId);
    assert record.id in v0.bodies ==> record.id in SessionIds(v0.bodies, record.sessionId);
  }

  /** The probe is not fooled by an interrupted indexing: what it accepts is consistent. */
  lemma ProbeSound(v0: Vectors, record: StoredEmbedding, n: nat)
    requires VectorsExact(v0) && SessionStable(v0, record)
    ensures var v := Stage(v0, record, n);
            BodiesKeyed(v.bodies) && (Covered(v) ==> VectorsExact(v))
  {
    hide EvictedIds, KeptIds, Covered;
    IndexKeepsExact(v0, record);
    BodyOnly(v0, record);
    if FitsShard(v0, record) {
      FitsKeepsBodies(v0, record);
    } else {
      OrphanUncovered(v0, record, Stage(v0, record, 2));
    }
  }

  /** An indexing that evicts nothing, cut after any write, reopens as the finished one. */
  lemma FittingReopens(v0: Vectors, record: StoredEmbedding, n: nat)
    requires VectorsExact(v0) && SessionStable(v0, record) && FitsShard(v0, record) && n > 0
    ensures SameVectors(Reopened(Stage(v0, record, n)), IndexEmbedding(v0, record))
  {
    hide EvictedIds, KeptIds, Covered, RebuiltVectors;
    var v, v1 := Stage(v0, record, n), IndexEmbedding(v0, record);
    IndexKeepsExact(v0, record);
    FitsKeepsBodies(v0, record);
    ProbeSound(v0, record, n);
    RebuildKeepsExact(v1);
    if Covered(v) { SameBodiesSameVectors(v, v1); }
  }

  /** An evicting one, cut before the eviction, reopens as the finished one exactly if the rebuild
      would have evicted the same body. */
  lemma EvictingReopens(v0: Vectors, record: StoredEmbedding, n: nat)
    requires VectorsExact(v0) && SessionStable(v0, record) && !FitsShard(v0, record) && 0 < n <= 2
    ensures SameVectors(Reopened(Stage(v0, record, n)), IndexEmbedding(v0, record)) <==> FrontIsOldest(v0, record)
  {
    hide EvictedIds, KeptIds, Covered, RebuiltVectors, OldestOf;
    var after, v1 := v0.bodies[record.id := record], IndexEmbedding(v0, record);
    UnfitIsNew(v0, record);
    BodyOnly(v0, record);
    OrphanUncovered(v0, record, Stage(v0, record, 2));
    IndexKeepsExact(v0, record);
    ProbeSound(v0, record, 1);
    RebuiltExact(after);
    OverflowAgreesWithRebuild(v0, record);
    if RebuiltVectors(after).bodies == v1.bodies { SameBodiesSameVectors(RebuiltVectors(after), v1); }
  }

  // ---------------------------------------------------------------- the whole store

  function Indexed(d: Disk, kind: Kind, record: StoredEmbedding): Disk {
    WithVectors(d, kind, IndexEmbedding(VectorsOf(d, kind), record)).(metadata := true)
  }

  ghost predicate Indexable(d: Disk, kind: Kind, record: StoredEmbedding) {
    Consistent(d) && SessionStable(VectorsOf(d, kind), record)
  }

  /** The disk a crash after `n` writes of an indexing exposes. */
  function IndexingImage(d: Disk, kind: Kind, record: StoredEmbedding, n: nat): Disk
    requires n <= |IndexWrites(d, kind, record)|
  {
    Run(d, IndexWrites(d, kind, record)[..n])
  }

  function BodyWrite(kind: Kind, record: StoredEmbedding): Write {
    if kind == RawKind then PutRawEmbedding(record) else PutAbstractEmbedding(record)
  }

  /** Body, then manifest, then at most one eviction. */
  lemma ShardWritesShape(d: Disk, kind: Kind, record: StoredEmbedding)
    requires VectorsExact(VectorsOf(d, kind))
    ensures var ws := ShardWrites(d, kind, record);
            var ids := ReadManifest(VectorsOf(d, kind).shards, record.sessionId);
            && |ws| == (if FitsShard(VectorsOf(d, kind), record) then 2 else 3)
            && ws[..1] == [BodyWrite(kind, record)]
            && ws[..2] == [BodyWrite(kind, record), ManifestWrite(kind, record.sessionId, KeptIds(ids, record.id))]
  {
    hide KeptIds, EvictedIds;
    var ids := ReadManifest(VectorsOf(d, kind).shards, record.sessionId);
    assert ShardExact(VectorsOf(d, kind), record.sessionId);
    EvictionFacts(ids, record.id);
    OneRemoval(EvictedIds(ids, record.id));
  }

  lemma {:induction false} OneRemoval(ids: seq<nat>)
    requires |ids| <= 1
    ensures |RemoveRawWrites(ids)| == |ids| == |RemoveAbstractWrites(ids)|
  {
  }

  lemma {:induction false} RunShardWrites(d: Disk, kind: Kind, record: StoredEmbedding)
    ensures Run(d, ShardWrites(d, kind, record)) == WithVectors(d, kind, IndexEmbedding(VectorsOf(d, kind), record))
  {
    match kind
    case RawKind => RunIndexRaw(d, record);
    case AbstractKind => RunIndexAbstract(d, record);
  }

  lemma {:induction false} RunIndexing(d: Disk, kind: Kind, record: StoredEmbedding)
    ensures Run(d, IndexWrites(d, kind, record)) == Indexed(d, kind, record)
  {
    RunShardWrites(d, kind, record);
    RunSnoc(d, ShardWrites(d, kind, record), TouchMetadata);
  }

  lemma {:induction false} ShardPrefix(d: Disk, kind: Kind, record: StoredEmbedding, n: nat)
    requires VectorsExact(VectorsOf(d, kind)) && n <= |ShardWrites(d, kind, record)|
    ensures Run(d, ShardWrites(d, kind, record)[..n]) == WithVectors(d, kind, Stage(VectorsOf(d, kind), record, n))
  {
    hide ShardWrites, VectorsExact, KeptIds, EvictedIds;
    var ws := ShardWrites(d, kind, record);
    ShardWritesShape(d, kind, record);
    if n == 0 {
      assert ws[..0] == [];
    } else if n == 1 {
      RunOne(d, BodyWrite(kind, record));
    } else if n == 2 {
      RunTwo(d, ws[..2][0], ws[..2][1]);
    } else {
      assert ws[..n] == ws;
      RunShardWrites(d, kind, record);
    }
  }

  /** The crash images of an indexing are its stages. */
  lemma {:induction false} IndexingPrefix(d: Disk, kind: Kind, record: StoredEmbedding, n: nat)
    requires Consistent(d) && n <= |IndexWrites(d, kind, record)|
    ensures IndexingImage(d, kind, record, n) == WithVectors(d, kind, Stage(VectorsOf(d, kind), record, n))
    ensures n == |IndexWrites(d, kind, record)| ==> n > 2 && IndexingImage(d, kind, record, n) == Indexed(d, kind, record)
  {
    hide ShardWrites, IndexEmbedding, VectorsExact, KeptIds;
    var ws := ShardWrites(d, kind, record);
    ShardWritesShape(d, kind, record);
    RunIndexing(d, kind, record);
    if n == |ws| + 1 {
      assert (ws + [TouchMetadata])[..n] == ws + [TouchMetadata];
    } else {
      assert (ws + [TouchMetadata])[..n] == ws[..n];
      ShardPrefix(d, kind, record, n);
    }
  }

  /** Opening a store in which only one kind of embedding may be out of step. */
  lemma OpenVectors(d: Disk, kind: Kind, v: Vectors)
    requires Consistent(d) && BodiesKeyed(v.bodies) && (Covered(v) ==> VectorsExact(v))
    ensures var m := WithVectors(d, kind, v);
            && Quiet(m) && CoreOf(m) == CoreOf(d)
            && SameStore(Opened(m), WithVectors(d, kind, Reopened(v)))
  {
    var m := WithVectors(d, kind, v);
    ConsistentIntact(d);
    OpenConsistent(d);
    assert m.(metadata := true) == m;
    assert ProbesPass(m) <==> Covered(v);
    RebuildIsNeutral(d);
    if Covered(v) {
      OpenConsistent(m);
    } else {
      RebuildKeepsExact(d.rawVectors);
      RebuildKeepsExact(d.abstractVectors);
    }
  }

  /** Every crash point of an indexing reopens consistent, with every node and edge untouched. */
  lemma IndexingQuiet(d: Disk, kind: Kind, record: StoredEmbedding, n: nat)
    requires Indexable(d, kind, record) && n <= |IndexWrites(d, kind, record)|
    ensures var m := IndexingImage(d, kind, record, n);
            && Quiet(m) && CoreOf(m) == CoreOf(d)
            && SameStore(Opened(m), WithVectors(d, kind, Reopened(Stage(VectorsOf(d, kind), record, n))))
  {
    IndexingPrefix(d, kind, record, n);
    ProbeSound(VectorsOf(d, kind), record, n);
    OpenVectors(d, kind, Stage(VectorsOf(d, kind), record, n));
  }

  lemma IndexedConsistent(d: Disk, kind: Kind, record: StoredEmbedding)
    requires Indexable(d, kind, record)
    ensures Consistent(Indexed(d, kind, record)) && CoreOf(Indexed(d, kind, record)) == CoreOf(d)
  {
    IndexKeepsExact(VectorsOf(d, kind), record);
  }

  lemma IndexingReopens(d: Disk, kind: Kind, record: StoredEmbedding, n: nat)
    requires Indexable(d, kind, record) && n <= |IndexWrites(d, kind, record)|
    ensures SameStore(Opened(IndexingImage(d, kind, record, n)), Indexed(d, kind, record))
       <==> SameVectors(Reopened(Stage(VectorsOf(d, kind), record, n)), IndexEmbedding(VectorsOf(d, kind), record))
  {
    hide Opened, Stage, IndexEmbedding, IndexWrites, Reopened;
    IndexingQuiet(d, kind, record, n);
  }

  lemma FinishedReopens(v0: Vectors, record: StoredEmbedding, n: nat)
    requires VectorsExact(v0) && SessionStable(v0, record) && n > 2
    ensures SameVectors(Reopened(Stage(v0, record, n)), IndexEmbedding(v0, record))
  {
    hide EvictedIds, KeptIds, Covered, RebuiltVectors;
    IndexKeepsExact(v0, record);
    ExactCovered(IndexEmbedding(v0, record));
  }

  /** Crash atomicity of an unjournaled indexing, up to the order inside manifests: after the first
      write every crash point reopens as the finished call exactly if nothing is evicted or the front
      of the manifest is the session's oldest embedding. */
  lemma IndexingAtomicIff(d: Disk, kind: Kind, record: StoredEmbedding)
    requires Indexable(d, kind, record)
    ensures (forall n | 0 < n <= |IndexWrites(d, kind, record)| ::
               SameStore(Opened(IndexingImage(d, kind, record, n)), Indexed(d, kind, record)))
       <==> FitsShard(VectorsOf(d, kind), record) || FrontIsOldest(VectorsOf(d, kind), record)
    ensures Opened(IndexingImage(d, kind, record, 0)) == d
  {
    hide Opened, Stage, IndexEmbedding, FrontIsOldest, OldestOf, IndexWrites, Consistent, FitsShard, Reopened;
    var v0 := VectorsOf(d, kind);
    var agree := FitsShard(v0, record) || FrontIsOldest(v0, record);
    NothingWritten(d, kind, record);
    IndexingEnds(d, kind, record);
    forall n: nat | 0 < n <= |IndexWrites(d, kind, record)|
      ensures SameStore(Opened(IndexingImage(d, kind, record, n)), Indexed(d, kind, record)) <==> n > 2 || agree
    {
      IndexingReopens(d, kind, record, n);
      if n > 2 {
        FinishedReopens(v0, record, n);
      } else if FitsShard(v0, record) {
        FittingReopens(v0, record, n);
      } else {
        EvictingReopens(v0, record, n);
      }
    }
    assert SameStore(Opened(IndexingImage(d, kind, record, 1)), Indexed(d, kind, record)) <==> agree;
  }

  lemma NothingWritten(d: Disk, kind: Kind, record: StoredEmbedding)
    requires Consistent(d)
    ensures Opened(IndexingImage(d, kind, record, 0)) == d
  {
    assert IndexWrites(d, kind, record)[..0] == [];
    OpenConsistent(d);
  }

  lemma IndexingEnds(d: Disk, kind: Kind, record: StoredEmbedding)
    requires Indexable(d, kind, record)
    ensures |IndexWrites(d, kind, record)| > 2 && VectorsExact(VectorsOf(d, kind))
    ensures SessionStable(VectorsOf(d, kind), record)
  {
    IndexingPrefix(d, kind, record, |IndexWrites(d, kind, record)|);
  }
}
