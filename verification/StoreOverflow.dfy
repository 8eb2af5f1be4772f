/** Crash atomicity of `commit_raw` and `commit_abstract` when the commit evicts an embedding.

    Replay does not repeat an eviction whose manifest write already landed; the orphaned body then
    fails the embedding probe and a rebuild picks the body to evict by `(indexed_at, id)` instead of
    by push order. So atomicity holds exactly when the two orders name the same body. */
module StoreOverflow {
  import opened Domain
  import opened Listings
  import opened RawIndexes
  import opened VectorShards
  import opened StoreModel
  import opened StoreEffects
  import opened StoreInvariants
  import opened StoreReplay
  import opened StoreRecovery
  import opened StoreProjections

  // ---------------------------------------------------------------- what a commit indexes

  function KindOf(commit: MutationJournal): Kind {
    if commit.CommitAbstract? then AbstractKind else RawKind
  }

  function RecordOf(commit: MutationJournal): StoredEmbedding
    requires !commit.UpdateRawLifecycle?
  {
    match commit
    case CommitRaw(node, embedding) => RawRecord(node, embedding)
    case CommitAbstract(node, embedding) => AbstractRecord(node, embedding)
  }

  /** The embeddings the commit adds to. */
  function VectorsFor(d: Disk, commit: MutationJournal): Vectors {
    VectorsOf(d, KindOf(commit))
  }

  /** The writes before the embedding's, and the disk they leave. */
  function FrontWrites(d: Disk, commit: MutationJournal): seq<Write>
    requires !commit.UpdateRawLifecycle?
  {
    match commit
    case CommitRaw(node, _) => BodyAndIndexWrites(d, node)
    case CommitAbstract(node, _) => [PutAbstract(node)] + AbstractReceiptWrites(node)
  }

  function FrontDisk(d: Disk, commit: MutationJournal): Disk
    requires !commit.UpdateRawLifecycle?
  {
    match commit
    case CommitRaw(node, _) => BodyAndIndexes(d, node)
    case CommitAbstract(node, _) =>
      d.(abstracts := d.abstracts[node.id := node],
         abstractReceipts := AddReceipt(d.abstractReceipts, node.id, node.operationKey))
  }

  /** The writes after the embedding's. */
  function TailWrites(commit: MutationJournal): seq<Write>
    requires !commit.UpdateRawLifecycle?
  {
    match commit
    case CommitRaw(_, _) => [TouchMetadata]
    case CommitAbstract(node, _) => [PutGraph(StoredEdgesOf(node)), TouchMetadata]
  }

  lemma CommitShape(d: Disk, commit: MutationJournal)
    requires !commit.UpdateRawLifecycle?
    ensures ApplyWrites(d, commit) == FrontWrites(d, commit) + ShardWrites(d, KindOf(commit), RecordOf(commit)) + TailWrites(commit)
  {
  }

  lemma {:induction false} RunFront(d: Disk, commit: MutationJournal)
    requires !commit.UpdateRawLifecycle?
    ensures Run(d, FrontWrites(d, commit)) == FrontDisk(d, commit)
  {
    match commit
    case CommitRaw(node, _) => RunBodyAndIndexes(d, node);
    case CommitAbstract(node, _) =>
      RunOne(d, PutAbstract(node));
      RunConcat(d, [PutAbstract(node)], AbstractReceiptWrites(node));
      RunAbstractReceipt(Perform(d, PutAbstract(node)), node);
  }

  // ---------------------------------------------------------------- the orphan

  /** The finished commit, but with the evicted body still on disk. */
  function OrphanedCommit(d: Disk, commit: MutationJournal): Disk
    requires !commit.UpdateRawLifecycle?
  {
    WithVectors(Applied(d, commit), KindOf(commit), Stage(VectorsFor(d, commit), RecordOf(commit), 2))
  }

  ghost predicate Overflows(d: Disk, commit: MutationJournal) {
    && !commit.UpdateRawLifecycle? && Consistent(d) && Admissible(d, commit)
    && !FitsShard(VectorsFor(d, commit), RecordOf(commit))
  }

  lemma AppliedVectors(d: Disk, commit: MutationJournal)
    requires !commit.UpdateRawLifecycle?
    ensures VectorsFor(Applied(d, commit), commit) == IndexEmbedding(VectorsFor(d, commit), RecordOf(commit))
  {
  }

  lemma OverflowFacts(d: Disk, commit: MutationJournal)
    requires Overflows(d, commit)
    ensures var v0, record := VectorsFor(d, commit), RecordOf(commit);
            && VectorsExact(v0) && SessionStable(v0, record) && record.id !in v0.bodies
            && Orphaned(v0, record, Stage(v0, record, 2))
            && BodiesKeyed(Stage(v0, record, 2).bodies) && !Covered(Stage(v0, record, 2))
  {
    var v0, record := VectorsFor(d, commit), RecordOf(commit);
    UnfitIsNew(v0, record);
    OrphanUncovered(v0, record, Stage(v0, record, 2));
  }

  /** Opening the orphan rebuilds it; what comes out is the finished commit, up to manifest order, exactly if
      the rebuild evicts the same body. */
  lemma OrphanedOpens(d: Disk, commit: MutationJournal)
    requires Overflows(d, commit)
    ensures var orphaned := OrphanedCommit(d, commit);
            && Opened(orphaned) == RebuiltDisk(orphaned)
            && (SameStore(Opened(orphaned), Applied(d, commit)) <==> FrontIsOldest(VectorsFor(d, commit), RecordOf(commit)))
  {
    hide Opened, RebuiltDisk, Stage, FrontIsOldest, IndexEmbedding, Applied, Reopened, FitsShard, Orphaned, Covered;
    var v0, record := VectorsFor(d, commit), RecordOf(commit);
    var once, v := Applied(d, commit), Stage(v0, record, 2);
    OverflowFacts(d, commit);
    AppliedVectors(d, commit);
    AppliedConsistent(d, commit);
    OpenVectors(once, KindOf(commit), v);
    OrphanRebuilds(once, KindOf(commit), v);
    SameVectorsDecide(once, KindOf(commit), Opened(OrphanedCommit(d, commit)), v);
    EvictingReopens(v0, record, 2);
  }

  lemma OrphanRebuilds(once: Disk, kind: Kind, v: Vectors)
    requires Consistent(once) && !Covered(v)
    ensures Opened(WithVectors(once, kind, v)) == RebuiltDisk(WithVectors(once, kind, v))
  {
    hide RebuiltDisk, Covered;
    var m := WithVectors(once, kind, v);
    assert m.(metadata := true) == m && m.journal == None;
    assert !ProbesPass(m);
  }

  lemma SameVectorsDecide(once: Disk, kind: Kind, reopened: Disk, v: Vectors)
    requires SameStore(reopened, WithVectors(once, kind, Reopened(v)))
    ensures SameStore(reopened, once) <==> SameVectors(Reopened(v), VectorsOf(once, kind))
  {
    hide Reopened;
  }

  /** Whatever the crash point, the reopened store is the finished commit or the rebuilt orphan. */
  lemma OverflowOutcomes(d: Disk, commit: MutationJournal, n: nat)
    requires Overflows(d, commit) && 0 < n <= |MutateWrites(d, commit)|
    ensures var reopened := Opened(MutationImage(d, commit, n));
            reopened == Applied(d, commit) || reopened == RebuiltDisk(OrphanedCommit(d, commit))
  {
    hide Opened, RebuiltDisk, MutateWrites, Applied, Between, Admissible, FitsShard;
    MutationPrefix(d, commit, n);
    AppliedConsistent(d, commit);
    var m := MutationImage(d, commit, n);
    if n == |MutateWrites(d, commit)| {
      OpenConsistent(m);
    } else {
      var again := Applied(m, commit).(journal := None);
      OpensReplayed(d, commit, m);
      ReplayOutcomes(d, commit, m);
      if again == Applied(d, commit) {
        OpenConsistent(again);
      } else {
        OrphanedOpens(d, commit);
      }
    }
  }

  lemma OpensReplayed(d: Disk, commit: MutationJournal, m: Disk)
    requires Consistent(d) && Admissible(d, commit) && Between(d, commit, m)
    ensures Opened(m) == Opened(Applied(m, commit).(journal := None))
  {
    hide ProbesPass, RebuiltDisk;
    var again := Applied(m, commit).(journal := None);
    assert m.journal == Some(commit);
    assert Replayed(m) == again && Replayed(again) == again;
  }

  /** Replaying any crash image finishes the commit, or leaves the orphan. */
  lemma ReplayOutcomes(d: Disk, commit: MutationJournal, m: Disk)
    requires Overflows(d, commit) && Between(d, commit, m)
    ensures var again := Applied(m, commit).(journal := None);
            again == Applied(d, commit) || again == OrphanedCommit(d, commit)
  {
    hide Applied, Between, FitsShard, IndexEmbedding;
    ReplayConverges(d, commit, m);
    ReplayedVectors(d, commit, m);
  }

  // ---------------------------------------------------------------- the crash point that decides

  /** The crash point between the manifest write and the eviction. */
  function AfterManifest(d: Disk, commit: MutationJournal): nat
    requires !commit.UpdateRawLifecycle?
  {
    1 + |FrontWrites(d, commit)| + 2
  }

  lemma PrefixOfFour(a: seq<Write>, b: seq<Write>, c: seq<Write>, e: seq<Write>, f: seq<Write>)
    requires |c| >= 2
    ensures (a + (b + c + e) + f)[..|a| + |b| + 2] == a + b + c[..2]
  {
  }

  lemma AfterManifestImage(d: Disk, commit: MutationJournal)
    requires Overflows(d, commit)
    ensures 0 < AfterManifest(d, commit) < |MutateWrites(d, commit)|
    ensures MutationImage(d, commit, AfterManifest(d, commit))
         == WithVectors(FrontDisk(d, commit).(journal := Some(commit)), KindOf(commit), Stage(VectorsFor(d, commit), RecordOf(commit), 2))
  {
    hide FrontWrites, FrontDisk, ShardWrites, TailWrites, ApplyWrites, Stage, FitsShard, Admissible, Consistent;
    var kind, record := KindOf(commit), RecordOf(commit);
    var journal, front, shard := [PutJournal(commit)], FrontWrites(d, commit), ShardWrites(d, kind, record);
    CommitShape(d, commit);
    OverflowFacts(d, commit);
    ShardWritesShape(d, kind, record);
    TailNotEmpty(commit);
    PrefixOfFour(journal, front, shard, TailWrites(commit), [RemoveJournal]);
    JournalThenFront(d, commit);
    RunConcat(d, journal + front, shard[..2]);
    FrontKeepsVectors(d, commit);
    ShardPrefix(FrontDisk(d, commit).(journal := Some(commit)), kind, record, 2);
  }

  lemma TailNotEmpty(commit: MutationJournal)
    requires !commit.UpdateRawLifecycle?
    ensures |TailWrites(commit)| > 0
  {
  }

  lemma FrontKeepsVectors(d: Disk, commit: MutationJournal)
    requires !commit.UpdateRawLifecycle?
    ensures var m := FrontDisk(d, commit).(journal := Some(commit));
            && VectorsOf(m, KindOf(commit)) == VectorsFor(d, commit)
            && ShardWrites(m, KindOf(commit), RecordOf(commit)) == ShardWrites(d, KindOf(commit), RecordOf(commit))
  {
  }

  lemma {:induction false} JournalThenFront(d: Disk, commit: MutationJournal)
    requires !commit.UpdateRawLifecycle?
    ensures Run(d, [PutJournal(commit)] + FrontWrites(d, commit)) == FrontDisk(d, commit).(journal := Some(commit))
  {
    RunConcat(d, [PutJournal(commit)], FrontWrites(d, commit));
    RunOne(d, PutJournal(commit));
    assert FrontWrites(d.(journal := Some(commit)), commit) == FrontWrites(d, commit);
    RunFront(d.(journal := Some(commit)), commit);
  }

  /** Replaying the image behind the manifest write leaves the orphan. */
  lemma OrphanReplays(d: Disk, commit: MutationJournal)
    requires Overflows(d, commit)
    ensures 0 < AfterManifest(d, commit) < |MutateWrites(d, commit)|
    ensures Opened(MutationImage(d, commit, AfterManifest(d, commit))) == Opened(OrphanedCommit(d, commit))
  {
    hide Opened, MutateWrites, Admissible, Between, Consistent, FitsShard;
    var v0, record := VectorsFor(d, commit), RecordOf(commit);
    AfterManifestImage(d, commit);
    var m := MutationImage(d, commit, AfterManifest(d, commit));
    MutationPrefix(d, commit, AfterManifest(d, commit));
    OpensReplayed(d, commit, m);
    ReplayOutcomes(d, commit, m);
    OverflowFacts(d, commit);
    OrphanStays(d, commit, m);
  }

  lemma OrphanStays(d: Disk, commit: MutationJournal, m: Disk)
    requires Overflows(d, commit) && VectorsFor(m, commit) == Stage(VectorsFor(d, commit), RecordOf(commit), 2)
    requires var again := Applied(m, commit).(journal := None); again == Applied(d, commit) || again == OrphanedCommit(d, commit)
    ensures Applied(m, commit).(journal := None) == OrphanedCommit(d, commit)
  {
    hide Applied, FitsShard, IndexEmbedding, Admissible, Consistent;
    var v0, record := VectorsFor(d, commit), RecordOf(commit);
    OverflowFacts(d, commit);
    AppliedVectors(m, commit);
    OrphanWithin(v0, record);
    ReplayLate(v0, record, VectorsFor(m, commit));
  }

  lemma OrphanWithin(v0: Vectors, record: StoredEmbedding)
    ensures Within(IndexEmbedding(v0, record).bodies, Stage(v0, record, 2).bodies)
  {
  }

  /** Crash atomicity of an evicting commit, raw or abstract, up to the order inside manifests: it holds at
      every crash point exactly when the front of the shard's manifest is its oldest embedding. */
  lemma OverflowAtomicIff(d: Disk, commit: MutationJournal)
    requires Overflows(d, commit)
    ensures (forall n | 0 < n <= |MutateWrites(d, commit)| :: SameStore(Opened(MutationImage(d, commit, n)), Applied(d, commit)))
       <==> FrontIsOldest(VectorsFor(d, commit), RecordOf(commit))
  {
    hide Opened, MutateWrites, Applied, FrontIsOldest, RebuiltDisk, OrphanedCommit, FitsShard, Admissible, Consistent;
    OrphanedOpens(d, commit);
    OrphanReplays(d, commit);
    if FrontIsOldest(VectorsFor(d, commit), RecordOf(commit)) {
      forall n | 0 < n <= |MutateWrites(d, commit)|
        ensures SameStore(Opened(MutationImage(d, commit, n)), Applied(d, commit))
      {
        OverflowOutcomes(d, commit, n);
      }
    }
  }

  /** Crash atomicity of every commit, decided: at each crash point after the first write the reopened store
      is the finished commit, up to the order inside manifests, exactly if nothing is evicted or the front of
      the manifest is the session's oldest embedding. */
  lemma CommitAtomicIff(d: Disk, commit: MutationJournal)
    requires !commit.UpdateRawLifecycle? && Consistent(d) && Admissible(d, commit)
    ensures (forall n | 0 < n <= |MutateWrites(d, commit)| :: SameStore(Opened(MutationImage(d, commit, n)), Applied(d, commit)))
       <==> FitsShard(VectorsFor(d, commit), RecordOf(commit)) || FrontIsOldest(VectorsFor(d, commit), RecordOf(commit))
  {
    hide Opened, MutateWrites, Applied, FrontIsOldest;
    if FitsShard(VectorsFor(d, commit), RecordOf(commit)) {
      forall n | 0 < n <= |MutateWrites(d, commit)|
        ensures SameStore(Opened(MutationImage(d, commit, n)), Applied(d, commit))
      {
        MutationCrashAtomic(d, commit, n);
      }
    } else {
      OverflowAtomicIff(d, commit);
    }
  }
}
