/** Crash recovery: whatever disk a crash exposes, opening it yields the store before the interrupted
    call or the store after all of it, even when the opening is itself interrupted. */
module StoreRecovery {
  import opened Domain
  import opened Listings
  import opened RawIndexes
  import opened VectorShards
  import opened StoreModel
  import opened StoreEffects
  import opened StoreInvariants
  import opened StoreReplay

  // ---------------------------------------------------------------- disks with no journal

  /** No journal, nothing lost, and the probes cannot be fooled: if they pass, the disk really is
      consistent. */
  ghost predicate Quiet(m: Disk) {
    && m.journal == None
    && Intact(m)
    && (ProbesPass(m) ==> Consistent(m.(metadata := true)))
  }

  lemma ConsistentQuiet(d: Disk)
    requires Consistent(d)
    ensures Quiet(d)
  {
    ConsistentIntact(d);
    assert d.(metadata := true) == d;
  }

  lemma OpenQuiet(m: Disk)
    requires Quiet(m)
    ensures Consistent(Opened(m)) && CoreOf(Opened(m)) == CoreOf(m)
  {
    var r := m.(metadata := true);
    assert ProbesPass(r) <==> ProbesPass(m);
    if !ProbesPass(r) { RebuildConsistent(r); }
  }

  // ---------------------------------------------------------------- journaled mutations

  lemma KeysAfter(d0: Disk, mutation: MutationJournal)
    requires Consistent(d0) && Admissible(d0, mutation)
    ensures var d := Applied(d0, mutation);
            && ReceiptsExact(RawKeys(d.raw), d.rawReceipts)
            && ReceiptsExact(AbstractKeys(d.abstracts), d.abstractReceipts)
            && AbstractsKeyed(d.abstracts)
  {
    match mutation
    case CommitRaw(node, _) =>
      AddReceiptExact(RawKeys(d0.raw), d0.rawReceipts, node.id, node.operationKey);
      assert RawKeys(d0.raw[node.id := node]) == RawKeys(d0.raw)[node.id := node.operationKey];
    case CommitAbstract(node, _) =>
      AddReceiptExact(AbstractKeys(d0.abstracts), d0.abstractReceipts, node.id, node.operationKey);
      assert AbstractKeys(d0.abstracts[node.id := node]) == AbstractKeys(d0.abstracts)[node.id := node.operationKey];
    case UpdateRawLifecycle(ids, patch) =>
      PatchedRawAt(d0.raw, ids, patch);
      assert RawKeys(PatchedRaw(d0.raw, ids, patch)) == RawKeys(d0.raw);
  }

  lemma VectorsAfter(d0: Disk, mutation: MutationJournal)
    requires Consistent(d0) && Admissible(d0, mutation)
    ensures VectorsExact(Applied(d0, mutation).rawVectors) && VectorsExact(Applied(d0, mutation).abstractVectors)
  {
    match mutation
    case CommitRaw(node, embedding) => IndexKeepsExact(d0.rawVectors, RawRecord(node, embedding));
    case CommitAbstract(node, embedding) => IndexKeepsExact(d0.abstractVectors, AbstractRecord(node, embedding));
    case UpdateRawLifecycle(_, _) =>
  }

  lemma TargetKeyed(d0: Disk, mutation: MutationJournal)
    requires Consistent(d0)
    ensures Keyed(TargetRaw(d0, mutation))
  {
    if mutation.UpdateRawLifecycle? { PatchedRawAt(d0.raw, mutation.ids, mutation.patch); }
  }

  /** A completed mutation keeps the store consistent: incremental state equals rebuilt state. */
  lemma AppliedConsistent(d0: Disk, mutation: MutationJournal)
    requires Consistent(d0) && Admissible(d0, mutation)
    ensures Consistent(Applied(d0, mutation))
  {
    StartIsBetween(d0, mutation);
    AppliedFilesExact(d0, mutation, d0.(journal := Some(mutation)));
    KeysAfter(d0, mutation);
    VectorsAfter(d0, mutation);
    TargetKeyed(d0, mutation);
  }

  /** The disk replay leaves, when it is not the finished one: one evicted body too many. */
  ghost predicate Orphaned(v0: Vectors, record: StoredEmbedding, v: Vectors) {
    && !FitsShard(v0, record)
    && v.shards == IndexEmbedding(v0, record).shards
    && v.bodies == v0.bodies[record.id := record]
  }

  lemma ReplayedVectors(d0: Disk, mutation: MutationJournal, m: Disk)
    requires Consistent(d0) && Admissible(d0, mutation) && Between(d0, mutation, m)
    ensures var once, again := Applied(d0, mutation), Applied(m, mutation);
            match mutation
            case CommitRaw(node, embedding) =>
              && again.abstractVectors == once.abstractVectors
              && (again.rawVectors == once.rawVectors || Orphaned(d0.rawVectors, RawRecord(node, embedding), again.rawVectors))
            case CommitAbstract(node, embedding) =>
              && again.rawVectors == once.rawVectors
              && (again.abstractVectors == once.abstractVectors
                  || Orphaned(d0.abstractVectors, AbstractRecord(node, embedding), again.abstractVectors))
            case UpdateRawLifecycle(_, _) =>
              again.rawVectors == once.rawVectors && again.abstractVectors == once.abstractVectors
  {
    match mutation
    case CommitRaw(node, embedding) => ReplayVectors(d0.rawVectors, RawRecord(node, embedding), m.rawVectors);
    case CommitAbstract(node, embedding) => ReplayVectors(d0.abstractVectors, AbstractRecord(node, embedding), m.abstractVectors);
    case UpdateRawLifecycle(_, _) =>
  }

  /** A replayed disk is finished, or an orphaned embedding body keeps the probe from passing. */
  lemma ReplayedQuiet(d0: Disk, mutation: MutationJournal, m: Disk)
    requires Consistent(d0) && Admissible(d0, mutation) && Between(d0, mutation, m)
    ensures var again := Applied(m, mutation).(journal := None);
            Quiet(again) && CoreOf(again) == CoreOf(Applied(d0, mutation)) && again.metadata
  {
    var once, again := Applied(d0, mutation), Applied(m, mutation).(journal := None);
    ReplayConverges(d0, mutation, m);
    AppliedConsistent(d0, mutation);
    ConsistentQuiet(once);
    ReplayedVectors(d0, mutation, m);
    if again != once {
      OrphanedQuiet(d0, mutation, again);
    }
  }

  lemma OrphanedQuiet(d0: Disk, mutation: MutationJournal, again: Disk)
    requires Consistent(d0) && Admissible(d0, mutation)
    requires var once := Applied(d0, mutation);
             match mutation
             case CommitRaw(node, embedding) =>
               again == once.(rawVectors := again.rawVectors) && Orphaned(d0.rawVectors, RawRecord(node, embedding), again.rawVectors)
             case CommitAbstract(node, embedding) =>
               again == once.(abstractVectors := again.abstractVectors)
               && Orphaned(d0.abstractVectors, AbstractRecord(node, embedding), again.abstractVectors)
             case UpdateRawLifecycle(_, _) => false
    ensures Quiet(again) && !ProbesPass(again)
  {
    AppliedConsistent(d0, mutation);
    ConsistentIntact(Applied(d0, mutation));
    match mutation
    case CommitRaw(node, embedding) => OrphanUncovered(d0.rawVectors, RawRecord(node, embedding), again.rawVectors);
    case CommitAbstract(node, embedding) =>
      OrphanUncovered(d0.abstractVectors, AbstractRecord(node, embedding), again.abstractVectors);
  }

  /** The disk after `n` writes of a journaled mutation. */
  function MutationImage(d: Disk, mutation: MutationJournal, n: nat): Disk
    requires n <= |MutateWrites(d, mutation)|
  {
    Run(d, MutateWrites(d, mutation)[..n])
  }

  lemma {:induction false} MutationPrefix(d: Disk, mutation: MutationJournal, n: nat)
    requires Consistent(d) && Admissible(d, mutation) && n <= |MutateWrites(d, mutation)|
    ensures var m := MutationImage(d, mutation, n);
            if n == 0 then m == d
            else if n == |MutateWrites(d, mutation)| then m == Applied(d, mutation)
            else Between(d, mutation, m)
  {
    hide ApplyWrites, Between, Applied, Admissible;
    var all := MutateWrites(d, mutation);
    if n == 0 {
      assert all[..0] == [];
    } else if n == |all| {
      assert all[..n] == all;
      RunMutate(d, mutation);
    } else {
      JournaledPrefix(d, mutation, n - 1);
      var ws := ApplyWrites(d, mutation);
      assert all[..n] == [PutJournal(mutation)] + ws[..n - 1];
    }
  }

  lemma {:induction false} JournaledPrefix(d: Disk, mutation: MutationJournal, n: nat)
    requires Consistent(d) && Admissible(d, mutation) && n <= |ApplyWrites(d, mutation)|
    ensures Between(d, mutation, Run(d, [PutJournal(mutation)] + ApplyWrites(d, mutation)[..n]))
  {
    hide ApplyWrites, Between, Consistent, Applied, Admissible;
    var ws := ApplyWrites(d, mutation);
    var d1 := Perform(d, PutJournal(mutation));
    StartIsBetween(d, mutation);
    SameWrites(d, mutation);
    ApplicationStays(d, mutation, d1);
    StaysAt(d, mutation, d1, ws, n);
    RunOne(d, PutJournal(mutation));
    RunConcat(d, [PutJournal(mutation)], ws[..n]);
  }

  lemma SameWrites(d: Disk, mutation: MutationJournal)
    ensures ApplyWrites(d.(journal := Some(mutation)), mutation) == ApplyWrites(d, mutation)
  {
  }

  /** All the writes of a mutation together: journal, application, cleared journal. */
  lemma {:induction false} RunMutate(d: Disk, mutation: MutationJournal)
    requires Keyed(d.raw) && d.journal == None
    ensures Run(d, MutateWrites(d, mutation)) == Applied(d, mutation)
  {
    RunJournaled(d, mutation);
    AppliedIgnoresJournal(d, mutation);
    ClearJournal(d, [PutJournal(mutation)] + ApplyWrites(d, mutation), Applied(d, mutation), mutation);
  }

  lemma {:induction false} RunJournaled(d: Disk, mutation: MutationJournal)
    requires Keyed(d.raw)
    ensures Run(d, [PutJournal(mutation)] + ApplyWrites(d, mutation)) == Applied(d, mutation).(journal := Some(mutation))
  {
    hide ApplyWrites, Applied;
    var ws := ApplyWrites(d, mutation);
    RunConcat(d, [PutJournal(mutation)], ws);
    RunOne(d, PutJournal(mutation));
    SameWrites(d, mutation);
    RunApplied(d.(journal := Some(mutation)), mutation);
    AppliedIgnoresJournal(d, mutation);
  }

  lemma {:induction false} ClearJournal(d: Disk, ws: seq<Write>, after: Disk, mutation: MutationJournal)
    requires Run(d, ws) == after.(journal := Some(mutation)) && after.journal == None
    ensures Run(d, ws + [RemoveJournal]) == after
  {
    RunSnoc(d, ws, RemoveJournal);
  }

  lemma AppliedIgnoresJournal(d: Disk, mutation: MutationJournal)
    ensures Applied(d.(journal := Some(mutation)), mutation) == Applied(d, mutation).(journal := Some(mutation))
    ensures Applied(d, mutation).journal == d.journal
  {
  }

  /** Crash atomicity of `commit_raw`, `commit_abstract` and `update_raw_lifecycle`: crash after any
      number of file writes and reopen. Before the journal is written the store is unchanged; from
      then on it is the store after the whole mutation, in every file, as long as the mutation
      evicts no embedding. */
  lemma MutationCrashAtomic(d: Disk, mutation: MutationJournal, n: nat)
    requires Consistent(d) && Admissible(d, mutation) && n <= |MutateWrites(d, mutation)|
    ensures n == 0 ==> Opened(MutationImage(d, mutation, n)) == d
    ensures n > 0 && FitsShards(d, mutation) ==> Opened(MutationImage(d, mutation, n)) == Applied(d, mutation)
    ensures Consistent(Opened(MutationImage(d, mutation, n)))
  {
    var m := MutationImage(d, mutation, n);
    MutationPrefix(d, mutation, n);
    AppliedConsistent(d, mutation);
    if n == 0 {
      OpenConsistent(d);
    } else if n == |MutateWrites(d, mutation)| {
      OpenConsistent(m);
    } else {
      BetweenOpens(d, mutation, m);
    }
  }

  lemma BetweenOpens(d: Disk, mutation: MutationJournal, m: Disk)
    requires Consistent(d) && Admissible(d, mutation) && Between(d, mutation, m)
    ensures Consistent(Opened(m)) && CoreOf(Opened(m)) == CoreOf(Applied(d, mutation))
    ensures FitsShards(d, mutation) ==> Opened(m) == Applied(d, mutation)
  {
    var again := Applied(m, mutation).(journal := None);
    assert m.journal == Some(mutation);
    ReplayedQuiet(d, mutation, m);
    assert Replayed(m).(metadata := true) == again;
    assert Opened(m) == Opened(again);
    OpenQuiet(again);
    if FitsShards(d, mutation) {
      ReplayConverges(d, mutation, m);
      AppliedConsistent(d, mutation);
      OpenConsistent(again);
    }
  }

  /** Repeatedly start the application and lose power after the given numbers of writes. */
  function RepeatedlyCut(m: Disk, mutation: MutationJournal, cuts: seq<nat>): Disk
    decreases |cuts|
  {
    if cuts == [] then m
    else
      var ws := ApplyWrites(m, mutation);
      RepeatedlyCut(Run(m, ws[..if cuts[0] <= |ws| then cuts[0] else |ws|]), mutation, cuts[1..])
  }

  lemma {:induction false} CutsStayBetween(d: Disk, mutation: MutationJournal, m: Disk, cuts: seq<nat>)
    requires Consistent(d) && Admissible(d, mutation) && Between(d, mutation, m)
    ensures Between(d, mutation, RepeatedlyCut(m, mutation, cuts))
    decreases |cuts|
  {
    if cuts != [] {
      var ws := ApplyWrites(m, mutation);
      var n := if cuts[0] <= |ws| then cuts[0] else |ws|;
      ApplicationStays(d, mutation, m);
      StaysAt(d, mutation, m, ws, n);
      CutsStayBetween(d, mutation, Run(m, ws[..n]), cuts[1..]);
    }
  }

  /** Replay convergence: any number of partial replays, each cut anywhere, and then one complete
      open give the same store as a single uninterrupted application. */
  lemma {:induction false} PartialReplaysConverge(d: Disk, mutation: MutationJournal, cuts: seq<nat>)
    requires Consistent(d) && Admissible(d, mutation) && FitsShards(d, mutation)
    ensures Opened(RepeatedlyCut(d.(journal := Some(mutation)), mutation, cuts)) == Applied(d, mutation)
  {
    StartIsBetween(d, mutation);
    CutsStayBetween(d, mutation, d.(journal := Some(mutation)), cuts);
    BetweenOpens(d, mutation, RepeatedlyCut(d.(journal := Some(mutation)), mutation, cuts));
  }
}
