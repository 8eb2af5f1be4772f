/** The unjournaled `insert_raw_once`: no journal to replay, only the order of its writes and the
    completeness probe on open. The timeline is written last, so an accepted disk is complete. */
module StoreInsertion {
  import opened Domain
  import opened Listings
  import opened RawIndexes
  import opened VectorShards
  import opened StoreModel
  import opened StoreEffects
  import opened StoreInvariants
  import opened StoreReplay
  import opened StoreRecovery

  ghost predicate SameTimeline(a: IndexFiles, b: IndexFiles) {
    forall day :: (TimelineShard(day) in a <==> TimelineShard(day) in b) && Read(a, TimelineShard(day)) == Read(b, TimelineShard(day))
  }

  /** The caller inserts under a free key, and a known id only as a new version of the same node. */
  ghost predicate Insertable(d: Disk, node: RawNode) {
    && Consistent(d)
    && (node.id in d.raw ==> SameIdentity(d.raw[node.id], node))
    && KeyFree(d.rawReceipts, node.id, node.operationKey)
  }

  /** A disk after at least one write of the insertion. */
  ghost predicate InsertImage(d: Disk, node: RawNode, m: Disk) {
    var raw1 := d.raw[node.id := node];
    && m.raw == raw1
    && (m.rawReceipts == d.rawReceipts || m.rawReceipts == AddReceipt(d.rawReceipts, node.id, node.operationKey))
    && FilesBetween(d.raw, raw1, m.files)
    && (SameTimeline(d.files, m.files) || m == RawInserted(d, node))
    && m == d.(raw := m.raw, rawReceipts := m.rawReceipts, files := m.files)
  }

  function InsertionImage(d: Disk, node: RawNode, n: nat): Disk
    requires n <= |InsertRawWrites(d, node)|
  {
    Run(d, InsertRawWrites(d, node)[..n])
  }

  lemma PrefixOfConcat(a: seq<Write>, b: seq<Write>, n: nat)
    requires n <= |a| + |b|
    ensures (a + b)[..n] == if n <= |a| then a[..n] else a + b[..n - |a|]
  {
  }

  lemma OffTimeline(files: IndexFiles, node: RawNode, key: IndexKey)
    requires !key.TimelineShard?
    ensures SameTimeline(files, SyncFile(files, node, key))
  {
    SyncFileFrame(files, node, key);
  }

  lemma SameTimelineTransitive(a: IndexFiles, b: IndexFiles, c: IndexFiles)
    requires SameTimeline(a, b) && SameTimeline(b, c)
    ensures SameTimeline(a, c)
  {
  }

  /** The disk has the index files of some prefix of the synchronisation that stops before the
      timeline. */
  ghost predicate PartlySynced(d: Disk, node: RawNode, raw0: RawBodies, m: Disk) {
    m == d.(files := m.files) && SameTimeline(d.files, m.files) && FilesBetween(raw0, raw0[node.id := node], m.files)
  }

  lemma PartlySyncedStep(raw0: RawBodies, d: Disk, node: RawNode, key: IndexKey)
    requires Keyed(raw0) && (node.id in raw0 ==> SameIdentity(raw0[node.id], node))
    requires FilesBetween(raw0, raw0[node.id := node], d.files)
    requires !key.TimelineShard? && (IsBacklog(key) || Belongs(node, key))
    ensures PartlySynced(d, node, raw0, d.(files := SyncFile(d.files, node, key)))
  {
    OneNodeAddsOnly(raw0, node);
    SyncStep(raw0, raw0[node.id := node], d.files, node.id, key);
    OffTimeline(d.files, node, key);
  }

  predicate TimelineLast(node: RawNode, keys: seq<IndexKey>) {
    && keys != []
    && forall i | 0 <= i < |keys| ::
         (keys[i].TimelineShard? <==> i == |keys| - 1) && (IsBacklog(keys[i]) || Belongs(node, keys[i]))
  }

  /** A proper prefix of the index writes leaves the timeline alone; the timeline is the last file. */
  lemma {:induction false} SyncPrefix(raw0: RawBodies, d: Disk, node: RawNode, keys: seq<IndexKey>, n: nat)
    requires Keyed(raw0) && (node.id in raw0 ==> SameIdentity(raw0[node.id], node))
    requires FilesBetween(raw0, raw0[node.id := node], d.files)
    requires TimelineLast(node, keys) && n < |SyncWrites(d.files, node, keys)|
    ensures PartlySynced(d, node, raw0, Run(d, SyncWrites(d.files, node, keys)[..n]))
    decreases |keys|
  {
    var first := FileWrites(d.files, node, keys[0]);
    var next := d.(files := SyncFile(d.files, node, keys[0]));
    var rest := SyncWrites(next.files, node, keys[1..]);
    if n < |first| {
      assert (first + rest)[..n] == [];
    } else if |keys| > 1 {
      PartlySyncedStep(raw0, d, node, keys[0]);
      RunFile(d, node, keys[0]);
      SyncPrefix(raw0, next, node, keys[1..], n - |first|);
      RunPrefix(d, first, rest, n);
      PartlySyncedTransitive(raw0, d, node, next, Run(next, rest[..n - |first|]));
    }
  }

  lemma PartlySyncedTransitive(raw0: RawBodies, d: Disk, node: RawNode, next: Disk, m: Disk)
    requires PartlySynced(d, node, raw0, next) && PartlySynced(next, node, raw0, m)
    ensures PartlySynced(d, node, raw0, m)
  {
    SameTimelineTransitive(d.files, next.files, m.files);
  }

  lemma {:induction false} RunPrefix(d: Disk, a: seq<Write>, b: seq<Write>, n: nat)
    requires |a| <= n <= |a| + |b|
    ensures Run(d, (a + b)[..n]) == Run(Run(d, a), b[..n - |a|])
  {
    assert (a + b)[..n] == a + b[..n - |a|];
    RunConcat(d, a, b[..n - |a|]);
  }

  lemma TimelineKeyLast(node: RawNode)
    ensures TimelineLast(node, KeysOf(node))
  {
  }

  lemma TouchedIsSame(d: Disk, node: RawNode)
    requires d.metadata
    ensures BodyAndIndexes(d, node) == RawInserted(d, node)
  {
  }

  /** Every crash point after the first write is an insertion image. */
  lemma InsertionPrefix(d: Disk, node: RawNode, n: nat)
    requires Insertable(d, node) && 0 < n <= |InsertRawWrites(d, node)|
    ensures InsertImage(d, node, InsertionImage(d, node, n))
  {
    var raw1 := d.raw[node.id := node];
    OneNodeAddsOnly(d.raw, node);
    ExactIsBetween(d.raw, raw1, d.files);
    SyncSettles(d.raw, raw1, d.files, node.id);
    TouchedIsSame(d, node);
    assert InsertImage(d, node, RawInserted(d, node));
    var front := [PutRaw(node)] + RawReceiptWrites(node);
    var sync := SyncWrites(d.files, node, KeysOf(node));
    PrefixOfConcat(front + sync, [TouchMetadata], n);
    if n > |front + sync| {
      assert InsertRawWrites(d, node)[..n] == InsertRawWrites(d, node);
      RunInsertRaw(d, node);
    } else if n == |front + sync| {
      assert (front + sync)[..n] == BodyAndIndexWrites(d, node);
      RunBodyAndIndexes(d, node);
    } else {
      InsertionFront(d, node, n);
    }
  }

  lemma {:induction false} InsertionFront(d: Disk, node: RawNode, n: nat)
    requires Insertable(d, node) && 0 < n < |BodyAndIndexWrites(d, node)|
    ensures InsertImage(d, node, Run(d, BodyAndIndexWrites(d, node)[..n]))
  {
    hide SyncWrites, FilesBetween, IndexesExact;
    var body, receipt := [PutRaw(node)], RawReceiptWrites(node);
    var sync := SyncWrites(d.files, node, KeysOf(node));
    OneNodeAddsOnly(d.raw, node);
    ExactIsBetween(d.raw, d.raw[node.id := node], d.files);
    RunOne(d, PutRaw(node));
    RunConcat(d, body, receipt);
    RunRawReceipt(Perform(d, PutRaw(node)), node);
    if n <= |body + receipt| {
      assert (body + receipt + sync)[..n] == body || (body + receipt + sync)[..n] == body + receipt;
    } else {
      RunPrefix(d, body + receipt, sync, n);
      InsertionSync(d, node, n - |body + receipt|);
    }
  }

  lemma {:induction false} InsertionSync(d: Disk, node: RawNode, n: nat)
    requires Insertable(d, node) && n < |SyncWrites(d.files, node, KeysOf(node))|
    ensures var d2 := d.(raw := d.raw[node.id := node], rawReceipts := AddReceipt(d.rawReceipts, node.id, node.operationKey));
            InsertImage(d, node, Run(d2, SyncWrites(d.files, node, KeysOf(node))[..n]))
  {
    var d2 := d.(raw := d.raw[node.id := node], rawReceipts := AddReceipt(d.rawReceipts, node.id, node.operationKey));
    OneNodeAddsOnly(d.raw, node);
    ExactIsBetween(d.raw, d.raw[node.id := node], d.files);
    TimelineKeyLast(node);
    SyncPrefix(d.raw, d2, node, KeysOf(node), n);
  }

  /** A body that no timeline shard lists fails the probe. */
  lemma MissingFromTimeline(d: Disk, node: RawNode, m: Disk)
    requires Insertable(d, node) && node.id !in d.raw
    requires node.id in m.raw && SameTimeline(d.files, m.files)
    ensures !TimelineCovers(m)
  {
    forall day, e | TimelineShard(day) in m.files && e in m.files[TimelineShard(day)]
      ensures e.id != node.id
    {
      var key := TimelineShard(day);
      assert key in d.files && Read(d.files, key) == Read(m.files, key);
      assert FileExact(d.raw, d.files, key);
      InListing(Members(d.raw, key));
      assert e in Members(d.raw, key);
    }
  }

  lemma ImageIntact(d: Disk, node: RawNode, m: Disk)
    requires Insertable(d, node) && InsertImage(d, node, m)
    ensures Intact(m)
    ensures ReceiptsExact(RawKeys(m.raw), AddReceipt(d.rawReceipts, node.id, node.operationKey))
  {
    ConsistentIntact(d);
    AddReceiptExact(RawKeys(d.raw), d.rawReceipts, node.id, node.operationKey);
    assert RawKeys(m.raw) == RawKeys(d.raw)[node.id := node.operationKey];
    ExactKeysDistinct(RawKeys(m.raw), AddReceipt(d.rawReceipts, node.id, node.operationKey));
  }

  /** Same entry in every index file, before and after. */
  predicate SameEntries(a: RawNode, b: RawNode) {
    SameIdentity(a, b) && IsUndistilled(a) == IsUndistilled(b)
    && (IsUndistilled(a) && a.overflow.wasPushedOutOfSession <==> IsUndistilled(b) && b.overflow.wasPushedOutOfSession)
  }

  lemma InsertedConsistent(d: Disk, node: RawNode)
    requires Insertable(d, node)
    ensures Consistent(RawInserted(d, node))
  {
    SyncRefinesRebuild(d.raw, d.files, node);
    AddReceiptExact(RawKeys(d.raw), d.rawReceipts, node.id, node.operationKey);
    assert RawKeys(d.raw[node.id := node]) == RawKeys(d.raw)[node.id := node.operationKey];
  }

  /** Probe soundness for a fresh id: if a crashed insertion is still accepted on open, every
      secondary index and the receipt are already what a rebuild would write. */
  lemma InsertionQuiet(d: Disk, node: RawNode, m: Disk)
    requires Insertable(d, node) && node.id !in d.raw && InsertImage(d, node, m)
    ensures Quiet(m) && CoreOf(m) == CoreOf(RawInserted(d, node))
    ensures ProbesPass(m) ==> m == RawInserted(d, node)
  {
    ImageIntact(d, node, m);
    InsertedConsistent(d, node);
    if m != RawInserted(d, node) {
      MissingFromTimeline(d, node, m);
    } else {
      ConsistentQuiet(m);
    }
  }

  /** Re-inserting a known id: the probe accepts every crash image, since the timeline lists it. */
  lemma ReinsertionAccepted(d: Disk, node: RawNode, m: Disk)
    requires Insertable(d, node) && node.id in d.raw && InsertImage(d, node, m)
    ensures ProbesPass(m) && Opened(m) == m
  {
    var raw1 := d.raw[node.id := node];
    forall key: IndexKey | !IsBacklog(key)
      ensures FileExact(raw1, m.files, key)
    {
      OneNodeAddsOnly(d.raw, node);
      ChangedLifecycleOnly(d.raw, raw1, key);
      assert FileBetween(d.raw, raw1, m.files, key);
    }
    forall id | id in m.raw
      ensures exists day, e :: TimelineShard(day) in m.files && e in m.files[TimelineShard(day)] && e.id == id
    {
      var key := TimelineShard(TimelineBucket(raw1[id].timestamp));
      assert FileExact(raw1, m.files, key);
      assert EntryOf(raw1[id]) in Members(raw1, key);
      InListing(Members(raw1, key));
      assert EntryOf(raw1[id]) in m.files[key];
    }
    ExactCovered(d.rawVectors);
    ExactCovered(d.abstractVectors);
    assert m.(metadata := true) == m;
  }

  lemma SameBacklogs(d: Disk, node: RawNode)
    requires Insertable(d, node) && node.id in d.raw
    ensures SameEntries(d.raw[node.id], node)
       <==> forall key | IsBacklog(key) :: Members(d.raw, key) == Members(d.raw[node.id := node], key)
  {
    var raw1 := d.raw[node.id := node];
    forall key | IsBacklog(key)
      ensures Belongs(d.raw[node.id], key) == Belongs(node, key) <==> Members(d.raw, key) == Members(raw1, key)
    {
      SettledMember(d.raw, node.id, key);
      SettledMember(raw1, node.id, key);
      if Belongs(d.raw[node.id], key) == Belongs(node, key) {
        SameBacklog(d.raw, node, key);
      }
    }
    assert IsBacklog(Backlog) && IsBacklog(PushedBacklog);
    assert Belongs(d.raw[node.id], Backlog) == IsUndistilled(d.raw[node.id]);
    assert forall key | IsBacklog(key) :: key == Backlog || key == PushedBacklog;
  }

  lemma SameBacklog(raw: RawBodies, node: RawNode, key: IndexKey)
    requires Keyed(raw) && node.id in raw && SameIdentity(raw[node.id], node) && Belongs(raw[node.id], key) == Belongs(node, key)
    ensures Members(raw, key) == Members(raw[node.id := node], key)
  {
    var raw1 := raw[node.id := node];
    forall x
      ensures x in Members(raw, key) <==> x in Members(raw1, key)
    {
      if x in Members(raw, key) { MembersFixIds(raw, key); assert Belongs(raw1[x.id], key); }
      if x in Members(raw1, key) { MembersFixIds(raw1, key); assert Belongs(raw[x.id], key); }
    }
  }

  lemma {:induction false} ReinsertionExact(d: Disk, node: RawNode, m: Disk)
    requires Insertable(d, node) && node.id in d.raw && InsertImage(d, node, m) && SameEntries(d.raw[node.id], node)
    ensures Consistent(m)
  {
    var raw1 := d.raw[node.id := node];
    SameBacklogs(d, node);
    OneNodeAddsOnly(d.raw, node);
    forall key: IndexKey
      ensures FileExact(raw1, m.files, key)
    {
      assert FileBetween(d.raw, raw1, m.files, key);
      if IsBacklog(key) {
        ListingUnique(m.files[key], Members(raw1, key));
      } else {
        ChangedLifecycleOnly(d.raw, raw1, key);
      }
    }
    assert RawKeys(raw1) == RawKeys(d.raw);
    assert RawKeys(d.raw)[node.id] == node.operationKey;
    if node.operationKey.Some? {
      assert d.rawReceipts[RECEIPT_DIGEST(node.operationKey.value)] == StoredId(node.id, node.operationKey.value);
    }
    assert AddReceipt(d.rawReceipts, node.id, node.operationKey) == d.rawReceipts;
  }

  /** When the writes of an unjournaled insertion, past its receipt lookup, are crash-safe: at every crash
      point the reopened store is consistent exactly when the id is new or no backlog entry changes. A known
      id whose backlog membership changes can leave a stale backlog that the probe accepts. */
  lemma InsertionCrashSafeIff(d: Disk, node: RawNode)
    requires Insertable(d, node)
    ensures (forall n | 0 < n <= |InsertRawWrites(d, node)| :: Consistent(Opened(InsertionImage(d, node, n))))
       <==> node.id !in d.raw || SameEntries(d.raw[node.id], node)
  {
    if node.id !in d.raw || SameEntries(d.raw[node.id], node) {
      forall n | 0 < n <= |InsertRawWrites(d, node)|
        ensures Consistent(Opened(InsertionImage(d, node, n)))
      {
        var m := InsertionImage(d, node, n);
        InsertionPrefix(d, node, n);
        if node.id !in d.raw {
          InsertionQuiet(d, node, m);
          OpenQuiet(m);
        } else {
          ReinsertionAccepted(d, node, m);
          ReinsertionExact(d, node, m);
        }
      }
    } else {
      assert InsertRawWrites(d, node)[..1] == [PutRaw(node)];
      RunOne(d, PutRaw(node));
      InsertionPrefix(d, node, 1);
      var m := InsertionImage(d, node, 1);
      ReinsertionAccepted(d, node, m);
      SameBacklogs(d, node);
      var key :| IsBacklog(key) && Members(d.raw, key) != Members(m.raw, key);
      assert FileExact(d.raw, d.files, key);
      assert !FileExact(m.raw, m.files, key) by {
        assert Elements(Listing(Members(d.raw, key))) != Elements(Listing(Members(m.raw, key)));
      }
    }
  }

  /** Crash atomicity of `insert_raw_once` with a fresh id: before the first write nothing happened,
      after it the reopened store is the store after the whole call, up to manifest order. */
  lemma InsertionCrashAtomic(d: Disk, node: RawNode, n: nat)
    requires Insertable(d, node) && node.id !in d.raw && n <= |InsertRawWrites(d, node)|
    ensures n == 0 ==> Opened(InsertionImage(d, node, n)) == d
    ensures n > 0 ==> SameStore(Opened(InsertionImage(d, node, n)), RawInserted(d, node))
  {
    var m := InsertionImage(d, node, n);
    if n == 0 {
      assert InsertRawWrites(d, node)[..0] == [];
      OpenConsistent(d);
    } else {
      InsertionPrefix(d, node, n);
      InsertionQuiet(d, node, m);
      InsertedConsistent(d, node);
      OpenQuiet(m);
      CoreDetermines(Opened(m), RawInserted(d, node));
      if ProbesPass(m) {
        OpenConsistent(m);
      } else {
        assert m.(metadata := true) == m;
        RebuildKeepsExact(d.rawVectors);
        RebuildKeepsExact(d.abstractVectors);
      }
    }
  }

  lemma ReceiptsUnique(keys: OperationKeys, a: Receipts, b: Receipts)
    requires ReceiptsExact(keys, a) && ReceiptsExact(keys, b)
    ensures a == b
  {
    assert forall digest | digest in a :: digest in b && a[digest] == b[digest];
    assert forall digest | digest in b :: digest in a;
  }

  /** A consistent disk is determined by its bodies and edges, but for the embedding shards. */
  lemma CoreDetermines(a: Disk, b: Disk)
    requires Consistent(a) && Consistent(b) && CoreOf(a) == CoreOf(b)
    ensures a == b.(rawVectors := a.rawVectors, abstractVectors := a.abstractVectors)
  {
    ExactUnique(a.raw, a.files, b.files);
    ReceiptsUnique(RawKeys(a.raw), a.rawReceipts, b.rawReceipts);
    ReceiptsUnique(AbstractKeys(a.abstracts), a.abstractReceipts, b.abstractReceipts);
  }
}
