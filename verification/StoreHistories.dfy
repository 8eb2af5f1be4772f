/** Whole histories of a store: calls that return, calls that crash after any number of writes, and
    reopenings that are themselves interrupted any number of times. */
module StoreHistories {
  import opened Domain
  import opened Listings
  import opened RawIndexes
  import opened VectorShards
  import opened StoreModel
  import opened StoreEffects
  import opened StoreInvariants
  import opened StoreReplay
  import opened StoreRecovery
  import opened StoreInsertion
  import opened StoreProjections
  import opened StoreAbstracts

  // ---------------------------------------------------------------- interrupted rebuilds

  ghost predicate ReceiptsBetween(a: Receipts, b: Receipts, m: Receipts) {
    && (forall digest | digest in m :: (digest in a && m[digest] == a[digest]) || (digest in b && m[digest] == b[digest]))
    && (forall digest | digest in a :: digest in m)
  }

  /** A rebuild of `d` interrupted anywhere after the index root was reset: the version marker is
      absent, bodies are untouched but for embedding bodies already evicted. */
  ghost predicate MidRebuild(d: Disk, m: Disk) {
    && m.raw == d.raw && m.abstracts == d.abstracts && m.graph == d.graph && m.journal == d.journal
    && m.indexVersion == None
    && ReceiptsBetween(d.rawReceipts, RebuiltReceipts(RawKeys(d.raw), d.rawReceipts), m.rawReceipts)
    && ReceiptsBetween(d.abstractReceipts, RebuiltReceipts(AbstractKeys(d.abstracts), d.abstractReceipts), m.abstractReceipts)
    && Within(RebuiltVectors(d.rawVectors.bodies).bodies, m.rawVectors.bodies)
    && Within(m.rawVectors.bodies, d.rawVectors.bodies)
    && Within(RebuiltVectors(d.abstractVectors.bodies).bodies, m.abstractVectors.bodies)
    && Within(m.abstractVectors.bodies, d.abstractVectors.bodies)
  }

  lemma ReceiptsRestart(keys: OperationKeys, a: Receipts, m: Receipts)
    requires ReceiptsBetween(a, RebuiltReceipts(keys, a), m)
    ensures RebuiltReceipts(keys, m) == RebuiltReceipts(keys, a)
  {
    var r, q := RebuiltReceipts(keys, a), RebuiltReceipts(keys, m);
    forall digest
      ensures digest in q <==> digest in r
      ensures digest in r ==> q[digest] == r[digest]
    {
      assert digest in m ==> digest in a || digest in OwnedDigests(keys);
    }
  }

  lemma ReceiptsBetweenSound(keys: OperationKeys, a: Receipts, m: Receipts)
    requires ReceiptsSound(keys, a) && KeysDistinct(keys) && ReceiptsBetween(a, RebuiltReceipts(keys, a), m)
    ensures ReceiptsSound(keys, m)
  {
    RebuiltReceiptsSound(keys, a);
  }

  /** Rebuild is restartable: starting over from any interrupted rebuild ends in the same disk as the
      uninterrupted one, manifests and surviving embedding bodies included. */
  lemma RebuildRestartable(d: Disk, m: Disk)
    requires MidRebuild(d, m)
    ensures RebuiltDisk(m) == RebuiltDisk(d)
  {
    ReceiptsRestart(RawKeys(d.raw), d.rawReceipts, m.rawReceipts);
    ReceiptsRestart(AbstractKeys(d.abstracts), d.abstractReceipts, m.abstractReceipts);
    RebuildRestarts(d.rawVectors.bodies, m.rawVectors.bodies);
    RebuildRestarts(d.abstractVectors.bodies, m.abstractVectors.bodies);
  }

  lemma MidRebuildQuiet(d: Disk, m: Disk)
    requires Intact(d) && d.journal == None && MidRebuild(d, m)
    ensures Quiet(m) && CoreOf(m) == CoreOf(d) && !ProbesPass(m)
  {
    ReceiptsBetweenSound(RawKeys(d.raw), d.rawReceipts, m.rawReceipts);
    ReceiptsBetweenSound(AbstractKeys(d.abstracts), d.abstractReceipts, m.abstractReceipts);
  }

  // ---------------------------------------------------------------- interrupted openings

  /** A disk exposed by a crash while `m` is being opened. */
  ghost predicate OpenImage(m: Disk, image: Disk) {
    var replayed := Replayed(m).(metadata := true);
    || (exists n | 0 <= n <= |ReplayWrites(m)| :: image == Run(m, ReplayWrites(m)[..n]))
    || image == replayed
    || (!ProbesPass(replayed) && (MidRebuild(replayed, image) || image == RebuiltDisk(replayed)))
  }

  ghost predicate Pending(core: Core, d0: Disk, mutation: MutationJournal, m: Disk) {
    Consistent(d0) && Admissible(d0, mutation) && Between(d0, mutation, m) && CoreOf(Applied(d0, mutation)) == core
  }

  /** Opening `m`, however often interrupted, must end with the bodies and edges of `core`. */
  ghost predicate Recoverable(core: Core, m: Disk) {
    (Quiet(m) && CoreOf(m) == core) || exists d0, mutation :: Pending(core, d0, mutation, m)
  }

  lemma RecoverableOpens(core: Core, m: Disk)
    requires Recoverable(core, m)
    ensures Consistent(Opened(m)) && CoreOf(Opened(m)) == core
  {
    if Quiet(m) && CoreOf(m) == core {
      OpenQuiet(m);
    } else {
      var d0, mutation :| Pending(core, d0, mutation, m);
      BetweenOpens(d0, mutation, m);
    }
  }

  lemma QuietStays(core: Core, m: Disk, image: Disk)
    requires Quiet(m) && CoreOf(m) == core && OpenImage(m, image)
    ensures Quiet(image) && CoreOf(image) == core
  {
    var replayed := m.(metadata := true);
    assert ReplayWrites(m) == [] && Run(m, []) == m;
    assert Quiet(replayed) by {
      assert ProbesPass(replayed) <==> ProbesPass(m);
      assert replayed.(metadata := true) == replayed;
    }
    if !ProbesPass(replayed) {
      if MidRebuild(replayed, image) { MidRebuildQuiet(replayed, image); }
      RebuildConsistent(replayed);
      ConsistentQuiet(RebuiltDisk(replayed));
    }
  }

  lemma {:induction false} PendingStays(core: Core, d0: Disk, mutation: MutationJournal, m: Disk, image: Disk)
    requires Pending(core, d0, mutation, m) && OpenImage(m, image)
    ensures Recoverable(core, image)
  {
    hide Applied, ApplyWrites, Between, Admissible, Consistent, MidRebuild, RebuiltDisk, ProbesPass, Intact, Recoverable;
    var again := Applied(m, mutation).(journal := None);
    ReplayedQuiet(d0, mutation, m);
    PendingJournal(core, d0, mutation, m);
    assert Replayed(m).(metadata := true) == again;
    if n: nat :| n <= |ReplayWrites(m)| && image == Run(m, ReplayWrites(m)[..n]) {
      PendingReplay(core, d0, mutation, m, n);
    } else {
      if image != again { OpenImageOfQuiet(again, image); }
      QuietStays(core, again, image);
      QuietRecoverable(core, image);
    }
  }

  lemma PendingJournal(core: Core, d0: Disk, mutation: MutationJournal, m: Disk)
    requires Pending(core, d0, mutation, m)
    ensures m.journal == Some(mutation)
  {
  }

  lemma QuietRecoverable(core: Core, m: Disk)
    requires Quiet(m) && CoreOf(m) == core
    ensures Recoverable(core, m)
  {
  }

  /** A replay cut anywhere is still pending; cut after its last write it is quiet. */
  lemma {:induction false} PendingReplay(core: Core, d0: Disk, mutation: MutationJournal, m: Disk, n: nat)
    requires Pending(core, d0, mutation, m) && n <= |ReplayWrites(m)|
    ensures Recoverable(core, Run(m, ReplayWrites(m)[..n]))
  {
    hide Applied, ApplyWrites, Between, Admissible, Consistent, Intact, ProbesPass;
    var ws := ApplyWrites(m, mutation);
    PendingJournal(core, d0, mutation, m);
    ApplicationStays(d0, mutation, m);
    if n <= |ws| {
      assert ReplayWrites(m)[..n] == ws[..n];
      StaysAt(d0, mutation, m, ws, n);
      assert Pending(core, d0, mutation, Run(m, ws[..n]));
    } else {
      assert ReplayWrites(m)[..n] == ws + [RemoveJournal];
      RunSnoc(m, ws, RemoveJournal);
      ReplayedQuiet(d0, mutation, m);
    }
  }

  lemma OpenImageOfQuiet(again: Disk, image: Disk)
    requires again.journal == None && again.metadata
    requires !ProbesPass(again) && (MidRebuild(again, image) || image == RebuiltDisk(again))
    ensures OpenImage(again, image)
  {
    assert Replayed(again).(metadata := true) == again;
  }

  /** Crashing during an opening loses nothing: the exposed disk still recovers to the same store. */
  lemma RecoverableStays(core: Core, m: Disk, image: Disk)
    requires Recoverable(core, m) && OpenImage(m, image)
    ensures Recoverable(core, image)
  {
    if Quiet(m) && CoreOf(m) == core {
      QuietStays(core, m, image);
    } else {
      var d0, mutation :| Pending(core, d0, mutation, m);
      PendingStays(core, d0, mutation, m, image);
    }
  }

  // ---------------------------------------------------------------- calls

  datatype Call =
    | CommitRawCall(node: RawNode, embedding: seq<real>)
    | InsertRawCall(node: RawNode)
    | CommitAbstractCall(abstractNode: AbstractNode, abstractEmbedding: seq<real>)
    | UpdateLifecycleCall(ids: seq<nat>, patch: RawLifecyclePatch)
    | InsertAbstractCall(abstractNode: AbstractNode)
    | IndexCall(kind: Kind, record: StoredEmbedding)
    | IndexGraphCall(abstractNode: AbstractNode)

  /** What the receipt lookup at the head of every keyed write finds. */
  datatype Lookup = Free | Collision | Existing(id: nat)

  function LookupReceipt(receipts: Receipts, ids: set<nat>, key: Option<string>): Lookup {
    if key.None? || RECEIPT_DIGEST(key.value) !in receipts then Free
    else
      var record := receipts[RECEIPT_DIGEST(key.value)];
      if record.operationKey != key.value then Collision
      else if record.id in ids then Existing(record.id)
      else Free
  }

  function CallWrites(d: Disk, call: Call): seq<Write> {
    match call
    case CommitRawCall(node, embedding) =>
      if LookupReceipt(d.rawReceipts, d.raw.Keys, node.operationKey).Free? then MutateWrites(d, CommitRaw(node, embedding)) else []
    case InsertRawCall(node) =>
      if LookupReceipt(d.rawReceipts, d.raw.Keys, node.operationKey).Free? then InsertRawWrites(d, node) else []
    case CommitAbstractCall(node, embedding) =>
      if LookupReceipt(d.abstractReceipts, d.abstracts.Keys, node.operationKey).Free? then
        MutateWrites(d, CommitAbstract(node, embedding))
      else []
    case UpdateLifecycleCall(ids, patch) => MutateWrites(d, UpdateRawLifecycle(ids, patch))
    case InsertAbstractCall(node) =>
      if LookupReceipt(d.abstractReceipts, d.abstracts.Keys, node.operationKey).Free? then InsertAbstractWrites(node) else []
    case IndexCall(kind, record) => IndexWrites(d, kind, record)
    case IndexGraphCall(node) => IndexGraphWrites(node)
  }

  /** Ids identify nodes: a raw id fixes timestamp, session, loop and key, an embedding id its
      session. The two unjournaled insertions are admitted exactly where they are crash-safe
      (`InsertionCallCrashSafeIff`, `AbstractCallCrashSafeIff`): a raw one brings a fresh id or changes no
      backlog entry, an abstract one brings no key of its own. */
  ghost predicate AdmissibleCall(d: Disk, call: Call) {
    match call
    case CommitRawCall(node, embedding) =>
      (node.id in d.raw ==> SameIdentity(d.raw[node.id], node)) && SessionStable(d.rawVectors, RawRecord(node, embedding))
    case InsertRawCall(node) =>
      && (node.id in d.raw ==> SameIdentity(d.raw[node.id], node))
      && (LookupReceipt(d.rawReceipts, d.raw.Keys, node.operationKey).Free? ==> node.id !in d.raw || SameEntries(d.raw[node.id], node))
    case CommitAbstractCall(node, embedding) =>
      (node.id in d.abstracts ==> d.abstracts[node.id].operationKey == node.operationKey)
      && SessionStable(d.abstractVectors, AbstractRecord(node, embedding))
    case UpdateLifecycleCall(_, _) => true
    case InsertAbstractCall(node) =>
      && (node.id in d.abstracts ==> d.abstracts[node.id].operationKey == node.operationKey)
      && (LookupReceipt(d.abstractReceipts, d.abstracts.Keys, node.operationKey).Free? ==> node.operationKey.None?)
    case IndexCall(kind, record) => SessionStable(VectorsOf(d, kind), record)
    case IndexGraphCall(_) => true
  }

  ghost predicate KeyTaken(keys: OperationKeys, key: Option<string>) {
    key.Some? && exists id :: Owns(keys, RECEIPT_DIGEST(key.value), id)
  }

  /** The effect of a whole call on the bodies and edges. */
  ghost function CallEffect(core: Core, call: Call): Core {
    match call
    case CommitRawCall(node, _) => RawEffect(core, node)
    case InsertRawCall(node) => RawEffect(core, node)
    case CommitAbstractCall(node, _) =>
      if KeyTaken(AbstractKeys(core.abstracts), node.operationKey) then core
      else core.(abstracts := core.abstracts[node.id := node], graph := core.graph[node.id := StoredEdgesOf(node)])
    case UpdateLifecycleCall(ids, patch) => core.(raw := PatchedRaw(core.raw, ids, patch))
    case InsertAbstractCall(node) =>
      if KeyTaken(AbstractKeys(core.abstracts), node.operationKey) then core
      else core.(abstracts := core.abstracts[node.id := node])
    case IndexCall(_, _) => core
    case IndexGraphCall(node) => core.(graph := core.graph[node.id := StoredEdgesOf(node)])
  }

  ghost function RawEffect(core: Core, node: RawNode): Core {
    if KeyTaken(RawKeys(core.raw), node.operationKey) then core else core.(raw := core.raw[node.id := node])
  }

  /** On exact receipts the lookup is free exactly when no body's key has this digest, and a found
      body carries the key. */
  lemma LookupDecides(keys: OperationKeys, receipts: Receipts, key: Option<string>)
    requires ReceiptsExact(keys, receipts)
    ensures LookupReceipt(receipts, keys.Keys, key).Free? <==> !KeyTaken(keys, key)
    ensures LookupReceipt(receipts, keys.Keys, key).Free? && key.Some? ==> RECEIPT_DIGEST(key.value) !in receipts
    ensures var r := LookupReceipt(receipts, keys.Keys, key); r.Existing? ==> r.id in keys && keys[r.id] == key
  {
    if key.Some? && RECEIPT_DIGEST(key.value) in receipts {
      var record := receipts[RECEIPT_DIGEST(key.value)];
      assert Owns(keys, RECEIPT_DIGEST(key.value), record.id);
    }
  }

  lemma LookupRaw(d: Disk, key: Option<string>)
    requires Consistent(d)
    ensures LookupReceipt(d.rawReceipts, d.raw.Keys, key).Free? <==> !KeyTaken(RawKeys(d.raw), key)
    ensures LookupReceipt(d.rawReceipts, d.raw.Keys, key).Free? && key.Some? ==> RECEIPT_DIGEST(key.value) !in d.rawReceipts
    ensures var r := LookupReceipt(d.rawReceipts, d.raw.Keys, key);
            r.Existing? ==> r.id in d.raw && d.raw[r.id].operationKey == key
  {
    assert RawKeys(d.raw).Keys == d.raw.Keys;
    LookupDecides(RawKeys(d.raw), d.rawReceipts, key);
  }

  lemma LookupAbstract(d: Disk, key: Option<string>)
    requires Consistent(d)
    ensures LookupReceipt(d.abstractReceipts, d.abstracts.Keys, key).Free? <==> !KeyTaken(AbstractKeys(d.abstracts), key)
    ensures LookupReceipt(d.abstractReceipts, d.abstracts.Keys, key).Free? && key.Some? ==>
              RECEIPT_DIGEST(key.value) !in d.abstractReceipts
  {
    assert AbstractKeys(d.abstracts).Keys == d.abstracts.Keys;
    LookupDecides(AbstractKeys(d.abstracts), d.abstractReceipts, key);
  }

  /** The disk a crash after `n` writes of the call exposes. */
  function CallImage(d: Disk, call: Call, n: nat): Disk
    requires n <= |CallWrites(d, call)|
  {
    Run(d, CallWrites(d, call)[..n])
  }

  lemma MutationRecoverable(d: Disk, mutation: MutationJournal, n: nat)
    requires Consistent(d) && Admissible(d, mutation) && n <= |MutateWrites(d, mutation)|
    ensures var m := MutationImage(d, mutation, n);
            && Recoverable(if n == 0 then CoreOf(d) else CoreOf(Applied(d, mutation)), m)
            && (n == |MutateWrites(d, mutation)| ==> Consistent(m))
  {
    MutationPrefix(d, mutation, n);
    AppliedConsistent(d, mutation);
    ConsistentQuiet(d);
    ConsistentQuiet(Applied(d, mutation));
    var m := MutationImage(d, mutation, n);
    if 0 < n < |MutateWrites(d, mutation)| {
      assert Pending(CoreOf(Applied(d, mutation)), d, mutation, m);
    }
  }

  lemma InsertedQuiet(d: Disk, node: RawNode, m: Disk)
    requires Insertable(d, node) && (node.id !in d.raw || SameEntries(d.raw[node.id], node)) && InsertImage(d, node, m)
    ensures Quiet(m) && CoreOf(m) == CoreOf(RawInserted(d, node))
  {
    if node.id !in d.raw {
      InsertionQuiet(d, node, m);
    } else {
      ReinsertionExact(d, node, m);
      ConsistentQuiet(m);
    }
  }

  lemma InsertionRecoverable(d: Disk, node: RawNode, n: nat)
    requires Insertable(d, node) && (node.id !in d.raw || SameEntries(d.raw[node.id], node)) && n <= |InsertRawWrites(d, node)|
    ensures var m := InsertionImage(d, node, n);
            && Recoverable(if n == 0 then CoreOf(d) else CoreOf(RawInserted(d, node)), m)
            && (n == |InsertRawWrites(d, node)| ==> Consistent(m))
  {
    if n == 0 {
      assert InsertRawWrites(d, node)[..0] == [];
      ConsistentQuiet(d);
    } else {
      InsertionPrefix(d, node, n);
      InsertedQuiet(d, node, InsertionImage(d, node, n));
      if n == |InsertRawWrites(d, node)| {
        assert InsertRawWrites(d, node)[..n] == InsertRawWrites(d, node);
        RunInsertRaw(d, node);
        InsertedConsistent(d, node);
      }
    }
  }

  lemma IndexingRecoverable(d: Disk, kind: Kind, record: StoredEmbedding, n: nat)
    requires Indexable(d, kind, record) && n <= |IndexWrites(d, kind, record)|
    ensures var m := IndexingImage(d, kind, record, n);
            && Recoverable(CoreOf(d), m) && CoreOf(m) == CoreOf(d)
            && (n == |IndexWrites(d, kind, record)| ==> Consistent(m))
  {
    IndexingQuiet(d, kind, record, n);
    IndexingPrefix(d, kind, record, n);
    IndexedConsistent(d, kind, record);
  }

  lemma AbstractRecoverable(d: Disk, node: AbstractNode, n: nat)
    requires AbstractInsertable(d, node) && node.operationKey.None? && n <= |InsertAbstractWrites(node)|
    ensures var m := AbstractImage(d, node, n);
            var core := if n == 0 then CoreOf(d) else CoreOf(d).(abstracts := d.abstracts[node.id := node]);
            && Consistent(m) && CoreOf(m) == core && Recoverable(core, m)
  {
    UnkeyedInsertionAtomic(d, node, n);
    ConsistentQuiet(AbstractImage(d, node, n));
  }

  lemma {:induction false} GraphRecoverable(d: Disk, node: AbstractNode, n: nat)
    requires Consistent(d) && n <= |IndexGraphWrites(node)|
    ensures var m := Run(d, IndexGraphWrites(node)[..n]);
            var core := if n == 0 then CoreOf(d) else CoreOf(d).(graph := d.graph[node.id := StoredEdgesOf(node)]);
            && Consistent(m) && CoreOf(m) == core && Recoverable(core, m)
  {
    var ws, m := IndexGraphWrites(node), Run(d, IndexGraphWrites(node)[..n]);
    if n == 0 {
      assert ws[..0] == [];
    } else if n == 1 {
      assert ws[..1] == [ws[0]];
      RunOne(d, ws[0]);
    } else {
      assert ws[..2] == ws;
      RunTwo(d, ws[0], ws[1]);
    }
    ConsistentQuiet(m);
  }

  /** Cut after `n` writes, the call recovers to the store before it or after all of it; uncut, it leaves
      the latter. */
  ghost predicate RecoversAt(d: Disk, call: Call, n: nat)
    requires n <= |CallWrites(d, call)|
  {
    var m := CallImage(d, call, n);
    && Recoverable(if n == 0 then CoreOf(d) else CallEffect(CoreOf(d), call), m)
    && (n == |CallWrites(d, call)| ==> Consistent(m) && CoreOf(m) == CallEffect(CoreOf(d), call))
  }

  predicate Journaled(call: Call) {
    call.CommitRawCall? || call.CommitAbstractCall? || call.UpdateLifecycleCall?
  }

  lemma {:induction false} JournaledRecoverable(d: Disk, call: Call, n: nat)
    requires Consistent(d) && AdmissibleCall(d, call) && n <= |CallWrites(d, call)| && Journaled(call)
    ensures RecoversAt(d, call, n)
  {
    ConsistentQuiet(d);
    match call
    case CommitRawCall(node, embedding) =>
      LookupRaw(d, node.operationKey);
      if LookupReceipt(d.rawReceipts, d.raw.Keys, node.operationKey).Free? {
        MutationRecoverable(d, CommitRaw(node, embedding), n);
        MutationPrefix(d, CommitRaw(node, embedding), n);
      }
    case CommitAbstractCall(node, embedding) =>
      LookupAbstract(d, node.operationKey);
      if LookupReceipt(d.abstractReceipts, d.abstracts.Keys, node.operationKey).Free? {
        MutationRecoverable(d, CommitAbstract(node, embedding), n);
        MutationPrefix(d, CommitAbstract(node, embedding), n);
      }
    case UpdateLifecycleCall(ids, patch) =>
      MutationRecoverable(d, UpdateRawLifecycle(ids, patch), n);
      MutationPrefix(d, UpdateRawLifecycle(ids, patch), n);
  }

  lemma {:induction false} UnjournaledRecoverable(d: Disk, call: Call, n: nat)
    requires Consistent(d) && AdmissibleCall(d, call) && n <= |CallWrites(d, call)| && !Journaled(call)
    ensures RecoversAt(d, call, n)
  {
    ConsistentQuiet(d);
    match call
    case InsertRawCall(node) =>
      LookupRaw(d, node.operationKey);
      if LookupReceipt(d.rawReceipts, d.raw.Keys, node.operationKey).Free? {
        InsertionRecoverable(d, node, n);
        if n > 0 { InsertionPrefix(d, node, n); }
      }
    case InsertAbstractCall(node) =>
      LookupAbstract(d, node.operationKey);
      if LookupReceipt(d.abstractReceipts, d.abstracts.Keys, node.operationKey).Free? {
        AbstractRecoverable(d, node, n);
      }
    case IndexCall(kind, record) => IndexingRecoverable(d, kind, record, n);
    case IndexGraphCall(node) => GraphRecoverable(d, node, n);
  }

  /** Every crash point of every call recovers to the store before it or the store after all of it. */
  lemma CallRecoverable(d: Disk, call: Call, n: nat)
    requires Consistent(d) && AdmissibleCall(d, call) && n <= |CallWrites(d, call)|
    ensures RecoversAt(d, call, n)
  {
    hide RecoversAt, Consistent, AdmissibleCall, CallWrites;
    if Journaled(call) { JournaledRecoverable(d, call, n); } else { UnjournaledRecoverable(d, call, n); }
  }

  /** `insert_raw_once` as called: at every crash point the reopened store is consistent exactly if the
      lookup finds a receipt and nothing is written, or the id is new, or no backlog entry changes. */
  lemma InsertionCallCrashSafeIff(d: Disk, node: RawNode)
    requires Consistent(d) && (node.id in d.raw ==> SameIdentity(d.raw[node.id], node))
    ensures (forall n | 0 < n <= |CallWrites(d, InsertRawCall(node))| :: Consistent(Opened(CallImage(d, InsertRawCall(node), n))))
       <==> (LookupReceipt(d.rawReceipts, d.raw.Keys, node.operationKey).Free? ==> node.id !in d.raw || SameEntries(d.raw[node.id], node))
  {
    hide Consistent, Opened, InsertRawWrites, SameEntries;
    LookupRaw(d, node.operationKey);
    if LookupReceipt(d.rawReceipts, d.raw.Keys, node.operationKey).Free? {
      assert Insertable(d, node);
      InsertionCrashSafeIff(d, node);
      forall n | 0 < n <= |InsertRawWrites(d, node)|
        ensures CallImage(d, InsertRawCall(node), n) == InsertionImage(d, node, n)
      {
      }
    }
  }

  /** `insert_abstract_once` as called: crash-safe exactly if the lookup finds a receipt, or the node has no
      operation key. */
  lemma AbstractCallCrashSafeIff(d: Disk, node: AbstractNode)
    requires Consistent(d) && (node.id in d.abstracts ==> d.abstracts[node.id].operationKey == node.operationKey)
    ensures (forall n | 0 < n <= |CallWrites(d, InsertAbstractCall(node))| :: Consistent(Opened(CallImage(d, InsertAbstractCall(node), n))))
       <==> (LookupReceipt(d.abstractReceipts, d.abstracts.Keys, node.operationKey).Free? ==> node.operationKey.None?)
  {
    hide Consistent, Opened, InsertAbstractWrites;
    LookupAbstract(d, node.operationKey);
    if LookupReceipt(d.abstractReceipts, d.abstracts.Keys, node.operationKey).Free? {
      assert AbstractInsertable(d, node);
      AbstractInsertionCrashSafeIff(d, node);
      forall n | 0 < n <= |InsertAbstractWrites(node)|
        ensures CallImage(d, InsertAbstractCall(node), n) == AbstractImage(d, node, n)
      {
      }
    }
  }

  // ---------------------------------------------------------------- histories

  /** A call that returned, or one cut after `writes` writes and followed by openings that were
      themselves interrupted at `images` before one succeeded. */
  datatype Event =
    | Returned(call: Call)
    | Crashed(call: Call, writes: nat, images: seq<Disk>)

  ghost predicate OpenChain(m: Disk, images: seq<Disk>)
    decreases |images|
  {
    images == [] || (OpenImage(m, images[0]) && OpenChain(images[0], images[1..]))
  }

  function LastImage(m: Disk, images: seq<Disk>): Disk {
    if images == [] then m else images[|images| - 1]
  }

  ghost predicate ValidEvent(d: Disk, event: Event) {
    AdmissibleCall(d, event.call)
    && (event.Crashed? ==> event.writes <= |CallWrites(d, event.call)| && OpenChain(CallImage(d, event.call, event.writes), event.images))
  }

  ghost function AfterEvent(d: Disk, event: Event): Disk
    requires ValidEvent(d, event)
  {
    match event
    case Returned(call) => CallImage(d, call, |CallWrites(d, call)|)
    case Crashed(call, writes, images) => Opened(LastImage(CallImage(d, call, writes), images))
  }

  ghost predicate ValidHistory(d: Disk, events: seq<Event>)
    decreases |events|
  {
    events == [] || (ValidEvent(d, events[0]) && ValidHistory(AfterEvent(d, events[0]), events[1..]))
  }

  ghost function AfterHistory(d: Disk, events: seq<Event>): Disk
    requires ValidHistory(d, events)
    decreases |events|
  {
    if events == [] then d else AfterHistory(AfterEvent(d, events[0]), events[1..])
  }

  /** `final` is what some sequential execution of the calls gives, in which every returned call took
      effect whole and every crashed call took effect whole or not at all. */
  ghost predicate Explains(core: Core, events: seq<Event>, final: Core)
    decreases |events|
  {
    if events == [] then core == final
    else
      || Explains(CallEffect(core, events[0].call), events[1..], final)
      || (events[0].Crashed? && Explains(core, events[1..], final))
  }

  lemma {:induction false} ChainRecoverable(core: Core, m: Disk, images: seq<Disk>)
    requires Recoverable(core, m) && OpenChain(m, images)
    ensures Recoverable(core, LastImage(m, images))
    decreases |images|
  {
    if images != [] {
      RecoverableStays(core, m, images[0]);
      ChainRecoverable(core, images[0], images[1..]);
    }
  }

  lemma EventAtomic(d: Disk, event: Event)
    requires Consistent(d) && ValidEvent(d, event)
    ensures Consistent(AfterEvent(d, event))
    ensures CoreOf(AfterEvent(d, event)) == CallEffect(CoreOf(d), event.call)
         || (event.Crashed? && CoreOf(AfterEvent(d, event)) == CoreOf(d))
  {
    match event
    case Returned(call) => CallRecoverable(d, call, |CallWrites(d, call)|);
    case Crashed(call, writes, images) =>
      CallRecoverable(d, call, writes);
      var core := if writes == 0 then CoreOf(d) else CallEffect(CoreOf(d), call);
      ChainRecoverable(core, CallImage(d, call, writes), images);
      RecoverableOpens(core, LastImage(CallImage(d, call, writes), images));
  }

  /** Durable atomicity over whole histories: after any sequence of calls, crashes at any write and
      interrupted reopenings, the store is consistent (every index equals a rebuild, every receipt
      names its body) and holds what an uninterrupted execution of the calls that took effect gives. */
  lemma {:induction false} HistoriesAreAtomic(d: Disk, events: seq<Event>)
    requires Consistent(d) && ValidHistory(d, events)
    ensures Consistent(AfterHistory(d, events))
    ensures Explains(CoreOf(d), events, CoreOf(AfterHistory(d, events)))
    decreases |events|
  {
    if events != [] {
      EventAtomic(d, events[0]);
      HistoriesAreAtomic(AfterEvent(d, events[0]), events[1..]);
    }
  }

  // ---------------------------------------------------------------- exactly-once writes

  /** What a keyed raw write returns: the canonical node for its key, or nothing on a digest
      collision. */
  function ReturnedNode(d: Disk, node: RawNode): Option<RawNode> {
    match LookupReceipt(d.rawReceipts, d.raw.Keys, node.operationKey)
    case Free => Some(node)
    case Collision => None
    case Existing(id) => if id in d.raw then Some(d.raw[id]) else Some(node)
  }

  lemma EffectKeepsBodies(core: Core, call: Call)
    requires Keyed(core.raw)
    requires match call
             case CommitRawCall(node, _) => node.id in core.raw ==> SameIdentity(core.raw[node.id], node)
             case InsertRawCall(node) => node.id in core.raw ==> SameIdentity(core.raw[node.id], node)
             case _ => true
    ensures Evolves(core.raw, CallEffect(core, call).raw)
  {
    if call.UpdateLifecycleCall? { PatchedRawAt(core.raw, call.ids, call.patch); }
  }

  lemma {:induction false} HistoryKeepsBodies(d: Disk, events: seq<Event>)
    requires Consistent(d) && ValidHistory(d, events)
    ensures Evolves(d.raw, AfterHistory(d, events).raw)
    decreases |events|
  {
    if events != [] {
      EventAtomic(d, events[0]);
      EffectKeepsBodies(CoreOf(d), events[0].call);
      HistoryKeepsBodies(AfterEvent(d, events[0]), events[1..]);
    }
  }

  /** In a consistent store an operation key is carried by at most one raw body. */
  lemma OneBodyPerKey(d: Disk, a: nat, b: nat)
    requires Consistent(d) && a in d.raw && b in d.raw
    requires d.raw[a].operationKey.Some? && d.raw[a].operationKey == d.raw[b].operationKey
    ensures a == b
  {
    ConsistentIntact(d);
    assert RawKeys(d.raw)[a] == RawKeys(d.raw)[b];
  }

  lemma ReturnedIsStored(d: Disk, node: RawNode, core: Core)
    requires Consistent(d) && node.operationKey.Some? && ReturnedNode(d, node).Some?
    requires core == RawEffect(CoreOf(d), node)
    ensures var r := ReturnedNode(d, node).value;
            r.id in core.raw && core.raw[r.id] == r && r.operationKey == node.operationKey
  {
    LookupRaw(d, node.operationKey);
  }

  function RawCallNode(call: Call): Option<RawNode> {
    match call
    case CommitRawCall(node, _) => Some(node)
    case InsertRawCall(node) => Some(node)
    case _ => None
  }

  /** Exactly-once writes: if two calls with the same operation key both return a node, with any
      history of calls, crashes and reopenings between them, they return the same node, and the store
      then holds exactly one body for the key. */
  lemma {:induction false} ExactlyOnce(d: Disk, first: Call, events: seq<Event>, second: Call, key: string)
    requires Consistent(d) && ValidEvent(d, Returned(first))
    requires var d1 := AfterEvent(d, Returned(first));
             && ValidHistory(d1, events)
             && ValidEvent(AfterHistory(d1, events), Returned(second))
    requires RawCallNode(first).Some? && RawCallNode(first).value.operationKey == Some(key)
    requires RawCallNode(second).Some? && RawCallNode(second).value.operationKey == Some(key)
    requires ReturnedNode(d, RawCallNode(first).value).Some?
    ensures var d2 := AfterHistory(AfterEvent(d, Returned(first)), events);
            var d3 := AfterEvent(d2, Returned(second));
            var a, b := ReturnedNode(d, RawCallNode(first).value), ReturnedNode(d2, RawCallNode(second).value);
            && b.Some? && SameIdentity(a.value, b.value)
            && d3 == d2
            && (forall id | id in d3.raw && d3.raw[id].operationKey == Some(key) :: id == a.value.id)
  {
    var d1 := AfterEvent(d, Returned(first));
    EventAtomic(d, Returned(first));
    ReturnedIsStored(d, RawCallNode(first).value, CoreOf(d1));
    var owner := ReturnedNode(d, RawCallNode(first).value).value;
    HistoryKeepsBodies(d1, events);
    HistoriesAreAtomic(d1, events);
    var d2 := AfterHistory(d1, events);
    assert d2.raw[owner.id].operationKey == Some(key);
    OwnerFound(d2, RawCallNode(second).value, owner.id);
    assert CallWrites(d2, second) == [];
    forall id | id in d2.raw && d2.raw[id].operationKey == Some(key)
      ensures id == owner.id
    {
      OneBodyPerKey(d2, id, owner.id);
    }
  }

  lemma OwnerFound(d: Disk, node: RawNode, owner: nat)
    requires Consistent(d) && node.operationKey.Some? && owner in d.raw && d.raw[owner].operationKey == node.operationKey
    ensures LookupReceipt(d.rawReceipts, d.raw.Keys, node.operationKey) == Existing(owner)
  {
    assert RawKeys(d.raw)[owner] == node.operationKey;
  }

  // ---------------------------------------------------------------- the same for abstract nodes

  /** No abstract body is lost, and each keeps its operation key. */
  ghost predicate AbstractsEvolve(a: map<nat, AbstractNode>, b: map<nat, AbstractNode>) {
    forall id | id in a :: id in b && b[id].operationKey == a[id].operationKey
  }

  lemma EffectKeepsAbstracts(d: Disk, call: Call)
    requires AdmissibleCall(d, call)
    ensures AbstractsEvolve(d.abstracts, CallEffect(CoreOf(d), call).abstracts)
  {
  }

  lemma {:induction false} HistoryKeepsAbstracts(d: Disk, events: seq<Event>)
    requires Consistent(d) && ValidHistory(d, events)
    ensures AbstractsEvolve(d.abstracts, AfterHistory(d, events).abstracts)
    decreases |events|
  {
    hide Consistent, AdmissibleCall, CallEffect;
    if events != [] {
      EventAtomic(d, events[0]);
      EffectKeepsAbstracts(d, events[0].call);
      HistoryKeepsAbstracts(AfterEvent(d, events[0]), events[1..]);
    }
  }

  /** In a consistent store an operation key is carried by at most one abstract body. */
  lemma OneAbstractPerKey(d: Disk, a: nat, b: nat)
    requires Consistent(d) && a in d.abstracts && b in d.abstracts
    requires d.abstracts[a].operationKey.Some? && d.abstracts[a].operationKey == d.abstracts[b].operationKey
    ensures a == b
  {
    if a != b { TwoBodiesOneKey(d, a, b); }
  }

  function AbstractCallNode(call: Call): Option<AbstractNode> {
    match call
    case CommitAbstractCall(node, _) => Some(node)
    case InsertAbstractCall(node) => Some(node)
    case _ => None
  }

  /** What a keyed abstract write returns: the canonical node for its key, or nothing on a collision. */
  function ReturnedAbstract(d: Disk, node: AbstractNode): Option<AbstractNode> {
    match LookupReceipt(d.abstractReceipts, d.abstracts.Keys, node.operationKey)
    case Free => Some(node)
    case Collision => None
    case Existing(id) => if id in d.abstracts then Some(d.abstracts[id]) else Some(node)
  }

  lemma ReturnedAbstractStored(d: Disk, call: Call, core: Core)
    requires Consistent(d) && AbstractCallNode(call).Some? && core == CallEffect(CoreOf(d), call)
    requires var node := AbstractCallNode(call).value; node.operationKey.Some? && ReturnedAbstract(d, node).Some?
    ensures var node := AbstractCallNode(call).value;
            var r := ReturnedAbstract(d, node).value;
            r.id in core.abstracts && core.abstracts[r.id] == r && r.operationKey == node.operationKey
  {
    var node := AbstractCallNode(call).value;
    assert AbstractKeys(d.abstracts).Keys == d.abstracts.Keys;
    LookupDecides(AbstractKeys(d.abstracts), d.abstractReceipts, node.operationKey);
  }

  lemma AbstractOwnerFound(d: Disk, call: Call, owner: nat)
    requires Consistent(d) && AbstractCallNode(call).Some? && owner in d.abstracts
    requires var key := AbstractCallNode(call).value.operationKey; key.Some? && d.abstracts[owner].operationKey == key
    ensures LookupReceipt(d.abstractReceipts, d.abstracts.Keys, AbstractCallNode(call).value.operationKey) == Existing(owner)
    ensures CallWrites(d, call) == []
  {
    assert AbstractKeys(d.abstracts)[owner] == AbstractCallNode(call).value.operationKey;
  }

  /** Exactly-once abstract writes: two calls with one operation key, whatever happens between them,
      return the node of one id, and the store then holds exactly one abstract body for the key. */
  lemma {:induction false} AbstractExactlyOnce(d: Disk, first: Call, events: seq<Event>, second: Call, key: string)
    requires Consistent(d) && ValidEvent(d, Returned(first))
    requires var d1 := AfterEvent(d, Returned(first));
             && ValidHistory(d1, events)
             && ValidEvent(AfterHistory(d1, events), Returned(second))
    requires AbstractCallNode(first).Some? && AbstractCallNode(first).value.operationKey == Some(key)
    requires AbstractCallNode(second).Some? && AbstractCallNode(second).value.operationKey == Some(key)
    requires ReturnedAbstract(d, AbstractCallNode(first).value).Some?
    ensures var d2 := AfterHistory(AfterEvent(d, Returned(first)), events);
            var d3 := AfterEvent(d2, Returned(second));
            var a, b := ReturnedAbstract(d, AbstractCallNode(first).value), ReturnedAbstract(d2, AbstractCallNode(second).value);
            && b.Some? && a.value.id == b.value.id && b.value.operationKey == Some(key)
            && d3 == d2
            && (forall id | id in d3.abstracts && d3.abstracts[id].operationKey == Some(key) :: id == a.value.id)
  {
    hide Consistent, AdmissibleCall, CallEffect, CallWrites, LookupReceipt;
    var d1 := AfterEvent(d, Returned(first));
    EventAtomic(d, Returned(first));
    ReturnedAbstractStored(d, first, CoreOf(d1));
    var owner := ReturnedAbstract(d, AbstractCallNode(first).value).value;
    HistoryKeepsAbstracts(d1, events);
    HistoriesAreAtomic(d1, events);
    var d2 := AfterHistory(d1, events);
    assert d2.abstracts[owner.id].operationKey == Some(key);
    AbstractOwnerFound(d2, second, owner.id);
    KeyedById(d2, owner.id);
    forall id | id in d2.abstracts && d2.abstracts[id].operationKey == Some(key)
      ensures id == owner.id
    {
      OneAbstractPerKey(d2, id, owner.id);
    }
  }

  lemma KeyedById(d: Disk, id: nat)
    requires Consistent(d) && id in d.abstracts
    ensures d.abstracts[id].id == id
  {
  }
}
