/** When a disk is consistent, and what opening any disk makes of it. */
module StoreInvariants {
  import opened Domain
  import opened Listings
  import opened RawIndexes
  import opened VectorShards
  import opened StoreModel
  import opened StoreEffects

  // ---------------------------------------------------------------- operation receipts

  type OperationKeys = map<nat, Option<string>>

  ghost function RawKeys(raw: RawBodies): OperationKeys {
    map id | id in raw :: raw[id].operationKey
  }

  ghost function AbstractKeys(abstracts: map<nat, AbstractNode>): OperationKeys {
    map id | id in abstracts :: abstracts[id].operationKey
  }

  /** Every receipt names a body that carries its key. */
  ghost predicate ReceiptsSound(keys: OperationKeys, receipts: Receipts) {
    forall digest | digest in receipts ::
      && receipts[digest].id in keys
      && keys[receipts[digest].id] == Some(receipts[digest].operationKey)
      && RECEIPT_DIGEST(receipts[digest].operationKey) == digest
  }

  /** Every body with a key is named by the receipt of that key. */
  ghost predicate ReceiptsComplete(keys: OperationKeys, receipts: Receipts) {
    forall id | id in keys && keys[id].Some? ::
      && RECEIPT_DIGEST(keys[id].value) in receipts
      && receipts[RECEIPT_DIGEST(keys[id].value)] == StoredId(id, keys[id].value)
  }

  ghost predicate ReceiptsExact(keys: OperationKeys, receipts: Receipts) {
    ReceiptsSound(keys, receipts) && ReceiptsComplete(keys, receipts)
  }

  ghost predicate KeysDistinct(keys: OperationKeys) {
    forall a, b | a in keys && b in keys && keys[a].Some? && keys[b].Some?
                  && RECEIPT_DIGEST(keys[a].value) == RECEIPT_DIGEST(keys[b].value) :: a == b
  }

  ghost predicate Owns(keys: OperationKeys, digest: string, id: nat) {
    id in keys && keys[id].Some? && RECEIPT_DIGEST(keys[id].value) == digest
  }

  ghost function OwnedDigests(keys: OperationKeys): (r: set<string>)
    ensures forall digest | digest in r :: exists id :: Owns(keys, digest, id)
    ensures forall id | id in keys && keys[id].Some? :: RECEIPT_DIGEST(keys[id].value) in r
  {
    assert forall id | id in keys && keys[id].Some? :: Owns(keys, RECEIPT_DIGEST(keys[id].value), id);
    set id | id in keys && keys[id].Some? :: RECEIPT_DIGEST(keys[id].value)
  }

  ghost function Owner(keys: OperationKeys, digest: string): (id: nat)
    requires digest in OwnedDigests(keys)
    ensures Owns(keys, digest, id)
  {
    var id :| Owns(keys, digest, id);
    id
  }

  /** A rebuild rewrites the receipt of every body that has a key and leaves the others. */
  ghost function RebuiltReceipts(keys: OperationKeys, receipts: Receipts): Receipts {
    receipts + map digest | digest in OwnedDigests(keys) :: StoredId(Owner(keys, digest), keys[Owner(keys, digest)].value)
  }

  lemma ExactKeysDistinct(keys: OperationKeys, receipts: Receipts)
    requires ReceiptsExact(keys, receipts)
    ensures KeysDistinct(keys)
  {
  }

  lemma RebuiltReceiptsExact(keys: OperationKeys, receipts: Receipts)
    requires ReceiptsSound(keys, receipts) && KeysDistinct(keys)
    ensures ReceiptsExact(keys, RebuiltReceipts(keys, receipts))
    ensures ReceiptsComplete(keys, receipts) ==> RebuiltReceipts(keys, receipts) == receipts
  {
    hide RebuiltReceipts;
    var r := RebuiltReceipts(keys, receipts);
    forall id | id in keys && keys[id].Some?
      ensures RECEIPT_DIGEST(keys[id].value) in r && r[RECEIPT_DIGEST(keys[id].value)] == StoredId(id, keys[id].value)
    {
      RebuiltReceiptOf(keys, receipts, id);
    }
    RebuiltReceiptsSound(keys, receipts);
    if ReceiptsComplete(keys, receipts) {
      CompleteReceiptsKept(keys, receipts);
    }
  }

  lemma CompleteReceiptsKept(keys: OperationKeys, receipts: Receipts)
    requires ReceiptsComplete(keys, receipts)
    ensures RebuiltReceipts(keys, receipts) == receipts
  {
    var r := RebuiltReceipts(keys, receipts);
    forall digest | digest in r
      ensures digest in receipts && r[digest] == receipts[digest]
    {
      if digest in OwnedDigests(keys) { assert Owns(keys, digest, Owner(keys, digest)); }
    }
    assert r == receipts;
  }

  lemma RebuiltReceiptOf(keys: OperationKeys, receipts: Receipts, id: nat)
    requires KeysDistinct(keys) && id in keys && keys[id].Some?
    ensures var digest := RECEIPT_DIGEST(keys[id].value);
            digest in RebuiltReceipts(keys, receipts) && RebuiltReceipts(keys, receipts)[digest] == StoredId(id, keys[id].value)
  {
    var digest := RECEIPT_DIGEST(keys[id].value);
    assert Owns(keys, digest, Owner(keys, digest));
    assert Owner(keys, digest) == id;
  }

  lemma RebuiltReceiptsSound(keys: OperationKeys, receipts: Receipts)
    requires ReceiptsSound(keys, receipts)
    ensures ReceiptsSound(keys, RebuiltReceipts(keys, receipts))
  {
    var r := RebuiltReceipts(keys, receipts);
    forall digest | digest in r
      ensures r[digest].id in keys && keys[r[digest].id] == Some(r[digest].operationKey)
      ensures RECEIPT_DIGEST(r[digest].operationKey) == digest
    {
      assert digest in OwnedDigests(keys);
      assert Owns(keys, digest, Owner(keys, digest));
    }
  }

  lemma AddReceiptExact(keys: OperationKeys, receipts: Receipts, id: nat, key: Option<string>)
    requires ReceiptsExact(keys, receipts)
    requires id in keys ==> keys[id] == key
    requires key.Some? && RECEIPT_DIGEST(key.value) in receipts ==> receipts[RECEIPT_DIGEST(key.value)] == StoredId(id, key.value)
    ensures ReceiptsExact(keys[id := key], AddReceipt(receipts, id, key))
  {
  }

  // ---------------------------------------------------------------- consistency

  ghost predicate AbstractsKeyed(abstracts: map<nat, AbstractNode>) {
    forall id | id in abstracts :: abstracts[id].id == id
  }

  /** Nothing pending, and every derived file is exactly what the bodies determine. */
  ghost predicate Consistent(d: Disk) {
    && d.journal == None
    && d.indexVersion == Some(INDEX_VERSION)
    && d.metadata
    && Keyed(d.raw) && AbstractsKeyed(d.abstracts)
    && IndexesExact(d.raw, d.files)
    && ReceiptsExact(RawKeys(d.raw), d.rawReceipts)
    && ReceiptsExact(AbstractKeys(d.abstracts), d.abstractReceipts)
    && VectorsExact(d.rawVectors) && VectorsExact(d.abstractVectors)
  }

  /** What survives in every disk image, consistent or not. */
  ghost predicate Intact(d: Disk) {
    && Keyed(d.raw) && AbstractsKeyed(d.abstracts)
    && ReceiptsSound(RawKeys(d.raw), d.rawReceipts) && KeysDistinct(RawKeys(d.raw))
    && ReceiptsSound(AbstractKeys(d.abstracts), d.abstractReceipts) && KeysDistinct(AbstractKeys(d.abstracts))
    && BodiesKeyed(d.rawVectors.bodies) && BodiesKeyed(d.abstractVectors.bodies)
  }

  /** The part of a disk no rebuild ever changes and everything else is derived from. */
  datatype Core = Core(raw: RawBodies, abstracts: map<nat, AbstractNode>, graph: map<nat, StoredGraphEdges>)

  function CoreOf(d: Disk): Core {
    Core(d.raw, d.abstracts, d.graph)
  }

  /** Equal up to the order inside each embedding manifest. */
  ghost predicate SameStore(a: Disk, b: Disk) {
    && SameVectors(a.rawVectors, b.rawVectors)
    && SameVectors(a.abstractVectors, b.abstractVectors)
    && a == b.(rawVectors := a.rawVectors, abstractVectors := a.abstractVectors)
  }

  // ---------------------------------------------------------------- opening a store

  function Replayed(d: Disk): Disk {
    if d.journal.Some? then Applied(d, d.journal.value).(journal := None) else d
  }

  /** `indexes_are_complete`: every raw body is in some timeline shard. */
  ghost predicate TimelineCovers(d: Disk) {
    forall id | id in d.raw ::
      exists day, e :: TimelineShard(day) in d.files && e in d.files[TimelineShard(day)] && e.id == id
  }

  ghost predicate ProbesPass(d: Disk) {
    d.indexVersion == Some(INDEX_VERSION) && TimelineCovers(d) && Covered(d.rawVectors) && Covered(d.abstractVectors)
  }

  ghost function IndexKeys(raw: RawBodies): set<IndexKey> {
    {Backlog, PushedBacklog} + set id, key | id in raw && key in KeysOf(raw[id]) && Belongs(raw[id], key) :: key
  }

  ghost function RebuiltFiles(raw: RawBodies): IndexFiles {
    map key | key in IndexKeys(raw) :: Rebuilt(raw, key)
  }

  /** `rebuild_indexes_unlocked` */
  ghost function RebuiltDisk(d: Disk): Disk {
    d.(files := RebuiltFiles(d.raw),
       rawReceipts := RebuiltReceipts(RawKeys(d.raw), d.rawReceipts),
       abstractReceipts := RebuiltReceipts(AbstractKeys(d.abstracts), d.abstractReceipts),
       rawVectors := RebuiltVectors(d.rawVectors.bodies),
       abstractVectors := RebuiltVectors(d.abstractVectors.bodies),
       metadata := true,
       indexVersion := Some(INDEX_VERSION))
  }

  /** `ensure_indexes`: replay, probe, and rebuild only if a probe fails. */
  ghost function Opened(d: Disk): Disk {
    var replayed := Replayed(d).(metadata := true);
    if ProbesPass(replayed) then replayed else RebuiltDisk(replayed)
  }

  lemma RebuiltFilesExact(raw: RawBodies)
    requires Keyed(raw)
    ensures IndexesExact(raw, RebuiltFiles(raw))
  {
    var files := RebuiltFiles(raw);
    forall key: IndexKey
      ensures FileExact(raw, files, key)
    {
      if id :| id in raw && Belongs(raw[id], key) {
        assert key in KeysOf(raw[id]);
        assert EntryOf(raw[id]) in Members(raw, key);
      } else {
        assert Members(raw, key) == {};
      }
    }
  }

  /** A rebuild makes any intact disk consistent. */
  lemma RebuildConsistent(d: Disk)
    requires Intact(d) && d.journal == None
    ensures Consistent(RebuiltDisk(d)) && CoreOf(RebuiltDisk(d)) == CoreOf(d)
  {
    RebuiltFilesExact(d.raw);
    RebuiltReceiptsExact(RawKeys(d.raw), d.rawReceipts);
    RebuiltReceiptsExact(AbstractKeys(d.abstracts), d.abstractReceipts);
    RebuiltExact(d.rawVectors.bodies);
    RebuiltExact(d.abstractVectors.bodies);
  }

  lemma ConsistentIntact(d: Disk)
    requires Consistent(d)
    ensures Intact(d)
  {
    ExactKeysDistinct(RawKeys(d.raw), d.rawReceipts);
    ExactKeysDistinct(AbstractKeys(d.abstracts), d.abstractReceipts);
  }

  /** Rebuilding a consistent disk changes at most the order inside embedding manifests. */
  lemma RebuildIsNeutral(d: Disk)
    requires Consistent(d)
    ensures SameStore(RebuiltDisk(d), d)
  {
    ConsistentIntact(d);
    RebuiltFilesExact(d.raw);
    ExactUnique(d.raw, RebuiltFiles(d.raw), d.files);
    RebuiltReceiptsExact(RawKeys(d.raw), d.rawReceipts);
    RebuiltReceiptsExact(AbstractKeys(d.abstracts), d.abstractReceipts);
    RebuildKeepsExact(d.rawVectors);
    RebuildKeepsExact(d.abstractVectors);
  }

  lemma ExactTimelineCovers(d: Disk)
    requires Keyed(d.raw) && IndexesExact(d.raw, d.files)
    ensures TimelineCovers(d)
  {
    forall id | id in d.raw
      ensures exists day, e :: TimelineShard(day) in d.files && e in d.files[TimelineShard(day)] && e.id == id
    {
      var day := TimelineBucket(d.raw[id].timestamp);
      var key := TimelineShard(day);
      assert FileExact(d.raw, d.files, key);
      assert EntryOf(d.raw[id]) in Members(d.raw, key);
      InListing(Members(d.raw, key));
      assert EntryOf(d.raw[id]) in d.files[key];
    }
  }

  /** Opening a consistent store changes nothing. */
  lemma OpenConsistent(d: Disk)
    requires Consistent(d)
    ensures ProbesPass(d) && Opened(d) == d
  {
    ExactTimelineCovers(d);
    ExactCovered(d.rawVectors);
    ExactCovered(d.abstractVectors);
    assert d.(metadata := true) == d;
  }
}
