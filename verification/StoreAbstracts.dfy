/** The unjournaled `insert_abstract_once`: a body, then its receipt. No probe looks at the receipts of
    abstract nodes, so the order of the two writes alone has to keep the store consistent. */
module StoreAbstracts {
  import opened Domain
  import opened Listings
  import opened RawIndexes
  import opened VectorShards
  import opened StoreModel
  import opened StoreEffects
  import opened StoreInvariants
  import opened StoreReplay
  import opened StoreRecovery

  function AbstractInserted(d: Disk, node: AbstractNode): Disk {
    d.(abstracts := d.abstracts[node.id := node],
       abstractReceipts := AddReceipt(d.abstractReceipts, node.id, node.operationKey),
       metadata := true)
  }

  /** Past the receipt lookup: no receipt has the key's digest. An id keeps its operation key. */
  ghost predicate AbstractInsertable(d: Disk, node: AbstractNode) {
    && Consistent(d)
    && (node.operationKey.Some? ==> RECEIPT_DIGEST(node.operationKey.value) !in d.abstractReceipts)
    && (node.id in d.abstracts ==> d.abstracts[node.id].operationKey == node.operationKey)
  }

  /** The disk a crash after `n` writes of the insertion exposes. */
  function AbstractImage(d: Disk, node: AbstractNode, n: nat): Disk
    requires n <= |InsertAbstractWrites(node)|
  {
    Run(d, InsertAbstractWrites(node)[..n])
  }

  lemma {:induction false} RunInsertAbstract(d: Disk, node: AbstractNode)
    ensures Run(d, InsertAbstractWrites(node)) == AbstractInserted(d, node)
  {
    var body, receipt := [PutAbstract(node)], AbstractReceiptWrites(node);
    RunOne(d, PutAbstract(node));
    RunConcat(d, body, receipt);
    RunAbstractReceipt(Perform(d, PutAbstract(node)), node);
    RunSnoc(d, body + receipt, TouchMetadata);
  }

  /** Nothing, the body alone, or everything. */
  lemma {:induction false} AbstractPrefix(d: Disk, node: AbstractNode, n: nat)
    requires d.metadata && n <= |InsertAbstractWrites(node)|
    ensures AbstractImage(d, node, n)
         == if n == 0 then d else if n == 1 then d.(abstracts := d.abstracts[node.id := node]) else AbstractInserted(d, node)
  {
    var ws := InsertAbstractWrites(node);
    RunInsertAbstract(d, node);
    if n == 0 {
      assert ws[..0] == [];
    } else if n == 1 {
      assert ws[..1] == [PutAbstract(node)];
      RunOne(d, PutAbstract(node));
    } else if n == |ws| {
      assert ws[..n] == ws;
    } else {
      assert ws[..2] == [PutAbstract(node)] + AbstractReceiptWrites(node);
      RunTwo(d, ws[0], ws[1]);
    }
  }

  lemma AbstractInsertedConsistent(d: Disk, node: AbstractNode)
    requires AbstractInsertable(d, node)
    ensures Consistent(AbstractInserted(d, node))
  {
    hide IndexesExact, VectorsExact;
    AddReceiptExact(AbstractKeys(d.abstracts), d.abstractReceipts, node.id, node.operationKey);
    assert AbstractKeys(d.abstracts[node.id := node]) == AbstractKeys(d.abstracts)[node.id := node.operationKey];
  }

  /** The crash image between the body and its receipt. */
  function BodyAlone(d: Disk, node: AbstractNode): Disk {
    d.(abstracts := d.abstracts[node.id := node])
  }

  /** No probe reads a receipt: whatever they accept, they accept with any nodes and receipts put in. */
  lemma ProbesIgnoreAbstracts(d: Disk, m: Disk)
    requires m == d.(abstracts := m.abstracts, abstractReceipts := m.abstractReceipts)
    ensures ProbesPass(m) <==> ProbesPass(d)
  {
    hide Covered;
    assert TimelineCovers(m) <==> TimelineCovers(d);
  }

  lemma BodyIntact(d: Disk, node: AbstractNode)
    requires AbstractInsertable(d, node)
    ensures Consistent(RebuiltDisk(BodyAlone(d, node)))
  {
    hide RebuiltDisk, IndexesExact, VectorsExact, ReceiptsExact;
    ConsistentIntact(d);
    AbstractInsertedConsistent(d, node);
    ConsistentIntact(AbstractInserted(d, node));
    SoundWithout(d, node);
    RebuildConsistent(BodyAlone(d, node));
  }

  lemma BodyConsistentIff(d: Disk, node: AbstractNode)
    requires AbstractInsertable(d, node)
    ensures Consistent(BodyAlone(d, node)) <==> node.operationKey.None?
  {
    hide IndexesExact, VectorsExact;
    AbstractInsertedConsistent(d, node);
    assert AbstractKeys(BodyAlone(d, node).abstracts)[node.id] == node.operationKey;
  }

  /** A body without its receipt: every probe accepts it, although a rebuild would have repaired it. */
  lemma BodyWithoutReceipt(d: Disk, node: AbstractNode)
    requires AbstractInsertable(d, node)
    ensures var m := AbstractImage(d, node, 1);
            && m == BodyAlone(d, node) && ProbesPass(m) && Opened(m) == m
            && (Consistent(m) <==> node.operationKey.None?)
            && Consistent(RebuiltDisk(m))
  {
    hide IndexesExact, VectorsExact, ReceiptsExact, RebuiltDisk, ProbesPass;
    var m := BodyAlone(d, node);
    AbstractPrefix(d, node, 1);
    OpenConsistent(d);
    ProbesIgnoreAbstracts(d, m);
    assert m.(metadata := true) == m;
    BodyIntact(d, node);
    BodyConsistentIff(d, node);
  }

  lemma SoundWithout(d: Disk, node: AbstractNode)
    requires AbstractInsertable(d, node)
    ensures ReceiptsSound(AbstractKeys(d.abstracts[node.id := node]), d.abstractReceipts)
  {
    var keys := AbstractKeys(d.abstracts);
    assert AbstractKeys(d.abstracts[node.id := node]) == keys[node.id := node.operationKey];
    assert node.id in keys ==> keys[node.id] == node.operationKey;
  }

  /** When `insert_abstract_once` is crash-safe: at every crash point the reopened store is consistent
      exactly if the node carries no operation key. */
  lemma AbstractInsertionCrashSafeIff(d: Disk, node: AbstractNode)
    requires AbstractInsertable(d, node)
    ensures (forall n | 0 < n <= |InsertAbstractWrites(node)| :: Consistent(Opened(AbstractImage(d, node, n))))
       <==> node.operationKey.None?
  {
    BodyWithoutReceipt(d, node);
    AbstractInsertedConsistent(d, node);
    OpenConsistent(AbstractInserted(d, node));
    forall n: nat | 0 < n <= |InsertAbstractWrites(node)|
      ensures Consistent(Opened(AbstractImage(d, node, n))) <==> n > 1 || node.operationKey.None?
    {
      AbstractPrefix(d, node, n);
      AbstractPrefix(d, node, 1);
    }
    assert Consistent(Opened(AbstractImage(d, node, 1))) <==> node.operationKey.None?;
  }

  /** What an unkeyed insertion leaves: nothing, or the whole node. */
  lemma UnkeyedInsertionAtomic(d: Disk, node: AbstractNode, n: nat)
    requires AbstractInsertable(d, node) && node.operationKey.None? && n <= |InsertAbstractWrites(node)|
    ensures AbstractImage(d, node, n) == if n == 0 then d else AbstractInserted(d, node)
    ensures Consistent(AbstractInserted(d, node))
  {
    AbstractPrefix(d, node, n);
    AbstractInsertedConsistent(d, node);
    assert d.metadata;
  }

  /** What a keyed one can leave: crashed after its body and reopened, the store accepts a second node
      under the same key, and then two bodies carry it. */
  lemma LostReceiptDuplicates(d: Disk, node: AbstractNode, again: AbstractNode)
    requires AbstractInsertable(d, node) && node.operationKey.Some?
    requires again.operationKey == node.operationKey && again.id != node.id
    ensures var reopened := Opened(AbstractImage(d, node, 1));
            var after := Run(reopened, InsertAbstractWrites(again));
            && RECEIPT_DIGEST(again.operationKey.value) !in reopened.abstractReceipts
            && node.id in after.abstracts && again.id in after.abstracts
            && after.abstracts[node.id].operationKey == after.abstracts[again.id].operationKey == node.operationKey
            && ProbesPass(after) && !Consistent(after)
  {
    hide IndexesExact, VectorsExact, ProbesPass, Opened, RebuiltDisk, InsertAbstractWrites;
    BodyWithoutReceipt(d, node);
    var reopened := BodyAlone(d, node);
    RunInsertAbstract(reopened, again);
    var after := AbstractInserted(reopened, again);
    ProbesIgnoreAbstracts(reopened, after);
    TwoBodiesOneKey(after, node.id, again.id);
  }

  lemma TwoBodiesOneKey(d: Disk, a: nat, b: nat)
    requires a in d.abstracts && b in d.abstracts && a != b
    requires d.abstracts[a].operationKey.Some? && d.abstracts[a].operationKey == d.abstracts[b].operationKey
    ensures !Consistent(d)
  {
    hide IndexesExact, VectorsExact;
    var keys := AbstractKeys(d.abstracts);
    assert keys[a] == keys[b];
    if ReceiptsExact(keys, d.abstractReceipts) { ExactKeysDistinct(keys, d.abstractReceipts); }
  }
}
