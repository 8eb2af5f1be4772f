/** The object store's directory as a value, its atomic writes, and the write sequence of every
    mutation.

    A write is one `write_json` (atomic replace of one file) or one `remove_file_if_exists`; a crash
    falls between two writes. `Run(d, ws[..n])` is therefore the disk a crash after `n` writes
    exposes. */
module StoreModel {
  import opened Domain
  import opened Listings
  import opened RawIndexes
  import opened VectorShards
  import opened TextOrder

  const INDEX_VERSION: nat := 5

  /** The receipt file name of an operation key. Nothing is assumed about it, not even injectivity:
      the stored key is compared on every lookup. */
  const RECEIPT_DIGEST: string -> string

  /** `AbstractNodeId::from_str`, likewise arbitrary. */
  const PARSE_ABSTRACT_ID: string -> Option<nat>

  datatype StoredId = StoredId(id: nat, operationKey: string)

  type Receipts = map<string, StoredId>

  datatype GraphEdge = GraphEdge(to: nat, predicateName: string)

  datatype StoredGraphEdges = StoredGraphEdges(nodeId: nat, sessionId: Option<nat>, edges: seq<GraphEdge>)

  datatype MutationJournal =
    | CommitRaw(node: RawNode, embedding: seq<real>)
    | CommitAbstract(abstractNode: AbstractNode, abstractEmbedding: seq<real>)
    | UpdateRawLifecycle(ids: seq<nat>, patch: RawLifecyclePatch)

  datatype Disk = Disk(
    raw: RawBodies,
    abstracts: map<nat, AbstractNode>,
    rawReceipts: Receipts,
    abstractReceipts: Receipts,
    files: IndexFiles,
    rawVectors: Vectors,
    abstractVectors: Vectors,
    graph: map<nat, StoredGraphEdges>,
    journal: Option<MutationJournal>,
    indexVersion: Option<nat>,
    metadata: bool
  )

  datatype Kind = RawKind | AbstractKind

  function VectorsOf(d: Disk, kind: Kind): Vectors {
    match kind
    case RawKind => d.rawVectors
    case AbstractKind => d.abstractVectors
  }

  function WithVectors(d: Disk, kind: Kind, v: Vectors): Disk {
    match kind
    case RawKind => d.(rawVectors := v)
    case AbstractKind => d.(abstractVectors := v)
  }

  // ---------------------------------------------------------------- single writes

  datatype Write =
    | PutRaw(node: RawNode)
    | PutAbstract(abstractNode: AbstractNode)
    | PutRawReceipt(receipt: StoredId)
    | PutAbstractReceipt(receipt: StoredId)
    | PutIndex(key: IndexKey, entries: seq<RawIndexEntry>)
    | PutRawEmbedding(record: StoredEmbedding)
    | PutAbstractEmbedding(record: StoredEmbedding)
    | PutRawManifest(session: Option<nat>, ids: Manifest)
    | PutAbstractManifest(session: Option<nat>, ids: Manifest)
    | RemoveRawEmbedding(id: nat)
    | RemoveAbstractEmbedding(id: nat)
    | PutGraph(edges: StoredGraphEdges)
    | PutJournal(mutation: MutationJournal)
    | RemoveJournal
    | TouchMetadata
    | ResetIndexRoot
    | PutIndexVersion

  function Perform(d: Disk, w: Write): Disk {
    match w
    case PutRaw(node) => d.(raw := d.raw[node.id := node])
    case PutAbstract(node) => d.(abstracts := d.abstracts[node.id := node])
    case PutRawReceipt(r) => d.(rawReceipts := d.rawReceipts[RECEIPT_DIGEST(r.operationKey) := r])
    case PutAbstractReceipt(r) => d.(abstractReceipts := d.abstractReceipts[RECEIPT_DIGEST(r.operationKey) := r])
    case PutIndex(key, entries) => d.(files := d.files[key := entries])
    case PutRawEmbedding(record) => d.(rawVectors := PutBody(d.rawVectors, record))
    case PutAbstractEmbedding(record) => d.(abstractVectors := PutBody(d.abstractVectors, record))
    case PutRawManifest(session, ids) => d.(rawVectors := PutManifest(d.rawVectors, session, ids))
    case PutAbstractManifest(session, ids) => d.(abstractVectors := PutManifest(d.abstractVectors, session, ids))
    case RemoveRawEmbedding(id) => d.(rawVectors := RemoveBody(d.rawVectors, id))
    case RemoveAbstractEmbedding(id) => d.(abstractVectors := RemoveBody(d.abstractVectors, id))
    case PutGraph(edges) => d.(graph := d.graph[edges.nodeId := edges])
    case PutJournal(mutation) => d.(journal := Some(mutation))
    case RemoveJournal => d.(journal := None)
    case TouchMetadata => d.(metadata := true)
    case ResetIndexRoot =>
      d.(files := map[], rawVectors := d.rawVectors.(shards := map[]),
         abstractVectors := d.abstractVectors.(shards := map[]), indexVersion := None)
    case PutIndexVersion => d.(indexVersion := Some(INDEX_VERSION))
  }

  function PutBody(v: Vectors, record: StoredEmbedding): Vectors {
    v.(bodies := v.bodies[record.id := record])
  }

  function PutManifest(v: Vectors, session: Option<nat>, ids: Manifest): Vectors {
    v.(shards := v.shards[session := ids])
  }

  function RemoveBody(v: Vectors, id: nat): Vectors {
    v.(bodies := v.bodies - {id})
  }

  function Run(d: Disk, ws: seq<Write>): Disk
    decreases |ws|
  {
    if ws == [] then d else Run(Perform(d, ws[0]), ws[1..])
  }

  lemma {:induction false} RunConcat(d: Disk, a: seq<Write>, b: seq<Write>)
    ensures Run(d, a + b) == Run(Run(d, a), b)
    decreases |a|
  {
    if a == [] {
      assert a + b == b;
    } else {
      assert (a + b)[1..] == a[1..] + b;
      RunConcat(Perform(d, a[0]), a[1..], b);
    }
  }

  lemma {:induction false} RunSnoc(d: Disk, a: seq<Write>, w: Write)
    ensures Run(d, a + [w]) == Perform(Run(d, a), w)
  {
    RunConcat(d, a, [w]);
    assert Run(Run(d, a), [w]) == Perform(Run(d, a), w);
  }

  // ---------------------------------------------------------------- write sequences

  /** One index update: a backlog file that does not hold the node is not rewritten. */
  function FileWrites(files: IndexFiles, node: RawNode, key: IndexKey): seq<Write> {
    if Belongs(node, key) then
      [PutIndex(key, Kept(key, Upsert(Read(files, key), EntryOf(node))))]
    else if key in files && |Without(files[key], node.id)| != |files[key]| then
      [PutIndex(key, Without(files[key], node.id))]
    else
      []
  }

  /** `sync_raw_indexes_unlocked` */
  function SyncWrites(files: IndexFiles, node: RawNode, keys: seq<IndexKey>): seq<Write>
    decreases |keys|
  {
    if keys == [] then []
    else FileWrites(files, node, keys[0]) + SyncWrites(SyncFile(files, node, keys[0]), node, keys[1..])
  }

  function RawRecord(node: RawNode, embedding: seq<real>): StoredEmbedding {
    StoredEmbedding(node.id, embedding, node.timestamp, node.sessionId)
  }

  function AbstractRecord(node: AbstractNode, embedding: seq<real>): StoredEmbedding {
    StoredEmbedding(node.id, embedding, node.timestamp, node.sessionId)
  }

  function RemoveRawWrites(ids: seq<nat>): seq<Write> {
    if ids == [] then [] else [RemoveRawEmbedding(ids[0])] + RemoveRawWrites(ids[1..])
  }

  function RemoveAbstractWrites(ids: seq<nat>): seq<Write> {
    if ids == [] then [] else [RemoveAbstractEmbedding(ids[0])] + RemoveAbstractWrites(ids[1..])
  }

  /** Body, then manifest, then evicted bodies. */
  function IndexRawWrites(v: Vectors, record: StoredEmbedding): seq<Write> {
    var ids := ReadManifest(v.shards, record.sessionId);
    [PutRawEmbedding(record), PutRawManifest(record.sessionId, KeptIds(ids, record.id))]
    + RemoveRawWrites(EvictedIds(ids, record.id))
  }

  function IndexAbstractWrites(v: Vectors, record: StoredEmbedding): seq<Write> {
    var ids := ReadManifest(v.shards, record.sessionId);
    [PutAbstractEmbedding(record), PutAbstractManifest(record.sessionId, KeptIds(ids, record.id))]
    + RemoveAbstractWrites(EvictedIds(ids, record.id))
  }

  function ManifestWrite(kind: Kind, session: Option<nat>, ids: Manifest): Write {
    match kind
    case RawKind => PutRawManifest(session, ids)
    case AbstractKind => PutAbstractManifest(session, ids)
  }

  function ShardWrites(d: Disk, kind: Kind, record: StoredEmbedding): seq<Write> {
    match kind
    case RawKind => IndexRawWrites(d.rawVectors, record)
    case AbstractKind => IndexAbstractWrites(d.abstractVectors, record)
  }

  /** `index_raw_with_session` and `index_abstract_with_session` */
  function IndexWrites(d: Disk, kind: Kind, record: StoredEmbedding): seq<Write> {
    ShardWrites(d, kind, record) + [TouchMetadata]
  }

  function RawReceiptWrites(node: RawNode): seq<Write> {
    if node.operationKey.Some? then [PutRawReceipt(StoredId(node.id, node.operationKey.value))] else []
  }

  function AbstractReceiptWrites(node: AbstractNode): seq<Write> {
    if node.operationKey.Some? then [PutAbstractReceipt(StoredId(node.id, node.operationKey.value))] else []
  }

  /** `apply_raw_commit_unlocked` */
  function RawCommitWrites(d: Disk, node: RawNode, embedding: seq<real>): seq<Write> {
    [PutRaw(node)] + RawReceiptWrites(node) + SyncWrites(d.files, node, KeysOf(node))
    + IndexRawWrites(d.rawVectors, RawRecord(node, embedding)) + [TouchMetadata]
  }

  /** `apply_abstract_commit_unlocked` */
  function AbstractCommitWrites(d: Disk, node: AbstractNode, embedding: seq<real>): seq<Write> {
    [PutAbstract(node)] + AbstractReceiptWrites(node)
    + IndexAbstractWrites(d.abstractVectors, AbstractRecord(node, embedding))
    + [PutGraph(StoredEdgesOf(node)), TouchMetadata]
  }

  function PatchOneWrites(files: IndexFiles, node: RawNode): seq<Write> {
    [PutRaw(node)] + SyncWrites(files, node, KeysOf(node))
  }

  /** Body and index writes for the listed ids that exist, in order. */
  function PatchWrites(raw: RawBodies, files: IndexFiles, ids: seq<nat>, patch: RawLifecyclePatch): seq<Write>
    decreases |ids|
  {
    if ids == [] then []
    else if ids[0] in raw then
      var node := Patched(raw[ids[0]], patch);
      PatchOneWrites(files, node) + PatchWrites(raw[node.id := node], Sync(files, node), ids[1..], patch)
    else
      PatchWrites(raw, files, ids[1..], patch)
  }

  /** `apply_raw_lifecycle_unlocked` */
  function LifecycleWrites(d: Disk, ids: seq<nat>, patch: RawLifecyclePatch): seq<Write> {
    PatchWrites(d.raw, d.files, ids, patch)
    + (if exists id | id in ids :: id in d.raw then [TouchMetadata] else [])
  }

  function ApplyWrites(d: Disk, mutation: MutationJournal): seq<Write> {
    match mutation
    case CommitRaw(node, embedding) => RawCommitWrites(d, node, embedding)
    case CommitAbstract(node, embedding) => AbstractCommitWrites(d, node, embedding)
    case UpdateRawLifecycle(ids, patch) => LifecycleWrites(d, ids, patch)
  }

  /** Journal, apply, clear. */
  function MutateWrites(d: Disk, mutation: MutationJournal): seq<Write> {
    [PutJournal(mutation)] + ApplyWrites(d, mutation) + [RemoveJournal]
  }

  /** `replay_journal_unlocked` */
  function ReplayWrites(d: Disk): seq<Write> {
    if d.journal.Some? then ApplyWrites(d, d.journal.value) + [RemoveJournal] else []
  }

  /** The unjournaled `insert_raw_once`, past its receipt lookup. */
  function InsertRawWrites(d: Disk, node: RawNode): seq<Write> {
    [PutRaw(node)] + RawReceiptWrites(node) + SyncWrites(d.files, node, KeysOf(node)) + [TouchMetadata]
  }

  /** The unjournaled `insert_abstract_once`, past its receipt lookup. */
  function InsertAbstractWrites(node: AbstractNode): seq<Write> {
    [PutAbstract(node)] + AbstractReceiptWrites(node) + [TouchMetadata]
  }

  /** The graph repository's `index_abstract`. */
  function IndexGraphWrites(node: AbstractNode): seq<Write> {
    [PutGraph(StoredEdgesOf(node)), TouchMetadata]
  }

  // ---------------------------------------------------------------- graph edges

  predicate EdgeBefore(a: GraphEdge, b: GraphEdge) {
    StringBefore(a.predicateName, b.predicateName) || (a.predicateName == b.predicateName && a.to < b.to)
  }

  /** Put an edge into a sorted, duplicate-free edge list. */
  function AddEdge(edges: seq<GraphEdge>, e: GraphEdge): (r: seq<GraphEdge>)
    ensures forall x :: x in r <==> x in edges || x == e
  {
    if edges == [] then [e]
    else if edges[0] == e then edges
    else if EdgeBefore(e, edges[0]) then [e] + edges
    else
      assert edges == [edges[0]] + edges[1..];
      [edges[0]] + AddEdge(edges[1..], e)
  }

  function ReferenceEdges(ids: seq<nat>, edges: seq<GraphEdge>): seq<GraphEdge> {
    if ids == [] then edges else ReferenceEdges(ids[1..], AddEdge(edges, GraphEdge(ids[0], "reference")))
  }

  function RelationEdges(relations: seq<Relation>, edges: seq<GraphEdge>): seq<GraphEdge>
    decreases |relations|
  {
    if relations == [] then edges
    else
      var to := PARSE_ABSTRACT_ID(relations[0].target);
      RelationEdges(relations[1..],
                    if to.Some? then AddEdge(edges, GraphEdge(to.value, relations[0].predicateName)) else edges)
  }

  /** `edges_for_abstract` */
  function EdgesForAbstract(node: AbstractNode): seq<GraphEdge> {
    RelationEdges(node.relations, ReferenceEdges(node.abstractReferences, []))
  }

  function StoredEdgesOf(node: AbstractNode): StoredGraphEdges {
    StoredGraphEdges(node.id, node.sessionId, EdgesForAbstract(node))
  }
}
