# A verified model of the engine's store, tool rounds and graph runs

This project models four parts of the engine and proves what they promise.

- **The object store** (`Listings`, `RawIndexes`, `IndexMeaning`, `VectorShards`, `Store*`, `ObjectStore`, `Calendar`,
  `Timeline`, `TextOrder`, `GraphEdges`). The directory is a value; one atomic file replace or removal is
  one `Write`; a crash falls between two writes and is followed by an opening. `FileObjectStore` performs
  the operations write by write, and its contracts give the exact write sequences; the lemmas are about
  their prefixes, about openings that are themselves interrupted, and about whole histories of both.
  `IndexMeaning` and `StoreMeaning` say in terms of the stored fields what the files and the calls mean.
- **The tool round** (`Conversation`, `Transcript`, `ToolText`, `ToolPhases`, `ToolRound`,
  `OperationKeys`). One run of the tool node from a checkpoint, for an arbitrary token estimator and an
  arbitrary executor, with recovery from the same checkpoint any number of times.
- **The graph runner** (`GraphRunner`, `RunMeaning`, `GraphSpec`, `Recovery`). The checkpointed loop over any graph,
  the two built-in graphs, and chains of interrupted and recovered runs. `RunMeaning` says what a run is and
  why it ended, for any graph.
- **Leases, search, context** (`Leases`, `Distillation`, `DistillationStore`, `Traverse`, `ContextAssembler`).
  The lease protocol with failing calls, and its refinement by workers over the crash-prone store.

What the store proofs rest on, stated as preconditions: a raw id fixes its node's timestamp, session,
loop and operation key, and an embedding id its session; the unjournaled `insert_raw_once` brings a fresh id
or changes no backlog entry, and the unjournaled `insert_abstract_once` brings no key of its own
(`StoreHistories.InsertionCallCrashSafeIff` and `AbstractCallCrashSafeIff` prove that these are exactly the
crash-safe calls); a crash is followed by an opening before the next call; stored files are not corrupted
from outside; resetting the index root is one step. Receipt digests need not be injective: a collision is
reported, as in the source.

Where the code and its documentation differ, the model follows the code. The comments at
`src/storage/object_store/store.rs:261-271` call timeline coverage a sound completeness probe;
`InsertionCrashSafeIff` shows that it is sound for fresh ids and lifecycle-neutral re-insertions only. No
probe looks at the receipts of abstract nodes, so a keyed `insert_abstract_once` that crashes behind its body
leaves a key that can be used a second time (`LostReceiptDuplicates`); the journaled `commit_abstract` does
not (`AbstractExactlyOnce`). The comment at `src/storage/object_store/store.rs:1610-1612` says that the order
of the shard names is that of the days; `ReadIsQueryIff` shows that the timeline read depends on it, and
`YearTenThousandIsMisread` that it ends with year 9999. An eviction whose manifest write landed is not
repeated by replay; the rebuild that follows may evict another body, which is what `CommitAtomicIff` decides.

Text is a sequence of characters and JSON is its rendered text; timestamps are integers and a day bucket
is a whole number of days; hash maps are visited in an arbitrary order. The receipt digest, the batch
digest, the rendering of previews and errors, the encoded length of a result, the parsing of abstract ids
and the whitespace test are arbitrary functions. The executor's outcomes, the node replies, cancellation,
the clock, fresh lease ids and the success of single repository calls are parameters.

## Model

| member | source | states |
|---|---|---|
| `Listings.SortSorted` | src/storage/object_store/store.rs:1624-1630 | sorting distinct entries gives a strictly ascending file with the same entries |
| `Listings.ListingUnique` | src/storage/object_store/store.rs:1624-1630 | an ascending file is determined by the set of entries it holds, so an incrementally kept file can be compared with a rebuilt one |
| `Listings.UpsertListing` | src/storage/object_store/store.rs:1170-1180 | retain, push and sort turn the listing of a set into the listing of that set with the id's entry replaced |
| `Listings.BoundedUpsert` | src/storage/object_store/store.rs:1182-1196 | upserting into the newest `limit` entries of any set gives the newest `limit` of the enlarged set, also when the entry is an old one that had been evicted |
| `Listings.RemoveListing` | src/storage/object_store/store.rs:1198-1206 | removing an id from a file leaves the listing of the remaining entries |
| `RawIndexes.SyncRefinesRebuild` | src/storage/object_store/store.rs:1208-1267 | incremental indexing refines rebuild: if every session, loop, backlog and timeline file is what a rebuild from the bodies would write, it still is after synchronising one inserted or lifecycle-updated node |
| `RawIndexes.SyncStep` | src/storage/object_store/store.rs:1208-1267 | every single file write of a synchronisation keeps all files between the rebuild of the old bodies and the rebuild of the new ones |
| `RawIndexes.SyncSettles` | src/storage/object_store/store.rs:1208-1267 | one complete synchronisation of a node settles its contribution to every file, from any partly updated files |
| `RawIndexes.SettledIsExact` | src/storage/object_store/store.rs:452-540 | files to which every changed node has settled its contribution equal a rebuild |
| `IndexMeaning.IndexesMean` | src/storage/object_store/store.rs:452-540 | what the five kinds of file of a consistent store list, in terms of the node fields: the newest 4096 of a session, the newest 4097 of a loop, all nodes not distilled, those of them pushed out of their session, and all nodes of a UTC day, in order of time and id |
| `VectorShards.IndexKeepsExact` | src/storage/object_store/vector.rs:34-103 | body, manifest, eviction: each manifest keeps listing exactly its session's bodies, once, at most 4096 |
| `VectorShards.ReplayVectors` | src/storage/object_store/store.rs:1353-1374 | indexing an embedding again from any point of an interrupted indexing gives the same manifests, and the same bodies unless an eviction was already recorded |
| `VectorShards.OrphanUncovered` | src/storage/object_store/store.rs:323-345 | a body whose eviction was recorded but not carried out fails the embedding probe |
| `VectorShards.RebuiltExact` | src/storage/object_store/store.rs:1140-1168 | a shard rebuild makes any set of embedding bodies consistent: manifests list exactly the surviving bodies, the newest 4096 per session |
| `VectorShards.RebuildKeepsExact` | src/storage/object_store/store.rs:1140-1168 | rebuilding consistent shards changes nothing but the order inside manifests |
| `VectorShards.RebuildRestarts` | src/storage/object_store/store.rs:1140-1168 | a shard rebuild interrupted among its evictions and started over ends with the same bodies and manifests |
| `VectorShards.OverflowAgreesWithRebuild` | src/storage/object_store/store.rs:1114-1168 | the incremental eviction and the one a rebuild makes leave the same bodies exactly if the front of the manifest is the session's oldest embedding |
| `StoreEffects.RunApplied` | src/storage/object_store/store.rs:1341-1448 | the write sequence of each mutation adds up to its effect on bodies, receipts, indexes, shards and edges |
| `StoreInvariants.RebuildConsistent` | src/storage/object_store/store.rs:452-568 | a rebuild makes any intact disk consistent without touching bodies or edges |
| `StoreInvariants.RebuildIsNeutral` | src/storage/object_store/store.rs:452-568 | rebuilding a consistent store changes at most the order inside manifests |
| `StoreInvariants.OpenConsistent` | src/storage/object_store/store.rs:224-247 | opening a consistent store passes every probe and changes nothing |
| `StoreInvariants.RebuiltReceiptsExact` | src/storage/object_store/store.rs:500-511 | after a rebuild every receipt names the body that carries its key, and every keyed body has its receipt |
| `StoreReplay.ApplicationStays` | src/storage/object_store/store.rs:1341-1448 | applying a journaled mutation from any disk that partial applications left keeps every exposed disk within that family |
| `StoreReplay.ReplayConverges` | src/storage/object_store/store.rs:1320-1448 | replay convergence for all three journal kinds: one complete application from any partly applied disk equals a single uninterrupted one; only a recorded eviction can be missing |
| `StoreRecovery.MutationCrashAtomic` | src/storage/object_store/store.rs:1269-1448 | crash atomicity: crashed after any number of file writes and reopened, the store is as before the mutation or exactly as after it, if nothing is evicted, and consistent in any case |
| `StoreRecovery.PartialReplaysConverge` | src/storage/object_store/store.rs:1320-1339 | any number of replays, each cut anywhere, followed by one open give the store of a single application |
| `StoreRecovery.BetweenOpens` | src/storage/object_store/store.rs:224-247 | opening any partly applied disk gives a consistent store with the bodies and edges of the whole mutation |
| `StoreRecovery.OpenQuiet` | src/storage/object_store/store.rs:224-247 | opening a disk without a journal, on which accepting probes are sound, keeps its bodies and edges and gives a consistent store |
| `StoreOverflow.OverflowOutcomes` | src/storage/object_store/store.rs:1341-1423 | an evicting commit, raw or abstract, reopens at every crash point as the finished commit or as the rebuild of the commit with its orphan |
| `StoreOverflow.OverflowAtomicIff` | src/storage/object_store/store.rs:1341-1423 | crash atomicity of an evicting commit, raw or abstract, holds at every crash point exactly if the front of the manifest is the session's oldest embedding |
| `StoreOverflow.CommitAtomicIff` | src/storage/object_store/store.rs:1269-1423 | crash atomicity of every commit, decided: from the first write on it always reopens finished exactly if nothing is evicted or the manifest's front is the session's oldest embedding |
| `StoreInsertion.InsertionQuiet` | src/storage/object_store/store.rs:249-295 | probe soundness: a crashed insertion of a fresh id that open accepts has its receipt and every secondary index already as a rebuild would write them |
| `StoreInsertion.InsertionCrashAtomic` | src/storage/object_store/node.rs:37-84 | an unjournaled insertion of a fresh id, crashed anywhere and reopened, is not done or done completely |
| `StoreInsertion.InsertionCrashSafeIff` | src/storage/object_store/node.rs:63-78 | the writes of an unjournaled insertion, past its receipt lookup, are crash-safe exactly if the id is new or no backlog entry changes |
| `StoreInsertion.ReinsertionAccepted` | src/storage/object_store/store.rs:272-294 | the timeline probe accepts every crash image of the re-insertion of a known id |
| `StoreInsertion.CoreDetermines` | src/storage/object_store/store.rs:452-568 | a consistent store is determined by its bodies and edges, up to its embedding shards |
| `StoreProjections.ProbeSound` | src/storage/object_store/store.rs:323-385 | cut after any write, an unjournaled embedding indexing passes the embedding probe only if bodies and manifests agree |
| `StoreProjections.IndexingQuiet` | src/storage/object_store/vector.rs:34-103 | every crash point of an unjournaled indexing reopens consistent, with all nodes and edges untouched |
| `StoreProjections.IndexingAtomicIff` | src/storage/object_store/vector.rs:34-103 | once it has written anything, an unjournaled indexing always reopens as finished exactly if nothing is evicted or the front of the manifest is the session's oldest embedding |
| `StoreAbstracts.BodyWithoutReceipt` | src/storage/object_store/store.rs:224-247 | an abstract body without its receipt passes every probe, although a rebuild would have written the receipt |
| `StoreAbstracts.AbstractInsertionCrashSafeIff` | src/storage/object_store/node.rs:86-134 | an unjournaled abstract insertion is crash-safe exactly if the node has no operation key |
| `StoreAbstracts.LostReceiptDuplicates` | src/storage/object_store/node.rs:86-134 | what a keyed one can leave: after a crash behind its body, a second node is accepted under the same key |
| `StoreExamples.FirstOpen` | src/storage/object_store/store.rs:224-247 | opening an empty directory gives a consistent, empty store |
| `StoreExamples.ReinsertionCanLeaveAStaleBacklog` | src/storage/object_store/node.rs:63-78 | a concrete store and node for which a crashed re-insertion leaves a stale backlog that open accepts |
| `StoreHistories.RebuildRestartable` | src/storage/object_store/store.rs:452-568 | a rebuild interrupted anywhere after the index root was reset and started over ends in the same disk |
| `StoreHistories.MidRebuildQuiet` | src/storage/object_store/store.rs:224-247 | an interrupted rebuild has no version marker, so the next open rebuilds |
| `StoreHistories.RecoverableStays` | src/storage/object_store/store.rs:224-247 | a crash during an opening leaves a disk that still recovers to the same store |
| `StoreHistories.InsertionCallCrashSafeIff` | src/storage/object_store/node.rs:37-84 | `insert_raw_once` as called is crash-safe exactly if the lookup finds a receipt, or the id is new, or no backlog entry changes |
| `StoreHistories.AbstractCallCrashSafeIff` | src/storage/object_store/node.rs:86-134 | `insert_abstract_once` as called is crash-safe exactly if the lookup finds a receipt or the node has no operation key |
| `StoreHistories.CallRecoverable` | src/storage/object_store/node.rs:37-214 | every crash point of every call recovers to the store before it or the store after all of it |
| `StoreHistories.HistoriesAreAtomic` | src/storage/object_store/node.rs:37-214 | over any history of calls, crashes at any write and interrupted reopenings the store is consistent and holds what some execution of the calls that took effect gives |
| `StoreHistories.HistoryKeepsBodies` | src/storage/object_store/node.rs:37-214 | no history loses a raw body or changes its id, key, session, loop or timestamp |
| `StoreHistories.OneBodyPerKey` | src/storage/object_store/node.rs:136-172 | in a consistent store at most one raw body carries an operation key |
| `StoreHistories.ExactlyOnce` | src/storage/object_store/node.rs:37-172 | exactly-once writes: two calls with one operation key, whatever happens between them, return the same node and leave one body for the key |
| `StoreHistories.HistoryKeepsAbstracts` | src/storage/object_store/node.rs:86-214 | no history loses an abstract body or changes its key |
| `StoreHistories.AbstractExactlyOnce` | src/storage/object_store/node.rs:86-214 | the same for abstract nodes: two calls with one operation key return the node of one id, the only one that carries the key |
| `StoreMeaning.LifecycleMeans` | src/storage/object_store/store.rs:1425-1448 | a lifecycle patch gives every stored node of the list the states it carries, keeps the other state, the content and the identity, and changes nothing else but the index files and the metadata |
| `StoreMeaning.EmbeddingMeans` | src/storage/object_store/store.rs:1354-1374 | an indexed body carries the given embedding, time and session; its id becomes the last of its session's manifest, which loses from its front what exceeds 4096, bodies included; all other bodies and manifests stay |
| `StoreMeaning.EdgesMean` | src/storage/object_store/store.rs:1411-1420 | the edges of a node are stored under its own id and session: its references and parseable relations, each once, in order |
| `StoreMeaning.ReturnedMeans` | src/storage/object_store/node.rs:136-172 | a keyed raw write reports its own node if no stored key has the digest, the stored body if its key is the same, and a collision otherwise |
| `StoreMeaning.ReturnedAbstractMeans` | src/storage/object_store/node.rs:174-214 | the same for abstract nodes |
| `StoreMeaning.CallsMean` | src/storage/object_store/node.rs:37-214 | on a consistent store every returned call has exactly the effect its arguments describe, field by field (bodies, receipts, embeddings, manifests, edges), and leaves the store consistent; a call whose key's digest is taken changes nothing |
| `ObjectStore.FileObjectStore.UpsertBoundedRawIndexEntry` | src/storage/object_store/store.rs:1182-1196 | one write of the newest `limit` entries with the new one put in |
| `ObjectStore.FileObjectStore.RemoveRawIndexEntry` | src/storage/object_store/store.rs:1198-1206 | one write without the id, or no write if it was not there |
| `ObjectStore.FileObjectStore.SyncRawIndexes` | src/storage/object_store/store.rs:1208-1267 | performs exactly the synchronisation's write sequence, the timeline last |
| `ObjectStore.FileObjectStore.UpsertRawManifestId` | src/storage/object_store/store.rs:1114-1138 | writes the manifest with the id last, and returns the evicted ids |
| `ObjectStore.FileObjectStore.IndexRawEmbedding` | src/storage/object_store/store.rs:1354-1374 | body, manifest, then removals: exactly that write sequence, and the shard function's effect |
| `ObjectStore.FileObjectStore.IndexRawWithSession` | src/storage/object_store/vector.rs:34-68 | the same indexing under the caller's session and clock |
| `ObjectStore.FileObjectStore.IndexAbstractWithSession` | src/storage/object_store/vector.rs:70-103 | the same for abstract embeddings |
| `ObjectStore.FileObjectStore.IndexGraph` | src/storage/object_store/graph.rs:68-81 | one write of the node's edges, then one of the metadata |
| `ObjectStore.FileObjectStore.IndexAbstractEmbedding` | src/storage/object_store/store.rs:1393-1413 | the same for abstract embeddings |
| `ObjectStore.FileObjectStore.ApplyRawCommit` | src/storage/object_store/store.rs:1341-1375 | performs exactly the raw commit's write sequence |
| `ObjectStore.FileObjectStore.ApplyAbstractCommit` | src/storage/object_store/store.rs:1377-1423 | performs exactly the abstract commit's write sequence |
| `ObjectStore.FileObjectStore.ApplyRawLifecycle` | src/storage/object_store/store.rs:1425-1448 | performs exactly the patch sequence over the listed ids that exist; each of them takes the states the patch carries and keeps the rest, every other body is unchanged, and metadata is touched only if one exists |
| `ObjectStore.FileObjectStore.UpdateRawLifecycle` | src/storage/object_store/node.rs:381-388 | journaled; the listed nodes take the patch and nothing else changes but the index files; in a consistent store both backlogs then list by the new states |
| `ObjectStore.FileObjectStore.Mutate` | src/storage/object_store/store.rs:1269-1310 | journal, application, removal of the journal |
| `ObjectStore.FileObjectStore.ReplayJournal` | src/storage/object_store/store.rs:1320-1339 | applies a pending journal and removes it; nothing otherwise |
| `ObjectStore.FileObjectStore.CommitRawNode` | src/storage/object_store/node.rs:136-172 | receipt lookup and journaled commit: the node returned, whether it was inserted, and the exact writes |
| `ObjectStore.FileObjectStore.InsertRawOnce` | src/storage/object_store/node.rs:37-84 | receipt lookup and unjournaled insertion, likewise |
| `ObjectStore.FileObjectStore.CommitAbstractNode` | src/storage/object_store/node.rs:174-214 | receipt lookup and journaled commit of an abstract node, likewise |
| `ObjectStore.FileObjectStore.InsertAbstractOnce` | src/storage/object_store/node.rs:86-134 | receipt lookup and unjournaled insertion of an abstract node, likewise |
| `ObjectStore.FileObjectStore.IndexesAreComplete` | src/storage/object_store/store.rs:272-294 | true exactly if every raw body is listed by some timeline shard |
| `ObjectStore.FileObjectStore.EmbeddingDirCovered` | src/storage/object_store/store.rs:323-385 | true exactly if every embedding body is listed by some manifest |
| `ObjectStore.FileObjectStore.ScanRawNodes` | src/storage/object_store/store.rs:1023-1034 | every raw body exactly once |
| `ObjectStore.FileObjectStore.GroupNodes` | src/storage/object_store/store.rs:466-512 | groups every node's entry under its timeline day, session, loop and backlogs, and rewrites its receipt |
| `ObjectStore.FileObjectStore.WriteIndexFiles` | src/storage/object_store/store.rs:514-540 | the files written, sorted and cut, are exactly the rebuilt ones |
| `ObjectStore.FileObjectStore.RebuildEmbeddingShards` | src/storage/object_store/store.rs:1140-1168 | sort, evict, write: leaves exactly the rebuilt shard |
| `ObjectStore.FileObjectStore.RebuildIndexes` | src/storage/object_store/store.rs:452-568 | leaves the rebuilt disk; every disk exposed on the way is one a restarted rebuild brings to the same end; the version marker is the last write |
| `ObjectStore.FileObjectStore.EnsureIndexes` | src/storage/object_store/store.rs:224-247 | replay, probe, rebuild if a probe fails: leaves the opened disk, and every disk exposed on the way is one of the openings' crash images |
| `ObjectStore.RecoverableMayOpen` | src/storage/object_store/store.rs:224-247 | every disk a history can expose meets what opening asks for |
| `Calendar.NamesOrdered` | src/storage/object_store/store.rs:1610-1615 | the shard names of two days in years 0 to 9999 are ordered as the days are |
| `Calendar.LateYearsSortFirst` | src/storage/object_store/store.rs:1610-1615 | the shard of a day in year 10000 or later sorts before that of any four-digit year |
| `Calendar.NamesDistinct` | src/storage/object_store/store.rs:1613-1615 | different days, of whatever year, have different shard names |
| `Timeline.ReadGlobalTimeline` | src/storage/object_store/store.rs:789-817 | reads the shards in the reverse order of their names, stopping early, as the read function says |
| `Timeline.ReadIsQueryIff` | src/storage/object_store/store.rs:783-817 | the read answers every window and limit with exactly filter by window, sort by timestamp descending and id ascending, take `limit`, if and only if the names of the shards on disk are ordered as their days are |
| `Timeline.FourDigitYearsFollow` | src/storage/object_store/store.rs:1610-1615 | they are if every shard lies in a year from 0 to 9999 |
| `Timeline.YearTenThousandIsMisread` | src/storage/object_store/store.rs:1610-1615 | a concrete store of two nodes, one in year 10000, on which the read is wrong |
| `Timeline.EarlyStop` | src/storage/object_store/store.rs:783-788 | entries older than everything collected cannot reach a result that is already full |
| `Timeline.TimelineRaw` | src/storage/object_store/node.rs:343-379 | the global timeline query returns, where names follow days, the newest nodes within the time bounds, at most `limit`, newest first and by id among equals |
| `Timeline.InMemoryTimelineRaw` | src/storage/in_memory.rs:231-259 | the in-memory query returns the newest nodes within the time bounds, at most `limit`, newest first and by id among equals |
| `Timeline.TimelinesAgree` | src/storage/in_memory.rs:231-259 | both backends asked the same return the same nodes, for every window and limit, wherever names follow days and in any case for dates up to year 9999 |
| `Timeline.RecentSessionRaw` | src/storage/object_store/node.rs:295-310 | the newest nodes of a session, at most `limit` and at most 4096, in ascending order: no other node of the session is newer |
| `Timeline.UndistilledRaw` | src/storage/object_store/node.rs:390-404 | the oldest `limit` of the nodes that are not distilled, or of those among them that were pushed out of their session, in ascending order |
| `GraphEdges.EdgesForAbstractAre` | src/storage/object_store/graph.rs:40-63 | the stored edges are exactly the references and the parseable relations, each once, in sorted order |
| `Traverse.TraverseGraph` | src/storage/object_store/graph.rs:83-132 | the loop computes the search function and terminates on every graph; every hit has a record of the asked session and was reached by an asked predicate, a start in scope is the first hit, and with an ample bound no allowed edge of a hit above the depth bound leads to a node that is left out |
| `Traverse.CompleteLeavesNothingOut` | src/storage/object_store/graph.rs:119-128 | a sound and complete result is closed under the stored edges that the scope and the predicates allow |
| `Traverse.SearchAnswers` | src/storage/object_store/graph.rs:83-132 | distinct in-scope nodes in order of depth, each at the end of a real allowed path of that length, at most max(1, `max_hits`); complete when `max_hits` exceeds one plus the edge count |
| `Traverse.UncutSearch` | src/storage/object_store/graph.rs:112-127 | such a bound changes nothing: the search is the one without a bound |
| `Traverse.CutSearchIsPrefix` | src/storage/object_store/graph.rs:112-127 | a search that `max_hits` cuts returns a prefix of the uncut one, unless it drops a queued entry after refusing another |
| `TraverseExamples.CutSearchCanSkip` | src/storage/object_store/graph.rs:112-127 | a concrete graph on which it does, and the result is not a prefix |
| `Traverse.ExactlyShortest` | src/storage/graph.rs:72-117 | a sound and complete result is exactly the nodes reachable within the depth bound, at their shortest distance |
| `Traverse.PushEdges` | src/storage/object_store/graph.rs:118-127 | the inner loop queues the longest prefix of the allowed edges that keeps hits and queue within the bound |
| `Conversation.EstimateConversationMessage` | src/engine/nodes.rs:1337-1354 | content, correlation id, every call's id, name and arguments, plus one |
| `Conversation.MessageCost` | src/engine/nodes.rs:1337-1354 | a message without calls costs its content, its correlation id and one token; every call on it adds the cost of its id, name and arguments |
| `Transcript.CoherentConversationGroups` | src/engine/nodes.rs:1289-1335 | the index loop computes the grouping function |
| `Transcript.GroupsCoherent` | src/engine/nodes.rs:1289-1335 | grouping any history yields plain messages and complete exchanges only |
| `Transcript.GroupsOfFlatten` | src/engine/nodes.rs:1289-1335 | grouping is the inverse of flattening on coherent groups |
| `Transcript.CoherentIsKept` | src/engine/nodes.rs:1289-1335 | grouping loses nothing of a history exactly if it is coherent |
| `Transcript.GroupingKeepsWhatWasSaid` | src/engine/nodes.rs:1322-1333 | no text but tool traffic is ever dropped or reordered, even from incomplete exchanges |
| `Transcript.NoOrphanResults` | src/engine/nodes.rs:1289-1335 | in a coherent history every tool result follows, with only results between, the message that asked for it |
| `Transcript.NoIncompleteExchange` | src/engine/nodes.rs:1289-1335 | in a coherent history every message with calls is followed by exactly one result per call |
| `Transcript.TrimConversationHistory` | src/engine/nodes.rs:1226-1263 | the newest coherent groups for which reserves and prompt excesses leave room, one older group more would not fit, and an error exactly if nothing is left; where the reserves fit, prompts, kept history and the tool reserve are together within the total; a coherent history that has room is returned whole |
| `Transcript.TrimMeans` | src/engine/nodes.rs:1226-1263 | trimming said in terms of the budget alone: what the three reserves and the excess of the system prompt and of the working text leave of the total |
| `Transcript.TrimIsMaximalSuffix` | src/engine/nodes.rs:1226-1263 | what is kept is a suffix of the groups that fits beside the fixed prompt, and one older group more would not fit |
| `Transcript.TrimIsCoherent` | src/engine/nodes.rs:1226-1263 | a trimmed history has no orphan result and no incomplete exchange |
| `Transcript.TrimIdempotent` | src/engine/session_engine.rs:135-141 | trimming what was trimmed changes nothing, as the turn trims twice |
| `Transcript.TrimKeepsWhatFits` | src/engine/nodes.rs:1226-1263 | a coherent history that fits is returned unchanged |
| `ToolText.TruncateTextToTokenBudget` | src/engine/nodes.rs:1427-1459 | a prefix that fits or nothing; the whole text if it fits; the longest fitting prefix where the estimator is monotone |
| `ToolText.ClampToolResultForModel` | src/engine/nodes.rs:1605-1669 | whole content if it is within the allowance; else a preview, the longest that fits where the estimator is monotone; an empty object only if not even an empty preview fits; within the allowance whenever an empty object is |
| `ToolText.BoundToolCallsForModel` | src/engine/nodes.rs:1356-1407 | fails exactly if empty arguments do not fit; otherwise the same calls, in order, within the budget; whatever the others cost, arguments within an even share of what the empty ones leave are kept, and none are dropped whose share has room for the truncation marker |
| `ToolText.SharesOnlyGrow` | src/engine/nodes.rs:1379-1406 | who spends at most its own even share leaves the others no less than theirs |
| `ToolText.BoundToolResultForStorage` | src/engine/nodes.rs:1671-1741 | fits in `max_result_bytes` or fails exactly if the bare envelope does not; untouched if it fits, else the longest preview that does |
| `ToolText.EnvelopeMeans` | src/engine/nodes.rs:1678-1703 | the envelope keeps id and name around an empty preview; its summary is the longest prefix within an eighth of the bytes and 4096, or empty if the envelope does not fit with that |
| `OperationKeys.ToolResultKeyInjective` | src/engine/nodes.rs:1829-1836 | a tool result's key names its loop, round, index and tool |
| `OperationKeys.ToolResultKeyIsOwn` | src/engine/nodes.rs:1821-1836 | tool, input and output keys never coincide |
| `OperationKeys.DistillKeyInjective` | src/engine/nodes.rs:1125-1127 | a distilled node's key names its session, loop, batch and position |
| `ToolPhases.BuildPhases` | src/engine/nodes.rs:545-565 | the loop computes the phase function |
| `ToolPhases.PhasesKeepOrder` | src/engine/nodes.rs:545-565 | concatenated, the phases are the uncached calls in provider order |
| `ToolPhases.PhasesSeparateEffects` | src/engine/nodes.rs:545-565 | a side-effecting call is alone in its phase, reads share one, and neighbouring phases are never both reads |
| `ToolPhases.ToolExecutor.ExecutePhase` | src/engine/nodes.rs:755-846 | dispatches the phase's keys and fails exactly if a task panicked; else every call is told what became of its task: a completed one its own result, a side effect that timed out or was cancelled that it is indeterminate under its own key, a timed-out read an ordinary error, a cancelled read the cancellation |
| `ToolPhases.OutcomeTold` | src/engine/nodes.rs:806-843 | which outcomes tell what, and that exactly panics, cancellations, timed-out side effects and results that say so stop the round |
| `ToolPhases.ToolExecutor.ExecutePhases` | src/engine/nodes.rs:567-597 | dispatches a prefix of the phases, each after the ones before it were joined without an outcome that stops the round, and nothing after one; every call of the prefix is told what became of it |
| `ToolRound.PrepareCalls` | src/engine/nodes.rs:393-460 | succeeds exactly if no call is unpreparable (cancelled, refused, blank or reused id, blank name, unreadable store); then every call is prepared as a function of the checkpoint and the stored results, with unique non-blank ids, before anything is dispatched |
| `ToolRound.BoundAssistantTurn` | src/engine/nodes.rs:513-536 | the assistant half stays within its minimum and its third; arguments within an even share of half of that third are kept, and the draft text is kept whole if it fits what they leave |
| `ToolRound.PlanTranscript` | src/engine/nodes.rs:462-543 | room for all calls and results is reserved exactly if the bare envelopes fit, and the reserve is then used up by the transcript so far, the assistant message, the bare results and the tokens left to them; the later guard never fires |
| `ToolRound.BoundOneResult` | src/engine/nodes.rs:640-668 | one result under the engine's own id and name, whole if it is within an even share beyond an empty object, else the longest preview there is room for; what it uses comes out of the extra tokens; it fails exactly if its envelope cannot be stored |
| `ToolRound.AssembleResults` | src/engine/nodes.rs:603-700 | succeeds exactly if no call obstructs (unreadable payload, outcome that stops the round, unstorable envelope, failing store), and else with the error that call explains; results in call order within the reserved tokens, and whatever the others cost each has a view of at least its even share; failures keep what was persisted |
| `ToolRound.RunExecuteTools` | src/engine/nodes.rs:373-728 | the round completes exactly if nothing hinders it: whole, within `reserve_tools`, with one fair view per call in order, each showing the stored payload, the executor's own result or the ordinary error of that call, stored under its own key; otherwise checkpoint fields and transcript are unchanged; nothing is dispatched unless all envelopes fit, and after a side effect that timed out or was cancelled the run is an error and no later phase was dispatched |
| `ToolRound.SourceMeans` | src/engine/nodes.rs:609-634 | what a round may report for a call: its stored payload, its completed result, or an ordinary error as a result; an unreadable payload and an outcome that stops the round report nothing |
| `ToolRound.StoppedEffects` | src/engine/nodes.rs:567-597 | a call whose outcome stops the round is in the last dispatched phase, and fails the round |
| `ToolRound.EngineTranscriptRegroups` | src/engine/nodes.rs:703-711 | grouping and flattening the engine's own transcript is the identity |
| `ToolRound.EngineTranscriptExtends` | src/engine/nodes.rs:703-711 | a round with unused call ids extends the transcript to a well-formed one |
| `ToolRound.RecoverRound` | src/engine/session_engine.rs:205-238 | recovery is a sequence of attempts from one untouched checkpoint, each starting from the log and the store its predecessor left, until one completes the round; every attempt but the completed one was hindered |
| `ToolRound.StoredIsNotDispatchedAgain` | src/engine/nodes.rs:440-460 | in the memory-aware profile a result stored by any attempt of a recovery is never asked for again by a later one, which reports the stored result |
| `ToolRound.SameKeysEveryAttempt` | src/engine/nodes.rs:393-460 | all attempts of a recovery derive the same calls under the same operation keys |
| `ToolRound.PreparedKeysDiffer` | src/engine/nodes.rs:440-441 | two different calls of a turn never share an operation key |
| `Leases.RunKeepsSafe` | src/storage/in_memory.rs:296-348 | every interleaving of claims, commits and releases under a monotone clock keeps the claims table and the live leases in step |
| `Leases.AtMostOneCurrent` | src/storage/object_store/node.rs:440-455 | at any moment of any run at most one claim ever issued for a session and loop is current |
| `Leases.CurrentIffLive` | src/storage/object_store/node.rs:440-455 | an issued claim passes the check exactly while it is neither expired nor released |
| `Leases.StaleReleaseIsHarmless` | src/storage/object_store/node.rs:457-471 | a stale holder's release changes nothing, and no release ends another's lease |
| `Leases.LeaseIsProtected` | src/storage/object_store/node.rs:406-438 | no interleaving takes a lease away before it expires unless it is given back |
| `Leases.LostStaysLost` | src/storage/object_store/node.rs:440-455 | a lease lost by expiry or release is never current again |
| `Leases.OneNodePerPosition` | src/storage/object_store/node.rs:174-214 | two holders of claims on one batch, under whatever leases and however far apart, are given the same node for one position |
| `Leases.PositionKeysApart` | src/engine/nodes.rs:1125-1127 | positions of two claimed batches have one operation key exactly if they are the same position of the same batch |
| `Distillation.DistillationRepository.TryClaimDistillation` | src/storage/in_memory.rs:296-319 | refused exactly if an unexpired claim is held |
| `Distillation.DistillationRepository.CommitNewNodes` | src/engine/nodes.rs:1108-1132 | each commit uses its own position's key and follows a check that passed; other workers act and repository calls fail anywhere; what was committed stays, what is returned was inserted here, and a worker is turned away only if its lease ran out or was given back |
| `Distillation.DistillationRepository.ApplyUpdates` | src/engine/nodes.rs:1133-1147 | the updates are applied in order, each after a check that passed; an error is the fault of the lease or of a call that failed |
| `Distillation.DistillationRepository.CommitOutput` | src/engine/nodes.rs:1092-1146 | an update outside the batch or repeated is refused before anything is committed or updated, and exactly then; otherwise all nodes are committed and all updates applied, unless the lease, a repository call or a provenance is at fault |
| `Distillation.DistillationRepository.DistillClaimedRawNodes` | src/engine/nodes.rs:1016-1157 | claims exactly for acceptable batches not already held; commits and updates are guarded by the claim; unless the release itself fails before it is written the claim is no longer this worker's on return, and a failed release is an error; a valid output fails only by the fault of the lease, a repository call or a provenance |
| `DistillationStore.JointRunRefines` | src/storage/object_store/node.rs:136-214 | every joint run of leases, store calls, crashes and reopenings is a run of the lease protocol, whose nodes stay exactly the keyed abstract bodies on a consistent disk |
| `DistillationStore.CommitCallIsCommit` | src/storage/object_store/node.rs:174-214 | a commit call that returns is the protocol's commit and returns its canonical node |
| `DistillationStore.OneBodyPerPosition` | src/engine/nodes.rs:1108-1132 | the nodes two workers logged, any joint run apart, are bodies on disk, and two of them are one body exactly if they are the same position of the same batch |
| `DistillationStore.LaterCommitFindsIt` | src/storage/object_store/node.rs:174-214 | a later commit for a logged position writes nothing and returns the logged node |
| `ContextAssembler.SplitBudget` | src/engine/context_assembler.rs:47-54 | the share is the product of the whole and the ratio, rounded down; it never exceeds the whole, and the extreme ratios give nothing and everything |
| `ContextAssembler.CollectSessionContext` | src/engine/context_assembler.rs:104-136 | pushed-out ids followed by included ids are the input ids; what is included is the longest suffix that fits |
| `ContextAssembler.CollectMemoryContext` | src/engine/context_assembler.rs:138-167 | as many abstracts as fit, then as many raw nodes as still fit |
| `ContextAssembler.Assemble` | src/engine/context_assembler.rs:62-102 | session nodes, memory and tool summaries are each packed as far as their shares allow; the total is at most system prompt, remaining budget and tool reserve, hence within the total budget if the prompt keeps to its reserve |
| `GraphRunner.CheckpointRoundTrip` | src/engine/execution_graph.rs:163-211 | a checkpoint is accepted exactly if it is one some state writes, and then gives that state back |
| `GraphRunner.RunFromNode` | src/engine/execution_graph.rs:577-742 | the loop ends as the run function says: same result, state and checkpoint, no other loop's checkpoint is touched, and the `Running` checkpoints saved on the way are exactly the run's |
| `GraphRunner.ContinueCheckpoint` | src/engine/execution_graph.rs:491-547 | `resume` and `recover_running`: refuse as the continuation function says without touching the repository, or run its node from its state |
| `RunMeaning.RunIsTrace` | src/engine/execution_graph.rs:577-742 | every run of every graph is a sequence of visits joined by completed nodes and existing edges; it reports cancelled exactly if the token was read cancelled or the node reported it, timed out exactly if the budget is used up or an awaited node other than a tool node timed out, paused or finished exactly if a pausing or finishing node completed, and an error exactly for a missing node or edge or a failed node; state and checkpoint are those of the last visit, and in front of every step begun its checkpoint was saved |
| `RunMeaning.AnyRunEnds` | src/engine/execution_graph.rs:595-610 | any run of any graph stops within `max_graph_steps`, and the checkpoint it leaves tells how it ended |
| `RunMeaning.ContinuedMeans` | src/engine/execution_graph.rs:491-547 | a checkpoint is continued exactly if it has the wanted status, version 1, a readable state that agrees with its session, loop and graph, and the profile asked for |
| `RunMeaning.OnlyPausedIsResumed` | src/engine/execution_graph.rs:491-547 | neither `resume` nor `recover_running` takes up a run that timed out, was cancelled, failed or finished; a paused run is taken up by `resume` alone, at the node and in the state it paused in |
| `GraphSpec.BuildDefaultExecutionGraph` | src/engine/graph_spec.rs:32-107 | the memory-aware builder registers exactly the table's nodes and edges |
| `GraphSpec.BuildExternalContextExecutionGraph` | src/engine/graph_spec.rs:116-148 | the external-context builder likewise |
| `GraphSpec.MemoryAwareGraph` | src/engine/graph_spec.rs:32-107 | the memory-aware graph as paths: opening, model, persistence, overflow and distillation; from the tool node through the second activation to the second model and persistence; both models branch to the tool node, the only one of its class, and there are no other nodes or edges |
| `GraphSpec.ExternalContextGraph` | src/engine/graph_spec.rs:116-148 | the external-context graph likewise |
| `GraphSpec.RunsOnSchedule` | src/engine/nodes.rs:336-357 | on the built-in graphs, whatever fails: existing edges only, at most the allowed rounds, 9 + 5k or 3 + 2k steps when finished after k rounds; fault-free runs within the step budget finish |
| `GraphSpec.FreshRun` | src/engine/execution_graph.rs:445-468 | the same for a fresh run, whose bounds are 9 + 5R and 3 + 2R |
| `Recovery.RecoveryGate` | src/engine/session_engine.rs:205-231 | passes exactly the checkpoints the gate predicate describes, comparing node names as text; otherwise refuses as unsafe or with the error of the unreadable checkpoint |
| `Recovery.GateDecides` | src/engine/session_engine.rs:212-231 | of the checkpoints a run can leave, the gate refuses exactly model nodes and tool nodes with a call that is not idempotent |
| `Recovery.CheckpointsOnSchedule` | src/engine/execution_graph.rs:612-617 | every checkpoint saved before a node restores to a state on schedule with one step of slack |
| `Recovery.RecoveredRuns` | src/engine/execution_graph.rs:512-548 | over any chain of interruptions and recoveries the rounds stay within the limit and each recovery costs exactly one step |

## Left out

- File I/O below one atomic replace: temporary names, fsync, advisory locks, symlink checks, quarantine of corrupt files, and the parse probe `indexes_pass_sanity_check`, which no uncorrupted store fails.
- `StoreMetadata`: the file is present or absent; its times and the format-version error of `ensure_metadata_unlocked` are not modelled, and touching an absent file is one write instead of two equal ones.
- Directory and hash-map order: loops over them choose the next element arbitrarily, so nothing proved depends on the order; only the timeline shards are read in the order of their names.
- Duplicate ids in a manifest file: excluded by its type, since every manifest is written through the deduplicating writer.
- StoreHistories.HistoriesAreAtomic: the histories leave out the unjournaled insertions that are not crash-safe, an `insert_abstract_once` with a new key and an `insert_raw_once` that changes a known node's backlog entries (`AbstractCallCrashSafeIff`, `InsertionCallCrashSafeIff`).
- StoreRecovery.MutationCrashAtomic: equality with the finished mutation is stated for mutations that evict no embedding; `StoreOverflow.CommitAtomicIff` decides the others, up to the order inside manifests.
- StoreHistories.AbstractExactlyOnce: an abstract node may be written again whole under its id and key, so only its id is claimed to stay.
- Session-scoped `timeline_raw`, `session_raw`, `raw_for_loop` and `raw_for_loop_bounded`: the two backends order and cut them differently.
- Vector search, similarity scores and thresholds: floating point. The f32 session ratio is its fixed-point numerator.
- Traverse.CutSearchIsPrefix: what a disturbed search returns beyond its own soundness is not characterised; queued edges to nodes out of scope use up the bound, so fewer hits than allowed may be returned although more are reachable.
- ToolRound.RunExecuteTools: the raw nodes pushed into the recent session and the result summaries are not part of the state; sums of token counts do not overflow.
- ToolText.ClampToolResultForModel: what is left when even an empty object exceeds the allowance is not stated; the callers never reach it.
- `prepare_tool_call_for_config`: any function from calls to new arguments or a refusal.
- Model input assembly, the model client, the embedder, memory activation and overflow marking: nodes of the graph that pass on.
- GraphRunner.RunFromNode: errors of the checkpoint repository itself are not modelled; node outcomes are fixed by role, so a custom node that pauses always pauses.
- Distillation.DistillationRepository.CommitNewNodes: a receipt digest collision is one of the commits that fail before anything is written; the embedding and graph writes after a commit that found its node already there are `StoreHistories` calls of their own.
- `ResolvedRunOptions`, its validation and the timeouts behind it: minima and range checks.
- `run_maintenance_pass`: grouping a backlog batch by loop; each group goes through `DistillClaimedRawNodes`.
- Distillation.DistillationRepository.CommitOutput: the lifecycle updates themselves are the store's (`UpdateRawLifecycle`); here it is recorded which nodes were updated.
- Strict fencing: a lease can expire between a check and the commit it guards, so an expired worker may still commit; what bounds this is `DistillationStore.OneBodyPerPosition`.
- A store future dropped by a node timeout without reopening the store.
