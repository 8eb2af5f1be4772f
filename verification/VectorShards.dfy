/** Embedding bodies and their per-session manifests (`indexes/vector/{raw,abstract}/<session>.json`).

    A manifest keeps ids in upsert order and evicts from its front; a rebuild orders them by
    `(indexed_at, id)` instead. The two agree as sets until a shard overflows. */
module VectorShards {
  import opened Domain
  import opened Listings

  const MAX_VECTOR_SHARD_ENTRIES: nat := 4096

  datatype StoredEmbedding = StoredEmbedding(id: nat, embedding: seq<real>, indexedAt: int, sessionId: Option<nat>)

  type EmbeddingBodies = map<nat, StoredEmbedding>
  /** A manifest never lists an id twice: every manifest file is written through
      `write_manifest_unlocked`, which drops duplicates. */
  type Manifest = ids: seq<nat> | Distinct(ids) witness []

  type Manifests = map<Option<nat>, Manifest>

  datatype Vectors = Vectors(bodies: EmbeddingBodies, shards: Manifests)

  function ReadManifest(shards: Manifests, session: Option<nat>): Manifest {
    if session in shards then shards[session] else []
  }

  lemma HeadNotInTail(ids: seq<nat>)
    requires ids != []
    ensures Distinct(ids) ==> ids[0] !in ids[1..]
    ensures Distinct(ids) ==> Distinct(ids[1..])
  {
    assert forall i | 0 <= i < |ids| - 1 :: ids[1..][i] == ids[i + 1];
  }

  function WithoutId(ids: seq<nat>, id: nat): (r: seq<nat>)
    ensures |r| <= |ids|
    ensures forall x :: x in r <==> x in ids && x != id
    ensures Distinct(ids) ==> Distinct(r)
    ensures id !in ids ==> r == ids
  {
    if ids == [] then []
    else
      assert ids == [ids[0]] + ids[1..];
      var rest := WithoutId(ids[1..], id);
      assert Distinct(ids) ==> ids[0] !in rest by { HeadNotInTail(ids); }
      if ids[0] == id then rest else [ids[0]] + rest
  }

  /** `ids.retain(..); ids.push(id)` */
  function Pushed(ids: seq<nat>, id: nat): seq<nat> {
    WithoutId(ids, id) + [id]
  }

  /** `ids.len().saturating_sub(MAX_VECTOR_SHARD_ENTRIES)` */
  function Overflow<T>(ids: seq<T>): nat {
    if |ids| > MAX_VECTOR_SHARD_ENTRIES then |ids| - MAX_VECTOR_SHARD_ENTRIES else 0
  }

  function KeptIds(ids: Manifest, id: nat): Manifest {
    PushedIdsDistinct(ids, id);
    Pushed(ids, id)[Overflow(Pushed(ids, id))..]
  }

  lemma PushedIdsDistinct(ids: seq<nat>, id: nat)
    requires Distinct(ids)
    ensures Distinct(Pushed(ids, id)) && forall n | n <= |Pushed(ids, id)| && 0 <= n :: Distinct(Pushed(ids, id)[n..])
  {
    var kept := WithoutId(ids, id);
    forall i | 0 <= i < |kept|
      ensures kept[i] != id
    {
      assert kept[i] in kept;
    }
  }

  function EvictedIds(ids: seq<nat>, id: nat): seq<nat> {
    Pushed(ids, id)[..Overflow(Pushed(ids, id))]
  }

  /** Body write, manifest upsert, then removal of the evicted bodies. */
  function IndexEmbedding(v: Vectors, record: StoredEmbedding): Vectors {
    var ids := ReadManifest(v.shards, record.sessionId);
    Vectors(
      v.bodies[record.id := record] - Elements(EvictedIds(ids, record.id)),
      v.shards[record.sessionId := KeptIds(ids, record.id)])
  }

  ghost predicate BodiesKeyed(bodies: EmbeddingBodies) {
    forall id | id in bodies :: bodies[id].id == id
  }

  ghost function SessionIds(bodies: EmbeddingBodies, session: Option<nat>): set<nat> {
    set id | id in bodies && bodies[id].sessionId == session
  }

  /** Each manifest lists exactly the bodies of its session, once, within the bound. */
  ghost predicate ShardExact(v: Vectors, session: Option<nat>) {
    && (session in v.shards <==> SessionIds(v.bodies, session) != {})
    && (session in v.shards ==>
          && Distinct(v.shards[session])
          && |v.shards[session]| <= MAX_VECTOR_SHARD_ENTRIES
          && Elements(v.shards[session]) == SessionIds(v.bodies, session))
  }

  ghost predicate VectorsExact(v: Vectors) {
    BodiesKeyed(v.bodies) && forall session: Option<nat> :: ShardExact(v, session)
  }

  /** Two exact shards with the same bodies differ at most in the order inside manifests. */
  lemma SameBodiesSameVectors(a: Vectors, b: Vectors)
    requires VectorsExact(a) && VectorsExact(b) && a.bodies == b.bodies
    ensures SameVectors(a, b)
  {
    forall session: Option<nat>
      ensures session in a.shards <==> session in b.shards
      ensures session in a.shards ==> Elements(a.shards[session]) == Elements(b.shards[session])
    {
      assert ShardExact(a, session) && ShardExact(b, session);
    }
  }

  /** The completeness probe: every embedding body is listed by some manifest. */
  ghost predicate Covered(v: Vectors) {
    forall id | id in v.bodies :: exists session :: session in v.shards && id in v.shards[session]
  }

  /** Equal up to the order inside each manifest. */
  ghost predicate SameVectors(a: Vectors, b: Vectors) {
    && a.bodies == b.bodies
    && a.shards.Keys == b.shards.Keys
    && forall session | session in a.shards :: Elements(a.shards[session]) == Elements(b.shards[session])
  }

  /** An id keeps the session it was first indexed for. */
  predicate SessionStable(v: Vectors, record: StoredEmbedding) {
    record.id in v.bodies ==> v.bodies[record.id].sessionId == record.sessionId
  }

  // ---------------------------------------------------------------- incremental indexing

  lemma DistinctSize(ids: seq<nat>)
    requires Distinct(ids)
    ensures |Elements(ids)| == |ids|
  {
    if ids != [] {
      var front, last := ids[..|ids| - 1], ids[|ids| - 1];
      DistinctSize(front);
      assert Elements(ids) == Elements(front) + {last};
      assert last !in Elements(front);
    }
  }

  lemma PushedFacts(ids: seq<nat>, id: nat)
    requires Distinct(ids)
    ensures Distinct(Pushed(ids, id)) && Elements(Pushed(ids, id)) == Elements(ids) + {id}
    ensures |Pushed(ids, id)| == if id in ids then |ids| else |ids| + 1
  {
    DistinctSize(ids);
    DistinctSize(Pushed(ids, id));
    if id in ids { assert Elements(ids) + {id} == Elements(ids); }
  }

  /** At most one id is evicted: the oldest push, and never the id just pushed. */
  lemma EvictionFacts(ids: seq<nat>, id: nat)
    requires Distinct(ids) && |ids| <= MAX_VECTOR_SHARD_ENTRIES
    ensures var kept, evicted := KeptIds(ids, id), EvictedIds(ids, id);
            && Distinct(kept) && |kept| <= MAX_VECTOR_SHARD_ENTRIES && id in kept
            && Elements(kept) == Elements(ids) + {id} - Elements(evicted)
            && if id in ids || |ids| < MAX_VECTOR_SHARD_ENTRIES then evicted == []
               else evicted == [ids[0]] && id !in ids
  {
    PushedFacts(ids, id);
    var all := Pushed(ids, id);
    if id in ids || |ids| < MAX_VECTOR_SHARD_ENTRIES {
      assert all[0..] == all;
      assert all[|all| - 1] == id;
    } else {
      assert all == ids + [id];
      HeadNotInTail(all);
      assert all == [ids[0]] + all[1..];
      assert all[..1] == [ids[0]];
      assert all[1..][|all| - 2] == id;
      assert Elements(all[1..]) == Elements(all) - {ids[0]};
    }
  }

  lemma IndexedSessionIds(v: Vectors, record: StoredEmbedding, session: Option<nat>)
    requires VectorsExact(v) && SessionStable(v, record)
    ensures SessionIds(IndexEmbedding(v, record).bodies, session)
         == if session == record.sessionId
            then SessionIds(v.bodies, session) + {record.id} - Elements(EvictedIds(ReadManifest(v.shards, session), record.id))
            else SessionIds(v.bodies, session)
  {
    hide EvictedIds, KeptIds;
    var r := IndexEmbedding(v, record);
    var ids := ReadManifest(v.shards, record.sessionId);
    assert ShardExact(v, record.sessionId);
    EvictionFacts(ids, record.id);
    var evicted := Elements(EvictedIds(ids, record.id));
    forall x | x in evicted
      ensures x in SessionIds(v.bodies, record.sessionId)
    {
      assert x in ids;
    }
    var expected := if session == record.sessionId then SessionIds(v.bodies, session) + {record.id} - evicted else SessionIds(v.bodies, session);
    forall id
      ensures id in SessionIds(r.bodies, session) <==> id in expected
    {
    }
  }

  lemma IndexKeepsExact(v: Vectors, record: StoredEmbedding)
    requires VectorsExact(v) && SessionStable(v, record)
    ensures VectorsExact(IndexEmbedding(v, record))
  {
    var r := IndexEmbedding(v, record);
    var ids := ReadManifest(v.shards, record.sessionId);
    forall session: Option<nat>
      ensures ShardExact(r, session)
    {
      assert ShardExact(v, session);
      IndexedSessionIds(v, record, session);
      if session == record.sessionId {
        EvictionFacts(ids, record.id);
        assert record.id in SessionIds(r.bodies, session);
      }
    }
  }

  // ---------------------------------------------------------------- crash images and replay

  ghost predicate Within(a: EmbeddingBodies, b: EmbeddingBodies) {
    forall id | id in a :: id in b && a[id] == b[id]
  }

  /** What any prefix of the writes of `IndexEmbedding(v0, record)`, repeated any number of times,
      leaves behind: nothing yet, the body only, or the new manifest with some evictions pending. */
  ghost predicate VectorImage(v0: Vectors, record: StoredEmbedding, m: Vectors) {
    var v1 := IndexEmbedding(v0, record);
    || m == v0
    || m == v0.(bodies := v0.bodies[record.id := record])
    || (m.shards == v1.shards && Within(v1.bodies, m.bodies) && Within(m.bodies, v0.bodies[record.id := record]))
  }

  /** The upsert into this record's shard evicts nothing. */
  predicate FitsShard(v: Vectors, record: StoredEmbedding) {
    var ids := ReadManifest(v.shards, record.sessionId);
    record.id in ids || |ids| < MAX_VECTOR_SHARD_ENTRIES
  }

  lemma {:induction false} PushAgain(ids: seq<nat>, id: nat)
    requires Distinct(ids) && |ids| <= MAX_VECTOR_SHARD_ENTRIES
    ensures KeptIds(KeptIds(ids, id), id) == KeptIds(ids, id) && EvictedIds(KeptIds(ids, id), id) == []
  {
    EvictionFacts(ids, id);
    var kept := KeptIds(ids, id);
    assert Pushed(ids, id) == WithoutId(ids, id) + [id];
    var front := kept[..|kept| - 1];
    assert kept == front + [id];
    assert id !in front by {
      assert forall i | 0 <= i < |front| :: front[i] == kept[i] && kept[i] != kept[|kept| - 1];
    }
    WithoutLast(front, id);
    assert Pushed(kept, id) == kept;
    assert kept[0..] == kept;
  }

  lemma {:induction false} WithoutLast(front: seq<nat>, id: nat)
    requires id !in front
    ensures WithoutId(front + [id], id) == front
  {
    if front != [] {
      assert (front + [id])[1..] == front[1..] + [id];
      WithoutLast(front[1..], id);
    }
  }

  lemma ReplayEarly(v0: Vectors, record: StoredEmbedding, m: Vectors)
    requires m == v0 || m == v0.(bodies := v0.bodies[record.id := record])
    ensures IndexEmbedding(m, record) == IndexEmbedding(v0, record)
  {
    assert m.bodies[record.id := record] == v0.bodies[record.id := record];
  }

  lemma IndexedPresent(v0: Vectors, record: StoredEmbedding)
    requires VectorsExact(v0)
    ensures var v1 := IndexEmbedding(v0, record); record.id in v1.bodies && v1.bodies[record.id] == record
  {
    assert ShardExact(v0, record.sessionId);
    var ids := ReadManifest(v0.shards, record.sessionId);
    EvictionFacts(ids, record.id);
    assert record.id !in Elements(EvictedIds(ids, record.id));
  }

  lemma ReplaySettled(m: Vectors, record: StoredEmbedding)
    requires record.id in m.bodies && m.bodies[record.id] == record
    requires record.sessionId in m.shards
    requires KeptIds(m.shards[record.sessionId], record.id) == m.shards[record.sessionId]
    requires EvictedIds(m.shards[record.sessionId], record.id) == []
    ensures IndexEmbedding(m, record) == m
  {
    var none: set<nat> := Elements(EvictedIds(m.shards[record.sessionId], record.id));
    assert none == {};
    assert m.bodies[record.id := record] - none == m.bodies;
    assert m.shards[record.sessionId := m.shards[record.sessionId]] == m.shards;
  }

  lemma ReplayLate(v0: Vectors, record: StoredEmbedding, m: Vectors)
    requires VectorsExact(v0)
    requires m.shards == IndexEmbedding(v0, record).shards
    requires Within(IndexEmbedding(v0, record).bodies, m.bodies)
    ensures IndexEmbedding(m, record) == m
  {
    assert ShardExact(v0, record.sessionId);
    IndexedPresent(v0, record);
    var ids := ReadManifest(v0.shards, record.sessionId);
    EvictionFacts(ids, record.id);
    PushAgain(ids, record.id);
    ReplaySettled(m, record);
  }

  /** Replaying the upsert over any image finishes it; only an eviction whose manifest write had
      already landed is not repeated. */
  lemma ReplayVectors(v0: Vectors, record: StoredEmbedding, m: Vectors)
    requires VectorsExact(v0) && VectorImage(v0, record, m)
    ensures var v1, r := IndexEmbedding(v0, record), IndexEmbedding(m, record);
            && r.shards == v1.shards
            && (r.bodies == v1.bodies || r.bodies == v0.bodies[record.id := record])
            && (FitsShard(v0, record) ==> r == v1)
  {
    if m == v0 || m == v0.(bodies := v0.bodies[record.id := record]) {
      ReplayEarly(v0, record, m);
    } else {
      ReplayLate(v0, record, m);
      ImageBodies(v0, record, m.bodies);
      if FitsShard(v0, record) { FitsKeepsBodies(v0, record); }
    }
  }

  lemma FitsKeepsBodies(v0: Vectors, record: StoredEmbedding)
    requires VectorsExact(v0) && FitsShard(v0, record)
    ensures IndexEmbedding(v0, record).bodies == v0.bodies[record.id := record]
  {
    hide EvictedIds, KeptIds;
    assert ShardExact(v0, record.sessionId);
    EvictionFacts(ReadManifest(v0.shards, record.sessionId), record.id);
  }

  lemma ImageBodies(v0: Vectors, record: StoredEmbedding, bodies: EmbeddingBodies)
    requires VectorsExact(v0)
    requires Within(IndexEmbedding(v0, record).bodies, bodies) && Within(bodies, v0.bodies[record.id := record])
    ensures bodies == IndexEmbedding(v0, record).bodies || bodies == v0.bodies[record.id := record]
  {
    hide EvictedIds, KeptIds;
    var ids := ReadManifest(v0.shards, record.sessionId);
    assert ShardExact(v0, record.sessionId);
    EvictionFacts(ids, record.id);
    if ids != [] && ids[0] in bodies {
      assert bodies == v0.bodies[record.id := record];
    }
  }

  lemma ExactCovered(v: Vectors)
    requires VectorsExact(v)
    ensures Covered(v)
  {
    forall id | id in v.bodies
      ensures exists session :: session in v.shards && id in v.shards[session]
    {
      var session := v.bodies[id].sessionId;
      assert ShardExact(v, session);
      assert id in SessionIds(v.bodies, session);
    }
  }

  /** An orphaned body, evicted from its manifest but not yet removed, fails the probe. */
  lemma OrphanUncovered(v0: Vectors, record: StoredEmbedding, m: Vectors)
    requires VectorsExact(v0) && SessionStable(v0, record) && !FitsShard(v0, record)
    requires m.shards == IndexEmbedding(v0, record).shards && m.bodies == v0.bodies[record.id := record]
    ensures !Covered(m)
  {
    var ids := ReadManifest(v0.shards, record.sessionId);
    assert ShardExact(v0, record.sessionId);
    EvictionFacts(ids, record.id);
    var orphan := ids[0];
    assert orphan in SessionIds(v0.bodies, record.sessionId);
    forall session | session in m.shards
      ensures orphan !in m.shards[session]
    {
      if session != record.sessionId {
        assert ShardExact(v0, session);
        assert orphan in m.shards[session] ==> orphan in SessionIds(v0.bodies, session);
      } else {
        assert orphan in Elements(EvictedIds(ids, record.id));
      }
    }
    assert orphan in m.bodies;
  }

  // ---------------------------------------------------------------- rebuild

  ghost function EmbeddingEntries(bodies: EmbeddingBodies, session: Option<nat>): set<RawIndexEntry> {
    set id | id in bodies && bodies[id].sessionId == session :: RawIndexEntry(id, bodies[id].indexedAt)
  }

  /** The newest 4096 bodies of one session, by `(indexed_at, id)`. */
  ghost function NewestEmbeddings(bodies: EmbeddingBodies, session: Option<nat>): seq<RawIndexEntry> {
    Newest(MAX_VECTOR_SHARD_ENTRIES, Listing(EmbeddingEntries(bodies, session)))
  }

  function IdsOf(entries: seq<RawIndexEntry>): (ids: seq<nat>)
    ensures |ids| == |entries|
    ensures forall i | 0 <= i < |entries| :: ids[i] == entries[i].id
  {
    if entries == [] then [] else [entries[0].id] + IdsOf(entries[1..])
  }

  ghost function NewestIds(bodies: EmbeddingBodies, session: Option<nat>): Manifest {
    RebuiltDistinct(bodies, session);
    IdsOf(NewestEmbeddings(bodies, session))
  }

  ghost predicate Survives(bodies: EmbeddingBodies, id: nat)
    requires id in bodies
  {
    RawIndexEntry(id, bodies[id].indexedAt) in NewestEmbeddings(bodies, bodies[id].sessionId)
  }

  /** The bodies a rebuild leaves, and one manifest per session that has a body. */
  ghost function RebuiltVectors(bodies: EmbeddingBodies): Vectors {
    Vectors(
      map id | id in bodies && Survives(bodies, id) :: bodies[id],
      map session | session in (set id | id in bodies :: bodies[id].sessionId) :: NewestIds(bodies, session))
  }

  // ---------------------------------------------------------------- one shard at a time

  type EmbeddingGroups = map<Option<nat>, seq<RawIndexEntry>>

  /** One group per session that has a body, listing each of its bodies once. */
  ghost predicate GroupsBodies(bodies: EmbeddingBodies, groups: EmbeddingGroups) {
    && (forall session :: session in groups <==> EmbeddingEntries(bodies, session) != {})
    && (forall session | session in groups :: Distinct(groups[session]) && Elements(groups[session]) == EmbeddingEntries(bodies, session))
  }

  function PushEmbedding(groups: EmbeddingGroups, session: Option<nat>, e: RawIndexEntry): EmbeddingGroups {
    groups[session := (if session in groups then groups[session] else []) + [e]]
  }

  lemma EmbeddingEntriesStep(bodies: EmbeddingBodies, record: StoredEmbedding, session: Option<nat>)
    requires record.id !in bodies
    ensures EmbeddingEntries(bodies[record.id := record], session)
         == EmbeddingEntries(bodies, session) + if record.sessionId == session then {RawIndexEntry(record.id, record.indexedAt)} else {}
    ensures RawIndexEntry(record.id, record.indexedAt) !in EmbeddingEntries(bodies, session)
  {
    var after := bodies[record.id := record];
    forall e | e in EmbeddingEntries(bodies, session)
      ensures e in EmbeddingEntries(after, session)
    {
      assert e.id in bodies && after[e.id] == bodies[e.id];
    }
    if record.sessionId == session {
      assert after[record.id] == record;
    }
  }

  lemma GroupsBodiesStep(bodies: EmbeddingBodies, record: StoredEmbedding, groups: EmbeddingGroups)
    requires GroupsBodies(bodies, groups) && record.id !in bodies
    ensures GroupsBodies(bodies[record.id := record], PushEmbedding(groups, record.sessionId, RawIndexEntry(record.id, record.indexedAt)))
  {
    var e := RawIndexEntry(record.id, record.indexedAt);
    var pushed := PushEmbedding(groups, record.sessionId, e);
    forall session: Option<nat>
      ensures session in pushed <==> EmbeddingEntries(bodies[record.id := record], session) != {}
      ensures session in pushed ==> Distinct(pushed[session]) && Elements(pushed[session]) == EmbeddingEntries(bodies[record.id := record], session)
    {
      EmbeddingEntriesStep(bodies, record, session);
      if session == record.sessionId {
        var group := if session in groups then groups[session] else [];
        assert e in group ==> e in Elements(group);
        assert Elements(group + [e]) == Elements(group) + {e};
      }
    }
  }

  /** The shards of `done` rebuilt, the others still to come. */
  ghost function RebuiltPart(bodies: EmbeddingBodies, done: set<Option<nat>>): Vectors {
    Vectors(
      map id | id in bodies && (bodies[id].sessionId in done ==> Survives(bodies, id)) :: bodies[id],
      map session | session in done :: NewestIds(bodies, session))
  }

  ghost function Sessions(bodies: EmbeddingBodies): set<Option<nat>> {
    set id | id in bodies :: bodies[id].sessionId
  }

  lemma RebuiltInParts(bodies: EmbeddingBodies)
    ensures RebuiltPart(bodies, {}) == Vectors(bodies, map[])
    ensures RebuiltPart(bodies, Sessions(bodies)) == RebuiltVectors(bodies)
  {
    assert forall id | id in bodies :: bodies[id].sessionId in Sessions(bodies);
  }

  lemma GroupedSessions(bodies: EmbeddingBodies, groups: EmbeddingGroups)
    requires GroupsBodies(bodies, groups)
    ensures groups.Keys == Sessions(bodies)
  {
    forall session: Option<nat>
      ensures session in groups <==> session in Sessions(bodies)
    {
      if id :| id in bodies && bodies[id].sessionId == session {
        assert RawIndexEntry(id, bodies[id].indexedAt) in EmbeddingEntries(bodies, session);
      }
    }
  }

  function Evictees(sorted: seq<RawIndexEntry>): seq<RawIndexEntry> {
    sorted[..Overflow(sorted)]
  }

  /** The listing splits into the evicted front and the surviving window. */
  lemma ShardSplits(bodies: EmbeddingBodies, session: Option<nat>)
    ensures var sorted := Listing(EmbeddingEntries(bodies, session));
            && sorted[Overflow(sorted)..] == NewestEmbeddings(bodies, session)
            && (forall e | e in Evictees(sorted) :: e.id in bodies && bodies[e.id].sessionId == session && !Survives(bodies, e.id))
            && (forall id | id in bodies && bodies[id].sessionId == session ::
                  Survives(bodies, id) || RawIndexEntry(id, bodies[id].indexedAt) in Evictees(sorted))
  {
    var entries := EmbeddingEntries(bodies, session);
    var sorted := Listing(entries);
    InListing(entries);
    forall e | e in Evictees(sorted)
      ensures e.id in bodies && bodies[e.id].sessionId == session && !Survives(bodies, e.id)
    {
      EvicteeIsGone(bodies, session, e);
    }
    forall id | id in bodies && bodies[id].sessionId == session
      ensures Survives(bodies, id) || RawIndexEntry(id, bodies[id].indexedAt) in Evictees(sorted)
    {
      var e := RawIndexEntry(id, bodies[id].indexedAt);
      assert e in entries && e in sorted;
      assert sorted == Evictees(sorted) + sorted[Overflow(sorted)..];
    }
  }

  lemma EvicteeIsGone(bodies: EmbeddingBodies, session: Option<nat>, e: RawIndexEntry)
    requires e in Evictees(Listing(EmbeddingEntries(bodies, session)))
    ensures e.id in bodies && bodies[e.id].sessionId == session && !Survives(bodies, e.id)
  {
    var entries := EmbeddingEntries(bodies, session);
    var sorted := Listing(entries);
    InListing(entries);
    var i :| 0 <= i < Overflow(sorted) && sorted[i] == e;
    assert e in sorted && e in entries;
    FrontNotBehind(sorted, Overflow(sorted), i);
    assert sorted[Overflow(sorted)..] == NewestEmbeddings(bodies, session);
  }

  lemma FrontNotBehind(sorted: seq<RawIndexEntry>, cut: nat, i: nat)
    requires Sorted(sorted) && i < cut <= |sorted|
    ensures sorted[i] !in sorted[cut..]
  {
    forall j | cut <= j < |sorted|
      ensures sorted[j] != sorted[i]
    {
      assert Before(sorted[i], sorted[j]);
    }
  }

  /** Removing the evicted front of one more shard and writing its manifest. */
  lemma {:induction false} PartStep(bodies: EmbeddingBodies, done: set<Option<nat>>, session: Option<nat>, v: Vectors)
    requires session !in done
    requires var sorted := Listing(EmbeddingEntries(bodies, session));
             && v.shards == RebuiltPart(bodies, done).shards[session := NewestIds(bodies, session)]
             && v.bodies == RebuiltPart(bodies, done).bodies - (set e | e in Evictees(sorted) :: e.id)
    ensures v == RebuiltPart(bodies, done + {session})
  {
    hide Evictees, NewestIds, NewestEmbeddings, EmbeddingEntries, Survives;
    var sorted := Listing(EmbeddingEntries(bodies, session));
    var part := RebuiltPart(bodies, done + {session});
    ShardSplits(bodies, session);
    forall id
      ensures id in v.bodies <==> id in part.bodies
      ensures id in part.bodies ==> v.bodies[id] == part.bodies[id]
    {
      if id in bodies && bodies[id].sessionId == session {
        assert id in v.bodies <==> Survives(bodies, id);
      }
    }
    assert v.bodies == part.bodies;
    assert v.shards == part.shards;
  }

  lemma EntriesFixIds(bodies: EmbeddingBodies, session: Option<nat>, e: RawIndexEntry)
    requires e in NewestEmbeddings(bodies, session)
    ensures e.id in bodies && bodies[e.id].sessionId == session && e == RawIndexEntry(e.id, bodies[e.id].indexedAt)
  {
    InListing(EmbeddingEntries(bodies, session));
    assert e in Listing(EmbeddingEntries(bodies, session));
  }

  lemma RebuiltSessionIds(bodies: EmbeddingBodies, session: Option<nat>)
    ensures SessionIds(RebuiltVectors(bodies).bodies, session) == Elements(IdsOf(NewestEmbeddings(bodies, session)))
  {
    var entries := NewestEmbeddings(bodies, session);
    var ids := IdsOf(entries);
    forall id
      ensures id in SessionIds(RebuiltVectors(bodies).bodies, session) <==> id in ids
    {
      if id in ids {
        var i :| 0 <= i < |ids| && ids[i] == id;
        EntriesFixIds(bodies, session, entries[i]);
      }
      if id in bodies && bodies[id].sessionId == session && Survives(bodies, id) {
        var i :| 0 <= i < |entries| && entries[i] == RawIndexEntry(id, bodies[id].indexedAt);
        assert ids[i] == id;
      }
    }
  }

  lemma RebuiltDistinct(bodies: EmbeddingBodies, session: Option<nat>)
    ensures Distinct(IdsOf(NewestEmbeddings(bodies, session)))
  {
    var entries := NewestEmbeddings(bodies, session);
    WindowIsListing(MAX_VECTOR_SHARD_ENTRIES, EmbeddingEntries(bodies, session));
    forall i, j | 0 <= i < j < |entries|
      ensures entries[i].id != entries[j].id
    {
      EntriesFixIds(bodies, session, entries[i]);
      EntriesFixIds(bodies, session, entries[j]);
      assert Before(entries[i], entries[j]);
    }
  }

  /** Whatever bodies a rebuild finds, it ends with exact shards. */
  lemma RebuiltExact(bodies: EmbeddingBodies)
    requires BodiesKeyed(bodies)
    ensures VectorsExact(RebuiltVectors(bodies))
  {
    var r := RebuiltVectors(bodies);
    forall session: Option<nat>
      ensures ShardExact(r, session)
    {
      RebuiltSessionIds(bodies, session);
      RebuiltDistinct(bodies, session);
      var entries := NewestEmbeddings(bodies, session);
      if session in r.shards {
        var id :| id in bodies && bodies[id].sessionId == session;
        assert RawIndexEntry(id, bodies[id].indexedAt) in EmbeddingEntries(bodies, session);
        assert |entries| > 0;
        assert IdsOf(entries)[0] in Elements(IdsOf(entries));
      } else {
        NoEntries(bodies, session);
      }
    }
  }

  lemma NoEntries(bodies: EmbeddingBodies, session: Option<nat>)
    requires session !in RebuiltVectors(bodies).shards
    ensures IdsOf(NewestEmbeddings(bodies, session)) == []
  {
    assert EmbeddingEntries(bodies, session) == {};
    assert |Listing({})| == 0;
  }

  /** Within the bound a rebuild evicts nothing. */
  lemma RebuildFits(bodies: EmbeddingBodies, session: Option<nat>)
    requires |SessionIds(bodies, session)| <= MAX_VECTOR_SHARD_ENTRIES
    ensures NewestEmbeddings(bodies, session) == Listing(EmbeddingEntries(bodies, session))
    ensures Elements(IdsOf(NewestEmbeddings(bodies, session))) == SessionIds(bodies, session)
  {
    var entries := Listing(EmbeddingEntries(bodies, session));
    EntriesCount(bodies, session);
    InListing(EmbeddingEntries(bodies, session));
    forall id
      ensures id in IdsOf(entries) <==> id in SessionIds(bodies, session)
    {
      if id in IdsOf(entries) {
        var i :| 0 <= i < |entries| && IdsOf(entries)[i] == id;
        assert entries[i] in EmbeddingEntries(bodies, session);
      }
      if id in SessionIds(bodies, session) {
        assert RawIndexEntry(id, bodies[id].indexedAt) in EmbeddingEntries(bodies, session);
        var i :| 0 <= i < |entries| && entries[i] == RawIndexEntry(id, bodies[id].indexedAt);
        assert IdsOf(entries)[i] == id;
      }
    }
  }

  lemma EntriesCount(bodies: EmbeddingBodies, session: Option<nat>)
    ensures |EmbeddingEntries(bodies, session)| == |SessionIds(bodies, session)|
    decreases |SessionIds(bodies, session)|
  {
    var ids, entries := SessionIds(bodies, session), EmbeddingEntries(bodies, session);
    assert forall e | e in entries :: e.id in ids;
    if ids == {} {
    } else {
      var id :| id in ids;
      var rest := bodies - {id};
      assert SessionIds(rest, session) == ids - {id};
      var gone := RawIndexEntry(id, bodies[id].indexedAt);
      forall e
        ensures e in EmbeddingEntries(rest, session) <==> e in entries && e != gone
      {
        if e in entries && e != gone {
          assert e.id in ids && e == RawIndexEntry(e.id, bodies[e.id].indexedAt);
          assert e.id in rest;
        }
      }
      assert EmbeddingEntries(rest, session) == entries - {gone};
      EntriesCount(rest, session);
    }
  }

  /** Rebuilding exact shards changes at most the order inside each manifest. */
  lemma RebuildKeepsExact(v: Vectors)
    requires VectorsExact(v)
    ensures SameVectors(RebuiltVectors(v.bodies), v)
  {
    hide RebuiltVectors, SessionIds, ShardExact;
    var r := RebuiltVectors(v.bodies);
    forall session: Option<nat>
      ensures session in r.shards <==> session in v.shards
      ensures session in v.shards ==> Elements(r.shards[session]) == Elements(v.shards[session])
    {
      assert ShardExact(v, session);
      RebuildKeepsShard(v, session);
    }
    RebuiltWithin(v.bodies);
    forall id | id in v.bodies
      ensures id in r.bodies
    {
      assert ShardExact(v, v.bodies[id].sessionId);
      RebuildKeepsShard(v, v.bodies[id].sessionId);
      SessionMember(v.bodies, r.bodies, id);
    }
    assert r.bodies == v.bodies;
  }

  lemma SessionMember(bodies: EmbeddingBodies, kept: EmbeddingBodies, id: nat)
    requires id in bodies && SessionIds(kept, bodies[id].sessionId) == SessionIds(bodies, bodies[id].sessionId)
    ensures id in kept
  {
    assert id in SessionIds(bodies, bodies[id].sessionId);
  }

  lemma RebuildKeepsShard(v: Vectors, session: Option<nat>)
    requires ShardExact(v, session)
    ensures var r := RebuiltVectors(v.bodies);
            && (session in r.shards <==> session in v.shards)
            && (session in v.shards ==> Elements(r.shards[session]) == Elements(v.shards[session]))
            && SessionIds(r.bodies, session) == SessionIds(v.bodies, session)
  {
    hide NewestEmbeddings, Survives;
    RebuiltSessionIds(v.bodies, session);
    if session in v.shards {
      DistinctSize(v.shards[session]);
      RebuildFits(v.bodies, session);
      var id :| id in SessionIds(v.bodies, session);
      assert session in (set id | id in v.bodies :: v.bodies[id].sessionId);
    } else {
      assert forall id | id in v.bodies && v.bodies[id].sessionId == session :: id in SessionIds(v.bodies, session);
      NoEntries(v.bodies, session);
    }
  }

  /** A rebuild interrupted among its evictions and started over ends in the same place. */
  lemma {:induction false} RebuildRestarts(bodies: EmbeddingBodies, partial: EmbeddingBodies)
    requires Within(RebuiltVectors(bodies).bodies, partial) && Within(partial, bodies)
    ensures RebuiltVectors(partial) == RebuiltVectors(bodies)
  {
    hide RebuiltVectors, Within;
    forall session: Option<nat>
      ensures session in RebuiltVectors(partial).shards <==> session in RebuiltVectors(bodies).shards
      ensures session in RebuiltVectors(bodies).shards ==>
                RebuiltVectors(partial).shards[session] == RebuiltVectors(bodies).shards[session]
    {
      SameShard(bodies, partial, session);
    }
    assert RebuiltVectors(partial).shards == RebuiltVectors(bodies).shards;
    SameSurvivors(bodies, partial);
  }

  lemma SameShard(bodies: EmbeddingBodies, partial: EmbeddingBodies, session: Option<nat>)
    requires Within(RebuiltVectors(bodies).bodies, partial) && Within(partial, bodies)
    ensures session in RebuiltVectors(partial).shards <==> session in RebuiltVectors(bodies).shards
    ensures session in RebuiltVectors(bodies).shards ==>
              RebuiltVectors(partial).shards[session] == RebuiltVectors(bodies).shards[session]
  {
    hide NewestEmbeddings, Survives, Within;
    SameNewest(bodies, partial, session);
    SameSessions(bodies, partial, session);
  }

  lemma SameSurvivors(bodies: EmbeddingBodies, partial: EmbeddingBodies)
    requires Within(RebuiltVectors(bodies).bodies, partial) && Within(partial, bodies)
    ensures RebuiltVectors(partial).bodies == RebuiltVectors(bodies).bodies
  {
    hide RebuiltVectors, Within;
    forall id
      ensures id in RebuiltVectors(partial).bodies <==> id in RebuiltVectors(bodies).bodies
      ensures id in RebuiltVectors(bodies).bodies ==> RebuiltVectors(partial).bodies[id] == RebuiltVectors(bodies).bodies[id]
    {
      SameSurvivor(bodies, partial, id);
    }
  }

  lemma SameSurvivor(bodies: EmbeddingBodies, partial: EmbeddingBodies, id: nat)
    requires Within(RebuiltVectors(bodies).bodies, partial) && Within(partial, bodies)
    ensures id in RebuiltVectors(partial).bodies <==> id in RebuiltVectors(bodies).bodies
    ensures id in RebuiltVectors(bodies).bodies ==> RebuiltVectors(partial).bodies[id] == RebuiltVectors(bodies).bodies[id]
  {
    if id in partial {
      SameNewest(bodies, partial, partial[id].sessionId);
    }
  }

  lemma SameNewest(bodies: EmbeddingBodies, partial: EmbeddingBodies, session: Option<nat>)
    requires Within(RebuiltVectors(bodies).bodies, partial) && Within(partial, bodies)
    ensures NewestEmbeddings(partial, session) == NewestEmbeddings(bodies, session)
  {
    var s, t := EmbeddingEntries(bodies, session), EmbeddingEntries(partial, session);
    forall e | e in Elements(NewestEmbeddings(bodies, session))
      ensures e in t
    {
      EntriesFixIds(bodies, session, e);
      assert e.id in RebuiltVectors(bodies).bodies;
      assert partial[e.id] == bodies[e.id];
    }
    assert t <= s;
    NewestOfSubset(MAX_VECTOR_SHARD_ENTRIES, s, t);
  }

  lemma SameSessions(bodies: EmbeddingBodies, partial: EmbeddingBodies, session: Option<nat>)
    requires Within(RebuiltVectors(bodies).bodies, partial) && Within(partial, bodies)
    ensures session in RebuiltVectors(partial).shards <==> session in RebuiltVectors(bodies).shards
  {
    if session in RebuiltVectors(partial).shards {
      var id :| id in partial && partial[id].sessionId == session;
      assert id in bodies && bodies[id].sessionId == session;
    }
    if session in RebuiltVectors(bodies).shards {
      var id :| id in bodies && bodies[id].sessionId == session;
      var entries := NewestEmbeddings(bodies, session);
      assert RawIndexEntry(id, bodies[id].indexedAt) in EmbeddingEntries(bodies, session);
      assert |entries| > 0 && entries[0] in entries;
      EntriesFixIds(bodies, session, entries[0]);
      assert entries[0].id in RebuiltVectors(bodies).bodies;
    }
  }

  /** `first` is the oldest embedding of `session`, by `(indexed_at, id)`. */
  ghost predicate OldestOf(bodies: EmbeddingBodies, session: Option<nat>, first: nat)
    requires first in bodies
  {
    forall id | id in bodies && id != first && bodies[id].sessionId == session ::
      Before(RawIndexEntry(first, bodies[first].indexedAt), RawIndexEntry(id, bodies[id].indexedAt))
  }

  /** The front of the record's manifest, which an overflowing indexing evicts, is the session's
      oldest embedding. */
  ghost predicate FrontIsOldest(v: Vectors, record: StoredEmbedding) {
    var ids := ReadManifest(v.shards, record.sessionId);
    var after := v.bodies[record.id := record];
    ids != [] && ids[0] in after && OldestOf(after, record.sessionId, ids[0])
  }

  /** When an upsert overflows its shard, the incremental eviction (oldest push) and the one a
      rebuild would make leave the same bodies exactly when the front of the manifest is the oldest
      embedding of the session. */
  lemma {:induction false} OverflowAgreesWithRebuild(v: Vectors, record: StoredEmbedding)
    requires VectorsExact(v) && record.id !in v.bodies && !FitsShard(v, record)
    ensures var after := v.bodies[record.id := record];
            ReadManifest(v.shards, record.sessionId)[0] in v.bodies
            && (RebuiltVectors(after).bodies == IndexEmbedding(v, record).bodies <==> FrontIsOldest(v, record))
  {
    var after := v.bodies[record.id := record];
    var session := record.sessionId;
    var ids := ReadManifest(v.shards, session);
    assert ShardExact(v, session);
    EvictionFacts(ids, record.id);
    var first := ids[0];
    assert first in SessionIds(v.bodies, session);
    DistinctSize(ids);
    SessionGrows(v.bodies, record);
    EntriesCount(after, session);
    var s := EmbeddingEntries(after, session);
    var x := RawIndexEntry(first, after[first].indexedAt);
    NewestDropsOldest(MAX_VECTOR_SHARD_ENTRIES, s, x);
    OldestEntry(after, session, first);
    OverflowElsewhere(v, record);
    RebuildDrops(after, session, first);
  }

  lemma SessionGrows(bodies: EmbeddingBodies, record: StoredEmbedding)
    requires record.id !in bodies
    ensures SessionIds(bodies[record.id := record], record.sessionId) == SessionIds(bodies, record.sessionId) + {record.id}
    ensures record.id !in SessionIds(bodies, record.sessionId)
  {
  }

  lemma OldestEntry(bodies: EmbeddingBodies, session: Option<nat>, first: nat)
    requires first in bodies && bodies[first].sessionId == session
    ensures var x := RawIndexEntry(first, bodies[first].indexedAt);
            (forall y | y in EmbeddingEntries(bodies, session) && y != x :: Before(x, y)) <==> OldestOf(bodies, session, first)
  {
    var x := RawIndexEntry(first, bodies[first].indexedAt);
    if forall y | y in EmbeddingEntries(bodies, session) && y != x :: Before(x, y) {
      forall id | id in bodies && id != first && bodies[id].sessionId == session
        ensures Before(x, RawIndexEntry(id, bodies[id].indexedAt))
      {
        assert RawIndexEntry(id, bodies[id].indexedAt) in EmbeddingEntries(bodies, session);
      }
    }
  }

  /** Sessions other than the overflowing one keep all their bodies through a rebuild. */
  lemma OverflowElsewhere(v: Vectors, record: StoredEmbedding)
    requires VectorsExact(v) && record.id !in v.bodies
    ensures forall id | id in v.bodies && v.bodies[id].sessionId != record.sessionId ::
              id in RebuiltVectors(v.bodies[record.id := record]).bodies
  {
    var after := v.bodies[record.id := record];
    forall id | id in v.bodies && v.bodies[id].sessionId != record.sessionId
      ensures id in RebuiltVectors(after).bodies
    {
      var session := v.bodies[id].sessionId;
      assert ShardExact(v, session);
      assert SessionIds(after, session) == SessionIds(v.bodies, session);
      assert id in SessionIds(v.bodies, session);
      DistinctSize(v.shards[session]);
      RebuildFits(after, session);
      InListing(EmbeddingEntries(after, session));
    }
  }

  /** What survives of the overflowing session, seen through its listing. */
  lemma SurvivesIffKept(after: EmbeddingBodies, session: Option<nat>, id: nat)
    requires id in after && after[id].sessionId == session
    ensures var e := RawIndexEntry(id, after[id].indexedAt);
            && e in EmbeddingEntries(after, session)
            && (id in RebuiltVectors(after).bodies <==> e in Elements(NewestEmbeddings(after, session)))
  {
    hide NewestEmbeddings;
  }

  lemma DroppedOne(after: EmbeddingBodies, session: Option<nat>, first: nat)
    requires first in after && after[first].sessionId == session && RebuiltVectors(after).bodies == after - {first}
    ensures Elements(NewestEmbeddings(after, session)) == EmbeddingEntries(after, session) - {RawIndexEntry(first, after[first].indexedAt)}
  {
    hide RebuiltVectors, NewestEmbeddings;
    var kept := Elements(NewestEmbeddings(after, session));
    var s, x := EmbeddingEntries(after, session), RawIndexEntry(first, after[first].indexedAt);
    KeptAreEntries(after, session);
    forall y
      ensures y in kept <==> y in s - {x}
    {
      if y in s {
        SurvivesIffKept(after, session, y.id);
      }
    }
  }

  lemma KeptAreEntries(after: EmbeddingBodies, session: Option<nat>)
    ensures Elements(NewestEmbeddings(after, session)) <= EmbeddingEntries(after, session)
  {
    WindowIsListing(MAX_VECTOR_SHARD_ENTRIES, EmbeddingEntries(after, session));
  }

  lemma DropsOne(after: EmbeddingBodies, session: Option<nat>, first: nat)
    requires first in after && after[first].sessionId == session
    requires forall id | id in after && after[id].sessionId != session :: id in RebuiltVectors(after).bodies
    requires Elements(NewestEmbeddings(after, session)) == EmbeddingEntries(after, session) - {RawIndexEntry(first, after[first].indexedAt)}
    ensures RebuiltVectors(after).bodies == after - {first}
  {
    hide RebuiltVectors, NewestEmbeddings, EmbeddingEntries;
    var r := RebuiltVectors(after).bodies;
    RebuiltWithin(after);
    forall id
      ensures id in r <==> id in after - {first}
      ensures id in r ==> r[id] == after[id]
    {
      if id in after && after[id].sessionId == session {
        SurvivesIffKept(after, session, id);
      }
    }
    assert r == after - {first};
  }

  lemma RebuiltWithin(bodies: EmbeddingBodies)
    ensures forall id | id in RebuiltVectors(bodies).bodies :: id in bodies && RebuiltVectors(bodies).bodies[id] == bodies[id]
  {
  }

  lemma RebuildDrops(after: EmbeddingBodies, session: Option<nat>, first: nat)
    requires first in after && after[first].sessionId == session
    requires forall id | id in after && after[id].sessionId != session :: id in RebuiltVectors(after).bodies
    ensures RebuiltVectors(after).bodies == after - {first}
       <==> Elements(NewestEmbeddings(after, session)) == EmbeddingEntries(after, session) - {RawIndexEntry(first, after[first].indexedAt)}
  {
    hide RebuiltVectors, NewestEmbeddings, EmbeddingEntries;
    if RebuiltVectors(after).bodies == after - {first} {
      DroppedOne(after, session, first);
    }
    if Elements(NewestEmbeddings(after, session)) == EmbeddingEntries(after, session) - {RawIndexEntry(first, after[first].indexedAt)} {
      DropsOne(after, session, first);
    }
  }
}
