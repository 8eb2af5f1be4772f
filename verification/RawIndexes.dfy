/** The five kinds of materialized raw index and how one node is synchronised into them.

    Every index file is determined by the node bodies alone (`Rebuilt`); the theorems here say that
    the incremental update keeps each file equal to that, and that it converges from any state a
    crash can leave behind. */
module RawIndexes {
  import opened Domain
  import opened Listings

  const MAX_SESSION_INDEX_ENTRIES: nat := 4096
  const MAX_LOOP_INDEX_ENTRIES: nat := 4097
  /** Timestamps are nanoseconds since the epoch. */
  const NANOSECONDS_PER_DAY := 86_400_000_000_000

  /** One index file below `indexes/`. A day's shard is named by its date, and different days have different
      names, whatever the year. */
  datatype IndexKey =
    | SessionIndex(session: nat)
    | LoopIndex(loop: nat)
    | Backlog
    | PushedBacklog
    | TimelineShard(day: int)

  type IndexFiles = map<IndexKey, seq<RawIndexEntry>>
  type RawBodies = map<nat, RawNode>

  function EntryOf(node: RawNode): RawIndexEntry {
    RawIndexEntry(node.id, node.timestamp)
  }

  function TimelineBucket(timestamp: int): int {
    timestamp / NANOSECONDS_PER_DAY
  }

  predicate IsUndistilled(node: RawNode) {
    node.distillation != Distilled
  }

  predicate Belongs(node: RawNode, key: IndexKey) {
    match key
    case SessionIndex(s) => node.sessionId == Some(s)
    case LoopIndex(l) => node.loopId == Some(l)
    case Backlog => IsUndistilled(node)
    case PushedBacklog => IsUndistilled(node) && node.overflow.wasPushedOutOfSession
    case TimelineShard(day) => TimelineBucket(node.timestamp) == day
  }

  /** The bound a file of this kind is cut to after sorting. */
  function Kept(key: IndexKey, xs: seq<RawIndexEntry>): seq<RawIndexEntry> {
    match key
    case SessionIndex(_) => Newest(MAX_SESSION_INDEX_ENTRIES, xs)
    case LoopIndex(_) => Newest(MAX_LOOP_INDEX_ENTRIES, xs)
    case _ => xs
  }

  predicate IsBacklog(key: IndexKey) {
    key.Backlog? || key.PushedBacklog?
  }

  function Read(files: IndexFiles, key: IndexKey): seq<RawIndexEntry> {
    if key in files then files[key] else []
  }

  ghost predicate Keyed(raw: RawBodies) {
    forall id | id in raw :: raw[id].id == id
  }

  ghost function Members(raw: RawBodies, key: IndexKey): set<RawIndexEntry> {
    set id | id in raw && Belongs(raw[id], key) :: EntryOf(raw[id])
  }

  /** What a rebuild from the bodies writes to `key`. */
  ghost function Rebuilt(raw: RawBodies, key: IndexKey): seq<RawIndexEntry> {
    Kept(key, Listing(Members(raw, key)))
  }

  /** The file at `key` is the one a rebuild would write: the two backlog files are always
      written, the others once they have a member. */
  ghost predicate FileExact(raw: RawBodies, files: IndexFiles, key: IndexKey) {
    && (key in files <==> IsBacklog(key) || Members(raw, key) != {})
    && (key in files ==> files[key] == Rebuilt(raw, key))
  }

  ghost predicate IndexesExact(raw: RawBodies, files: IndexFiles) {
    forall key: IndexKey :: FileExact(raw, files, key)
  }

  /** `raw1` adds nodes to `raw0` or changes the lifecycle of nodes in it. */
  ghost predicate Evolves(raw0: RawBodies, raw1: RawBodies) {
    && Keyed(raw0) && Keyed(raw1)
    && forall id | id in raw0 :: id in raw1 && SameIdentity(raw0[id], raw1[id])
  }

  // ---------------------------------------------------------------- synchronising one node

  /** Upsert into, or remove from, one index file. */
  function SyncFile(files: IndexFiles, node: RawNode, key: IndexKey): IndexFiles {
    if Belongs(node, key) then
      files[key := Kept(key, Upsert(Read(files, key), EntryOf(node)))]
    else if key in files && |Without(files[key], node.id)| != |files[key]| then
      files[key := Without(files[key], node.id)]
    else
      files
  }

  /** The files one synchronisation writes, in order: the timeline last. */
  function KeysOf(node: RawNode): seq<IndexKey> {
    (if node.sessionId.Some? then [SessionIndex(node.sessionId.value)] else [])
    + (if node.loopId.Some? then [LoopIndex(node.loopId.value)] else [])
    + [Backlog, PushedBacklog, TimelineShard(TimelineBucket(node.timestamp))]
  }

  function SyncKeys(files: IndexFiles, node: RawNode, keys: seq<IndexKey>): IndexFiles
    decreases |keys|
  {
    if keys == [] then files else SyncKeys(SyncFile(files, node, keys[0]), node, keys[1..])
  }

  function Sync(files: IndexFiles, node: RawNode): IndexFiles {
    SyncKeys(files, node, KeysOf(node))
  }

  lemma MembersFixIds(raw: RawBodies, key: IndexKey)
    requires Keyed(raw)
    ensures forall x | x in Members(raw, key) :: x.id in raw && x == EntryOf(raw[x.id])
  {
  }

  /** Putting a node's entry into a file that holds the listing of any set `s`. */
  lemma KeptUpsert(key: IndexKey, s: set<RawIndexEntry>, e: RawIndexEntry)
    requires forall x | x in s && x.id == e.id :: x == e
    ensures Kept(key, Upsert(Kept(key, Listing(s)), e)) == Kept(key, Listing(s + {e}))
  {
    match key
    case SessionIndex(_) => BoundedUpsert(MAX_SESSION_INDEX_ENTRIES, s, e);
    case LoopIndex(_) => BoundedUpsert(MAX_LOOP_INDEX_ENTRIES, s, e);
    case _ =>
      UpsertListing(s, e);
      assert Dropping(s, e.id) + {e} == s + {e};
  }

  lemma WithoutListing(s: set<RawIndexEntry>, e: RawIndexEntry)
    requires forall x | x in s && x.id == e.id :: x == e
    ensures Without(Listing(s), e.id) == Listing(s - {e})
  {
    RemoveListing(s, e.id);
    assert Dropping(s, e.id) == s - {e};
  }

  lemma SyncFileFrame(files: IndexFiles, node: RawNode, key: IndexKey)
    ensures var r := SyncFile(files, node, key);
            && (forall other | other != key :: (other in r <==> other in files) && Read(r, other) == Read(files, other))
            && (key in r <==> key in files || Belongs(node, key))
  {
  }

  // ---------------------------------------------------------------- between two sets of bodies

  /** A file as some prefix of an update from `raw0` to `raw1`, possibly repeated, can leave it:
      a backlog file has lost or gained only entries that the update changes, any other file is
      still the old one or already the new one. */
  ghost predicate FileBetween(raw0: RawBodies, raw1: RawBodies, files: IndexFiles, key: IndexKey) {
    if IsBacklog(key) then
      && key in files
      && Sorted(files[key])
      && Members(raw0, key) * Members(raw1, key) <= Elements(files[key]) <= Members(raw0, key) + Members(raw1, key)
    else
      FileExact(raw0, files, key) || FileExact(raw1, files, key)
  }

  ghost predicate FilesBetween(raw0: RawBodies, raw1: RawBodies, files: IndexFiles) {
    forall key: IndexKey :: FileBetween(raw0, raw1, files, key)
  }

  /** What node `id` contributes to the file at `key` is already final. */
  ghost predicate SettledAt(raw1: RawBodies, files: IndexFiles, id: nat, key: IndexKey)
    requires id in raw1
  {
    if IsBacklog(key) then
      EntryOf(raw1[id]) in Elements(Read(files, key)) <==> Belongs(raw1[id], key)
    else
      Belongs(raw1[id], key) ==> FileExact(raw1, files, key)
  }

  ghost predicate Settled(raw1: RawBodies, files: IndexFiles, id: nat)
    requires id in raw1
  {
    forall key: IndexKey :: SettledAt(raw1, files, id, key)
  }

  /** Outside the backlog, the only entry the update can add to `id`'s files is `id`'s own. */
  ghost predicate AddsOnly(raw0: RawBodies, raw1: RawBodies, id: nat)
    requires id in raw1
  {
    forall key: IndexKey | !IsBacklog(key) && Belongs(raw1[id], key) ::
      Members(raw1, key) == Members(raw0, key) + {EntryOf(raw1[id])}
  }

  lemma ExactIsBetween(raw0: RawBodies, raw1: RawBodies, files: IndexFiles)
    requires IndexesExact(raw0, files) || IndexesExact(raw1, files)
    ensures FilesBetween(raw0, raw1, files)
  {
    forall key: IndexKey
      ensures FileBetween(raw0, raw1, files, key)
    {
      assert FileExact(raw0, files, key) || FileExact(raw1, files, key);
    }
  }

  lemma EntryOwned(raw0: RawBodies, raw1: RawBodies, id: nat, key: IndexKey, x: RawIndexEntry)
    requires Evolves(raw0, raw1) && id in raw1
    requires x in Members(raw0, key) + Members(raw1, key)
    ensures x.id in raw1 && x == EntryOf(raw1[x.id])
    ensures x.id == id ==> x == EntryOf(raw1[id])
  {
  }

  lemma SyncBacklogSettles(raw0: RawBodies, raw1: RawBodies, files: IndexFiles, id: nat, key: IndexKey)
    requires Evolves(raw0, raw1) && id in raw1 && IsBacklog(key)
    requires FileBetween(raw0, raw1, files, key)
    ensures var r := SyncFile(files, raw1[id], key);
            && key in r && Sorted(r[key])
            && Elements(r[key]) == if Belongs(raw1[id], key) then Elements(files[key]) + {EntryOf(raw1[id])}
                                   else Elements(files[key]) - {EntryOf(raw1[id])}
  {
    var e := EntryOf(raw1[id]);
    var s := Elements(files[key]);
    ListingUnique(files[key], s);
    forall x | x in s && x.id == e.id
      ensures x == e
    {
      EntryOwned(raw0, raw1, id, key, x);
    }
    if Belongs(raw1[id], key) {
      KeptUpsert(key, s, e);
    } else {
      WithoutListing(s, e);
    }
  }

  lemma SyncBacklogBetween(raw0: RawBodies, raw1: RawBodies, files: IndexFiles, id: nat, key: IndexKey)
    requires Evolves(raw0, raw1) && id in raw1 && IsBacklog(key)
    requires FileBetween(raw0, raw1, files, key)
    ensures FileBetween(raw0, raw1, SyncFile(files, raw1[id], key), key)
    ensures SettledAt(raw1, SyncFile(files, raw1[id], key), id, key)
  {
    SyncBacklogSettles(raw0, raw1, files, id, key);
    if !Belongs(raw1[id], key) {
      NotMember(raw1, id, key);
    } else {
      assert EntryOf(raw1[id]) in Members(raw1, key);
    }
  }

  lemma NotMember(raw: RawBodies, id: nat, key: IndexKey)
    requires Keyed(raw) && id in raw && !Belongs(raw[id], key)
    ensures EntryOf(raw[id]) !in Members(raw, key)
  {
    MembersFixIds(raw, key);
  }

  lemma SyncOtherSettles(raw0: RawBodies, raw1: RawBodies, files: IndexFiles, id: nat, key: IndexKey)
    requires Evolves(raw0, raw1) && id in raw1 && AddsOnly(raw0, raw1, id)
    requires !IsBacklog(key) && Belongs(raw1[id], key) && FileBetween(raw0, raw1, files, key)
    ensures FileExact(raw1, SyncFile(files, raw1[id], key), key)
  {
    var e := EntryOf(raw1[id]);
    var s := if FileExact(raw0, files, key) then Members(raw0, key) else Members(raw1, key);
    assert Members(raw1, key) == Members(raw0, key) + {e};
    assert s + {e} == Members(raw1, key);
    assert Read(files, key) == Kept(key, Listing(s)) by {
      if key !in files {
        assert s == {} && |Listing(s)| == 0;
      }
    }
    forall x | x in s && x.id == e.id
      ensures x == e
    {
      EntryOwned(raw0, raw1, id, key, x);
    }
    KeptUpsert(key, s, e);
  }

  /** One file write of one node's synchronisation: still between, settled at this file, and no
      file unsettled. */
  lemma SyncStep(raw0: RawBodies, raw1: RawBodies, files: IndexFiles, id: nat, key: IndexKey)
    requires Evolves(raw0, raw1) && id in raw1 && AddsOnly(raw0, raw1, id)
    requires FilesBetween(raw0, raw1, files)
    requires IsBacklog(key) || Belongs(raw1[id], key)
    ensures FilesBetween(raw0, raw1, SyncFile(files, raw1[id], key))
    ensures SettledAt(raw1, SyncFile(files, raw1[id], key), id, key)
    ensures forall i, k | i in raw1 && SettledAt(raw1, files, i, k) :: SettledAt(raw1, SyncFile(files, raw1[id], key), i, k)
  {
    var r := SyncFile(files, raw1[id], key);
    assert FileBetween(raw0, raw1, files, key);
    SyncFileFrame(files, raw1[id], key);
    forall k: IndexKey
      ensures FileBetween(raw0, raw1, r, k)
    {
      SyncStepBetween(raw0, raw1, files, id, key, k);
    }
    if IsBacklog(key) { SyncBacklogBetween(raw0, raw1, files, id, key); } else { SyncOtherSettles(raw0, raw1, files, id, key); }
    forall i, k | i in raw1 && SettledAt(raw1, files, i, k)
      ensures SettledAt(raw1, r, i, k)
    {
      SyncStepKeepsSettled(raw0, raw1, files, id, key, i, k);
    }
  }

  lemma SyncStepBetween(raw0: RawBodies, raw1: RawBodies, files: IndexFiles, id: nat, key: IndexKey, k: IndexKey)
    requires Evolves(raw0, raw1) && id in raw1 && AddsOnly(raw0, raw1, id)
    requires FilesBetween(raw0, raw1, files)
    requires IsBacklog(key) || Belongs(raw1[id], key)
    ensures FileBetween(raw0, raw1, SyncFile(files, raw1[id], key), k)
  {
    assert FileBetween(raw0, raw1, files, k);
    if k != key {
      SyncFileFrame(files, raw1[id], key);
      BetweenFrame(raw0, raw1, files, SyncFile(files, raw1[id], key), k);
    } else if IsBacklog(key) {
      SyncBacklogBetween(raw0, raw1, files, id, key);
    } else {
      SyncOtherSettles(raw0, raw1, files, id, key);
    }
  }

  lemma BetweenFrame(raw0: RawBodies, raw1: RawBodies, f: IndexFiles, g: IndexFiles, k: IndexKey)
    requires k in f <==> k in g
    requires Read(f, k) == Read(g, k)
    requires FileBetween(raw0, raw1, f, k)
    ensures FileBetween(raw0, raw1, g, k)
  {
  }

  lemma SyncStepKeepsSettled(raw0: RawBodies, raw1: RawBodies, files: IndexFiles, id: nat, key: IndexKey, i: nat, k: IndexKey)
    requires Evolves(raw0, raw1) && id in raw1 && AddsOnly(raw0, raw1, id)
    requires FileBetween(raw0, raw1, files, key)
    requires IsBacklog(key) || Belongs(raw1[id], key)
    requires i in raw1 && SettledAt(raw1, files, i, k)
    ensures SettledAt(raw1, SyncFile(files, raw1[id], key), i, k)
  {
    SyncFileFrame(files, raw1[id], key);
    if k == key {
      if IsBacklog(key) {
        if i == id {
          SyncBacklogBetween(raw0, raw1, files, id, key);
        } else {
          SyncBacklogSettles(raw0, raw1, files, id, key);
          assert EntryOf(raw1[i]) != EntryOf(raw1[id]);
        }
      } else {
        SyncOtherSettles(raw0, raw1, files, id, key);
      }
    }
  }

  /** Once every changed node is settled, the files are those of the new bodies. */
  lemma SettledIsExact(raw0: RawBodies, raw1: RawBodies, files: IndexFiles)
    requires Evolves(raw0, raw1) && FilesBetween(raw0, raw1, files)
    requires forall id | id in raw1 && !(id in raw0 && raw0[id] == raw1[id]) :: Settled(raw1, files, id)
    ensures IndexesExact(raw1, files)
  {
    forall key: IndexKey
      ensures FileExact(raw1, files, key)
    {
      assert FileBetween(raw0, raw1, files, key);
      if IsBacklog(key) {
        SettledBacklog(raw0, raw1, files, key);
      } else {
        ChangedMember(raw0, raw1, key);
        if Members(raw0, key) != Members(raw1, key) {
          var id :| id in raw1 && !(id in raw0 && raw0[id] == raw1[id]) && Belongs(raw1[id], key);
          assert SettledAt(raw1, files, id, key);
        }
      }
    }
  }

  lemma ChangedMember(raw0: RawBodies, raw1: RawBodies, key: IndexKey)
    requires Evolves(raw0, raw1) && !IsBacklog(key)
    ensures Members(raw0, key) == Members(raw1, key)
         || exists id :: id in raw1 && !(id in raw0 && raw0[id] == raw1[id]) && Belongs(raw1[id], key)
  {
    assert Members(raw0, key) <= Members(raw1, key) by {
      forall x | x in Members(raw0, key)
        ensures x in Members(raw1, key)
      {
        MembersFixIds(raw0, key);
        assert SameIdentity(raw0[x.id], raw1[x.id]);
        assert Belongs(raw1[x.id], key);
      }
    }
    if Members(raw0, key) != Members(raw1, key) {
      var x :| x in Members(raw1, key) && x !in Members(raw0, key);
      var id :| id in raw1 && Belongs(raw1[id], key) && x == EntryOf(raw1[id]);
      assert !(id in raw0 && raw0[id] == raw1[id]);
    }
  }

  lemma SettledBacklog(raw0: RawBodies, raw1: RawBodies, files: IndexFiles, key: IndexKey)
    requires Evolves(raw0, raw1) && IsBacklog(key) && FileBetween(raw0, raw1, files, key)
    requires forall id | id in raw1 && !(id in raw0 && raw0[id] == raw1[id]) :: Settled(raw1, files, id)
    ensures FileExact(raw1, files, key)
  {
    forall x
      ensures x in Elements(files[key]) <==> x in Members(raw1, key)
    {
      if x in Members(raw0, key) + Members(raw1, key) {
        EntryOwned(raw0, raw1, x.id, key, x);
        var id := x.id;
        if id in raw0 && raw0[id] == raw1[id] {
          SameMember(raw0, raw1, id, key);
        } else {
          assert SettledAt(raw1, files, id, key);
          SettledMember(raw1, id, key);
        }
      }
    }
    ListingUnique(files[key], Members(raw1, key));
  }

  lemma SettledMember(raw: RawBodies, id: nat, key: IndexKey)
    requires Keyed(raw) && id in raw
    ensures EntryOf(raw[id]) in Members(raw, key) <==> Belongs(raw[id], key)
  {
    if !Belongs(raw[id], key) { NotMember(raw, id, key); }
  }

  lemma SameMember(raw0: RawBodies, raw1: RawBodies, id: nat, key: IndexKey)
    requires Keyed(raw0) && Keyed(raw1) && id in raw0 && id in raw1 && raw0[id] == raw1[id]
    ensures EntryOf(raw0[id]) in Members(raw0, key) <==> EntryOf(raw0[id]) in Members(raw1, key)
  {
    SettledMember(raw0, id, key);
    SettledMember(raw1, id, key);
  }

  lemma {:induction false} SyncKeysSettle(raw0: RawBodies, raw1: RawBodies, files: IndexFiles, id: nat, keys: seq<IndexKey>)
    requires Evolves(raw0, raw1) && id in raw1 && AddsOnly(raw0, raw1, id)
    requires FilesBetween(raw0, raw1, files)
    requires forall k | k in keys :: IsBacklog(k) || Belongs(raw1[id], k)
    ensures FilesBetween(raw0, raw1, SyncKeys(files, raw1[id], keys))
    ensures forall k | k in keys :: SettledAt(raw1, SyncKeys(files, raw1[id], keys), id, k)
    ensures forall i, k | i in raw1 && SettledAt(raw1, files, i, k) :: SettledAt(raw1, SyncKeys(files, raw1[id], keys), i, k)
    decreases |keys|
  {
    if keys != [] {
      SyncStep(raw0, raw1, files, id, keys[0]);
      SyncKeysSettle(raw0, raw1, SyncFile(files, raw1[id], keys[0]), id, keys[1..]);
    }
  }

  /** Synchronising node `id` from any in-between files settles it and unsettles nothing. */
  lemma SyncSettles(raw0: RawBodies, raw1: RawBodies, files: IndexFiles, id: nat)
    requires Evolves(raw0, raw1) && id in raw1 && AddsOnly(raw0, raw1, id)
    requires FilesBetween(raw0, raw1, files)
    ensures var r := Sync(files, raw1[id]);
            && FilesBetween(raw0, raw1, r)
            && Settled(raw1, r, id)
            && (forall i | i in raw1 && Settled(raw1, files, i) :: Settled(raw1, r, i))
  {
    var keys := KeysOf(raw1[id]);
    KeysCover(raw1[id]);
    SyncKeysSettle(raw0, raw1, files, id, keys);
    SettledByKeys(raw1, Sync(files, raw1[id]), id, keys);
    forall i | i in raw1 && Settled(raw1, files, i)
      ensures Settled(raw1, Sync(files, raw1[id]), i)
    {
      SettledCarries(raw1, files, Sync(files, raw1[id]), i);
    }
  }

  /** The written keys are the files the node belongs to, and the two backlogs. */
  lemma KeysCover(node: RawNode)
    ensures forall key: IndexKey :: key in KeysOf(node) <==> IsBacklog(key) || Belongs(node, key)
  {
  }

  lemma SettledByKeys(raw1: RawBodies, files: IndexFiles, id: nat, keys: seq<IndexKey>)
    requires id in raw1 && forall key | IsBacklog(key) || Belongs(raw1[id], key) :: key in keys
    requires forall key | key in keys :: SettledAt(raw1, files, id, key)
    ensures Settled(raw1, files, id)
  {
    forall key: IndexKey
      ensures SettledAt(raw1, files, id, key)
    {
      assert key in keys || !Belongs(raw1[id], key);
    }
  }

  lemma SettledCarries(raw1: RawBodies, f: IndexFiles, g: IndexFiles, i: nat)
    requires i in raw1 && Settled(raw1, f, i)
    requires forall j, key | j in raw1 && SettledAt(raw1, f, j, key) :: SettledAt(raw1, g, j, key)
    ensures Settled(raw1, g, i)
  {
    forall key: IndexKey
      ensures SettledAt(raw1, g, i, key)
    {
      assert SettledAt(raw1, f, i, key);
    }
  }

  lemma OneNodeAddsOnly(raw: RawBodies, node: RawNode)
    requires Keyed(raw) && (node.id in raw ==> SameIdentity(raw[node.id], node))
    ensures Evolves(raw, raw[node.id := node]) && AddsOnly(raw, raw[node.id := node], node.id)
  {
    var raw1 := raw[node.id := node];
    forall key: IndexKey | !IsBacklog(key) && Belongs(node, key)
      ensures Members(raw1, key) == Members(raw, key) + {EntryOf(node)}
    {
      forall x
        ensures x in Members(raw1, key) <==> x in Members(raw, key) || x == EntryOf(node)
      {
        if x in Members(raw, key) {
          MembersFixIds(raw, key);
          assert Belongs(raw1[x.id], key) && EntryOf(raw1[x.id]) == x;
        }
        assert Belongs(raw1[node.id], key) && EntryOf(raw1[node.id]) == EntryOf(node);
      }
    }
  }

  /** Incremental indexing refines rebuild: after one synchronisation every index file is again the
      one a rebuild of the new bodies would write, including the newest-4096 and newest-4097 bounds. */
  lemma SyncRefinesRebuild(raw: RawBodies, files: IndexFiles, node: RawNode)
    requires Keyed(raw) && (node.id in raw ==> SameIdentity(raw[node.id], node))
    requires IndexesExact(raw, files)
    ensures IndexesExact(raw[node.id := node], Sync(files, node))
  {
    var raw1 := raw[node.id := node];
    OneNodeAddsOnly(raw, node);
    ExactIsBetween(raw, raw1, files);
    SyncSettles(raw, raw1, files, node.id);
    SettledIsExact(raw, raw1, Sync(files, node));
  }

  /** Two exact sets of index files are the same files. */
  lemma ExactUnique(raw: RawBodies, f: IndexFiles, g: IndexFiles)
    requires IndexesExact(raw, f) && IndexesExact(raw, g)
    ensures f == g
  {
    forall k: IndexKey
      ensures k in f <==> k in g
      ensures k in f ==> f[k] == g[k]
    {
      assert FileExact(raw, f, k) && FileExact(raw, g, k);
    }
  }
}
