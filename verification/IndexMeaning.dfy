/** What the index files say, read off the fields of the nodes alone: which nodes each kind of file lists,
    in which order, and which it leaves out. */
module IndexMeaning {
  import opened Domain
  import opened Listings
  import opened RawIndexes

  /** `file` lists nodes that satisfy `who`, ascending by timestamp and then id: all of them, or the newest
      `limit`. */
  ghost predicate Lists(raw: RawBodies, file: seq<RawIndexEntry>, limit: Option<nat>, who: RawNode -> bool) {
    && (limit.Some? ==> |file| <= limit.value)
    && (forall i, j | 0 <= i < j < |file| ::
          file[i].timestamp < file[j].timestamp || (file[i].timestamp == file[j].timestamp && file[i].id < file[j].id))
    && (forall e | e in file :: e.id in raw && e.timestamp == raw[e.id].timestamp && who(raw[e.id]))
    && (forall id | id in raw && who(raw[id]) ::
          || RawIndexEntry(id, raw[id].timestamp) in file
          || (limit == Some(|file|)
              && forall e | e in file :: raw[id].timestamp < e.timestamp || (raw[id].timestamp == e.timestamp && id < e.id)))
  }

  /** A file that lists the newest of the members of a key. */
  lemma NewestLists(raw: RawBodies, key: IndexKey, limit: nat, who: RawNode -> bool)
    requires Keyed(raw) && forall id | id in raw :: Belongs(raw[id], key) <==> who(raw[id])
    ensures Lists(raw, Newest(limit, Listing(Members(raw, key))), Some(limit), who)
  {
    hide Belongs;
    var all := Listing(Members(raw, key));
    MembersFixIds(raw, key);
    var file := Newest(limit, all);
    forall e | e in file
      ensures e.id in raw && e.timestamp == raw[e.id].timestamp && who(raw[e.id])
    {
      ListedBelongs(raw, key, e);
    }
    forall id | id in raw && who(raw[id])
      ensures RawIndexEntry(id, raw[id].timestamp) in file
           || (Some(limit) == Some(|file|)
               && forall e | e in file :: raw[id].timestamp < e.timestamp || (raw[id].timestamp == e.timestamp && id < e.id))
    {
      var x := RawIndexEntry(id, raw[id].timestamp);
      assert x in Members(raw, key);
      assert x in Elements(all);
      LeftOutIsOlder(limit, all, x);
    }
  }

  lemma ListedBelongs(raw: RawBodies, key: IndexKey, e: RawIndexEntry)
    requires Keyed(raw) && e in Listing(Members(raw, key))
    ensures e.id in raw && e.timestamp == raw[e.id].timestamp && Belongs(raw[e.id], key)
  {
    InListing(Members(raw, key));
    assert e in Members(raw, key);
  }

  lemma LeftOutIsOlder(limit: nat, all: seq<RawIndexEntry>, x: RawIndexEntry)
    requires Sorted(all) && x in all
    ensures var file := Newest(limit, all);
            x in file || (|file| == limit && forall e | e in file :: Before(x, e))
  {
    var i :| 0 <= i < |all| && all[i] == x;
    var cut := if |all| > limit then |all| - limit else 0;
    assert Newest(limit, all) == all[cut..];
    if i >= cut {
      assert all[cut..][i - cut] == x;
    }
  }

  lemma AllLists(raw: RawBodies, key: IndexKey, who: RawNode -> bool)
    requires Keyed(raw) && forall id | id in raw :: Belongs(raw[id], key) <==> who(raw[id])
    ensures Lists(raw, Listing(Members(raw, key)), None, who)
  {
    var all := Listing(Members(raw, key));
    NewestLists(raw, key, |all|, who);
    forall id | id in raw && who(raw[id])
      ensures RawIndexEntry(id, raw[id].timestamp) in all
    {
      assert RawIndexEntry(id, raw[id].timestamp) in Members(raw, key);
      assert RawIndexEntry(id, raw[id].timestamp) in Elements(all);
    }
  }

  lemma MissingIsEmpty(raw: RawBodies, files: IndexFiles, key: IndexKey)
    requires IndexesExact(raw, files)
    ensures Read(files, key) == Rebuilt(raw, key)
  {
    assert FileExact(raw, files, key);
    if key !in files {
      assert Listing(Members(raw, key)) == [];
    }
  }

  function OfSession(session: nat): RawNode -> bool {
    (n: RawNode) => n.sessionId == Some(session)
  }

  function OfLoop(loop: nat): RawNode -> bool {
    (n: RawNode) => n.loopId == Some(loop)
  }

  function ToDistill(onlyPushedOut: bool): RawNode -> bool {
    (n: RawNode) => n.distillation != Distilled && (onlyPushedOut ==> n.overflow.wasPushedOutOfSession)
  }

  function OnDay(day: int): RawNode -> bool {
    (n: RawNode) => day * 86_400_000_000_000 <= n.timestamp < (day + 1) * 86_400_000_000_000
  }

  lemma BucketIsDay(timestamp: int, day: int)
    ensures TimelineBucket(timestamp) == day <==> day * 86_400_000_000_000 <= timestamp < (day + 1) * 86_400_000_000_000
  {
  }

  /** What the five kinds of index file of a consistent store list: the newest 4096 nodes of a session, the
      newest 4097 of a loop, all nodes not yet distilled, those of them that were pushed out of their
      session, and all nodes of a UTC day. */
  lemma IndexesMean(raw: RawBodies, files: IndexFiles, id: nat, day: int)
    requires Keyed(raw) && IndexesExact(raw, files)
    ensures Lists(raw, Read(files, SessionIndex(id)), Some(4096), OfSession(id))
    ensures Lists(raw, Read(files, LoopIndex(id)), Some(4097), OfLoop(id))
    ensures Lists(raw, Read(files, Backlog), None, ToDistill(false))
    ensures Lists(raw, Read(files, PushedBacklog), None, ToDistill(true))
    ensures Lists(raw, Read(files, TimelineShard(day)), None, OnDay(day))
  {
    hide Lists, IndexesExact, Keyed, Members, Listing;
    SessionMeans(raw, files, id);
    LoopMeans(raw, files, id);
    BacklogMeans(raw, files, false);
    BacklogMeans(raw, files, true);
    DayMeans(raw, files, day);
  }

  lemma SessionMeans(raw: RawBodies, files: IndexFiles, session: nat)
    requires Keyed(raw) && IndexesExact(raw, files)
    ensures Lists(raw, Read(files, SessionIndex(session)), Some(4096), OfSession(session))
  {
    hide Lists, IndexesExact, Members, Listing;
    MissingIsEmpty(raw, files, SessionIndex(session));
    NewestLists(raw, SessionIndex(session), 4096, OfSession(session));
  }

  lemma LoopMeans(raw: RawBodies, files: IndexFiles, loop: nat)
    requires Keyed(raw) && IndexesExact(raw, files)
    ensures Lists(raw, Read(files, LoopIndex(loop)), Some(4097), OfLoop(loop))
  {
    hide Lists, IndexesExact, Members, Listing;
    MissingIsEmpty(raw, files, LoopIndex(loop));
    NewestLists(raw, LoopIndex(loop), 4097, OfLoop(loop));
  }

  lemma BacklogMeans(raw: RawBodies, files: IndexFiles, onlyPushedOut: bool)
    requires Keyed(raw) && IndexesExact(raw, files)
    ensures Lists(raw, Read(files, if onlyPushedOut then PushedBacklog else Backlog), None, ToDistill(onlyPushedOut))
  {
    hide Lists, IndexesExact, Members, Listing;
    var key := if onlyPushedOut then PushedBacklog else Backlog;
    MissingIsEmpty(raw, files, key);
    AllLists(raw, key, ToDistill(onlyPushedOut));
  }

  lemma DayMeans(raw: RawBodies, files: IndexFiles, day: int)
    requires Keyed(raw) && IndexesExact(raw, files)
    ensures Lists(raw, Read(files, TimelineShard(day)), None, OnDay(day))
  {
    hide Lists, IndexesExact, Members, Listing, TimelineBucket;
    MissingIsEmpty(raw, files, TimelineShard(day));
    forall id | id in raw
      ensures Belongs(raw[id], TimelineShard(day)) <==> OnDay(day)(raw[id])
    {
      BucketIsDay(raw[id].timestamp, day);
    }
    AllLists(raw, TimelineShard(day), OnDay(day));
  }
}
