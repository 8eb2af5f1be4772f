/** Reading the per-day timeline shards: last shard name first, stopping as soon as `limit` entries are
    collected. Where the names are ordered as the days are, and only there, the result is the simple query
    over all bodies: filter, sort, take. */
module Timeline {
  import opened Domain
  import opened Listings
  import opened RawIndexes
  import opened TextOrder
  import opened Calendar
  import opened IndexMeaning

  // ---------------------------------------------------------------- newest first

  /** The order of timeline results: timestamp descending, id ascending. */
  predicate Later(a: RawIndexEntry, b: RawIndexEntry) {
    a.timestamp > b.timestamp || (a.timestamp == b.timestamp && a.id < b.id)
  }

  ghost predicate Descending(xs: seq<RawIndexEntry>) {
    forall i, j | 0 <= i < j < |xs| :: Later(xs[i], xs[j])
  }

  /** Negating timestamps turns the result order into the index order. */
  function Mirror(e: RawIndexEntry): RawIndexEntry {
    RawIndexEntry(e.id, -e.timestamp)
  }

  function Mirrored(xs: seq<RawIndexEntry>): (r: seq<RawIndexEntry>)
    ensures |r| == |xs| && forall i | 0 <= i < |xs| :: r[i] == Mirror(xs[i])
  {
    seq(|xs|, i requires 0 <= i < |xs| => Mirror(xs[i]))
  }

  ghost function MirroredSet(s: set<RawIndexEntry>): set<RawIndexEntry> {
    set e | e in s :: Mirror(e)
  }

  /** Sorting with the result order. */
  function SortRecent(xs: seq<RawIndexEntry>): seq<RawIndexEntry> {
    Mirrored(SortEntries(Mirrored(xs)))
  }

  /** The entries of `s`, newest first. */
  ghost function ByRecency(s: set<RawIndexEntry>): seq<RawIndexEntry> {
    Mirrored(Listing(MirroredSet(s)))
  }

  lemma {:induction false} MirroredElements(xs: seq<RawIndexEntry>)
    ensures Elements(Mirrored(xs)) == MirroredSet(Elements(xs))
    ensures MirroredSet(MirroredSet(Elements(xs))) == Elements(xs)
    ensures Mirrored(Mirrored(xs)) == xs
  {
    var m := Mirrored(xs);
    forall e
      ensures e in m <==> e in MirroredSet(Elements(xs))
    {
      MirroredMember(xs, e);
    }
    MirrorTwice(Elements(xs));
    assert Mirrored(m) == xs;
  }

  lemma MirroredMember(xs: seq<RawIndexEntry>, e: RawIndexEntry)
    ensures e in Mirrored(xs) <==> e in MirroredSet(Elements(xs))
  {
    var m := Mirrored(xs);
    if e in m {
      var i :| 0 <= i < |m| && m[i] == e;
      assert xs[i] in Elements(xs) && Mirror(xs[i]) == e;
    }
    if e in MirroredSet(Elements(xs)) {
      var x :| x in Elements(xs) && Mirror(x) == e;
      var i :| 0 <= i < |xs| && xs[i] == x;
      assert m[i] == e;
    }
  }

  lemma MirrorTwice(s: set<RawIndexEntry>)
    ensures MirroredSet(MirroredSet(s)) == s
  {
    forall e
      ensures e in MirroredSet(MirroredSet(s)) <==> e in s
    {
      assert Mirror(Mirror(e)) == e;
      if e in s { assert Mirror(e) in MirroredSet(s); }
    }
  }

  lemma ByRecencyFacts(s: set<RawIndexEntry>)
    ensures Descending(ByRecency(s)) && Elements(ByRecency(s)) == s && |ByRecency(s)| == |s|
  {
    var listing := Listing(MirroredSet(s));
    MirroredElements(listing);
    MirrorTwice(s);
    forall i, j | 0 <= i < j < |listing|
      ensures Later(ByRecency(s)[i], ByRecency(s)[j])
    {
      assert Before(listing[i], listing[j]);
    }
    MirrorSize(s);
  }

  lemma {:induction false} MirrorSize(s: set<RawIndexEntry>)
    ensures |MirroredSet(s)| == |s|
  {
    if s != {} {
      var e :| e in s;
      MirrorSize(s - {e});
      assert MirroredSet(s) == MirroredSet(s - {e}) + {Mirror(e)};
      assert Mirror(e) !in MirroredSet(s - {e});
    }
  }

  lemma DescendingUnique(xs: seq<RawIndexEntry>, s: set<RawIndexEntry>)
    requires Descending(xs) && Elements(xs) == s
    ensures xs == ByRecency(s)
  {
    var m := Mirrored(xs);
    MirroredElements(xs);
    forall i, j | 0 <= i < j < |m|
      ensures Before(m[i], m[j])
    {
      assert Later(xs[i], xs[j]);
    }
    ListingUnique(m, MirroredSet(s));
  }

  lemma SortRecentSorts(xs: seq<RawIndexEntry>)
    requires Distinct(xs)
    ensures SortRecent(xs) == ByRecency(Elements(xs))
  {
    var m := Mirrored(xs);
    forall i, j | 0 <= i < j < |m|
      ensures m[i] != m[j]
    {
      assert xs[i] != xs[j] && Mirror(m[i]) == xs[i] && Mirror(m[j]) == xs[j];
    }
    SortSorted(m);
    MirroredElements(xs);
    ListingUnique(SortEntries(m), MirroredSet(Elements(xs)));
  }

  // ---------------------------------------------------------------- the query

  function Take<T>(limit: nat, xs: seq<T>): seq<T> {
    if |xs| > limit then xs[..limit] else xs
  }

  predicate Within(e: RawIndexEntry, from: Option<int>, to: Option<int>) {
    (from.Some? ==> e.timestamp >= from.value) && (to.Some? ==> e.timestamp <= to.value)
  }

  ghost function InWindow(s: set<RawIndexEntry>, from: Option<int>, to: Option<int>): set<RawIndexEntry> {
    set e | e in s && Within(e, from, to)
  }

  /** Filter by window, newest first, at most `limit`. */
  ghost function TimelineQuery(s: set<RawIndexEntry>, from: Option<int>, to: Option<int>, limit: nat): seq<RawIndexEntry> {
    Take(limit, ByRecency(InWindow(s, from, to)))
  }

  ghost function AllEntries(raw: RawBodies): set<RawIndexEntry> {
    set id | id in raw :: EntryOf(raw[id])
  }

  /** Entries older than everything collected cannot reach a result that is already full. */
  lemma EarlyStop(s: set<RawIndexEntry>, newer: set<RawIndexEntry>, limit: nat)
    requires newer <= s && |newer| >= limit
    requires forall x, y | x in s - newer && y in newer :: Later(y, x)
    ensures Take(limit, ByRecency(s)) == Take(limit, ByRecency(newer))
  {
    var front, back := ByRecency(newer), ByRecency(s - newer);
    ByRecencyFacts(newer);
    ByRecencyFacts(s - newer);
    JoinDescending(front, back);
    assert newer + (s - newer) == s;
    DescendingUnique(front + back, s);
    TakeFront(front, back, limit);
  }

  lemma JoinDescending(front: seq<RawIndexEntry>, back: seq<RawIndexEntry>)
    requires Descending(front) && Descending(back)
    requires forall x, y | x in Elements(back) && y in Elements(front) :: Later(y, x)
    ensures Descending(front + back) && Elements(front + back) == Elements(front) + Elements(back)
  {
    forall i, j | 0 <= i < |front| && 0 <= j < |back|
      ensures Later(front[i], back[j])
    {
      assert front[i] in Elements(front) && back[j] in Elements(back);
    }
  }

  lemma TakeFront<T>(front: seq<T>, back: seq<T>, limit: nat)
    requires |front| >= limit
    ensures Take(limit, front + back) == Take(limit, front)
  {
  }

  /** `shard.retain(from)` then `shard.retain(to)` */
  function Retain(xs: seq<RawIndexEntry>, from: Option<int>, to: Option<int>): (r: seq<RawIndexEntry>)
    ensures forall e :: e in r <==> e in xs && Within(e, from, to)
    ensures Distinct(xs) ==> Distinct(r)
  {
    if xs == [] then []
    else
      assert xs == [xs[0]] + xs[1..];
      assert Distinct(xs) ==> Distinct(xs[1..]) && xs[0] !in xs[1..];
      var rest := Retain(xs[1..], from, to);
      if Within(xs[0], from, to) then [xs[0]] + rest else rest
  }

  // ---------------------------------------------------------------- the shards

  predicate NameBefore(a: int, b: int) {
    StringBefore(ShardName(a), ShardName(b))
  }

  /** Days in the order of their shard names. */
  ghost predicate NamesAscending(days: seq<int>) {
    forall i, j | 0 <= i < j < |days| :: NameBefore(days[i], days[j])
  }

  lemma NamesTotal(a: int, b: int)
    ensures a == b || NameBefore(a, b) || NameBefore(b, a)
    ensures !NameBefore(a, a) && !(NameBefore(a, b) && NameBefore(b, a))
  {
    hide ShardName, StringBefore;
    StringsOrdered(ShardName(a), ShardName(b));
    if ShardName(a) == ShardName(b) { NamesDistinct(a, b); }
    StringsOrdered(ShardName(a), ShardName(a));
  }

  lemma NamesTransitive(a: int, b: int, c: int)
    requires NameBefore(a, b) && NameBefore(b, c)
    ensures NameBefore(a, c)
  {
    StringsTransitive(ShardName(a), ShardName(b), ShardName(c));
  }

  predicate LastNamed(shards: set<IndexKey>, shard: IndexKey) {
    && shard in shards && shard.TimelineShard?
    && forall other | other in shards :: other.TimelineShard? ==> other == shard || NameBefore(other.day, shard.day)
  }

  lemma {:induction false} LastExists(shards: set<IndexKey>)
    requires shards != {} && forall shard | shard in shards :: shard.TimelineShard?
    ensures exists shard :: LastNamed(shards, shard)
    decreases |shards|
  {
    hide NameBefore;
    var first :| first in shards;
    if shards == {first} {
      assert LastNamed(shards, first);
    } else {
      var rest := shards - {first};
      assert shards == rest + {first};
      LastExists(rest);
      var last :| LastNamed(rest, last);
      NamesTotal(first.day, last.day);
      if NameBefore(first.day, last.day) {
        assert LastNamed(shards, last);
      } else {
        forall other | other in shards
          ensures other == first || NameBefore(other.day, first.day)
        {
          if other != first && other != last { NamesTransitive(other.day, last.day, first.day); }
        }
        assert LastNamed(shards, first);
      }
    }
  }

  lemma PrependDay(days: seq<int>, day: int)
    requires NamesAscending(days) && forall d | d in days :: NameBefore(day, d)
    ensures NamesAscending([day] + days)
  {
    assert forall i | 0 <= i < |days| :: days[i] in days;
  }

  ghost predicate ListsDays(files: IndexFiles, days: seq<int>) {
    forall day :: day in days <==> TimelineShard(day) in files
  }

  /** `list_timeline_shard_buckets`: the directory listing, sorted by name. */
  method ListTimelineBuckets(files: IndexFiles) returns (days: seq<int>)
    ensures NamesAscending(days) && ListsDays(files, days)
  {
    hide NameBefore;
    days := [];
    var pending := set key | key in files && key.TimelineShard?;
    ghost var all := pending;
    while pending != {}
      invariant pending <= all
      invariant NamesAscending(days)
      invariant forall day :: day in days <==> TimelineShard(day) in all - pending
      invariant forall shard, day | shard in pending && day in days :: NameBefore(shard.day, day)
    {
      LastExists(pending);
      var shard :| LastNamed(pending, shard);
      PrependDay(days, shard.day);
      days := [shard.day] + days;
      pending := pending - {shard};
      assert shard == TimelineShard(shard.day);
    }
  }

  lemma {:induction false} ListingOfDaysUnique(a: seq<int>, b: seq<int>)
    requires NamesAscending(a) && NamesAscending(b) && forall day :: day in a <==> day in b
    ensures a == b
    decreases |a|
  {
    hide NameBefore;
    BothEmpty(a, b);
    BothEmpty(b, a);
    if a != [] && b != [] {
      FirstIsLeast(a, b);
      FirstIsLeast(b, a);
      NamesTotal(a[0], b[0]);
      TailMembers(a);
      TailMembers(b);
      assert a[0] == b[0];
      ListingOfDaysUnique(a[1..], b[1..]);
      assert a == [a[0]] + a[1..] && b == [b[0]] + b[1..];
    }
  }

  lemma BothEmpty(a: seq<int>, b: seq<int>)
    requires forall day :: day in a ==> day in b
    ensures a != [] ==> b != [] && a[0] in b
  {
    if a != [] {
      var day := a[0];
      assert day in a;
      assert day in b;
    }
  }

  lemma FirstIsLeast(a: seq<int>, b: seq<int>)
    requires NamesAscending(a) && a != [] && b != [] && b[0] in a
    ensures a[0] == b[0] || NameBefore(a[0], b[0])
  {
    hide NameBefore;
    var i :| 0 <= i < |a| && a[i] == b[0];
  }

  lemma TailMembers(days: seq<int>)
    requires NamesAscending(days) && days != []
    ensures NamesAscending(days[1..]) && forall day :: day in days[1..] <==> day in days && day != days[0]
  {
    hide NameBefore;
    forall day
      ensures day in days[1..] <==> day in days && day != days[0]
    {
      if day in days[1..] {
        var i :| 0 <= i < |days[1..]| && days[1..][i] == day;
        NamesTotal(days[0], days[i + 1]);
      }
      assert days == [days[0]] + days[1..];
    }
  }

  lemma InTail(days: seq<int>, i: nat, j: nat)
    requires i <= |days| && j < |days|
    ensures j < i || days[j] in days[i..]
  {
    if j >= i {
      assert days[i..][j - i] == days[j];
    }
  }

  lemma NotAmongLater(days: seq<int>, i: nat)
    requires NamesAscending(days) && i < |days|
    ensures days[i] !in days[i + 1..]
  {
    hide NameBefore;
    forall j | i < j < |days|
      ensures days[j] != days[i]
    {
      NamesTotal(days[i], days[i]);
    }
  }

  /** The shards' names are ordered as their days are. */
  ghost predicate NamesFollowDays(files: IndexFiles) {
    forall a, b | TimelineShard(a) in files && TimelineShard(b) in files && a < b :: NameBefore(a, b)
  }

  /** They are if every shard lies in a year of four digits. */
  lemma FourDigitYearsFollow(files: IndexFiles)
    requires forall day | TimelineShard(day) in files :: FourDigitYear(day)
    ensures NamesFollowDays(files)
  {
    forall a, b | TimelineShard(a) in files && TimelineShard(b) in files && a < b
      ensures NameBefore(a, b)
    {
      NamesOrdered(a, b);
    }
  }

  /** They are not once a shard of year 10000 or later stands beside one of a four-digit year. */
  lemma LateYearsMisorder(files: IndexFiles, a: int, b: int)
    requires TimelineShard(a) in files && TimelineShard(b) in files && FourDigitYear(a) && a < b && !FourDigitYear(b)
    ensures !NamesFollowDays(files)
  {
    LateYearsSortFirst(a, b);
    NamesTotal(a, b);
  }

  /** The entries of the days in `days`. */
  ghost function OnDays(raw: RawBodies, days: seq<int>): set<RawIndexEntry> {
    set e | e in AllEntries(raw) && TimelineBucket(e.timestamp) in days
  }

  lemma ShardHoldsDay(raw: RawBodies, files: IndexFiles, day: int)
    requires Keyed(raw) && IndexesExact(raw, files) && TimelineShard(day) in files
    ensures var shard := files[TimelineShard(day)];
            Sorted(shard) && forall e :: e in shard <==> e in AllEntries(raw) && TimelineBucket(e.timestamp) == day
  {
    var key := TimelineShard(day);
    assert FileExact(raw, files, key);
    InListing(Members(raw, key));
    forall e
      ensures e in Members(raw, key) <==> e in AllEntries(raw) && TimelineBucket(e.timestamp) == day
    {
    }
  }

  lemma EveryDayHasAShard(raw: RawBodies, files: IndexFiles, e: RawIndexEntry)
    requires Keyed(raw) && IndexesExact(raw, files) && e in AllEntries(raw)
    ensures TimelineShard(TimelineBucket(e.timestamp)) in files
  {
    var key := TimelineShard(TimelineBucket(e.timestamp));
    assert FileExact(raw, files, key);
    var id :| id in raw && EntryOf(raw[id]) == e;
    assert e in Members(raw, key);
  }

  /** Reading one more (older) day. */
  lemma {:induction false} OneMoreDay(raw: RawBodies, files: IndexFiles, days: seq<int>, day: int, collected: seq<RawIndexEntry>,
                   from: Option<int>, to: Option<int>)
    requires Keyed(raw) && IndexesExact(raw, files) && TimelineShard(day) in files && day !in days
    requires Distinct(collected) && Elements(collected) == InWindow(OnDays(raw, days), from, to)
    ensures var more := collected + Retain(files[TimelineShard(day)], from, to);
            Distinct(more) && Elements(more) == InWindow(OnDays(raw, [day] + days), from, to)
  {
    ShardHoldsDay(raw, files, day);
    var kept := Retain(files[TimelineShard(day)], from, to);
    SortedDistinct(files[TimelineShard(day)]);
    forall i, j | 0 <= i < |collected| && 0 <= j < |kept|
      ensures collected[i] != kept[j]
    {
      assert collected[i] in Elements(collected) && kept[j] in kept;
    }
    forall e
      ensures e in Elements(collected + kept) <==> e in InWindow(OnDays(raw, [day] + days), from, to)
    {
      assert e in collected <==> e in Elements(collected);
    }
  }

  lemma SortedDistinct(xs: seq<RawIndexEntry>)
    requires Sorted(xs)
    ensures Distinct(xs)
  {
    forall i, j | 0 <= i < j < |xs|
      ensures xs[i] != xs[j]
    {
      assert Before(xs[i], xs[j]);
    }
  }

  /** Whole days are disjoint in time. */
  lemma DaysOrdered(a: int, b: int)
    requires TimelineBucket(a) < TimelineBucket(b)
    ensures a < b
  {
  }

  lemma EarlierName(files: IndexFiles, days: seq<int>, j: nat, k: nat)
    requires NamesAscending(days) && ListsDays(files, days) && NamesFollowDays(files) && j < k < |days|
    ensures days[j] < days[k]
  {
    assert days[j] in days && days[k] in days;
    NamesTotal(days[j], days[k]);
  }

  /** Stopping after the newest days of `days[i..]` with `limit` entries in hand loses nothing. */
  lemma StopIsExact(raw: RawBodies, files: IndexFiles, days: seq<int>, i: nat, collected: seq<RawIndexEntry>,
                    from: Option<int>, to: Option<int>, limit: nat)
    requires Keyed(raw) && IndexesExact(raw, files) && i <= |days| && NamesAscending(days) && ListsDays(files, days)
    requires NamesFollowDays(files)
    requires Distinct(collected) && Elements(collected) == InWindow(OnDays(raw, days[i..]), from, to)
    requires i == 0 || |collected| >= limit
    ensures Take(limit, SortRecent(collected)) == TimelineQuery(AllEntries(raw), from, to, limit)
  {
    hide NameBefore, NamesFollowDays;
    SortRecentSorts(collected);
    var newer, all := Elements(collected), InWindow(AllEntries(raw), from, to);
    forall e | e in AllEntries(raw)
      ensures TimelineBucket(e.timestamp) in days
    {
      EveryDayHasAShard(raw, files, e);
    }
    if i == 0 {
      assert days[0..] == days;
      assert newer == all;
    } else {
      DistinctCount(collected);
      forall x, y | x in all - newer && y in newer
        ensures Later(y, x)
      {
        var older, later := TimelineBucket(x.timestamp), TimelineBucket(y.timestamp);
        var j :| 0 <= j < |days| && days[j] == older;
        var k :| 0 <= k < |days[i..]| && days[i..][k] == later;
        InTail(days, i, j);
        EarlierName(files, days, j, i + k);
        DaysOrdered(x.timestamp, y.timestamp);
      }
      EarlyStop(all, newer, limit);
    }
  }

  lemma {:induction false} DistinctCount(xs: seq<RawIndexEntry>)
    requires Distinct(xs)
    ensures |Elements(xs)| == |xs|
  {
    if xs != [] {
      var front, last := xs[..|xs| - 1], xs[|xs| - 1];
      DistinctCount(front);
      assert Elements(xs) == Elements(front) + {last} && last !in front;
    }
  }

  /** What is collected from the days of `days`, the last name first, until `limit` entries are there. */
  function Collected(files: IndexFiles, days: seq<int>, from: Option<int>, to: Option<int>, limit: nat, sofar: seq<RawIndexEntry>): seq<RawIndexEntry>
    decreases |days|
  {
    if days == [] then sofar
    else
      var more := sofar + Retain(Read(files, TimelineShard(days[|days| - 1])), from, to);
      if |more| >= limit then more else Collected(files, days[..|days| - 1], from, to, limit, more)
  }

  /** The shards on disk, by name. */
  ghost function Buckets(files: IndexFiles): (days: seq<int>)
    ensures NamesAscending(days) && ListsDays(files, days)
  {
    BucketsExist(files);
    var days :| NamesAscending(days) && ListsDays(files, days);
    days
  }

  lemma BucketsExist(files: IndexFiles)
    ensures exists days :: NamesAscending(days) && ListsDays(files, days)
  {
    var keys := set key | key in files && key.TimelineShard?;
    ShardsListed(keys);
    var days :| NamesAscending(days) && forall day :: day in days <==> TimelineShard(day) in keys;
    assert ListsDays(files, days);
  }

  lemma {:induction false} ShardsListed(shards: set<IndexKey>)
    requires forall shard | shard in shards :: shard.TimelineShard?
    ensures exists days :: NamesAscending(days) && forall day :: day in days <==> TimelineShard(day) in shards
    decreases |shards|
  {
    hide NameBefore;
    if shards == {} {
      assert NamesAscending([]) && forall day :: day in [] <==> TimelineShard(day) in shards;
    } else {
      LastExists(shards);
      var last :| LastNamed(shards, last);
      ShardsListed(shards - {last});
      var days :| NamesAscending(days) && forall day :: day in days <==> TimelineShard(day) in shards - {last};
      AppendDay(days, last.day);
      assert last == TimelineShard(last.day);
      assert forall day :: day in days + [last.day] <==> TimelineShard(day) in shards;
    }
  }

  lemma AppendDay(days: seq<int>, day: int)
    requires NamesAscending(days) && forall d | d in days :: NameBefore(d, day)
    ensures NamesAscending(days + [day])
  {
    assert forall i | 0 <= i < |days| :: days[i] in days;
  }

  /** `read_global_timeline_entries_unlocked` as a function of the shards. */
  ghost function ReadByName(files: IndexFiles, from: Option<int>, to: Option<int>, limit: nat): seq<RawIndexEntry> {
    Take(limit, SortRecent(Collected(files, Buckets(files), from, to, limit, [])))
  }

  /** `read_global_timeline_entries_unlocked` */
  method ReadGlobalTimeline(files: IndexFiles, from: Option<int>, to: Option<int>, limit: nat)
    returns (entries: seq<RawIndexEntry>)
    ensures entries == ReadByName(files, from, to, limit)
  {
    hide NameBefore, NamesAscending;
    var days := ListTimelineBuckets(files);
    ListingOfDaysUnique(days, Buckets(files));
    var collected: seq<RawIndexEntry> := [];
    var i := |days|;
    assert days[..i] == days;
    while i > 0
      invariant 0 <= i <= |days|
      invariant Collected(files, days[..i], from, to, limit, collected) == Collected(files, days, from, to, limit, [])
    {
      i := i - 1;
      assert days[..i + 1][..i] == days[..i];
      var shard := Read(files, TimelineShard(days[i]));
      collected := collected + Retain(shard, from, to);
      if |collected| >= limit {
        break;
      }
    }
    assert collected == Collected(files, days, from, to, limit, []);
    collected := SortRecent(collected);
    entries := Take(limit, collected);
  }

  /** Where the names follow the days, what is read from any number of the last shards is exact. */
  lemma {:induction false} CollectedExact(raw: RawBodies, files: IndexFiles, days: seq<int>, i: nat, sofar: seq<RawIndexEntry>,
                                          from: Option<int>, to: Option<int>, limit: nat)
    requires Keyed(raw) && IndexesExact(raw, files) && i <= |days| && NamesAscending(days) && ListsDays(files, days)
    requires NamesFollowDays(files)
    requires Distinct(sofar) && Elements(sofar) == InWindow(OnDays(raw, days[i..]), from, to)
    ensures Take(limit, SortRecent(Collected(files, days[..i], from, to, limit, sofar))) == TimelineQuery(AllEntries(raw), from, to, limit)
    decreases i
  {
    hide NameBefore, NamesAscending, NamesFollowDays, IndexesExact;
    if i == 0 {
      StopIsExact(raw, files, days, 0, sofar, from, to, limit);
    } else {
      var day := days[i - 1];
      assert day in days && days[i - 1..] == [day] + days[i..];
      NotAmongLater(days, i - 1);
      OneMoreDay(raw, files, days[i..], day, sofar, from, to);
      var more := sofar + Retain(files[TimelineShard(day)], from, to);
      assert days[..i][..i - 1] == days[..i - 1];
      if |more| >= limit {
        StopIsExact(raw, files, days, i - 1, more, from, to, limit);
      } else {
        CollectedExact(raw, files, days, i - 1, more, from, to, limit);
      }
    }
  }

  lemma ReadIsQuery(raw: RawBodies, files: IndexFiles, from: Option<int>, to: Option<int>, limit: nat)
    requires Keyed(raw) && IndexesExact(raw, files) && NamesFollowDays(files)
    ensures ReadByName(files, from, to, limit) == TimelineQuery(AllEntries(raw), from, to, limit)
  {
    var days := Buckets(files);
    assert days[..|days|] == days && days[|days|..] == [];
    assert OnDays(raw, []) == {};
    CollectedExact(raw, files, days, |days|, [], from, to, limit);
  }

  /** With a limit of one, the read ends in the first shard by reversed name that has an entry in the
      window, at the latest in the shard of `days[i]` if that has one. */
  lemma {:induction false} FirstShardWins(files: IndexFiles, days: seq<int>, from: Option<int>, to: Option<int>, i: nat) returns (j: nat)
    requires i < |days| && Retain(Read(files, TimelineShard(days[i])), from, to) != []
    ensures i <= j < |days|
    ensures Collected(files, days, from, to, 1, []) == Retain(Read(files, TimelineShard(days[j])), from, to) != []
    decreases |days|
  {
    hide Retain, Read;
    var front := days[..|days| - 1];
    var last := Retain(Read(files, TimelineShard(days[|days| - 1])), from, to);
    assert [] + last == last;
    if last != [] {
      j := |days| - 1;
    } else {
      assert i < |front| && front[i] == days[i];
      j := FirstShardWins(files, front, from, to, i);
      assert front[j] == days[j];
    }
  }

  lemma NewestOfOne(s: set<RawIndexEntry>, x: RawIndexEntry)
    requires x in s
    ensures |Take(1, ByRecency(s))| == 1 && (Take(1, ByRecency(s))[0] == x || Later(Take(1, ByRecency(s))[0], x))
    ensures Take(1, ByRecency(s))[0] in s
  {
    ByRecencyFacts(s);
    var r := ByRecency(s);
    assert x in Elements(r) && r[0] in Elements(r);
    var i :| 0 <= i < |r| && r[i] == x;
  }

  /** A day whose name sorts before an earlier day's hides its entries from a read of the newest one. */
  lemma MisorderedReadFails(raw: RawBodies, files: IndexFiles, a: int, b: int) returns (from: Option<int>, to: Option<int>)
    requires Keyed(raw) && IndexesExact(raw, files)
    requires TimelineShard(a) in files && TimelineShard(b) in files && a < b && NameBefore(b, a)
    ensures ReadByName(files, from, to, 1) != TimelineQuery(AllEntries(raw), from, to, 1)
  {
    hide NameBefore, NamesAscending, IndexesExact;
    var x := EntryOn(raw, files, a);
    var y := EntryOn(raw, files, b);
    from, to := Some(x.timestamp), Some(y.timestamp);
    DaysOrdered(x.timestamp, y.timestamp);
    NewestOfOne(InWindow(AllEntries(raw), from, to), y);
    var days := Buckets(files);
    var i :| 0 <= i < |days| && days[i] == a;
    assert x in Retain(Read(files, TimelineShard(a)), from, to);
    var j := FirstShardWins(files, days, from, to, i);
    NotTheDay(days, i, j, b);
    assert days[j] in days;
    ReadHasDay(raw, files, days[j], from, to);
  }

  lemma NotTheDay(days: seq<int>, i: nat, j: nat, b: int)
    requires NamesAscending(days) && i <= j < |days| && NameBefore(b, days[i])
    ensures days[j] != b
  {
    hide NameBefore;
    NamesTotal(b, days[i]);
    NamesTotal(b, b);
  }

  lemma EntryOn(raw: RawBodies, files: IndexFiles, day: int) returns (e: RawIndexEntry)
    requires Keyed(raw) && IndexesExact(raw, files) && TimelineShard(day) in files
    ensures e in AllEntries(raw) && TimelineBucket(e.timestamp) == day && e in files[TimelineShard(day)]
  {
    var key := TimelineShard(day);
    assert FileExact(raw, files, key);
    e :| e in Members(raw, key);
    InListing(Members(raw, key));
  }

  /** What one shard yields, sorted and cut to one entry, is an entry of that day. */
  lemma {:induction false} ReadHasDay(raw: RawBodies, files: IndexFiles, day: int, from: Option<int>, to: Option<int>)
    requires Keyed(raw) && IndexesExact(raw, files) && TimelineShard(day) in files
    requires Retain(Read(files, TimelineShard(day)), from, to) != []
    ensures var r := Take(1, SortRecent(Retain(Read(files, TimelineShard(day)), from, to)));
            |r| == 1 && TimelineBucket(r[0].timestamp) == day
  {
    ShardHoldsDay(raw, files, day);
    var kept := Retain(files[TimelineShard(day)], from, to);
    SortedDistinct(files[TimelineShard(day)]);
    SortRecentSorts(kept);
    assert kept[0] in Elements(kept);
    NewestOfOne(Elements(kept), kept[0]);
  }

  /** The sharded read answers every query as the simple one does exactly if the names of the shards on
      disk are ordered as their days are. */
  lemma ReadIsQueryIff(raw: RawBodies, files: IndexFiles)
    requires Keyed(raw) && IndexesExact(raw, files)
    ensures (forall from: Option<int>, to: Option<int>, limit: nat ::
               ReadByName(files, from, to, limit) == TimelineQuery(AllEntries(raw), from, to, limit))
       <==> NamesFollowDays(files)
  {
    hide ReadByName, TimelineQuery, IndexesExact, NameBefore;
    if NamesFollowDays(files) {
      forall from: Option<int>, to: Option<int>, limit: nat
        ensures ReadByName(files, from, to, limit) == TimelineQuery(AllEntries(raw), from, to, limit)
      {
        ReadIsQuery(raw, files, from, to, limit);
      }
    } else {
      var a, b :| TimelineShard(a) in files && TimelineShard(b) in files && a < b && !NameBefore(a, b);
      NamesTotal(a, b);
      var from, to := MisorderedReadFails(raw, files, a, b);
    }
  }

  /** The last nanosecond of year 9999 and the one after it. */
  const NEW_YEAR := (25 * DAYS_PER_ERA - EPOCH) * NANOSECONDS_PER_DAY
  const OLDER := RawNode(1, None, None, None, NEW_YEAR - 1, "", Undistilled, OverflowPolicy(false, None))
  const NEWER := RawNode(2, None, None, None, NEW_YEAR, "", Undistilled, OverflowPolicy(false, None))

  /** A store of two nodes on which the sharded read answers some query wrongly. */
  lemma YearTenThousandIsMisread(files: IndexFiles)
    requires IndexesExact(map[1 := OLDER, 2 := NEWER], files)
    ensures exists from: Option<int>, to: Option<int>, limit: nat ::
              ReadByName(files, from, to, limit) != TimelineQuery(AllEntries(map[1 := OLDER, 2 := NEWER]), from, to, limit)
  {
    var raw := map[1 := OLDER, 2 := NEWER];
    assert raw[1] == OLDER && raw[2] == NEWER;
    var b := 25 * DAYS_PER_ERA - EPOCH;
    assert EntryOf(OLDER) in AllEntries(raw) && EntryOf(NEWER) in AllEntries(raw);
    EveryDayHasAShard(raw, files, EntryOf(OLDER));
    EveryDayHasAShard(raw, files, EntryOf(NEWER));
    assert TimelineBucket(NEW_YEAR) == b && TimelineBucket(NEW_YEAR - 1) == b - 1;
    LateYearsMisorder(files, b - 1, b);
    ReadIsQueryIff(raw, files);
  }

  // ---------------------------------------------------------------- node queries

  /** The bodies of the listed entries. */
  ghost predicate NodesOf(raw: RawBodies, entries: seq<RawIndexEntry>, nodes: seq<RawNode>) {
    |nodes| == |entries| && forall i | 0 <= i < |entries| :: entries[i].id in raw && nodes[i] == raw[entries[i].id]
  }

  ghost predicate Stored(raw: RawBodies, entries: seq<RawIndexEntry>) {
    forall e | e in entries :: e in AllEntries(raw)
  }

  /** `read_raw_by_ids_unlocked`: ids without a body are skipped, of which a consistent store has none. */
  method ReadRawByIds(raw: RawBodies, entries: seq<RawIndexEntry>) returns (nodes: seq<RawNode>)
    requires Keyed(raw) && Stored(raw, entries)
    ensures NodesOf(raw, entries, nodes)
  {
    nodes := [];
    for i := 0 to |entries|
      invariant NodesOf(raw, entries[..i], nodes)
    {
      assert entries[i] in AllEntries(raw);
      if entries[i].id in raw {
        nodes := nodes + [raw[entries[i].id]];
      }
      assert entries[..i + 1] == entries[..i] + [entries[i]];
    }
    assert entries[..|entries|] == entries;
  }

  lemma QueryStored(raw: RawBodies, s: set<RawIndexEntry>, from: Option<int>, to: Option<int>, limit: nat)
    requires s <= AllEntries(raw)
    ensures Stored(raw, TimelineQuery(s, from, to, limit))
  {
    ByRecencyFacts(InWindow(s, from, to));
    forall e | e in TimelineQuery(s, from, to, limit)
      ensures e in AllEntries(raw)
    {
      assert e in Elements(ByRecency(InWindow(s, from, to)));
    }
  }

  lemma {:induction false} CollectedStored(raw: RawBodies, files: IndexFiles, days: seq<int>, from: Option<int>, to: Option<int>, limit: nat,
                                           sofar: seq<RawIndexEntry>)
    requires Keyed(raw) && IndexesExact(raw, files) && Stored(raw, sofar)
    ensures Stored(raw, Collected(files, days, from, to, limit, sofar))
    decreases |days|
  {
    hide IndexesExact;
    if days != [] {
      var day := days[|days| - 1];
      if TimelineShard(day) in files { ShardHoldsDay(raw, files, day); }
      CollectedStored(raw, files, days[..|days| - 1], from, to, limit, sofar + Retain(Read(files, TimelineShard(day)), from, to));
    }
  }

  lemma ReadStored(raw: RawBodies, files: IndexFiles, from: Option<int>, to: Option<int>, limit: nat)
    requires Keyed(raw) && IndexesExact(raw, files)
    ensures Stored(raw, ReadByName(files, from, to, limit))
  {
    var collected := Collected(files, Buckets(files), from, to, limit, []);
    CollectedStored(raw, files, Buckets(files), from, to, limit, []);
    SortKeepsMembers(collected);
    forall e | e in Take(limit, SortRecent(collected))
      ensures e in AllEntries(raw)
    {
      assert e in SortRecent(collected);
    }
  }

  lemma SortKeepsMembers(xs: seq<RawIndexEntry>)
    ensures forall e :: e in SortRecent(xs) <==> e in xs
  {
    var m := Mirrored(xs);
    var sorted := SortEntries(m);
    MirroredElements(xs);
    MirroredElements(sorted);
    forall e
      ensures e in sorted <==> e in m
    {
      assert e in multiset(sorted) <==> e in multiset(m);
    }
    assert Elements(sorted) == Elements(m);
    MirrorTwice(Elements(xs));
    forall e
      ensures e in SortRecent(xs) <==> e in xs
    {
      assert e in SortRecent(xs) <==> e in Elements(SortRecent(xs));
      assert e in xs <==> e in Elements(xs);
    }
  }

  /** The object store's `timeline_raw` without a session. */
  method TimelineRaw(raw: RawBodies, files: IndexFiles, from: Option<int>, to: Option<int>, limit: nat)
    returns (nodes: seq<RawNode>)
    requires Keyed(raw) && IndexesExact(raw, files)
    ensures NodesOf(raw, ReadByName(files, from, to, limit), nodes)
    ensures NamesFollowDays(files) ==>
              NodesOf(raw, TimelineQuery(AllEntries(raw), from, to, limit), nodes) && LatestNodes(raw, nodes, from, to, limit)
  {
    hide NamesFollowDays, ReadByName, TimelineQuery, LatestNodes, NodesOf;
    var entries := ReadGlobalTimeline(files, from, to, limit);
    ReadStored(raw, files, from, to, limit);
    nodes := ReadRawByIds(raw, entries);
    if NamesFollowDays(files) {
      ReadIsQuery(raw, files, from, to, limit);
      QueryMeans(raw, from, to, limit, nodes);
    }
  }

  /** The in-memory repository's `timeline_raw` without a session: the values of the hash map in any
      order, retained, sorted and truncated. */
  method InMemoryTimelineRaw(raw: RawBodies, from: Option<int>, to: Option<int>, limit: nat) returns (nodes: seq<RawNode>)
    requires Keyed(raw)
    ensures NodesOf(raw, TimelineQuery(AllEntries(raw), from, to, limit), nodes) && LatestNodes(raw, nodes, from, to, limit)
  {
    hide LatestNodes, NodesOf;
    var collected := CollectEntries(raw);
    var kept := Retain(collected, from, to);
    SortRecentSorts(kept);
    RetainedWindow(raw, collected, from, to);
    QueryStored(raw, AllEntries(raw), from, to, limit);
    nodes := ReadRawByIds(raw, Take(limit, SortRecent(kept)));
    QueryMeans(raw, from, to, limit, nodes);
  }

  /** The values of the hash map, in any order. */
  method CollectEntries(raw: RawBodies) returns (collected: seq<RawIndexEntry>)
    requires Keyed(raw)
    ensures Distinct(collected) && forall e :: e in collected <==> e.id in raw && e == EntryOf(raw[e.id])
  {
    collected := [];
    var pending := raw.Keys;
    while pending != {}
      invariant pending <= raw.Keys && Distinct(collected)
      invariant forall e :: e in collected <==> e.id in raw.Keys - pending && e == EntryOf(raw[e.id])
    {
      var id :| id in pending;
      collected := collected + [EntryOf(raw[id])];
      pending := pending - {id};
    }
  }

  lemma {:induction false} RetainedWindow(raw: RawBodies, collected: seq<RawIndexEntry>, from: Option<int>, to: Option<int>)
    requires Keyed(raw) && forall e :: e in collected <==> e.id in raw && e == EntryOf(raw[e.id])
    ensures Elements(Retain(collected, from, to)) == InWindow(AllEntries(raw), from, to)
  {
    assert forall e :: e in AllEntries(raw) <==> e in collected;
  }

  // ---------------------------------------------------------------- what the queries return

  predicate Older(a: RawNode, b: RawNode) {
    a.timestamp < b.timestamp || (a.timestamp == b.timestamp && a.id < b.id)
  }

  /** Stored nodes that satisfy `who`, oldest first: all of them, or the oldest `limit`. */
  ghost predicate OldestNodes(raw: RawBodies, nodes: seq<RawNode>, limit: nat, who: RawNode -> bool) {
    && |nodes| <= limit
    && (forall i, j | 0 <= i < j < |nodes| :: Older(nodes[i], nodes[j]))
    && (forall n | n in nodes :: n.id in raw && raw[n.id] == n && who(n))
    && (forall id | id in raw && who(raw[id]) :: raw[id] in nodes || (|nodes| == limit && forall n | n in nodes :: Older(n, raw[id])))
  }

  /** The newest `limit` of them, oldest first. */
  ghost predicate NewestNodes(raw: RawBodies, nodes: seq<RawNode>, limit: nat, who: RawNode -> bool) {
    && |nodes| <= limit
    && (forall i, j | 0 <= i < j < |nodes| :: Older(nodes[i], nodes[j]))
    && (forall n | n in nodes :: n.id in raw && raw[n.id] == n && who(n))
    && (forall id | id in raw && who(raw[id]) :: raw[id] in nodes || (|nodes| == limit && forall n | n in nodes :: Older(raw[id], n)))
  }

  /** Stored nodes of the window, latest timestamp first and then by id: all of them, or the first
      `limit` in that order. */
  ghost predicate LatestNodes(raw: RawBodies, nodes: seq<RawNode>, from: Option<int>, to: Option<int>, limit: nat) {
    && |nodes| <= limit
    && (forall i, j | 0 <= i < j < |nodes| ::
          nodes[i].timestamp > nodes[j].timestamp || (nodes[i].timestamp == nodes[j].timestamp && nodes[i].id < nodes[j].id))
    && (forall n | n in nodes ::
          && n.id in raw && raw[n.id] == n
          && (from.Some? ==> from.value <= n.timestamp) && (to.Some? ==> n.timestamp <= to.value))
    && (forall id | id in raw && (from.Some? ==> from.value <= raw[id].timestamp) && (to.Some? ==> raw[id].timestamp <= to.value) ::
          || raw[id] in nodes
          || (|nodes| == limit
              && forall n | n in nodes ::
                   n.timestamp > raw[id].timestamp || (n.timestamp == raw[id].timestamp && n.id < raw[id].id)))
  }

  /** A node is among the nodes of the entries that list it. */
  lemma NodeListed(raw: RawBodies, entries: seq<RawIndexEntry>, nodes: seq<RawNode>, id: nat)
    requires NodesOf(raw, entries, nodes) && id in raw && RawIndexEntry(id, raw[id].timestamp) in entries
    ensures raw[id] in nodes
  {
    var i :| 0 <= i < |entries| && entries[i] == RawIndexEntry(id, raw[id].timestamp);
    assert nodes[i] == raw[id];
  }

  lemma NodeEntry(raw: RawBodies, entries: seq<RawIndexEntry>, nodes: seq<RawNode>, n: RawNode) returns (e: RawIndexEntry)
    requires Keyed(raw) && NodesOf(raw, entries, nodes) && n in nodes
    ensures e in entries && e.id in raw && raw[e.id] == n && n.id == e.id
  {
    var i :| 0 <= i < |nodes| && nodes[i] == n;
    e := entries[i];
  }

  lemma OldestListed(raw: RawBodies, file: seq<RawIndexEntry>, limit: nat, who: RawNode -> bool, nodes: seq<RawNode>)
    requires Keyed(raw) && Lists(raw, file, None, who) && NodesOf(raw, Take(limit, file), nodes)
    ensures OldestNodes(raw, nodes, limit, who)
  {
    var entries := Take(limit, file);
    assert forall i | 0 <= i < |entries| :: entries[i] == file[i] && entries[i] in file;
    forall n | n in nodes
      ensures n.id in raw && raw[n.id] == n && who(n)
    {
      var e := NodeEntry(raw, entries, nodes, n);
    }
    forall id | id in raw && who(raw[id])
      ensures raw[id] in nodes || (|nodes| == limit && forall n | n in nodes :: Older(n, raw[id]))
    {
      var x := RawIndexEntry(id, raw[id].timestamp);
      var k :| 0 <= k < |file| && file[k] == x;
      if k < |entries| {
        NodeListed(raw, entries, nodes, id);
      }
    }
  }

  lemma NewestListed(raw: RawBodies, entries: seq<RawIndexEntry>, limit: nat, who: RawNode -> bool, nodes: seq<RawNode>)
    requires Keyed(raw) && Lists(raw, entries, Some(limit), who) && NodesOf(raw, entries, nodes)
    ensures NewestNodes(raw, nodes, limit, who)
  {
    assert forall i | 0 <= i < |entries| :: entries[i] in entries;
    forall n | n in nodes
      ensures n.id in raw && raw[n.id] == n && who(n)
    {
      var e := NodeEntry(raw, entries, nodes, n);
    }
    forall id | id in raw && who(raw[id])
      ensures raw[id] in nodes || (|nodes| == limit && forall n | n in nodes :: Older(raw[id], n))
    {
      if RawIndexEntry(id, raw[id].timestamp) in entries {
        NodeListed(raw, entries, nodes, id);
      } else {
        forall n | n in nodes
          ensures Older(raw[id], n)
        {
          var e := NodeEntry(raw, entries, nodes, n);
        }
      }
    }
  }

  lemma QueryFacts(s: set<RawIndexEntry>, from: Option<int>, to: Option<int>, limit: nat)
    ensures var r := TimelineQuery(s, from, to, limit);
            |r| <= limit && Descending(r) && forall e | e in r :: e in s && Within(e, from, to)
    ensures forall x | x in s && Within(x, from, to) :: InOrAfter(TimelineQuery(s, from, to, limit), limit, x)
  {
    hide Later, Within;
    var window := InWindow(s, from, to);
    var all := ByRecency(window);
    ByRecencyFacts(window);
    var r := TimelineQuery(s, from, to, limit);
    assert forall i | 0 <= i < |r| :: r[i] == all[i] && all[i] in Elements(all);
    forall x | x in s && Within(x, from, to)
      ensures InOrAfter(r, limit, x)
    {
      assert x in window;
      InFrontOrAfter(all, limit, x);
    }
  }

  /** `x` is listed, or `r` is full of entries that come before it. */
  ghost predicate InOrAfter(r: seq<RawIndexEntry>, limit: nat, x: RawIndexEntry) {
    x in r || (|r| == limit && forall e | e in r :: Later(e, x))
  }

  lemma InFrontOrAfter(all: seq<RawIndexEntry>, limit: nat, x: RawIndexEntry)
    requires Descending(all) && x in Elements(all)
    ensures InOrAfter(Take(limit, all), limit, x)
  {
    hide Later;
    var r := Take(limit, all);
    var k :| 0 <= k < |all| && all[k] == x;
    if k < |r| { assert r[k] == x; }
  }

  /** The simple query over the bodies: filter by window, sort, take `limit`. */
  lemma QueryMeans(raw: RawBodies, from: Option<int>, to: Option<int>, limit: nat, nodes: seq<RawNode>)
    requires Keyed(raw) && NodesOf(raw, TimelineQuery(AllEntries(raw), from, to, limit), nodes)
    ensures LatestNodes(raw, nodes, from, to, limit)
  {
    hide TimelineQuery, AllEntries, Keyed, InOrAfter;
    var entries := TimelineQuery(AllEntries(raw), from, to, limit);
    QueryFacts(AllEntries(raw), from, to, limit);
    EntriesFixIds(raw);
    forall i, j | 0 <= i < j < |nodes|
      ensures nodes[i].timestamp > nodes[j].timestamp || (nodes[i].timestamp == nodes[j].timestamp && nodes[i].id < nodes[j].id)
    {
      assert entries[i] in entries && entries[j] in entries && Later(entries[i], entries[j]);
    }
    forall n | n in nodes
      ensures n.id in raw && raw[n.id] == n
      ensures (from.Some? ==> from.value <= n.timestamp) && (to.Some? ==> n.timestamp <= to.value)
    {
      var e := NodeEntry(raw, entries, nodes, n);
      assert Within(e, from, to);
    }
    forall id | id in raw && (from.Some? ==> from.value <= raw[id].timestamp) && (to.Some? ==> raw[id].timestamp <= to.value)
      ensures raw[id] in nodes
           || (|nodes| == limit
               && forall n | n in nodes :: n.timestamp > raw[id].timestamp || (n.timestamp == raw[id].timestamp && n.id < raw[id].id))
    {
      var x := RawIndexEntry(id, raw[id].timestamp);
      assert Within(x, from, to) && InOrAfter(entries, limit, x);
      LeftOutIsLater(raw, entries, limit, nodes, id);
    }
  }

  lemma LeftOutIsLater(raw: RawBodies, entries: seq<RawIndexEntry>, limit: nat, nodes: seq<RawNode>, id: nat)
    requires Keyed(raw) && NodesOf(raw, entries, nodes) && id in raw && InOrAfter(entries, limit, RawIndexEntry(id, raw[id].timestamp))
    requires forall e | e in entries :: e.id in raw && e == RawIndexEntry(e.id, raw[e.id].timestamp)
    ensures raw[id] in nodes
         || (|nodes| == limit
             && forall n | n in nodes :: n.timestamp > raw[id].timestamp || (n.timestamp == raw[id].timestamp && n.id < raw[id].id))
  {
    var x := RawIndexEntry(id, raw[id].timestamp);
    if x in entries {
      NodeListed(raw, entries, nodes, id);
    } else {
      forall n | n in nodes
        ensures n.timestamp > raw[id].timestamp || (n.timestamp == raw[id].timestamp && n.id < raw[id].id)
      {
        var e := NodeEntry(raw, entries, nodes, n);
        assert Later(e, x);
      }
    }
  }

  lemma EntriesFixIds(raw: RawBodies)
    requires Keyed(raw)
    ensures forall e | e in AllEntries(raw) :: e.id in raw && e == RawIndexEntry(e.id, raw[e.id].timestamp) && raw[e.id].id == e.id
    ensures forall id | id in raw :: RawIndexEntry(id, raw[id].timestamp) in AllEntries(raw)
  {
    forall id | id in raw
      ensures RawIndexEntry(id, raw[id].timestamp) in AllEntries(raw)
    {
      assert EntryOf(raw[id]) in AllEntries(raw);
    }
  }

  // ---------------------------------------------------------------- the queries of both backends

  lemma SameNodes(raw: RawBodies, entries: seq<RawIndexEntry>, a: seq<RawNode>, b: seq<RawNode>)
    requires NodesOf(raw, entries, a) && NodesOf(raw, entries, b)
    ensures a == b
  {
  }

  /** Both backends asked the same, over the same bodies: they answer alike wherever the shard names follow
      the days, as they do for all dates up to year 9999. */
  method TimelinesAgree(raw: RawBodies, files: IndexFiles, from: Option<int>, to: Option<int>, limit: nat)
    returns (stored: seq<RawNode>, inMemory: seq<RawNode>)
    requires Keyed(raw) && IndexesExact(raw, files)
    ensures NamesFollowDays(files) ==> stored == inMemory
    ensures (forall id | id in raw :: FourDigitYear(TimelineBucket(raw[id].timestamp))) ==> stored == inMemory
  {
    hide NamesFollowDays, TimelineQuery, ReadByName, IndexesExact;
    stored := TimelineRaw(raw, files, from, to, limit);
    inMemory := InMemoryTimelineRaw(raw, from, to, limit);
    if forall id | id in raw :: FourDigitYear(TimelineBucket(raw[id].timestamp)) {
      DatedShards(raw, files);
    }
    if NamesFollowDays(files) {
      SameNodes(raw, TimelineQuery(AllEntries(raw), from, to, limit), stored, inMemory);
    }
  }

  lemma DatedShards(raw: RawBodies, files: IndexFiles)
    requires Keyed(raw) && IndexesExact(raw, files)
    requires forall id | id in raw :: FourDigitYear(TimelineBucket(raw[id].timestamp))
    ensures NamesFollowDays(files)
  {
    hide IndexesExact, NamesFollowDays;
    forall day | TimelineShard(day) in files
      ensures FourDigitYear(day)
    {
      var e := EntryOn(raw, files, day);
    }
    FourDigitYearsFollow(files);
  }

  /** The newest `limit` of the newest 4096. */
  lemma RecentOfBounded(all: seq<RawIndexEntry>, limit: nat)
    ensures Reversed(Take(limit, Reversed(Newest(MAX_SESSION_INDEX_ENTRIES, all))))
         == Newest(if limit < MAX_SESSION_INDEX_ENTRIES then limit else MAX_SESSION_INDEX_ENTRIES, all)
  {
  }

  /** `recent_session_raw`: reverse, truncate, reverse the session index. */
  method RecentSessionRaw(raw: RawBodies, files: IndexFiles, session: nat, limit: nat) returns (nodes: seq<RawNode>)
    requires Keyed(raw) && IndexesExact(raw, files)
    ensures NodesOf(raw, Newest(if limit < MAX_SESSION_INDEX_ENTRIES then limit else MAX_SESSION_INDEX_ENTRIES,
                                Listing(Members(raw, SessionIndex(session)))), nodes)
    ensures NewestNodes(raw, nodes, if limit < 4096 then limit else 4096, OfSession(session))
  {
    hide NodesOf, NewestNodes, Lists, IndexesExact;
    var entries := Read(files, SessionIndex(session));
    ReadSession(raw, files, session);
    RecentOfBounded(Listing(Members(raw, SessionIndex(session))), limit);
    entries := Reversed(entries);
    entries := Take(limit, entries);
    entries := Reversed(entries);
    MembersStored(raw, SessionIndex(session), entries);
    nodes := ReadRawByIds(raw, entries);
    NewestLists(raw, SessionIndex(session), if limit < 4096 then limit else 4096, OfSession(session));
    NewestListed(raw, entries, if limit < 4096 then limit else 4096, OfSession(session), nodes);
  }

  lemma ReadSession(raw: RawBodies, files: IndexFiles, session: nat)
    requires Keyed(raw) && IndexesExact(raw, files)
    ensures Read(files, SessionIndex(session)) == Newest(MAX_SESSION_INDEX_ENTRIES, Listing(Members(raw, SessionIndex(session))))
  {
    var key := SessionIndex(session);
    assert FileExact(raw, files, key);
    if key !in files {
      assert |Listing(Members(raw, key))| == 0;
    }
  }

  lemma MembersStored(raw: RawBodies, key: IndexKey, entries: seq<RawIndexEntry>)
    requires forall e | e in entries :: e in Listing(Members(raw, key))
    ensures Stored(raw, entries)
  {
    InListing(Members(raw, key));
  }

  function Reversed<T>(xs: seq<T>): (r: seq<T>)
    ensures |r| == |xs| && forall i | 0 <= i < |xs| :: r[i] == xs[|xs| - 1 - i]
  {
    seq(|xs|, i requires 0 <= i < |xs| => xs[|xs| - 1 - i])
  }

  /** `undistilled_raw`: the oldest entries still to be distilled. */
  method UndistilledRaw(raw: RawBodies, files: IndexFiles, limit: nat, onlyPushedOut: bool) returns (nodes: seq<RawNode>)
    requires Keyed(raw) && IndexesExact(raw, files)
    ensures NodesOf(raw, Take(limit, Listing(Members(raw, if onlyPushedOut then PushedBacklog else Backlog))), nodes)
    ensures OldestNodes(raw, nodes, limit, ToDistill(onlyPushedOut))
  {
    hide NodesOf, OldestNodes, Lists;
    var key := if onlyPushedOut then PushedBacklog else Backlog;
    assert FileExact(raw, files, key);
    var entries := Read(files, key);
    entries := Take(limit, entries);
    MembersStored(raw, key, entries);
    nodes := ReadRawByIds(raw, entries);
    BacklogMeans(raw, files, onlyPushedOut);
    OldestListed(raw, Read(files, key), limit, ToDistill(onlyPushedOut), nodes);
  }
}
