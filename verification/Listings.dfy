/** Sorted index files: the vectors of `RawIndexEntry` that the object store keeps on disk.

    An index file holds distinct entries in ascending `(timestamp, id)` order. `Listing` is the
    one sequence that does so for a given set of entries, which is what lets an incrementally
    maintained file be compared with a rebuilt one. */
module Listings {

  datatype RawIndexEntry = RawIndexEntry(id: nat, timestamp: int)

  predicate Before(a: RawIndexEntry, b: RawIndexEntry) {
    a.timestamp < b.timestamp || (a.timestamp == b.timestamp && a.id < b.id)
  }

  ghost predicate Sorted(xs: seq<RawIndexEntry>) {
    forall i, j | 0 <= i < j < |xs| :: Before(xs[i], xs[j])
  }

  function Elements<T>(xs: seq<T>): set<T> {
    set x | x in xs
  }

  /** One step of the library's stable sort: `e` goes after every entry it does not precede. */
  function InsertEntry(xs: seq<RawIndexEntry>, e: RawIndexEntry): (r: seq<RawIndexEntry>)
    ensures multiset(r) == multiset(xs) + multiset{e}
  {
    if xs == [] then [e]
    else if Before(e, xs[0]) then [e] + xs
    else
      assert xs == [xs[0]] + xs[1..];
      [xs[0]] + InsertEntry(xs[1..], e)
  }

  /** `sort_raw_index_entries`. */
  function SortEntries(xs: seq<RawIndexEntry>): (r: seq<RawIndexEntry>)
    ensures multiset(r) == multiset(xs)
  {
    if xs == [] then []
    else
      assert xs == xs[..|xs| - 1] + [xs[|xs| - 1]];
      InsertEntry(SortEntries(xs[..|xs| - 1]), xs[|xs| - 1])
  }

  lemma {:induction false} InsertSorted(xs: seq<RawIndexEntry>, e: RawIndexEntry)
    requires Sorted(xs) && e !in xs
    ensures Sorted(InsertEntry(xs, e))
  {
    if xs != [] && !Before(e, xs[0]) {
      assert xs == [xs[0]] + xs[1..];
      InsertSorted(xs[1..], e);
      HeadFirst(xs[0], xs[1..], e);
    }
  }

  lemma {:induction false} HeadFirst(head: RawIndexEntry, tail: seq<RawIndexEntry>, e: RawIndexEntry)
    requires Sorted([head] + tail) && Sorted(InsertEntry(tail, e)) && e != head && !Before(e, head)
    ensures Sorted([head] + InsertEntry(tail, e))
  {
    hide InsertEntry;
    var rest := InsertEntry(tail, e);
    var xs := [head] + tail;
    forall i | 0 <= i < |rest|
      ensures Before(head, rest[i])
    {
      assert rest[i] in multiset(rest);
      if rest[i] != e {
        var j :| 0 <= j < |tail| && tail[j] == rest[i];
        assert Before(xs[0], xs[j + 1]);
      }
    }
  }

  ghost predicate Distinct<T>(xs: seq<T>) {
    forall i, j | 0 <= i < j < |xs| :: xs[i] != xs[j]
  }

  /** Sorting distinct entries gives a strictly ascending file with the same entries. */
  lemma {:induction false} SortSorted(xs: seq<RawIndexEntry>)
    requires Distinct(xs)
    ensures Sorted(SortEntries(xs)) && Elements(SortEntries(xs)) == Elements(xs)
  {
    forall x
      ensures x in SortEntries(xs) <==> x in xs
    {
      assert x in multiset(SortEntries(xs)) <==> x in multiset(xs);
    }
    if xs != [] {
      var front, last := xs[..|xs| - 1], xs[|xs| - 1];
      SortSorted(front);
      assert last !in front;
      assert last in multiset(SortEntries(front)) <==> last in multiset(front);
      InsertSorted(SortEntries(front), last);
    }
  }

  ghost predicate IsListing(r: seq<RawIndexEntry>, s: set<RawIndexEntry>) {
    Sorted(r) && Elements(r) == s && |r| == |s|
  }

  lemma {:induction false} ListingExists(s: set<RawIndexEntry>)
    ensures exists r :: IsListing(r, s)
  {
    if s == {} {
      assert IsListing([], s);
    } else {
      var e :| e in s;
      ListingExists(s - {e});
      var rest :| IsListing(rest, s - {e});
      assert e in rest <==> e in Elements(rest);
      var r := InsertEntry(rest, e);
      InsertSorted(rest, e);
      forall x
        ensures x in Elements(r) <==> x in s
      {
        assert x in multiset(r) <==> x in multiset(rest) || x == e;
        assert x in Elements(rest) <==> x in rest;
      }
      assert |r| == |multiset(r)| == |rest| + 1;
      assert IsListing(r, s);
    }
  }

  /** The only ascending sequence of exactly the entries in `s`. */
  ghost function Listing(s: set<RawIndexEntry>): (r: seq<RawIndexEntry>)
    ensures Sorted(r) && Elements(r) == s && |r| == |s|
  {
    ListingExists(s);
    var r :| IsListing(r, s);
    r
  }

  lemma {:induction false} SortedUnique(xs: seq<RawIndexEntry>, ys: seq<RawIndexEntry>)
    requires Sorted(xs) && Sorted(ys) && Elements(xs) == Elements(ys)
    ensures xs == ys
  {
    assert |ys| > 0 ==> ys[0] in Elements(xs);
    if xs != [] {
      assert xs[0] in Elements(ys);
      assert ys[0] in Elements(xs);
      assert xs[0] == ys[0];
      forall x
        ensures x in xs[1..] <==> x in Elements(xs) && x != xs[0]
        ensures x in ys[1..] <==> x in Elements(ys) && x != ys[0]
      {
        assert xs == [xs[0]] + xs[1..];
        assert ys == [ys[0]] + ys[1..];
      }
      assert Elements(xs[1..]) == Elements(ys[1..]);
      SortedUnique(xs[1..], ys[1..]);
      assert xs == [xs[0]] + xs[1..] == ys;
    }
  }

  lemma ListingUnique(xs: seq<RawIndexEntry>, s: set<RawIndexEntry>)
    requires Sorted(xs) && Elements(xs) == s
    ensures xs == Listing(s) && |xs| == |s|
  {
    SortedUnique(xs, Listing(s));
  }

  /** `entries.retain(|existing| existing.id != id)`. */
  function Without(xs: seq<RawIndexEntry>, id: nat): (r: seq<RawIndexEntry>)
    ensures |r| <= |xs|
    ensures forall x :: x in r <==> x in xs && x.id != id
    ensures Sorted(xs) ==> Sorted(r)
    ensures (forall x | x in xs :: x.id != id) <==> |r| == |xs|
    ensures |r| == |xs| ==> r == xs
  {
    if xs == [] then []
    else
      var rest := Without(xs[1..], id);
      assert xs == [xs[0]] + xs[1..];
      assert Sorted(xs) ==> Sorted(xs[1..]);
      if xs[0].id == id then rest else [xs[0]] + rest
  }

  /** Retain, push, sort: how every index file takes an entry. */
  function Upsert(xs: seq<RawIndexEntry>, e: RawIndexEntry): seq<RawIndexEntry> {
    SortEntries(Without(xs, e.id) + [e])
  }

  /** Keep the newest `limit` entries: `entries.drain(..entries.len() - limit)`. */
  function Newest(limit: nat, xs: seq<RawIndexEntry>): (r: seq<RawIndexEntry>) {
    if |xs| > limit then xs[|xs| - limit..] else xs
  }

  /** Entries of `s` other than those carrying `id`. */
  ghost function Dropping(s: set<RawIndexEntry>, id: nat): set<RawIndexEntry> {
    set x | x in s && x.id != id
  }

  lemma UpsertListing(s: set<RawIndexEntry>, e: RawIndexEntry)
    ensures Upsert(Listing(s), e) == Listing(Dropping(s, e.id) + {e})
  {
    var kept := Without(Listing(s), e.id);
    var pushed := kept + [e];
    assert Elements(pushed) == Dropping(s, e.id) + {e} by {
      forall x
        ensures x in Listing(s) <==> x in s
      {
        assert x in Listing(s) <==> x in Elements(Listing(s));
      }
    }
    PushedDistinct(kept, e);
    SortSorted(pushed);
    ListingUnique(SortEntries(pushed), Dropping(s, e.id) + {e});
  }

  lemma PushedDistinct(kept: seq<RawIndexEntry>, e: RawIndexEntry)
    requires Sorted(kept) && forall x | x in kept :: x.id != e.id
    ensures Distinct(kept + [e])
  {
    forall i, j | 0 <= i < j < |kept + [e]|
      ensures (kept + [e])[i] != (kept + [e])[j]
    {
      if j < |kept| { assert Before(kept[i], kept[j]); } else { assert kept[i] in kept; }
    }
  }

  lemma {:induction false} RemoveListing(s: set<RawIndexEntry>, id: nat)
    ensures Without(Listing(s), id) == Listing(Dropping(s, id))
  {
    assert forall x :: x in Listing(s) <==> x in Elements(Listing(s));
    ListingUnique(Without(Listing(s), id), Dropping(s, id));
  }

  /** Where a new entry lands in a listing. */
  lemma {:induction false} InsertPoint(xs: seq<RawIndexEntry>, e: RawIndexEntry) returns (p: nat)
    requires Sorted(xs) && e !in xs
    ensures p <= |xs|
    ensures forall i | 0 <= i < p :: Before(xs[i], e)
    ensures forall i | p <= i < |xs| :: Before(e, xs[i])
    ensures Listing(Elements(xs) + {e}) == xs[..p] + [e] + xs[p..]
  {
    p := 0;
    while p < |xs| && Before(xs[p], e)
      invariant p <= |xs|
      invariant forall i | 0 <= i < p :: Before(xs[i], e)
    {
      p := p + 1;
    }
    forall i | p <= i < |xs|
      ensures Before(e, xs[i])
    {
      assert xs[p] in xs;
      if p < i { assert Before(xs[p], xs[i]); }
    }
    var placed := xs[..p] + [e] + xs[p..];
    assert Elements(placed) == Elements(xs) + {e} by {
      assert xs == xs[..p] + xs[p..];
    }
    ListingUnique(placed, Elements(xs) + {e});
  }

  lemma InListing(s: set<RawIndexEntry>)
    ensures forall x :: x in Listing(s) <==> x in s
  {
    forall x
      ensures x in Listing(s) <==> x in s
    {
      assert x in Listing(s) <==> x in Elements(Listing(s));
    }
  }

  /** A window is itself the listing of what it holds. */
  lemma WindowIsListing(limit: nat, s: set<RawIndexEntry>)
    ensures var w := Newest(limit, Listing(s)); Sorted(w) && w == Listing(Elements(w)) && Elements(w) <= s
  {
    var w := Newest(limit, Listing(s));
    InListing(s);
    assert forall x | x in w :: x in Listing(s);
    ListingUnique(w, Elements(w));
  }

  /** An entry below a full window is dropped again. */
  lemma UpsertBelowWindow(limit: nat, window: seq<RawIndexEntry>, e: RawIndexEntry)
    requires Sorted(window) && |window| == limit && forall i | 0 <= i < |window| :: Before(e, window[i])
    ensures Newest(limit, Listing(Elements(window) + {e})) == window
  {
    assert e !in window;
    var p := InsertPoint(window, e);
    assert p == 0 || Before(window[p - 1], e);
    assert [] + [e] + window == [e] + window;
  }

  /** Inserting commutes with cutting the window, for an entry not in the listing. */
  lemma UpsertNewEntry(limit: nat, all: seq<RawIndexEntry>, e: RawIndexEntry)
    requires Sorted(all) && e !in all
    ensures Newest(limit, Listing(Elements(Newest(limit, all)) + {e})) == Newest(limit, Listing(Elements(all) + {e}))
  {
    var q := InsertPoint(all, e);
    var cut := if |all| > limit then |all| - limit else 0;
    assert all[0..] == all;
    assert Newest(limit, all) == all[cut..];
    if q < cut {
      BelowCut(limit, all, e);
      NewestOfLow(limit, all, e, q);
    } else {
      InsertAboveCut(all, e, cut, q);
      NewestOfHigh(limit, all, e, q);
    }
  }

  lemma NewestOfHigh(limit: nat, all: seq<RawIndexEntry>, e: RawIndexEntry, q: nat)
    requires q <= |all| && |all| <= limit + q
    ensures var cut := if |all| > limit then |all| - limit else 0;
            Newest(limit, all[cut..q] + [e] + all[q..]) == Newest(limit, all[..q] + [e] + all[q..])
  {
    var cut := if |all| > limit then |all| - limit else 0;
    var placed, whole := all[cut..q] + [e] + all[q..], all[..q] + [e] + all[q..];
    if |all| > limit {
      assert placed[1..] == whole[cut + 1..];
    } else {
      assert placed == whole;
    }
  }

  lemma NewestOfLow(limit: nat, all: seq<RawIndexEntry>, e: RawIndexEntry, q: nat)
    requires |all| > limit && q < |all| - limit
    ensures Newest(limit, all[..q] + [e] + all[q..]) == Newest(limit, all)
  {
    assert (all[..q] + [e] + all[q..])[|all| - limit + 1..] == all[|all| - limit..];
  }

  lemma BelowCut(limit: nat, all: seq<RawIndexEntry>, e: RawIndexEntry)
    requires Sorted(all) && |all| > limit
    requires forall i | |all| - limit <= i < |all| :: Before(e, all[i])
    ensures Newest(limit, Listing(Elements(Newest(limit, all)) + {e})) == Newest(limit, all)
  {
    var window := Newest(limit, all);
    var cut := |all| - limit;
    forall i | 0 <= i < |window|
      ensures Before(e, window[i])
    {
      assert window[i] == all[cut + i];
    }
    UpsertBelowWindow(limit, window, e);
  }

  lemma {:induction false} InsertAboveCut(all: seq<RawIndexEntry>, e: RawIndexEntry, cut: nat, q: nat)
    requires Sorted(all) && cut <= q <= |all|
    requires forall i | 0 <= i < q :: Before(all[i], e)
    requires forall i | q <= i < |all| :: Before(e, all[i])
    ensures Listing(Elements(all[cut..]) + {e}) == all[cut..q] + [e] + all[q..]
  {
    var placed := all[cut..q] + [e] + all[q..];
    assert all[cut..] == all[cut..q] + all[q..];
    assert Elements(placed) == Elements(all[cut..]) + {e};
    ListingUnique(placed, Elements(all[cut..]) + {e});
  }

  lemma UpsertEvicted(limit: nat, all: seq<RawIndexEntry>, e: RawIndexEntry)
    requires Sorted(all) && e in all && e !in Newest(limit, all)
    ensures Newest(limit, Listing(Elements(Newest(limit, all)) + {e})) == Newest(limit, all)
  {
    var i :| 0 <= i < |all| && all[i] == e;
    var cut := |all| - limit;
    assert |all| > limit;
    forall j | cut <= j < |all|
      ensures all[j] in Newest(limit, all)
    {
      assert all[j] == Newest(limit, all)[j - cut];
    }
    BelowCut(limit, all, e);
  }

  /** Upserting into a bounded file that keeps only the newest `limit` entries of `s` yields the
      newest `limit` entries of `s + {e}`, even when `e` is an old entry that was evicted before. */
  lemma BoundedUpsert(limit: nat, s: set<RawIndexEntry>, e: RawIndexEntry)
    requires forall x | x in s && x.id == e.id :: x == e
    ensures Newest(limit, Upsert(Newest(limit, Listing(s)), e)) == Newest(limit, Listing(s + {e}))
  {
    hide Newest, Upsert;
    var window := Newest(limit, Listing(s));
    WindowUpsert(limit, s, e);
    if e !in s {
      NotInListing(s, e);
      UpsertNewEntry(limit, Listing(s), e);
    } else {
      assert s + {e} == s;
      KeepsOrEvicts(limit, s, e);
    }
  }

  /** Within the window there is no other entry with the same id to drop. */
  lemma WindowUpsert(limit: nat, s: set<RawIndexEntry>, e: RawIndexEntry)
    requires forall x | x in s && x.id == e.id :: x == e
    ensures Upsert(Newest(limit, Listing(s)), e) == Listing(Elements(Newest(limit, Listing(s))) + {e})
  {
    hide Newest, Upsert;
    var window := Newest(limit, Listing(s));
    WindowIsListing(limit, s);
    UpsertListing(Elements(window), e);
    assert Dropping(Elements(window), e.id) + {e} == Elements(window) + {e};
  }

  lemma NotInListing(s: set<RawIndexEntry>, e: RawIndexEntry)
    requires e !in s
    ensures e !in Listing(s) && Elements(Listing(s)) == s
  {
    InListing(s);
  }

  /** An entry already in the window leaves it as it is; one evicted earlier is older than the whole
      window and is evicted again. */
  lemma KeepsOrEvicts(limit: nat, s: set<RawIndexEntry>, e: RawIndexEntry)
    requires e in s
    ensures Newest(limit, Listing(Elements(Newest(limit, Listing(s))) + {e})) == Newest(limit, Listing(s))
  {
    var window := Newest(limit, Listing(s));
    InListing(s);
    if e in window {
      WindowIsListing(limit, s);
      assert Elements(window) + {e} == Elements(window);
    } else {
      UpsertEvicted(limit, Listing(s), e);
    }
  }

  /** Dropping entries below the window does not move the window. */
  lemma {:induction false} NewestOfSubset(limit: nat, s: set<RawIndexEntry>, t: set<RawIndexEntry>)
    requires Elements(Newest(limit, Listing(s))) <= t <= s
    ensures Newest(limit, Listing(t)) == Newest(limit, Listing(s))
  {
    if |Listing(s)| <= limit {
      assert t == s;
    } else {
      SplitAtWindow(limit, s, t);
      WindowLast(limit, Listing(t - Elements(Newest(limit, Listing(s)))), Newest(limit, Listing(s)));
    }
  }

  lemma WindowLast(limit: nat, older: seq<RawIndexEntry>, window: seq<RawIndexEntry>)
    requires |window| == limit
    ensures Newest(limit, older + window) == window
  {
  }

  /** The listing of `t` is what it has below the window, then the window. */
  lemma SplitAtWindow(limit: nat, s: set<RawIndexEntry>, t: set<RawIndexEntry>)
    requires |Listing(s)| > limit && Elements(Newest(limit, Listing(s))) <= t <= s
    ensures var window := Newest(limit, Listing(s));
            |window| == limit && Listing(t) == Listing(t - Elements(window)) + window
  {
    hide Newest, Sorted, Elements;
    var window := Newest(limit, Listing(s));
    var older := Listing(t - Elements(window));
    BelowTheWindow(limit, s, t);
    WindowIsListing(limit, s);
    FullWindow(limit, Listing(s));
    JoinSorted(older, window);
    assert (t - Elements(window)) + Elements(window) == t;
    ListingUnique(older + window, t);
  }

  lemma FullWindow(limit: nat, all: seq<RawIndexEntry>)
    requires |all| > limit
    ensures |Newest(limit, all)| == limit
  {
  }

  lemma BelowTheWindow(limit: nat, s: set<RawIndexEntry>, t: set<RawIndexEntry>)
    requires |Listing(s)| > limit && Elements(Newest(limit, Listing(s))) <= t <= s
    ensures var window := Newest(limit, Listing(s));
            var older := Listing(t - Elements(window));
            forall i, j | 0 <= i < |older| && 0 <= j < |window| :: Before(older[i], window[j])
  {
    hide Newest, Sorted;
    var window := Newest(limit, Listing(s));
    var older := Listing(t - Elements(window));
    forall i, j | 0 <= i < |older| && 0 <= j < |window|
      ensures Before(older[i], window[j])
    {
      assert older[i] in Elements(older);
      OlderThanAll(limit, s, older[i], j);
    }
  }

  lemma OlderThanAll(limit: nat, s: set<RawIndexEntry>, x: RawIndexEntry, j: nat)
    requires |Listing(s)| > limit && x in s && x !in Elements(Newest(limit, Listing(s))) && j < |Newest(limit, Listing(s))|
    ensures Before(x, Newest(limit, Listing(s))[j])
  {
    InListing(s);
    OlderThanWindow(Listing(s), |Listing(s)| - limit, x, j);
  }

  lemma JoinSorted(a: seq<RawIndexEntry>, b: seq<RawIndexEntry>)
    requires Sorted(a) && Sorted(b) && forall i, j | 0 <= i < |a| && 0 <= j < |b| :: Before(a[i], b[j])
    ensures Sorted(a + b) && Elements(a + b) == Elements(a) + Elements(b)
  {
  }

  lemma OlderThanWindow(all: seq<RawIndexEntry>, cut: nat, x: RawIndexEntry, j: nat)
    requires Sorted(all) && cut <= |all| && x in all && x !in all[cut..] && j < |all| - cut
    ensures Before(x, all[cut..][j])
  {
    var i :| 0 <= i < |all| && all[i] == x;
    assert all == all[..cut] + all[cut..];
    assert x in all[..cut];
  }

  /** The one entry a window drops when it is exceeded by one: the oldest. */
  lemma NewestDropsOldest(limit: nat, s: set<RawIndexEntry>, x: RawIndexEntry)
    requires |s| == limit + 1 && x in s
    ensures Elements(Newest(limit, Listing(s))) == s - {x} <==> forall y | y in s && y != x :: Before(x, y)
  {
    var all := Listing(s);
    InListing(s);
    assert all == [all[0]] + all[1..];
    assert forall i | 1 <= i < |all| :: Before(all[0], all[i]);
    assert all[0] !in all[1..];
    assert Elements(all[1..]) == s - {all[0]};
    assert Newest(limit, all) == all[1..];
    if x != all[0] {
      assert all[0] in s && !Before(x, all[0]);
      assert x !in s - {x} && x in s - {all[0]};
    } else {
      forall y | y in s && y != x
        ensures Before(x, y)
      {
        var i :| 0 <= i < |all| && all[i] == y;
      }
    }
  }
}
