/** Concrete stores: where every history starts, and the re-insertion that the completeness probe
    cannot see. */
module StoreExamples {
  import opened Domain
  import opened Listings
  import opened RawIndexes
  import opened VectorShards
  import opened StoreModel
  import opened StoreEffects
  import opened StoreInvariants
  import opened StoreInsertion

  /** The directory before it is first opened. */
  const BLANK := Disk(map[], map[], map[], map[], map[], Vectors(map[], map[]), Vectors(map[], map[]), map[], None, None, false)

  /** Opening an empty directory gives a consistent, empty store: where every history can start. */
  lemma FirstOpen()
    ensures Consistent(Opened(BLANK)) && CoreOf(Opened(BLANK)) == Core(map[], map[], map[])
  {
    var d := BLANK.(metadata := true);
    assert Replayed(BLANK).(metadata := true) == d;
    RebuildConsistent(d);
  }

  /** An undistilled node, and the same node reported as distilled. */
  const BEFORE := RawNode(7, None, None, None, 0, "", Undistilled, OverflowPolicy(false, None))
  const AFTER := RawNode(7, None, None, None, 0, "", Distilled, OverflowPolicy(false, None))

  /** Crash atomicity of `insert_raw_once` fails for a known id whose backlog membership changes: in the
      store holding only `BEFORE`, re-inserting it as `AFTER` has a crash point after which the reopened
      store is not consistent. */
  lemma ReinsertionCanLeaveAStaleBacklog()
    ensures var d := RawInserted(Opened(BLANK), BEFORE);
            && Insertable(d, AFTER)
            && exists n :: 0 < n <= |InsertRawWrites(d, AFTER)| && !Consistent(Opened(InsertionImage(d, AFTER, n)))
  {
    FirstOpen();
    var empty := Opened(BLANK);
    assert Insertable(empty, BEFORE);
    InsertedConsistent(empty, BEFORE);
    var d := RawInserted(empty, BEFORE);
    assert d.raw[7] == BEFORE && !SameEntries(BEFORE, AFTER);
    InsertionCrashSafeIff(d, AFTER);
  }
}
