/** What the sync service misses and what it does not: gaps below the checkpoint, and draining
    of the backlog, over any sequence of runs against an evolving upstream folder. */
module MailboxGapLaws {
  import opened Options
  import opened Policy
  import opened MailboxSync
  import opened MailboxSyncLaws
  import ImapSets

  // ---------------------------------------------------------------- upstream folders

  /** An upstream folder: the UIDs of its messages in sequence number order, all below the
      next one it will assign. */
  datatype Folder = Folder(validity: int, uids: seq<int>, uidNext: int)

  ghost predicate StrictlyAscending(uids: seq<int>)
  {
    forall i, j | 0 <= i < j < |uids| :: uids[i] < uids[j]
  }

  ghost predicate ValidFolder(f: Folder)
  {
    StrictlyAscending(f.uids) && forall u | u in f.uids :: 0 < u < f.uidNext
  }

  /** Within one UIDVALIDITY a folder deletes messages or appends larger UIDs. */
  ghost predicate Evolves(f: Option<Folder>, f': Folder)
  {
    f.Some? && f.value.validity == f'.validity ==>
      && f.value.uidNext <= f'.uidNext
      && forall u | u in f'.uids && u < f.value.uidNext :: u in f.value.uids
  }

  /** Whether a search finds message number k of n. A set as a search key names message
      sequence numbers, in UID SEARCH too: only its reply holds UIDs (sections 6.4.4 and 6.4.8
      of RFC 3501). So "min:*" asks for the messages from number min on, and always for the
      last one, not for the UIDs from min on. */
  predicate Finds(s: Search, n: nat, k: nat)
  {
    s.SearchAll? || (s.min >= 0 && ImapSets.Covers(ImapSets.Range(ImapSets.Number(s.min), ImapSets.Largest), n, k))
  }

  /** Some message found by the search has this UID. */
  ghost predicate Hit(uids: seq<int>, s: Search, u: int)
  {
    exists k | 0 <= k < |uids| :: uids[k] == u && Finds(s, |uids|, k + 1)
  }

  ghost predicate Truthful(reply: Reply, uids: seq<int>, s: Search)
  {
    reply.Uids? ==> forall u :: u in reply.uids <==> Hit(uids, s, u)
  }

  /** A run that meets this folder: a search that succeeds reports the UIDs of exactly the
      messages it asks for, in any order. */
  ghost predicate Describes(input: Input, f: Folder)
  {
    && input.upstream.Connected?
    && input.upstream.uidValidity == f.validity
    && forall s :: Truthful(input.upstream.search(s), f.uids, s)
  }

  /** The reply of a server that lists the first k messages of a folder it finds. */
  function Listing(uids: seq<int>, s: Search, k: nat): seq<int>
    requires k <= |uids|
  {
    if k == 0 then []
    else Listing(uids, s, k - 1) + if Finds(s, |uids|, k) then [uids[k - 1]] else []
  }

  lemma {:induction false} ListingIsTruthful(uids: seq<int>, s: Search, k: nat)
    requires k <= |uids|
    ensures forall u :: u in Listing(uids, s, k) <==> exists i | 0 <= i < k :: uids[i] == u && Finds(s, |uids|, i + 1)
  {
    if k > 0 {
      ListingIsTruthful(uids, s, k - 1);
    }
  }

  /** A run in which nothing fails. */
  function CleanRun(key: Key, f: Folder): Input
  {
    Input(key, Connected(true, f.validity, s => Uids(Listing(f.uids, s, |f.uids|))), 50, false, u => Ingested(u, None))
  }

  lemma CleanRunDescribes(key: Key, f: Folder)
    ensures Describes(CleanRun(key, f), f)
  {
    forall s
      ensures Truthful(CleanRun(key, f).upstream.search(s), f.uids, s)
    {
      ListingIsTruthful(f.uids, s, |f.uids|);
    }
  }

  // ---------------------------------------------------------------- what a warm search misses

  /** A UID above the checkpoint that the search for the UIDs above it does not report. */
  ghost predicate Overlooked(uids: seq<int>, lastSeen: int, u: int)
  {
    u in uids && u > lastSeen && !Hit(uids, SearchFrom(lastSeen + 1), u)
  }

  ghost predicate AtMostOneAbove(uids: seq<int>, lastSeen: int)
  {
    forall i | 0 <= i < |uids| - 1 :: uids[i] <= lastSeen
  }

  /** No message up to the checkpoint was ever removed. */
  ghost predicate Unbroken(uids: seq<int>, lastSeen: int)
  {
    forall u | 1 <= u <= lastSeen :: u in uids
  }

  lemma {:induction false} UidAtLeastNumber(uids: seq<int>, k: nat)
    requires StrictlyAscending(uids) && k < |uids| && forall u | u in uids :: u > 0
    ensures uids[k] >= k + 1
  {
    assert uids[k] in uids;
    if k > 0 {
      UidAtLeastNumber(uids, k - 1);
    }
  }

  lemma {:induction false} UnbrokenNumbers(uids: seq<int>, lastSeen: int, u: nat)
    requires StrictlyAscending(uids) && (forall v | v in uids :: v > 0) && Unbroken(uids, lastSeen)
    requires 1 <= u <= lastSeen
    ensures |uids| >= u && uids[u - 1] == u
  {
    assert u in uids;
    var i :| 0 <= i < |uids| && uids[i] == u;
    UidAtLeastNumber(uids, i);
    if u > 1 {
      UnbrokenNumbers(uids, lastSeen, u - 1);
    }
  }

  /** Behind a missing UID the UIDs run ahead of the sequence numbers. */
  lemma {:induction false} UidAheadOfNumber(uids: seq<int>, missing: int, k: nat)
    requires StrictlyAscending(uids) && k < |uids| && forall v | v in uids :: v > 0
    requires missing >= 1 && missing !in uids && uids[k] > missing
    ensures uids[k] >= k + 2
  {
    if k > 0 {
      assert uids[k - 1] in uids;
      if uids[k - 1] > missing {
        UidAheadOfNumber(uids, missing, k - 1);
      } else {
        UidAtLeastNumber(uids, k - 1);
      }
    }
  }

  lemma HitIsNumbered(uids: seq<int>, lastSeen: nat, k: nat)
    requires StrictlyAscending(uids) && k < |uids|
    ensures Hit(uids, SearchFrom(lastSeen + 1), uids[k]) <==> k >= lastSeen || k == |uids| - 1
  {
    assert Finds(SearchFrom(lastSeen + 1), |uids|, k + 1) <==> k >= lastSeen || k == |uids| - 1;
  }

  /** The search for new mail overlooks nothing exactly when at most one message lies above
      the checkpoint, or every UID up to the checkpoint is still there. */
  lemma SearchReachesAllIff(uids: seq<int>, lastSeen: nat)
    requires StrictlyAscending(uids) && (forall u | u in uids :: u > 0) && lastSeen > 0
    ensures (forall u :: !Overlooked(uids, lastSeen, u)) <==> AtMostOneAbove(uids, lastSeen) || Unbroken(uids, lastSeen)
  {
    if AtMostOneAbove(uids, lastSeen) || Unbroken(uids, lastSeen) {
      forall u
        ensures !Overlooked(uids, lastSeen, u)
      {
        if u in uids && u > lastSeen {
          var k :| 0 <= k < |uids| && uids[k] == u;
          HitIsNumbered(uids, lastSeen, k);
          if !AtMostOneAbove(uids, lastSeen) {
            UnbrokenNumbers(uids, lastSeen, lastSeen);
          }
        }
      }
    } else {
      var i :| 0 <= i < |uids| - 1 && uids[i] > lastSeen;
      var missing :| 1 <= missing <= lastSeen && missing !in uids;
      var k := FirstAbove(uids, lastSeen, i);
      FewBelow(uids, lastSeen, missing, k);
      HitIsNumbered(uids, lastSeen, k);
      assert Overlooked(uids, lastSeen, uids[k]);
    }
  }

  lemma {:induction false} FirstAbove(uids: seq<int>, lastSeen: int, i: nat) returns (k: nat)
    requires i < |uids| && uids[i] > lastSeen
    ensures k <= i && uids[k] > lastSeen && (k > 0 ==> uids[k - 1] <= lastSeen)
  {
    if i > 0 && uids[i - 1] > lastSeen {
      k := FirstAbove(uids, lastSeen, i - 1);
    } else {
      k := i;
    }
  }

  lemma FewBelow(uids: seq<int>, lastSeen: int, missing: int, k: nat)
    requires StrictlyAscending(uids) && k < |uids| && forall v | v in uids :: v > 0
    requires 1 <= missing <= lastSeen && missing !in uids
    requires k > 0 ==> uids[k - 1] <= lastSeen
    ensures k < lastSeen
  {
    if k > 0 {
      assert uids[k - 1] in uids;
      if uids[k - 1] > missing {
        UidAheadOfNumber(uids, missing, k - 1);
      } else {
        UidAtLeastNumber(uids, k - 1);
      }
    }
  }

  // ---------------------------------------------------------------- batches

  predicate Cold(db: Tables, input: Input)
  {
    Completes(db, input) && SyncedUpTo(db, input) == 0
  }

  /** A cold batch is a suffix of the folder: it holds every UID from its first one on. */
  lemma ColdBatch(db: Tables, input: Input, f: Folder)
    requires Cold(db, input) && Describes(input, f)
    ensures forall u | u in Batch(db, input) :: u in f.uids
    ensures Batch(db, input) != [] ==>
              forall u | u in f.uids && Batch(db, input)[0] <= u :: u in Batch(db, input)
    ensures forall i | 0 <= i < |Batch(db, input)| :: Batch(db, input)[0] <= Batch(db, input)[i]
  {
    var reply := input.upstream.search(SearchAll);
    var all, batch := AllUids(reply), Batch(db, input);
    AllIsFolder(reply, f.uids);
    assert all == all[..|all| - |batch|] + batch;
    SuffixOfAscending(all[..|all| - |batch|], batch);
  }

  lemma AllIsFolder(reply: Reply, uids: seq<int>)
    requires !reply.Raised? && Truthful(reply, uids, SearchAll)
    ensures reply.Uids? ==> forall u :: u in AllUids(reply) <==> u in uids
  {
    forall u | reply.Uids?
      ensures u in AllUids(reply) <==> u in uids
    {
      if u in uids {
        var k :| 0 <= k < |uids| && uids[k] == u;
        assert Finds(SearchAll, |uids|, k + 1);
      }
    }
  }

  lemma SuffixOfAscending(front: seq<int>, suffix: seq<int>)
    requires Ascending(front + suffix)
    ensures suffix != [] ==> forall u | u in front + suffix && suffix[0] <= u :: u in suffix
    ensures forall i | 0 <= i < |suffix| :: suffix[0] <= suffix[i]
  {
    var s, n := front + suffix, |front|;
    assert forall i | 0 <= i < |suffix| :: s[n] <= s[n + i] == suffix[i];
    forall u | suffix != [] && u in front && suffix[0] <= u
      ensures u in suffix
    {
      var i :| 0 <= i < n && front[i] == u;
      assert s[i] <= s[n];
    }
  }

  predicate Distinct(s: seq<int>)
  {
    forall i, j | 0 <= i < j < |s| :: s[i] != s[j]
  }

  lemma {:induction false} InsertDistinct(x: int, s: seq<int>)
    requires Distinct(s) && x !in s
    ensures Distinct(Insert(x, s))
  {
    if s != [] && x > s[0] {
      InsertDistinct(x, s[1..]);
      var r := Insert(x, s[1..]);
      assert s[0] !in r;
    }
  }

  lemma {:induction false} SortedDistinct(s: seq<int>)
    requires Distinct(s)
    ensures Distinct(Sorted(s))
  {
    if s != [] {
      SortedDistinct(s[1..]);
      InsertDistinct(s[0], Sorted(s[1..]));
    }
  }

  /** A cold run is meant to sync the folder from the beginning. It takes in every UID exactly
      when the folder has no more of them than one batch; the earlier ones are never chosen. */
  lemma ColdRunCoversFolderIff(db: Tables, input: Input)
    requires Cold(db, input) && input.batchSize >= 1
    requires var reply := input.upstream.search(SearchAll); reply.Uids? && Distinct(reply.uids)
    ensures var uids := input.upstream.search(SearchAll).uids;
            (forall u | u in uids :: u in Batch(db, input)) <==> |uids| <= input.batchSize
  {
    var uids := input.upstream.search(SearchAll).uids;
    var all, batch := Sorted(uids), Batch(db, input);
    SortedDistinct(uids);
    if |all| > input.batchSize {
      var from := |all| - input.batchSize;
      assert batch == all[from..];
      assert forall k | 0 <= k < |batch| :: batch[k] == all[from + k] != all[0];
      assert all[0] in uids && all[0] !in batch;
    }
  }

  /** A warm batch is a prefix of what the search reports above the checkpoint. */
  lemma WarmBatch(db: Tables, input: Input, f: Folder)
    requires Completes(db, input) && !Cold(db, input) && Describes(input, f)
    ensures var lastSeen, batch := SyncedUpTo(db, input), Batch(db, input);
            var s := SearchFrom(lastSeen + 1);
            && (forall u | u in batch :: u > lastSeen && u in f.uids && Hit(f.uids, s, u))
            && (forall u, v | lastSeen < u <= v && Hit(f.uids, s, u) && v in batch :: u in batch)
            && (input.upstream.search(s).Uids? && input.batchSize >= 1 ==>
                  ((exists u :: u > lastSeen && Hit(f.uids, s, u)) ==> batch != []))
  {
    var lastSeen, batch := SyncedUpTo(db, input), Batch(db, input);
    var s := SearchFrom(lastSeen + 1);
    var reply := input.upstream.search(s);
    assert Truthful(reply, f.uids, s);
    if reply.Uids? {
      AtLeastAscending(Sorted(reply.uids), lastSeen + 1);
      var backlog := UidsInRange(reply, lastSeen + 1);
      assert backlog == batch + backlog[|batch|..];
      forall u
        ensures u in backlog <==> u > lastSeen && Hit(f.uids, s, u)
      {
        assert u in reply.uids <==> Hit(f.uids, s, u);
      }
      PrefixOfAscending(backlog, batch);
      forall u | u in batch
        ensures u > lastSeen && u in f.uids && Hit(f.uids, s, u)
      {
        assert u in backlog;
      }
      forall u | u > lastSeen && Hit(f.uids, s, u) && input.batchSize >= 1
        ensures batch != []
      {
        assert u in backlog;
      }
    }
  }

  lemma PrefixOfAscending(s: seq<int>, prefix: seq<int>)
    requires Ascending(s) && prefix <= s
    ensures forall u, v | u in s && u <= v && v in prefix :: u in prefix
  {
    forall u, v | u in s && u <= v && v in prefix
      ensures u in prefix
    {
      var i :| 0 <= i < |s| && s[i] == u;
      var j :| 0 <= j < |prefix| && prefix[j] == v;
      if i >= |prefix| {
        assert s[j] <= s[i];
      }
    }
  }

  // ---------------------------------------------------------------- what slips through

  /** A UID the run moves the checkpoint past without a row: it has none yet, the search of a
      warm run overlooks it or a catch-all error hits it, and the run settles a UID of its
      batch at or above it. */
  ghost predicate Slips(db: Tables, input: Input, f: Folder, u: int)
  {
    && Completes(db, input)
    && u in f.uids && u > SyncedUpTo(db, input)
    && !Mapped(db.items, input.key, u)
    && ((!Cold(db, input) && Overlooked(f.uids, SyncedUpTo(db, input), u)) || Crash(input.outcome(u)))
    && Passes(db, input, u)
  }

  /** The first UID of the latest non-empty cold batch of the folder. */
  function StartAfter(db: Tables, key: Key, input: Input, start: int): int
  {
    if input.key == key && Cold(db, input) && Batch(db, input) != [] then Batch(db, input)[0] else start
  }

  /** Of the UIDs a completed run is responsible for, those it passes without a row are
      exactly those that slip. */
  lemma PassedUnmappedIff(db: Tables, input: Input, f: Folder, u: int)
    requires Completes(db, input) && Describes(input, f)
    requires u in f.uids && u > SyncedUpTo(db, input)
    requires Cold(db, input) && Batch(db, input) != [] ==> Batch(db, input)[0] <= u
    ensures var db' := Run(db, input).0;
            u <= LastSeen(StateOf(db', input.key)) && !Mapped(db'.items, input.key, u) <==> Slips(db, input, f, u)
  {
    var batch := Batch(db, input);
    RunMaps(db, input, u);
    if Passes(db, input, u) {
      var i :| 0 <= i < |batch| && batch[i] >= u && Settles(db.items, input.key, batch, input.outcome, i);
      assert batch[i] in batch;
      if Cold(db, input) {
        ColdBatch(db, input, f);
      } else {
        WarmBatch(db, input, f);
      }
    }
  }

  const TWO := Folder(1, [2], 3)
  const TWO_TO_FOUR := Folder(1, [2, 3, 4], 5)

  lemma LateUidIsLegal(key: Key)
    ensures ValidFolder(TWO) && ValidFolder(TWO_TO_FOUR) && Evolves(Some(TWO), TWO_TO_FOUR)
    ensures Describes(CleanRun(key, TWO), TWO) && Describes(CleanRun(key, TWO_TO_FOUR), TWO_TO_FOUR)
  {
    CleanRunDescribes(key, TWO);
    CleanRunDescribes(key, TWO_TO_FOUR);
  }

  /** A concrete loss: after a folder holding UID 2 was synced, UIDs 3 and 4 arrive. The search
      "3:*" finds the third message alone, UID 4; the checkpoint moves past UID 3. */
  lemma LateUidIsLost(db: Tables, key: Key)
    requires db == Run(EMPTY, CleanRun(key, TWO)).0
    ensures ValidFolder(TWO) && ValidFolder(TWO_TO_FOUR) && Evolves(Some(TWO), TWO_TO_FOUR)
    ensures Describes(CleanRun(key, TWO), TWO) && Describes(CleanRun(key, TWO_TO_FOUR), TWO_TO_FOUR)
    ensures var db' := Run(db, CleanRun(key, TWO_TO_FOUR)).0;
            && StateOf(db', key).lastSeenUid == Some(4)
            && Mapped(db'.items, key, 2) && !Mapped(db'.items, key, 3) && Mapped(db'.items, key, 4)
  {
    LateUidIsLegal(key);
    FirstOfTwoRuns(key, TWO, 2);
    SecondBatch(db, key);
    OneUidRun(db, CleanRun(key, TWO_TO_FOUR), 4);
  }

  lemma SecondBatch(db: Tables, key: Key)
    requires StateOf(db, key).lastSeenUid == Some(2) && StateOf(db, key).uidValidity == Some(1)
    ensures var run := CleanRun(key, TWO_TO_FOUR);
            Completes(db, run) && SyncedUpTo(db, run) == 2 && Batch(db, run) == [4]
  {
    SecondListing();
  }

  lemma FirstOfTwoRuns(key: Key, f: Folder, uid: int)
    requires f.uids == [uid] && uid > 0
    ensures var run := CleanRun(key, f); Cold(EMPTY, run) && Batch(EMPTY, run) == [uid]
    ensures var db := Run(EMPTY, CleanRun(key, f)).0;
            && StateOf(db, key).lastSeenUid == Some(uid) && StateOf(db, key).uidValidity == Some(f.validity)
            && forall u :: Mapped(db.items, key, u) <==> u == uid
  {
    assert Listing(f.uids, SearchAll, 1) == [uid];
    assert Sorted([uid]) == [uid];
    OneUidRun(EMPTY, CleanRun(key, f), uid);
  }

  lemma SecondListing()
    ensures var reply := Uids(Listing([2, 3, 4], SearchFrom(3), 3));
            UidsInRange(reply, 3) == [4]
  {
    var uids, s := [2, 3, 4], SearchFrom(3);
    assert !Finds(s, 3, 1) && !Finds(s, 3, 2) && Finds(s, 3, 3);
    assert Listing(uids, s, 1) == [] && Listing(uids, s, 2) == [] && Listing(uids, s, 3) == [4];
    assert Sorted([4]) == [4] && AtLeast([4], 3) == [4];
  }

  /** A run whose batch is one UID without a row that is ingested. */
  lemma OneUidRun(db: Tables, input: Input, uid: int)
    requires Completes(db, input) && Batch(db, input) == [uid]
    requires input.outcome(uid).Ingested? && uid > SyncedUpTo(db, input) && !Mapped(db.items, input.key, uid)
    ensures var db' := Run(db, input).0;
            && StateOf(db', input.key).lastSeenUid == Some(uid)
            && StateOf(db', input.key).uidValidity == Some(input.upstream.uidValidity)
            && forall u :: Mapped(db'.items, input.key, u) <==> Mapped(db.items, input.key, u) || u == uid
  {
    var uids := Batch(db, input);
    var p := Progress(db.items, SyncedUpTo(db, input), NO_RESULT);
    assert uids[..0] == [];
    assert ProcessAll(p, input.key, input.upstream.uidValidity, input.softHold, [], input.outcome) == p;
    forall u
      ensures Mapped(Run(db, input).0.items, input.key, u) <==> Mapped(db.items, input.key, u) || u == uid
    {
      RunMaps(db, input, u);
    }
  }

  const ONE_AND_TWO := Folder(1, [1, 2], 3)

  lemma BothListed(key: Key, batchSize: int)
    requires batchSize >= 1
    ensures var run := CleanRun(key, ONE_AND_TWO).(batchSize := batchSize);
            Cold(EMPTY, run) && Batch(EMPTY, run) == if batchSize == 1 then [2] else [1, 2]
  {
    var uids := ONE_AND_TWO.uids;
    assert Listing(uids, SearchAll, 1) == [1] && Listing(uids, SearchAll, 2) == [1, 2];
    assert [1, 2][1..] == [2] && [2][1..] == [];
    assert Sorted([2]) == [2] && Sorted([1, 2]) == [1, 2];
  }

  /** A concrete loss: a cold run with room for one UID takes the last one of two. */
  lemma ColdRunLosesOldest(key: Key)
    ensures var db' := Run(EMPTY, CleanRun(key, ONE_AND_TWO).(batchSize := 1)).0;
            StateOf(db', key).lastSeenUid == Some(2) && !Mapped(db'.items, key, 1) && Mapped(db'.items, key, 2)
  {
    BothListed(key, 1);
    OneUidRun(EMPTY, CleanRun(key, ONE_AND_TWO).(batchSize := 1), 2);
  }

  /** A run in which nothing fails but UID 1, which the catch-all handler swallows. */
  function CrashOfOne(key: Key): Input
  {
    CleanRun(key, ONE_AND_TWO).(outcome := u => if u == 1 then LookupCrash else Ingested(u, None))
  }

  /** A concrete loss: UID 1 crashes, UID 2 is ingested, and the checkpoint passes both. */
  lemma CrashedUidIsLost(key: Key)
    ensures var db' := Run(EMPTY, CrashOfOne(key)).0;
            StateOf(db', key).lastSeenUid == Some(2) && !Mapped(db'.items, key, 1) && Mapped(db'.items, key, 2)
  {
    var run := CrashOfOne(key);
    BothListed(key, 50);
    assert Batch(EMPTY, run) == Batch(EMPTY, CleanRun(key, ONE_AND_TWO)) == [1, 2];
    assert Settles(EMPTY.items, key, Batch(EMPTY, run), run.outcome, 1);
    assert Passes(EMPTY, run, 2);
    RunMaps(EMPTY, run, 1);
    RunMaps(EMPTY, run, 2);
    CheckpointMoves(EMPTY, run);
  }

  /** A concrete loss: UID 7 is synced under UIDVALIDITY 1; after a change to 2 the new
      message with UID 7 is skipped, although the reset forces a run from the beginning. */
  lemma ReusedUidIsLost(key: Key)
    ensures var f, f' := Folder(1, [7], 8), Folder(2, [7], 8);
            var db := Run(EMPTY, CleanRun(key, f)).0;
            var db' := Run(db, CleanRun(key, f')).0;
            && ValidFolder(f) && ValidFolder(f') && Evolves(Some(f), f')
            && Describes(CleanRun(key, f), f) && Describes(CleanRun(key, f'), f')
            && db'.items == db.items && |db.items| == 1 && db.items[0].uidValidity == 1
            && StateOf(db', key).uidValidity == Some(2) && StateOf(db', key).lastSeenUid == Some(7)
  {
    var f, f' := Folder(1, [7], 8), Folder(2, [7], 8);
    var first, second := CleanRun(key, f), CleanRun(key, f');
    CleanRunDescribes(key, f);
    CleanRunDescribes(key, f');
    assert Listing(f.uids, SearchAll, 1) == [7];
    OneUidRun(EMPTY, first, 7);
    var db := Run(EMPTY, first).0;
    OneUidLoop(EMPTY, first, 7);
    OneUidLoop(db, second, 7);
  }

  lemma OneUidLoop(db: Tables, input: Input, uid: int)
    requires Completes(db, input) && Batch(db, input) == [uid]
    ensures Loop(db, input) == Process(Progress(db.items, SyncedUpTo(db, input), NO_RESULT), input.key,
                                       input.upstream.uidValidity, input.softHold, uid, input.outcome(uid))
  {
    var uids := Batch(db, input);
    var p := Progress(db.items, SyncedUpTo(db, input), NO_RESULT);
    assert uids[..0] == [];
    assert ProcessAll(p, input.key, input.upstream.uidValidity, input.softHold, [], input.outcome) == p;
  }

  // ---------------------------------------------------------------- no gaps

  /** Every UID of the folder from start up to the checkpoint has a row. */
  ghost predicate NoGap(db: Tables, key: Key, f: Option<Folder>, start: int)
  {
    var s := StateOf(db, key);
    s.lastSeenUid.Some? ==>
      && f.Some?
      && s.uidValidity == Some(f.value.validity)
      && start <= s.lastSeenUid.value < f.value.uidNext
      && forall u | u in f.value.uids && start <= u <= s.lastSeenUid.value :: Mapped(db.items, key, u)
  }

  /** The folder as the latest run that selected it saw it. */
  function SeenAfter(key: Key, input: Input, f: Option<Folder>, f': Folder): Option<Folder>
  {
    if input.key == key && input.upstream.Connected? && input.upstream.selectable
       && !input.upstream.search(SearchAll).Raised?
    then Some(f') else f
  }

  lemma AllMappedGrows(items: seq<Item>, items': seq<Item>, key: Key)
    requires items <= items'
    ensures forall u | Mapped(items, key, u) :: Mapped(items', key, u)
  {
    forall u | Mapped(items, key, u)
      ensures Mapped(items', key, u)
    {
      MappedGrows(items, items', key, u);
    }
  }

  /** Nothing slips through a run of this folder. */
  ghost predicate NothingSlips(db: Tables, key: Key, start: int, input: Input, f: Folder)
  {
    input.key == key ==> forall u | u >= StartAfter(db, key, input, start) :: !Slips(db, input, f, u)
  }

  /** One run, of this folder or of any other, whatever fails in it: it leaves no gap exactly
      when nothing slips through it. */
  lemma NoGapStep(db: Tables, key: Key, f: Option<Folder>, start: int, input: Input, f': Folder)
    requires Bookkept(db) && NoGap(db, key, f, start)
    requires ValidFolder(f') && Evolves(f, f')
    requires input.key == key && input.upstream.Connected? ==> Describes(input, f')
    ensures NoGap(Run(db, input).0, key, SeenAfter(key, input, f, f'), StartAfter(db, key, input, start))
            <==> NothingSlips(db, key, start, input, f')
  {
    if input.key == key && Completes(db, input) {
      CheckpointAfter(db, f, start, input, f');
      forall u | u in f'.uids && u >= StartAfter(db, key, input, start)
        ensures u <= LastSeen(StateOf(Run(db, input).0, key)) && !Mapped(Run(db, input).0.items, key, u)
                <==> Slips(db, input, f', u)
      {
        GapIffSlips(db, f, start, input, f', u);
      }
    } else {
      RunKeeps(db, input);
      AllMappedGrows(db.items, Run(db, input).0.items, key);
    }
  }

  /** Where a completed run leaves the checkpoint. */
  lemma CheckpointAfter(db: Tables, f: Option<Folder>, start: int, input: Input, f': Folder)
    requires Bookkept(db) && NoGap(db, input.key, f, start)
    requires ValidFolder(f') && Evolves(f, f') && Completes(db, input) && Describes(input, f')
    ensures var s := StateOf(Run(db, input).0, input.key);
            && s.uidValidity == Some(f'.validity)
            && (s.lastSeenUid.Some? <==> LastSeen(s) != 0)
            && (s.lastSeenUid.Some? ==> StartAfter(db, input.key, input, start) <= LastSeen(s) < f'.uidNext)
  {
    CheckpointMoves(db, input);
    if Cold(db, input) {
      ColdBatch(db, input, f');
    } else {
      WarmBatch(db, input, f');
    }
  }

  lemma CheckpointMoves(db: Tables, input: Input)
    requires Bookkept(db) && Completes(db, input)
    ensures var s := StateOf(Run(db, input).0, input.key);
            && s.uidValidity == Some(input.upstream.uidValidity)
            && (s.lastSeenUid.Some? <==> LastSeen(s) != 0)
            && LastSeen(s) >= SyncedUpTo(db, input)
            && (LastSeen(s) == SyncedUpTo(db, input) || LastSeen(s) in Batch(db, input))
  {
    LoopKeeps(Progress(db.items, SyncedUpTo(db, input), NO_RESULT), input.key, input.upstream.uidValidity,
              input.softHold, Batch(db, input), input.outcome);
  }

  lemma GapIffSlips(db: Tables, f: Option<Folder>, start: int, input: Input, f': Folder, u: int)
    requires Bookkept(db) && NoGap(db, input.key, f, start)
    requires ValidFolder(f') && Evolves(f, f') && Completes(db, input) && Describes(input, f')
    requires u in f'.uids && u >= StartAfter(db, input.key, input, start)
    ensures var db' := Run(db, input).0;
            u <= LastSeen(StateOf(db', input.key)) && !Mapped(db'.items, input.key, u) <==> Slips(db, input, f', u)
  {
    if u > SyncedUpTo(db, input) {
      PassedUnmappedIff(db, input, f', u);
    } else {
      assert u in f.value.uids;
      RunMaps(db, input, u);
    }
  }

  datatype Step = Step(input: Input, folder: Folder)

  /** Runs of any folders during which the upstream folder of key only evolves and every
      search of it that succeeds is answered by what it asks for. */
  ghost predicate Legal(db: Tables, key: Key, f: Option<Folder>, steps: seq<Step>)
    decreases |steps|
  {
    |steps| > 0 ==>
      var Step(input, f') := steps[0];
      && ValidFolder(f') && Evolves(f, f')
      && (input.key == key && input.upstream.Connected? ==> Describes(input, f'))
      && Legal(Run(db, input).0, key, SeenAfter(key, input, f, f'), steps[1..])
  }

  /** No gap now, nor after any of the runs. */
  ghost predicate NeverAGap(db: Tables, key: Key, f: Option<Folder>, start: int, steps: seq<Step>)
    decreases |steps|
  {
    && NoGap(db, key, f, start)
    && (|steps| > 0 ==>
          var Step(input, f') := steps[0];
          NeverAGap(Run(db, input).0, key, SeenAfter(key, input, f, f'), StartAfter(db, key, input, start), steps[1..]))
  }

  /** Nothing slips through any of the runs. */
  ghost predicate NothingEverSlips(db: Tables, key: Key, start: int, steps: seq<Step>)
    decreases |steps|
  {
    |steps| > 0 ==>
      var Step(input, f') := steps[0];
      && NothingSlips(db, key, start, input, f')
      && NothingEverSlips(Run(db, input).0, key, StartAfter(db, key, input, start), steps[1..])
  }

  /** Over any runs, interleaved with runs of other folders, aborts, catch-all errors and
      UIDVALIDITY changes: no gap ever opens exactly when nothing ever slips. */
  lemma {:induction false} NoGapOverRuns(db: Tables, key: Key, f: Option<Folder>, start: int, steps: seq<Step>)
    requires Bookkept(db) && NoGap(db, key, f, start) && Legal(db, key, f, steps)
    ensures NeverAGap(db, key, f, start, steps) <==> NothingEverSlips(db, key, start, steps)
    decreases |steps|
  {
    if |steps| > 0 {
      var Step(input, f') := steps[0];
      var start' := StartAfter(db, key, input, start);
      NoGapStep(db, key, f, start, input, f');
      RunKeeps(db, input);
      if NoGap(Run(db, input).0, key, SeenAfter(key, input, f, f'), start') {
        NoGapOverRuns(Run(db, input).0, key, SeenAfter(key, input, f, f'), start', steps[1..]);
      }
    }
  }

  function Inputs(steps: seq<Step>): seq<Input>
  {
    seq(|steps|, i requires 0 <= i < |steps| => steps[i].input)
  }

  /** The folder last seen and the start of the latest cold batch, after the steps. */
  function Observed(db: Tables, key: Key, f: Option<Folder>, start: int, steps: seq<Step>): (Option<Folder>, int)
    decreases |steps|
  {
    if |steps| == 0 then (f, start)
    else
      var Step(input, f') := steps[0];
      Observed(Run(db, input).0, key, SeenAfter(key, input, f, f'), StartAfter(db, key, input, start), steps[1..])
  }

  lemma {:induction false} NeverAGapAtEnd(db: Tables, key: Key, f: Option<Folder>, start: int, steps: seq<Step>)
    requires NeverAGap(db, key, f, start, steps)
    ensures var (f', start') := Observed(db, key, f, start, steps);
            NoGap(After(db, Inputs(steps)), key, f', start')
    decreases |steps|
  {
    if |steps| > 0 {
      var Step(input, f') := steps[0];
      NeverAGapAtEnd(Run(db, input).0, key, SeenAfter(key, input, f, f'), StartAfter(db, key, input, start),
                     steps[1..]);
      assert Inputs(steps)[1..] == Inputs(steps[1..]);
    } else {
      assert Inputs(steps) == [];
    }
  }

  /** Every completed run of the folder meets no catch-all error and, when warm, a folder with
      at most one message above the checkpoint or with all UIDs up to it still there. */
  ghost predicate Reaching(db: Tables, key: Key, steps: seq<Step>)
    decreases |steps|
  {
    |steps| > 0 ==>
      var Step(input, f') := steps[0];
      && (input.key == key && Completes(db, input) ==>
            && (forall u | u in f'.uids :: !Crash(input.outcome(u)))
            && (!Cold(db, input) ==>
                  var lastSeen := SyncedUpTo(db, input);
                  AtMostOneAbove(f'.uids, lastSeen) || Unbroken(f'.uids, lastSeen)))
      && Reaching(Run(db, input).0, key, steps[1..])
  }

  lemma {:induction false} ReachingRunsMissNothing(db: Tables, key: Key, f: Option<Folder>, start: int,
                                                   steps: seq<Step>)
    requires Bookkept(db) && Legal(db, key, f, steps) && Reaching(db, key, steps)
    ensures NothingEverSlips(db, key, start, steps)
    decreases |steps|
  {
    if |steps| > 0 {
      var Step(input, f') := steps[0];
      if input.key == key && Completes(db, input) && !Cold(db, input) {
        SearchReachesAllIff(f'.uids, SyncedUpTo(db, input));
      }
      RunKeeps(db, input);
      ReachingRunsMissNothing(Run(db, input).0, key, SeenAfter(key, input, f, f'),
                              StartAfter(db, key, input, start), steps[1..]);
    }
  }

  /** From empty tables, when the searches reach all new mail: every UID the folder holds, from
      the first UID of the latest cold batch up to the checkpoint, has a row, as a message or
      as an ingestion error. */
  lemma {:induction false} NoGapFromScratch(key: Key, steps: seq<Step>, uid: int)
    requires Legal(EMPTY, key, None, steps) && Reaching(EMPTY, key, steps)
    requires var (f, start) := Observed(EMPTY, key, None, 0, steps);
             var s := StateOf(After(EMPTY, Inputs(steps)), key);
             f.Some? && uid in f.value.uids && s.lastSeenUid.Some? && start <= uid <= s.lastSeenUid.value
    ensures Mapped(After(EMPTY, Inputs(steps)).items, key, uid)
  {
    ReachingRunsMissNothing(EMPTY, key, None, 0, steps);
    NoGapOverRuns(EMPTY, key, None, 0, steps);
    NeverAGapAtEnd(EMPTY, key, None, 0, steps);
  }

  // ---------------------------------------------------------------- draining

  ghost function Above(db: Tables, key: Key, f: Folder): set<int>
  {
    set u | u in f.uids && u > LastSeen(StateOf(db, key))
  }

  ghost function Unmapped(db: Tables, key: Key, f: Folder): set<int>
  {
    set u | u in Above(db, key, f) && !Mapped(db.items, key, u)
  }

  /** (UIDs above the checkpoint) + (those of them without a row). */
  ghost function Backlog(db: Tables, key: Key, f: Folder): nat
  {
    |Above(db, key, f)| + |Unmapped(db, key, f)|
  }

  /** A folder with a set checkpoint, under the UIDVALIDITY the folder still has. */
  ghost predicate Warm(db: Tables, key: Key, f: Folder)
  {
    && StateOf(db, key).lastSeenUid.Some?
    && StateOf(db, key).uidValidity == Some(f.validity)
  }

  /** A run that is not aborted, searches OK, and hits no catch-all error. Fetching, parsing
      and analysing may fail for any of its UIDs. */
  ghost predicate Draining(key: Key, f: Folder, input: Input)
  {
    && input.key == key
    && input.batchSize >= 1
    && Describes(input, f)
    && input.upstream.selectable
    && (forall s :: input.upstream.search(s).Uids?)
    && (forall u | u in f.uids :: !Crash(input.outcome(u)))
  }

  ghost predicate AllDraining(key: Key, f: Folder, inputs: seq<Input>)
  {
    forall i | 0 <= i < |inputs| :: Draining(key, f, inputs[i])
  }

  lemma SubsetSize(a: set<int>, b: set<int>)
    requires a <= b
    ensures |a| <= |b|
    ensures a != b ==> |a| < |b|
  {
    assert b == a + (b - a) && a !! b - a;
  }

  lemma WarmRunCompletes(db: Tables, key: Key, f: Folder, input: Input)
    requires Bookkept(db) && Warm(db, key, f) && Draining(key, f, input)
    ensures Completes(db, input) && !Cold(db, input)
    ensures SyncedUpTo(db, input) == LastSeen(StateOf(db, key)) > 0
  {
  }

  /** The last message is always asked for, so a non-empty backlog gives a non-empty batch. */
  lemma BacklogIsSearched(db: Tables, key: Key, f: Folder, input: Input)
    requires Bookkept(db) && Warm(db, key, f) && Draining(key, f, input) && ValidFolder(f)
    requires Above(db, key, f) != {}
    ensures Completes(db, input) && Batch(db, input) != [] && Batch(db, input)[0] in Above(db, key, f)
  {
    WarmRunCompletes(db, key, f, input);
    WarmBatch(db, input, f);
    var lastSeen, last := SyncedUpTo(db, input), |f.uids| - 1;
    var any :| any in Above(db, key, f);
    var k :| 0 <= k < |f.uids| && f.uids[k] == any;
    HitIsNumbered(f.uids, lastSeen, last);
    assert f.uids[last] >= any > lastSeen && Hit(f.uids, SearchFrom(lastSeen + 1), f.uids[last]);
    assert Batch(db, input) != [];
    var u := Batch(db, input)[0];
    assert u in Batch(db, input);
    assert u > lastSeen && u in f.uids;
  }

  /** One run makes progress on a non-empty backlog, whatever its search overlooks. What it
      moves the checkpoint past has a row exactly when it does not slip. */
  lemma DrainStep(db: Tables, key: Key, f: Folder, input: Input)
    requires Bookkept(db) && Warm(db, key, f) && Draining(key, f, input) && ValidFolder(f)
    ensures var db' := Run(db, input).0;
            && Warm(db', key, f)
            && Above(db', key, f) <= Above(db, key, f)
            && (Above(db, key, f) != {} ==> Backlog(db', key, f) < Backlog(db, key, f))
            && forall u | u in Above(db, key, f) ::
                 u !in Above(db', key, f) && !Mapped(db'.items, key, u) <==> Slips(db, input, f, u)
  {
    var db' := Run(db, input).0;
    WarmRunCompletes(db, key, f, input);
    RunKeeps(db, input);
    forall u | u in Above(db, key, f)
      ensures u !in Above(db', key, f) && !Mapped(db'.items, key, u) <==> Slips(db, input, f, u)
    {
      PassedUnmappedIff(db, input, f, u);
    }
    if Above(db, key, f) != {} {
      BacklogIsSearched(db, key, f, input);
      var u := Batch(db, input)[0];
      RunMaps(db, input, u);
      if Mapped(db.items, key, u) {
        assert Settles(db.items, key, Batch(db, input), input.outcome, 0);
        assert Passes(db, input, u);
      }
      AllMappedGrows(db.items, db'.items, key);
      BacklogShrinks(db, db', key, f, u);
    }
  }

  lemma BacklogShrinks(db: Tables, db': Tables, key: Key, f: Folder, u: int)
    requires Above(db', key, f) <= Above(db, key, f)
    requires forall v | Mapped(db.items, key, v) :: Mapped(db'.items, key, v)
    requires u in Above(db, key, f) && Mapped(db'.items, key, u)
    requires Mapped(db.items, key, u) ==> u <= LastSeen(StateOf(db', key))
    ensures Backlog(db', key, f) < Backlog(db, key, f)
  {
    SubsetSize(Above(db', key, f), Above(db, key, f));
    SubsetSize(Unmapped(db', key, f), Unmapped(db, key, f));
    if Mapped(db.items, key, u) {
      assert u !in Above(db', key, f);
    } else {
      assert u in Unmapped(db, key, f) && u !in Unmapped(db', key, f);
    }
  }

  /** A UID at or below the checkpoint never gets a row, nor slips, later. */
  lemma {:induction false} PassedStays(db: Tables, key: Key, f: Folder, inputs: seq<Input>, u: int)
    requires Bookkept(db) && Warm(db, key, f) && ValidFolder(f) && u <= LastSeen(StateOf(db, key))
    requires AllDraining(key, f, inputs)
    ensures Mapped(After(db, inputs).items, key, u) <==> Mapped(db.items, key, u)
    ensures !EverSlips(db, f, inputs, u)
    decreases |inputs|
  {
    if |inputs| > 0 {
      WarmRunCompletes(db, key, f, inputs[0]);
      WarmBatch(db, inputs[0], f);
      RunMaps(db, inputs[0], u);
      RunKeeps(db, inputs[0]);
      DrainStep(db, key, f, inputs[0]);
      PassedStays(Run(db, inputs[0]).0, key, f, inputs[1..], u);
    }
  }

  ghost predicate EverSlips(db: Tables, f: Folder, inputs: seq<Input>, u: int)
    decreases |inputs|
  {
    |inputs| > 0 && (Slips(db, inputs[0], f, u) || EverSlips(Run(db, inputs[0]).0, f, inputs[1..], u))
  }

  /** After at most Backlog runs nothing is left above the checkpoint, even when whole batches
      fail to fetch, and a UID above the starting checkpoint has a row exactly when it did not
      slip through one of the runs. */
  lemma {:induction false} BacklogDrains(db: Tables, key: Key, f: Folder, inputs: seq<Input>)
    requires Bookkept(db) && Warm(db, key, f) && ValidFolder(f)
    requires AllDraining(key, f, inputs)
    requires |inputs| >= Backlog(db, key, f)
    ensures Above(After(db, inputs), key, f) == {}
    ensures forall u | u in Above(db, key, f) ::
              Mapped(After(db, inputs).items, key, u) <==> !EverSlips(db, f, inputs, u)
    decreases |inputs|
  {
    if |inputs| > 0 {
      var db' := Run(db, inputs[0]).0;
      DrainStep(db, key, f, inputs[0]);
      RunKeeps(db, inputs[0]);
      BacklogDrains(db', key, f, inputs[1..]);
      forall u | u in Above(db, key, f)
        ensures Mapped(After(db, inputs).items, key, u) <==> !EverSlips(db, f, inputs, u)
      {
        if u !in Above(db', key, f) {
          PassedStays(db', key, f, inputs[1..], u);
        }
      }
    }
  }

  /** Every message above the checkpoint but the last has a larger sequence number than the
      checkpoint, so that the search finds it. */
  ghost predicate AllSearched(uids: seq<int>, lastSeen: int)
  {
    forall k | 0 <= k < |uids| - 1 && uids[k] > lastSeen :: k >= lastSeen
  }

  /** Moreover, of the messages above the checkpoint all but the last two have their sequence
      number as UID. */
  ghost predicate Safe(uids: seq<int>, lastSeen: int)
  {
    && AllSearched(uids, lastSeen)
    && (forall k | 0 <= k < |uids| - 2 && uids[k] > lastSeen :: uids[k] == k + 1)
  }

  /** Whatever of the folder a run moves the checkpoint to, it stays safe. */
  lemma SafeStays(uids: seq<int>, lastSeen: int, lastSeen': int)
    requires StrictlyAscending(uids) && Safe(uids, lastSeen)
    requires lastSeen' == lastSeen || (lastSeen' > lastSeen && lastSeen' in uids)
    ensures Safe(uids, lastSeen')
  {
    forall k | 0 <= k < |uids| - 1 && uids[k] > lastSeen'
      ensures k >= lastSeen'
    {
      if lastSeen' != lastSeen {
        var i :| 0 <= i < |uids| && uids[i] == lastSeen';
        assert i < k;
      }
    }
  }

  lemma SafeSearchOverlooksNothing(uids: seq<int>, lastSeen: nat, u: int)
    requires StrictlyAscending(uids) && Safe(uids, lastSeen)
    ensures !Overlooked(uids, lastSeen, u)
  {
    if u in uids && u > lastSeen {
      var k :| 0 <= k < |uids| && uids[k] == u;
      HitIsNumbered(uids, lastSeen, k);
    }
  }

  lemma SafeStep(db: Tables, key: Key, f: Folder, input: Input, u: int)
    requires Bookkept(db) && Warm(db, key, f) && ValidFolder(f) && Draining(key, f, input)
    requires Safe(f.uids, LastSeen(StateOf(db, key)))
    ensures !Slips(db, input, f, u) && Safe(f.uids, LastSeen(StateOf(Run(db, input).0, key)))
  {
    var lastSeen := LastSeen(StateOf(db, key));
    WarmRunCompletes(db, key, f, input);
    SafeSearchOverlooksNothing(f.uids, lastSeen, u);
    WarmBatch(db, input, f);
    CheckpointMoves(db, input);
    SafeStays(f.uids, lastSeen, LastSeen(StateOf(Run(db, input).0, key)));
  }

  lemma {:induction false} SafeNeverSlips(db: Tables, key: Key, f: Folder, inputs: seq<Input>, u: int)
    requires Bookkept(db) && Warm(db, key, f) && ValidFolder(f)
    requires Safe(f.uids, LastSeen(StateOf(db, key)))
    requires AllDraining(key, f, inputs)
    ensures !EverSlips(db, f, inputs, u)
    decreases |inputs|
  {
    if |inputs| > 0 {
      SafeStep(db, key, f, inputs[0], u);
      RunKeeps(db, inputs[0]);
      DrainStep(db, key, f, inputs[0]);
      SafeNeverSlips(Run(db, inputs[0]).0, key, f, inputs[1..], u);
    }
  }

  /** A safe folder drains completely, for any batch sizes. */
  lemma SafeBacklogDrains(db: Tables, key: Key, f: Folder, inputs: seq<Input>, u: int)
    requires Bookkept(db) && Warm(db, key, f) && ValidFolder(f)
    requires Safe(f.uids, LastSeen(StateOf(db, key)))
    requires AllDraining(key, f, inputs)
    requires |inputs| >= Backlog(db, key, f) && u in Above(db, key, f)
    ensures Mapped(After(db, inputs).items, key, u)
  {
    BacklogDrains(db, key, f, inputs);
    SafeNeverSlips(db, key, f, inputs, u);
  }

  /** A run in which nothing fails, one UID at a time. */
  function SingleRun(key: Key, f: Folder): Input
  {
    CleanRun(key, f).(batchSize := 1)
  }

  lemma SingleRunDrains(key: Key, f: Folder)
    ensures Draining(key, f, SingleRun(key, f))
  {
    CleanRunDescribes(key, f);
    assert SingleRun(key, f).upstream == CleanRun(key, f).upstream;
  }

  /** Message k is the first one above the checkpoint that the search finds. */
  ghost predicate FirstHit(uids: seq<int>, lastSeen: int, k: nat)
  {
    && k < |uids| && uids[k] > lastSeen
    && Hit(uids, SearchFrom(lastSeen + 1), uids[k])
    && forall j | 0 <= j < k && uids[j] > lastSeen :: !Hit(uids, SearchFrom(lastSeen + 1), uids[j])
  }

  lemma SingleBatch(db: Tables, key: Key, f: Folder, k: nat)
    requires Bookkept(db) && Warm(db, key, f) && ValidFolder(f)
    requires FirstHit(f.uids, LastSeen(StateOf(db, key)), k)
    ensures var run := SingleRun(key, f);
            && Completes(db, run) && !Cold(db, run) && SyncedUpTo(db, run) == LastSeen(StateOf(db, key)) > 0
            && Batch(db, run) == [f.uids[k]]
  {
    var run := SingleRun(key, f);
    SingleRunDrains(key, f);
    WarmRunCompletes(db, key, f, run);
    WarmBatch(db, run, f);
    var batch := Batch(db, run);
    assert |batch| <= 1 && batch != [];
    assert batch[0] in batch;
    var j :| 0 <= j < |f.uids| && f.uids[j] == batch[0];
    assert j >= k;
    assert f.uids[k] in batch;
  }

  /** Such a run moves the checkpoint there, and loses what lies between. */
  lemma SingleStep(db: Tables, key: Key, f: Folder, k: nat)
    requires Bookkept(db) && Warm(db, key, f) && ValidFolder(f) && FirstHit(f.uids, LastSeen(StateOf(db, key)), k)
    requires Unmapped(db, key, f) == Above(db, key, f)
    ensures var db' := Run(db, SingleRun(key, f)).0;
            && Bookkept(db') && Warm(db', key, f) && LastSeen(StateOf(db', key)) == f.uids[k]
            && Unmapped(db', key, f) == Above(db', key, f)
    ensures forall u | u in Above(db, key, f) && u < f.uids[k] :: Slips(db, SingleRun(key, f), f, u)
  {
    var run := SingleRun(key, f);
    SingleBatch(db, key, f, k);
    assert f.uids[k] in Above(db, key, f);
    OneUidRun(db, run, f.uids[k]);
    RunKeeps(db, run);
    var db' := Run(db, run).0;
    forall u | u in Above(db', key, f)
      ensures u in Unmapped(db', key, f)
    {
      assert u in Above(db, key, f) && u in Unmapped(db, key, f);
    }
    forall u | u in Above(db, key, f) && u < f.uids[k]
      ensures Slips(db, run, f, u)
    {
      assert Settles(db.items, key, Batch(db, run), run.outcome, 0);
      assert u in Unmapped(db, key, f);
      var j :| 0 <= j < |f.uids| && f.uids[j] == u;
      assert Overlooked(f.uids, SyncedUpTo(db, run), u);
    }
  }

  /** Behind the first message above the checkpoint an unsafe folder is still unsafe. */
  lemma UnsafeStays(uids: seq<int>, lastSeen: int, k: nat)
    requires StrictlyAscending(uids) && (forall u | u in uids :: u > 0)
    requires !Safe(uids, lastSeen) && AllSearched(uids, lastSeen)
    requires k < |uids| && uids[k] > lastSeen && (k > 0 ==> uids[k - 1] <= lastSeen)
    ensures !Safe(uids, uids[k])
  {
    var i :| 0 <= i < |uids| - 2 && uids[i] > lastSeen && uids[i] != i + 1;
    assert k <= i;
    if k == i {
      UidAtLeastNumber(uids, k);
      assert uids[k + 1] > uids[k] && k + 1 < uids[k];
    }
  }

  lemma {:induction false} FirstHitFound(uids: seq<int>, lastSeen: int, i: nat) returns (k: nat)
    requires i < |uids| && uids[i] > lastSeen && Hit(uids, SearchFrom(lastSeen + 1), uids[i])
    ensures FirstHit(uids, lastSeen, k) && k <= i
  {
    if j :| 0 <= j < i && uids[j] > lastSeen && Hit(uids, SearchFrom(lastSeen + 1), uids[j]) {
      k := FirstHitFound(uids, lastSeen, j);
    } else {
      k := i;
    }
  }

  /** When the search overlooks new mail, the next clean run loses it. */
  lemma UnsearchedLoses(db: Tables, key: Key, f: Folder) returns (u: int)
    requires Bookkept(db) && Warm(db, key, f) && ValidFolder(f)
    requires Unmapped(db, key, f) == Above(db, key, f) && !AllSearched(f.uids, LastSeen(StateOf(db, key)))
    ensures u in Above(db, key, f) && Slips(db, SingleRun(key, f), f, u)
  {
    var lastSeen, last := LastSeen(StateOf(db, key)), |f.uids| - 1;
    var i :| 0 <= i < last && f.uids[i] > lastSeen && i < lastSeen;
    HitIsNumbered(f.uids, lastSeen, last);
    var k := FirstHitFound(f.uids, lastSeen, last);
    HitIsNumbered(f.uids, lastSeen, k);
    SingleStep(db, key, f, k);
    u := f.uids[i];
    assert u in f.uids;
  }

  /** Otherwise the next clean run for one UID moves to the first message above the checkpoint. */
  lemma UnsafeStep(db: Tables, key: Key, f: Folder)
    requires Bookkept(db) && Warm(db, key, f) && ValidFolder(f)
    requires Unmapped(db, key, f) == Above(db, key, f)
    requires AllSearched(f.uids, LastSeen(StateOf(db, key))) && !Safe(f.uids, LastSeen(StateOf(db, key)))
    ensures var db' := Run(db, SingleRun(key, f)).0;
            && Bookkept(db') && Warm(db', key, f) && Unmapped(db', key, f) == Above(db', key, f)
            && !Safe(f.uids, LastSeen(StateOf(db', key))) && Above(db', key, f) <= Above(db, key, f)
            && LastSeen(StateOf(db, key)) < LastSeen(StateOf(db', key)) < f.uidNext
  {
    var lastSeen := LastSeen(StateOf(db, key));
    var i :| 0 <= i < |f.uids| - 2 && f.uids[i] > lastSeen && f.uids[i] != i + 1;
    var k := FirstAbove(f.uids, lastSeen, i);
    HitIsNumbered(f.uids, lastSeen, k);
    assert FirstHit(f.uids, lastSeen, k);
    UnsafeStays(f.uids, lastSeen, k);
    SingleStep(db, key, f, k);
    assert f.uids[k] in f.uids;
  }

  /** From an unsafe folder some draining runs lose a UID. */
  lemma {:induction false} UnsafeLoses(db: Tables, key: Key, f: Folder) returns (inputs: seq<Input>, u: int)
    requires Bookkept(db) && Warm(db, key, f) && ValidFolder(f)
    requires Unmapped(db, key, f) == Above(db, key, f) && !Safe(f.uids, LastSeen(StateOf(db, key)))
    ensures AllDraining(key, f, inputs) && u in Above(db, key, f) && EverSlips(db, f, inputs, u)
    decreases f.uidNext - LastSeen(StateOf(db, key))
  {
    var run := SingleRun(key, f);
    SingleRunDrains(key, f);
    if AllSearched(f.uids, LastSeen(StateOf(db, key))) {
      UnsafeStep(db, key, f);
      var more;
      more, u := UnsafeLoses(Run(db, run).0, key, f);
      inputs := [run] + more;
      assert inputs[1..] == more;
    } else {
      u := UnsearchedLoses(db, key, f);
      inputs := [run];
    }
  }

  /** No draining runs, of any batch sizes and whatever fails to fetch, lose new mail. */
  ghost predicate NeverLoses(db: Tables, key: Key, f: Folder)
  {
    forall inputs, u | AllDraining(key, f, inputs) && u in Above(db, key, f) :: !EverSlips(db, f, inputs, u)
  }

  /** For a folder whose UIDs above the checkpoint have no rows yet: no draining runs can lose
      any of them exactly when the folder is safe. */
  lemma {:induction false} NeverLosesIffSafe(db: Tables, key: Key, f: Folder)
    requires Bookkept(db) && Warm(db, key, f) && ValidFolder(f)
    requires Unmapped(db, key, f) == Above(db, key, f)
    ensures NeverLoses(db, key, f) <==> Safe(f.uids, LastSeen(StateOf(db, key)))
  {
    if Safe(f.uids, LastSeen(StateOf(db, key))) {
      forall inputs, u | AllDraining(key, f, inputs) && u in Above(db, key, f)
        ensures !EverSlips(db, f, inputs, u)
      {
        SafeNeverSlips(db, key, f, inputs, u);
      }
    } else {
      var inputs, u := UnsafeLoses(db, key, f);
    }
  }
}
