/** The bookkeeping of the sync service over any sequence of runs. */
module MailboxSyncLaws {
  import opened Options
  import opened Policy
  import opened MailboxSync

  // ---------------------------------------------------------------- runs

  const EMPTY := Tables([], map[])

  function After(db: Tables, inputs: seq<Input>): Tables
    decreases |inputs|
  {
    if |inputs| == 0 then db else After(Run(db, inputs[0]).0, inputs[1..])
  }

  // ---------------------------------------------------------------- bookkeeping

  /** Number of rows of a profile. */
  function Count(items: seq<Item>, profile: int): nat
  {
    if items == [] then 0
    else Count(items[..|items| - 1], profile) + if items[|items| - 1].key.profile == profile then 1 else 0
  }

  /** At most one row per (profile, folder, upstream UID). */
  ghost predicate Unique(items: seq<Item>)
  {
    forall i, j | 0 <= i < j < |items| ::
      !(items[i].key == items[j].key && items[i].upstreamUid == items[j].upstreamUid)
  }

  /** The virtual UIDs of every profile are 1, 2, 3, ... in insertion order. */
  ghost predicate Numbered(items: seq<Item>)
  {
    forall i | 0 <= i < |items| :: NumberedAt(items, i)
  }

  ghost predicate NumberedAt(items: seq<Item>, i: nat)
    requires i < |items|
  {
    items[i].id == i + 1 && items[i].mindwallUid == Some(Count(items[..i + 1], items[i].key.profile))
  }

  ghost predicate Bookkept(db: Tables)
  {
    && Unique(db.items)
    && Numbered(db.items)
    && forall k | k in db.states && db.states[k].lastSeenUid.Some? ::
         db.states[k].lastSeenUid.value > 0 && Mapped(db.items, k, db.states[k].lastSeenUid.value)
  }

  lemma NumberedPrefix(items: seq<Item>)
    requires items != [] && Numbered(items)
    ensures Numbered(items[..|items| - 1])
    ensures var last := items[|items| - 1];
            last.id == |items| && last.mindwallUid == Some(Count(items, last.key.profile))
  {
    var front := items[..|items| - 1];
    forall i | 0 <= i < |front|
      ensures NumberedAt(front, i)
    {
      assert NumberedAt(items, i);
      assert front[..i + 1] == items[..i + 1];
    }
    assert NumberedAt(items, |items| - 1);
    assert items[..|items|] == items;
  }

  /** In a numbered table the maximum virtual UID of a profile is its number of rows. */
  lemma {:induction false} MaxIsCount(items: seq<Item>, profile: int)
    requires Numbered(items)
    ensures AllocateMindwallUid(items, profile) == Count(items, profile) + 1
    ensures MaxMindwallUid(items, profile).None? ==> Count(items, profile) == 0
  {
    if items != [] {
      NumberedPrefix(items);
      MaxIsCount(items[..|items| - 1], profile);
    }
  }

  lemma AppendKeepsTable(items: seq<Item>, key: Key, uid: int, validity: int, m: Option<int>, v: Visibility)
    requires Unique(items) && Numbered(items) && !Mapped(items, key, uid)
    ensures Unique(items + [NewItem(items, key, uid, validity, m, v)])
    ensures Numbered(items + [NewItem(items, key, uid, validity, m, v)])
  {
    MaxIsCount(items, key.profile);
    var item := NewItem(items, key, uid, validity, m, v);
    var items' := items + [item];
    assert items'[..|items|] == items;
    forall i | 0 <= i < |items'|
      ensures NumberedAt(items', i)
    {
      if i < |items| {
        assert NumberedAt(items, i);
        assert items'[..i + 1] == items[..i + 1];
      } else {
        assert items'[..i + 1] == items';
      }
    }
  }

  lemma MappedGrows(items: seq<Item>, items': seq<Item>, key: Key, uid: int)
    requires items <= items' && Mapped(items, key, uid)
    ensures Mapped(items', key, uid)
  {
    var i :| 0 <= i < |items| && items[i].key == key && items[i].upstreamUid == uid;
    assert items'[i] == items[i];
  }

  predicate Crash(o: Outcome) { o.LookupCrash? || o.WriteCrash? }

  /** What one iteration keeps and does. */
  lemma ProcessKeeps(p: Progress, key: Key, validity: int, softHold: bool, uid: int, o: Outcome)
    requires Unique(p.items) && Numbered(p.items)
    ensures var p' := Process(p, key, validity, softHold, uid, o);
            && Unique(p'.items) && Numbered(p'.items) && p.items <= p'.items
            && p'.highest >= p.highest
            && (p'.highest == p.highest || (p'.highest == uid && Mapped(p'.items, key, uid)))
            && (!Crash(o) ==> Mapped(p'.items, key, uid))
            && (!Crash(o) && Mapped(p.items, key, uid) ==> p'.highest >= uid)
            && (forall i | |p.items| <= i < |p'.items| ::
                  p'.items[i].key == key && p'.items[i].upstreamUid == uid && p'.items[i].uidValidity == validity)
            && p'.result.newMessages + p'.result.skipped + p'.result.errors
               == p.result.newMessages + p.result.skipped + p.result.errors + 1
  {
    var p' := Process(p, key, validity, softHold, uid, o);
    if |p'.items| > |p.items| {
      var item := p'.items[|p.items|];
      AppendKeepsTable(p.items, key, uid, validity, item.messageId, item.visibility);
      assert item.key == key && item.upstreamUid == uid;
    }
  }

  /** What the whole loop keeps and does. */
  lemma {:induction false} LoopKeeps(p: Progress, key: Key, validity: int, softHold: bool, uids: seq<int>,
                                     outcome: int -> Outcome)
    requires Unique(p.items) && Numbered(p.items)
    ensures var p' := ProcessAll(p, key, validity, softHold, uids, outcome);
            && Unique(p'.items) && Numbered(p'.items) && p.items <= p'.items
            && p'.highest >= p.highest
            && (p'.highest == p.highest || (p'.highest in uids && Mapped(p'.items, key, p'.highest)))
            && (forall u | u in uids && !Crash(outcome(u)) :: Mapped(p'.items, key, u))
            && (forall u | u in uids && !Crash(outcome(u)) && Mapped(p.items, key, u) :: p'.highest >= u)
            && (forall i | |p.items| <= i < |p'.items| ::
                  p'.items[i].key == key && p'.items[i].upstreamUid in uids && p'.items[i].uidValidity == validity)
            && p'.result.newMessages + p'.result.skipped + p'.result.errors
               == p.result.newMessages + p.result.skipped + p.result.errors + |uids|
  {
    if uids != [] {
      var last := |uids| - 1;
      var front, uid := uids[..last], uids[last];
      assert uids == front + [uid];
      LoopKeeps(p, key, validity, softHold, front, outcome);
      var q := ProcessAll(p, key, validity, softHold, front, outcome);
      ProcessKeeps(q, key, validity, softHold, uid, outcome(uid));
      var p' := Process(q, key, validity, softHold, uid, outcome(uid));
      forall u | Mapped(q.items, key, u)
        ensures Mapped(p'.items, key, u)
      {
        MappedGrows(q.items, p'.items, key, u);
      }
      forall u | Mapped(p.items, key, u)
        ensures Mapped(q.items, key, u)
      {
        MappedGrows(p.items, q.items, key, u);
      }
    }
  }

  /** One run, whatever happens in it: rows are only appended, the table stays unique and
      densely numbered, the checkpoint points at a row and does not fall within one
      UIDVALIDITY, other folders' checkpoints are untouched, and the counters of a
      completed run add up to the size of its batch. */
  lemma RunKeeps(db: Tables, input: Input)
    requires Bookkept(db)
    ensures var (db', r) := Run(db, input);
            && Bookkept(db')
            && db.items <= db'.items
            && (forall k | k != input.key :: k in db.states <==> k in db'.states)
            && (forall k | k != input.key && k in db.states :: db'.states[k] == db.states[k])
            && input.key in db'.states
            && (var s, s' := StateOf(db, input.key), db'.states[input.key];
                s.uidValidity == s'.uidValidity ==> LastSeen(s) <= LastSeen(s'))
            && (Completes(db, input) ==> r.newMessages + r.skipped + r.errors == |Batch(db, input)|)
            && (!Completes(db, input) ==> db'.items == db.items)
  {
    var db' := Run(db, input).0;
    if Completes(db, input) {
      var lastSeen := SyncedUpTo(db, input);
      LoopKeeps(Progress(db.items, lastSeen, NO_RESULT), input.key, input.upstream.uidValidity, input.softHold,
                Batch(db, input), input.outcome);
    }
    forall k | k in db'.states && db'.states[k].lastSeenUid.Some?
      ensures db'.states[k].lastSeenUid.value > 0 && Mapped(db'.items, k, db'.states[k].lastSeenUid.value)
    {
      var s := StateOf(db, k);
      if s.lastSeenUid == db'.states[k].lastSeenUid {
        MappedGrows(db.items, db'.items, k, s.lastSeenUid.value);
      }
    }
  }

  /** Over any runs, including aborts, UIDVALIDITY resets and catch-all errors. */
  lemma {:induction false} BookkeepingOverRuns(db: Tables, inputs: seq<Input>)
    requires Bookkept(db)
    ensures Bookkept(After(db, inputs))
    ensures db.items <= After(db, inputs).items
    decreases |inputs|
  {
    if |inputs| > 0 {
      RunKeeps(db, inputs[0]);
      BookkeepingOverRuns(Run(db, inputs[0]).0, inputs[1..]);
    }
  }

  /** From empty tables every reachable table is bookkept. */
  lemma ReachableIsBookkept(inputs: seq<Input>)
    ensures Bookkept(After(EMPTY, inputs))
  {
    BookkeepingOverRuns(EMPTY, inputs);
  }

  // ---------------------------------------------------------------- what one run maps and passes

  /** The iteration for the UID at position i skips or syncs it, and so may raise the
      checkpoint: the UID is ingested, or mapped before, or failed earlier in a batch that
      lists it twice. */
  predicate Settles(items: seq<Item>, key: Key, uids: seq<int>, outcome: int -> Outcome, i: nat)
    requires i < |uids|
  {
    var o := outcome(uids[i]);
    !o.LookupCrash? && (o.Ingested? || Mapped(items, key, uids[i]) || (!o.WriteCrash? && uids[i] in uids[..i]))
  }

  lemma MappedAppend(items: seq<Item>, item: Item, key: Key, uid: int)
    ensures Mapped(items + [item], key, uid)
            <==> Mapped(items, key, uid) || (item.key == key && item.upstreamUid == uid)
  {
    var items' := items + [item];
    if Mapped(items, key, uid) {
      MappedGrows(items, items', key, uid);
    }
    if item.key == key && item.upstreamUid == uid {
      assert items'[|items|] == item;
    }
    if Mapped(items', key, uid) {
      var i :| 0 <= i < |items'| && items'[i].key == key && items'[i].upstreamUid == uid;
      assert i < |items| ==> items[i] == items'[i];
    }
  }

  lemma ProcessMaps(p: Progress, key: Key, validity: int, softHold: bool, uid: int, o: Outcome, u: int)
    ensures Mapped(Process(p, key, validity, softHold, uid, o).items, key, u)
            <==> Mapped(p.items, key, u) || (u == uid && !Crash(o))
  {
    var p' := Process(p, key, validity, softHold, uid, o);
    if p'.items != p.items {
      MappedAppend(p.items, p'.items[|p.items|], key, u);
    }
  }

  /** The loop maps exactly the UIDs of the batch that no catch-all error hits. */
  lemma {:induction false} LoopMaps(p: Progress, key: Key, validity: int, softHold: bool, uids: seq<int>,
                                    outcome: int -> Outcome, u: int)
    ensures Mapped(ProcessAll(p, key, validity, softHold, uids, outcome).items, key, u)
            <==> Mapped(p.items, key, u) || (u in uids && !Crash(outcome(u)))
  {
    if uids != [] {
      var last := |uids| - 1;
      assert uids == uids[..last] + [uids[last]];
      LoopMaps(p, key, validity, softHold, uids[..last], outcome, u);
      ProcessMaps(ProcessAll(p, key, validity, softHold, uids[..last], outcome), key, validity, softHold,
                  uids[last], outcome(uids[last]), u);
    }
  }

  ghost predicate SettlesAtLeast(items: seq<Item>, key: Key, uids: seq<int>, outcome: int -> Outcome, v: int)
  {
    exists i | 0 <= i < |uids| :: uids[i] >= v && Settles(items, key, uids, outcome, i)
  }

  lemma SettlesFront(items: seq<Item>, key: Key, uids: seq<int>, outcome: int -> Outcome, v: int)
    requires uids != []
    ensures var last := |uids| - 1;
            SettlesAtLeast(items, key, uids, outcome, v)
            <==> SettlesAtLeast(items, key, uids[..last], outcome, v)
                 || (uids[last] >= v && Settles(items, key, uids, outcome, last))
  {
    var front := uids[..|uids| - 1];
    forall i | 0 <= i < |front|
      ensures Settles(items, key, front, outcome, i) <==> Settles(items, key, uids, outcome, i)
    {
      assert front[..i] == uids[..i];
    }
  }

  /** The loop raises the checkpoint to v or beyond exactly when it settles such a UID. */
  lemma {:induction false} LoopRaises(p: Progress, key: Key, validity: int, softHold: bool, uids: seq<int>,
                                      outcome: int -> Outcome, v: int)
    requires v > p.highest
    ensures ProcessAll(p, key, validity, softHold, uids, outcome).highest >= v
            <==> SettlesAtLeast(p.items, key, uids, outcome, v)
  {
    if uids != [] {
      var last := |uids| - 1;
      LoopRaises(p, key, validity, softHold, uids[..last], outcome, v);
      LoopMaps(p, key, validity, softHold, uids[..last], outcome, uids[last]);
      SettlesFront(p.items, key, uids, outcome, v);
    }
  }

  /** The run settles some UID of its batch that is u or larger, and so passes u. */
  ghost predicate Passes(db: Tables, input: Input, u: int)
    requires Completes(db, input)
  {
    SettlesAtLeast(db.items, input.key, Batch(db, input), input.outcome, u)
  }

  /** A run maps exactly what was mapped before and what its batch holds uncrashed, and moves
      the checkpoint to a UID or beyond exactly when it passes it. */
  lemma RunMaps(db: Tables, input: Input, u: int)
    requires Completes(db, input)
    ensures var db', key := Run(db, input).0, input.key;
            && (Mapped(db'.items, key, u)
                <==> Mapped(db.items, key, u) || (u in Batch(db, input) && !Crash(input.outcome(u))))
            && (u > SyncedUpTo(db, input) ==> (u <= LastSeen(StateOf(db', key)) <==> Passes(db, input, u)))
  {
    var p := Progress(db.items, SyncedUpTo(db, input), NO_RESULT);
    LoopMaps(p, input.key, input.upstream.uidValidity, input.softHold, Batch(db, input), input.outcome, u);
    if u > SyncedUpTo(db, input) {
      LoopRaises(p, input.key, input.upstream.uidValidity, input.softHold, Batch(db, input), input.outcome, u);
    }
  }

  /** A UID of the batch gets a row in this run exactly when no row of its folder has that
      UID yet, under any UIDVALIDITY, and no catch-all error hits it. In particular, after a
      UIDVALIDITY change a reused UID is not synced again. */
  lemma FreshRowIffUnmapped(db: Tables, input: Input, uid: int)
    requires Bookkept(db) && Completes(db, input) && uid in Batch(db, input)
    ensures var items' := Run(db, input).0.items;
            (exists i :: |db.items| <= i < |items'| && items'[i].key == input.key && items'[i].upstreamUid == uid)
            <==> !Mapped(db.items, input.key, uid) && !Crash(input.outcome(uid))
  {
    var items' := Run(db, input).0.items;
    RunMaps(db, input, uid);
    RunKeeps(db, input);
    if Mapped(db.items, input.key, uid) {
      var j :| 0 <= j < |db.items| && db.items[j].key == input.key && db.items[j].upstreamUid == uid;
      assert items'[j] == db.items[j];
    } else if Mapped(items', input.key, uid) {
      var i :| 0 <= i < |items'| && items'[i].key == input.key && items'[i].upstreamUid == uid;
      assert items'[..|db.items|] == db.items;
    }
  }

  /** A UID the catch-all handler swallowed is passed by the checkpoint without a row exactly
      when it has no row yet and the run settles a larger UID of its batch. */
  lemma CrashedUidIsPassedIff(db: Tables, input: Input, uid: int)
    requires Bookkept(db) && Completes(db, input) && Crash(input.outcome(uid))
    requires uid in Batch(db, input) && uid > SyncedUpTo(db, input)
    ensures var db', batch := Run(db, input).0, Batch(db, input);
            uid <= LastSeen(StateOf(db', input.key)) && !Mapped(db'.items, input.key, uid)
            <==> !Mapped(db.items, input.key, uid) && Passes(db, input, uid + 1)
  {
    var batch := Batch(db, input);
    RunMaps(db, input, uid);
    if Passes(db, input, uid) && !Mapped(db.items, input.key, uid) {
      var i :| 0 <= i < |batch| && batch[i] >= uid && Settles(db.items, input.key, batch, input.outcome, i);
      assert batch[i] != uid;
      assert Passes(db, input, uid + 1);
    }
    if Passes(db, input, uid + 1) {
      var i :| 0 <= i < |batch| && batch[i] >= uid + 1 && Settles(db.items, input.key, batch, input.outcome, i);
      assert Passes(db, input, uid);
    }
  }

  // ---------------------------------------------------------------- what is passed is passed for good

  lemma WarmBatchAbove(db: Tables, input: Input)
    requires Completes(db, input) && SyncedUpTo(db, input) != 0
    ensures forall u | u in Batch(db, input) :: u > SyncedUpTo(db, input)
  {
    var lastSeen := SyncedUpTo(db, input);
    var backlog := UidsInRange(input.upstream.search(SearchFrom(lastSeen + 1)), lastSeen + 1);
    forall u | u in Batch(db, input)
      ensures u > lastSeen
    {
      assert u in backlog;
    }
  }

  /** Some run of the folder has the UID in its batch. */
  ghost predicate EverChosen(db: Tables, key: Key, inputs: seq<Input>, u: int)
    decreases |inputs|
  {
    |inputs| > 0 &&
    ((inputs[0].key == key && Completes(db, inputs[0]) && u in Batch(db, inputs[0]))
     || EverChosen(Run(db, inputs[0]).0, key, inputs[1..], u))
  }

  /** The checkpoint of the folder is set, under this UIDVALIDITY, and has reached u. */
  predicate Reached(db: Tables, key: Key, validity: int, u: int)
  {
    var s := StateOf(db, key);
    s.uidValidity == Some(validity) && s.lastSeenUid.Some? && u <= s.lastSeenUid.value
  }

  lemma ReachedStays(db: Tables, key: Key, validity: int, input: Input, u: int)
    requires Bookkept(db) && Reached(db, key, validity, u)
    requires input.key == key && input.upstream.Connected? ==> input.upstream.uidValidity == validity
    ensures var db' := Run(db, input).0;
            Reached(db', key, validity, u) && (Mapped(db'.items, key, u) <==> Mapped(db.items, key, u))
    ensures input.key == key && Completes(db, input) ==> u !in Batch(db, input)
  {
    RunKeeps(db, input);
    if Completes(db, input) {
      if input.key == key {
        WarmBatchAbove(db, input);
        RunMaps(db, input, u);
      } else {
        LoopKeeps(Progress(db.items, SyncedUpTo(db, input), NO_RESULT), input.key, input.upstream.uidValidity,
                  input.softHold, Batch(db, input), input.outcome);
        OtherKeysUnmapped(db.items, Run(db, input).0.items, key, u);
      }
    }
  }

  lemma OtherKeysUnmapped(items: seq<Item>, items': seq<Item>, key: Key, u: int)
    requires items <= items' && forall i | |items| <= i < |items'| :: items'[i].key != key
    ensures Mapped(items', key, u) <==> Mapped(items, key, u)
  {
    if Mapped(items, key, u) {
      MappedGrows(items, items', key, u);
    }
    if i :| 0 <= i < |items'| && items'[i].key == key && items'[i].upstreamUid == u {
      assert items[i] == items'[i];
    }
  }

  /** As long as the UIDVALIDITY stays, whatever else happens in any runs of any folders: a UID
      at or below the checkpoint is never chosen again, so one without a row never gets one. */
  lemma {:induction false} PassedForGood(db: Tables, key: Key, validity: int, inputs: seq<Input>, u: int)
    requires Bookkept(db) && Reached(db, key, validity, u)
    requires forall i | 0 <= i < |inputs| && inputs[i].key == key && inputs[i].upstream.Connected? ::
               inputs[i].upstream.uidValidity == validity
    ensures !EverChosen(db, key, inputs, u)
    ensures Mapped(After(db, inputs).items, key, u) <==> Mapped(db.items, key, u)
    decreases |inputs|
  {
    if |inputs| > 0 {
      ReachedStays(db, key, validity, inputs[0], u);
      RunKeeps(db, inputs[0]);
      PassedForGood(Run(db, inputs[0]).0, key, validity, inputs[1..], u);
    }
  }
}
