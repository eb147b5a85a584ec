/** What one sync run writes and reports, row by row and count by count. */
module SyncOutcomeLaws {
  import opened Options
  import opened Policy
  import opened MailboxSync
  import opened MailboxSyncLaws

  // ---------------------------------------------------------------- the fate of each UID of a batch

  datatype Fate = Crashed | Skipped | NotIngested | Synced

  /** What becomes of the UID at position i of a batch, told from the rows before the run: a
      UID is skipped when it has a row by then, from before or from earlier in the batch. */
  function FateAt(items: seq<Item>, key: Key, uids: seq<int>, outcome: int -> Outcome, i: nat): Fate
    requires i < |uids|
  {
    var u := uids[i];
    var o := outcome(u);
    if o.LookupCrash? then Crashed
    else if Mapped(items, key, u) || (u in uids[..i] && !o.WriteCrash?) then Skipped
    else match o
      case Ingested(_, _) => Synced
      case WriteCrash(_) => Crashed
      case _ => NotIngested
  }

  /** Verdicts whose messages are held back in quarantine. */
  predicate Held(verdict: Option<Verdict>, softHold: bool)
  {
    || verdict == Some(Quarantine) || verdict == Some(Reject) || verdict == Some(EscalateToAdmin)
    || (verdict == Some(SoftHold) && softHold)
  }

  /** Position i counts as quarantined: its message was analysed and its verdict holds it back,
      whether or not its row could be written. */
  predicate CountsAsQuarantined(items: seq<Item>, key: Key, uids: seq<int>, outcome: int -> Outcome, softHold: bool,
                                i: nat)
    requires i < |uids|
  {
    var o, fate := outcome(uids[i]), FateAt(items, key, uids, outcome, i);
    && (fate == Synced || (fate == Crashed && o.WriteCrash?)) && (o.Ingested? || o.WriteCrash?)
    && Held(o.verdict, softHold)
  }

  /** Number of the first n positions with a fate. */
  function Tally(items: seq<Item>, key: Key, uids: seq<int>, outcome: int -> Outcome, fate: Fate, n: nat): nat
    requires n <= |uids|
  {
    if n == 0 then 0
    else
      Tally(items, key, uids, outcome, fate, n - 1)
      + if FateAt(items, key, uids, outcome, n - 1) == fate then 1 else 0
  }

  function QuarantineTally(items: seq<Item>, key: Key, uids: seq<int>, outcome: int -> Outcome, softHold: bool,
                           n: nat): nat
    requires n <= |uids|
  {
    if n == 0 then 0
    else
      QuarantineTally(items, key, uids, outcome, softHold, n - 1)
      + if CountsAsQuarantined(items, key, uids, outcome, softHold, n - 1) then 1 else 0
  }

  /** The counters of a run, told by fates. */
  function Counted(items: seq<Item>, key: Key, uids: seq<int>, outcome: int -> Outcome, softHold: bool, n: nat): Result
    requires n <= |uids|
  {
    Result(Tally(items, key, uids, outcome, Synced, n),
           Tally(items, key, uids, outcome, Skipped, n),
           Tally(items, key, uids, outcome, NotIngested, n) + Tally(items, key, uids, outcome, Crashed, n),
           QuarantineTally(items, key, uids, outcome, softHold, n),
           false, false)
  }

  /** A row that tells its UID's outcome: ingestion errors hold no message; a message is in
      quarantine exactly when its verdict holds it back, hidden exactly when it is a soft hold
      with the setting off, and visible otherwise, also when the analysis raised. */
  ghost predicate TellsOutcome(item: Item, o: Outcome, softHold: bool)
  {
    if o.Ingested? then
      && item.messageId == Some(o.messageId)
      && (item.visibility == Quarantined <==> Held(o.verdict, softHold))
      && (item.visibility == Hidden <==> o.verdict == Some(SoftHold) && !softHold)
      && (item.visibility == Visible <==> o.verdict in {None, Some(Allow), Some(AllowWithBanner)})
    else
      && (o.FetchFailed? || o.IngestFailed?)
      && item.messageId == None && item.visibility == IngestionError
  }

  lemma ProcessTells(p: Progress, key: Key, validity: int, softHold: bool, uid: int, o: Outcome)
    ensures var p' := Process(p, key, validity, softHold, uid, o);
            && p.items <= p'.items
            && forall i | |p.items| <= i < |p'.items| ::
                 && p'.items[i].key == key && p'.items[i].upstreamUid == uid && p'.items[i].uidValidity == validity
                 && TellsOutcome(p'.items[i], o, softHold)
  {
  }

  ghost predicate RowsTell(items: seq<Item>, from: nat, key: Key, validity: int, softHold: bool, uids: seq<int>,
                           outcome: int -> Outcome)
  {
    forall i | from <= i < |items| ::
      && items[i].key == key && items[i].upstreamUid in uids && items[i].uidValidity == validity
      && TellsOutcome(items[i], outcome(items[i].upstreamUid), softHold)
  }

  lemma {:induction false} LoopTells(p: Progress, key: Key, validity: int, softHold: bool, uids: seq<int>,
                                     outcome: int -> Outcome)
    ensures var p' := ProcessAll(p, key, validity, softHold, uids, outcome);
            p.items <= p'.items && RowsTell(p'.items, |p.items|, key, validity, softHold, uids, outcome)
  {
    if uids != [] {
      var last := |uids| - 1;
      assert uids == uids[..last] + [uids[last]];
      LoopTells(p, key, validity, softHold, uids[..last], outcome);
      ProcessTells(ProcessAll(p, key, validity, softHold, uids[..last], outcome), key, validity, softHold,
                   uids[last], outcome(uids[last]));
    }
  }

  /** Every row a run adds is one of its folder and UIDVALIDITY, for a UID of the batch, and
      tells that UID's outcome. */
  lemma RowsTellOutcomes(db: Tables, input: Input, i: nat)
    requires Completes(db, input) && |db.items| <= i < |Run(db, input).0.items|
    ensures var item := Run(db, input).0.items[i];
            && item.key == input.key && item.uidValidity == input.upstream.uidValidity
            && item.upstreamUid in Batch(db, input)
            && TellsOutcome(item, input.outcome(item.upstreamUid), input.softHold)
  {
    LoopTells(Progress(db.items, SyncedUpTo(db, input), NO_RESULT), input.key, input.upstream.uidValidity,
              input.softHold, Batch(db, input), input.outcome);
  }

  /** A new UID of the batch that does not crash gets one row in the run, which tells its outcome. */
  lemma FreshRowTellsOutcome(db: Tables, input: Input, u: int) returns (i: nat)
    requires Bookkept(db) && Completes(db, input) && u in Batch(db, input)
    requires !Mapped(db.items, input.key, u) && !Crash(input.outcome(u))
    ensures |db.items| <= i < |Run(db, input).0.items|
    ensures var item := Run(db, input).0.items[i];
            && item.key == input.key && item.upstreamUid == u && item.uidValidity == input.upstream.uidValidity
            && TellsOutcome(item, input.outcome(u), input.softHold)
    ensures forall j | 0 <= j < |Run(db, input).0.items| && j != i ::
              !(Run(db, input).0.items[j].key == input.key && Run(db, input).0.items[j].upstreamUid == u)
  {
    FreshRowIffUnmapped(db, input, u);
    var items' := Run(db, input).0.items;
    i :| |db.items| <= i < |items'| && items'[i].key == input.key && items'[i].upstreamUid == u;
    RowsTellOutcomes(db, input, i);
    RunKeeps(db, input);
  }

  // ---------------------------------------------------------------- counters

  lemma FateOfPrefix(items: seq<Item>, key: Key, uids: seq<int>, outcome: int -> Outcome, softHold: bool, n: nat)
    requires n < |uids|
    ensures Counted(items, key, uids[..|uids| - 1], outcome, softHold, n)
            == Counted(items, key, uids, outcome, softHold, n)
  {
    if n > 0 {
      FateOfPrefix(items, key, uids, outcome, softHold, n - 1);
      assert uids[..|uids| - 1][..n - 1] == uids[..n - 1];
    }
  }

  lemma ProcessCounts(p: Progress, key: Key, validity: int, softHold: bool, uids: seq<int>, outcome: int -> Outcome,
                      items: seq<Item>, i: nat)
    requires i < |uids|
    requires Mapped(p.items, key, uids[i])
             <==> Mapped(items, key, uids[i]) || (uids[i] in uids[..i] && !Crash(outcome(uids[i])))
    ensures var r, r' := p.result, Process(p, key, validity, softHold, uids[i], outcome(uids[i])).result;
            var fate := FateAt(items, key, uids, outcome, i);
            && r'.newMessages == r.newMessages + (if fate == Synced then 1 else 0)
            && r'.skipped == r.skipped + (if fate == Skipped then 1 else 0)
            && r'.errors == r.errors + (if fate == NotIngested || fate == Crashed then 1 else 0)
            && r'.quarantined == r.quarantined
                                 + (if CountsAsQuarantined(items, key, uids, outcome, softHold, i) then 1 else 0)
            && r'.failedAuth == r.failedAuth && r'.failedConnection == r.failedConnection
  {
  }

  lemma {:induction false} LoopCounts(items: seq<Item>, highest: int, key: Key, validity: int, softHold: bool,
                                      uids: seq<int>, outcome: int -> Outcome)
    ensures ProcessAll(Progress(items, highest, NO_RESULT), key, validity, softHold, uids, outcome).result
         == Counted(items, key, uids, outcome, softHold, |uids|)
  {
    if uids != [] {
      var last := |uids| - 1;
      var front, start := uids[..last], Progress(items, highest, NO_RESULT);
      LoopCounts(items, highest, key, validity, softHold, front, outcome);
      LoopMaps(start, key, validity, softHold, front, outcome, uids[last]);
      ProcessCounts(ProcessAll(start, key, validity, softHold, front, outcome), key, validity, softHold, uids, outcome,
                    items, last);
      FateOfPrefix(items, key, uids, outcome, softHold, last);
    }
  }

  /** The summary of a completed run counts the fates of its batch: synced messages are new,
      mapped ones skipped, all others errors; quarantined are those a verdict held back. */
  lemma RunCounts(db: Tables, input: Input)
    requires Completes(db, input)
    ensures Run(db, input).1
         == Counted(db.items, input.key, Batch(db, input), input.outcome, input.softHold, |Batch(db, input)|)
  {
    LoopCounts(db.items, SyncedUpTo(db, input), input.key, input.upstream.uidValidity, input.softHold,
               Batch(db, input), input.outcome);
  }

  // ---------------------------------------------------------------- checkpoint row and summary

  /** What the checkpoint row of a completed run says: no error leaves it idle, errors with new
      messages partial, and errors alone in error. */
  lemma CompletedRow(db: Tables, input: Input)
    requires Completes(db, input)
    ensures var (db', r) := Run(db, input);
            var s := StateOf(db', input.key);
            && (s.status == Idle <==> r.errors == 0)
            && (s.status == Partial <==> r.errors > 0 && r.newMessages > 0)
            && (s.status == Error <==> r.errors > 0 && r.newMessages == 0)
            && s.lastSyncCount == Some(r.newMessages)
            && s.uidValidity == Some(input.upstream.uidValidity)
            && !r.failedAuth && !r.failedConnection
  {
    RunCounts(db, input);
  }

  /** When a run completes, and what it leaves when it does not: no rows, an error status, the
      checkpoint as it was (dropped when the UIDVALIDITY changed before a later failure), and
      a summary that tells bad credentials from a bad connection. */
  lemma AbortedRow(db: Tables, input: Input)
    ensures Completes(db, input)
            <==> && input.upstream.Connected? && input.upstream.selectable
                 && input.upstream.search(SearchAll) != Raised
                 && (SyncedUpTo(db, input) != 0 ==>
                       input.upstream.search(SearchFrom(SyncedUpTo(db, input) + 1)) != Raised)
    ensures !Completes(db, input) ==>
              var (db', r) := Run(db, input);
              var s, s' := StateOf(db, input.key), StateOf(db', input.key);
              && db'.items == db.items && s'.status == Error && s'.lastSyncCount == s.lastSyncCount
              && (r.failedAuth <==> input.upstream == DecryptFailed || input.upstream == ConnectFailed(true))
              && (r.failedConnection <==> !r.failedAuth)
              && r.newMessages == r.skipped == r.errors == r.quarantined == 0
              && (s'.lastSeenUid == s.lastSeenUid
                  || (s'.lastSeenUid == None && s.uidValidity.Some? && s'.uidValidity != s.uidValidity))
              && (!input.upstream.Connected? ==> s'.uidValidity == s.uidValidity && s'.lastSeenUid == s.lastSeenUid)
  {
  }

  /** The first run of a folder starts from an idle row without a checkpoint. */
  lemma FirstRunIsCold(db: Tables, input: Input)
    requires input.key !in db.states && input.upstream.Connected?
    ensures SyncedUpTo(db, input) == 0 && StateOf(db, input.key) == SyncState(None, None, Idle, None)
  {
  }

  // ---------------------------------------------------------------- batch sizes

  /** A batch takes as many UIDs as it may. A batch size of 0 means the whole folder when cold
      and nothing when warm; a negative one leaves out that many UIDs, the first ones when cold
      and the last ones when warm. */
  lemma BatchLength(db: Tables, input: Input)
    requires Completes(db, input)
    ensures var cold, n := SyncedUpTo(db, input) == 0, input.batchSize;
            var found := if cold then AllUids(input.upstream.search(SearchAll))
                         else UidsInRange(input.upstream.search(SearchFrom(SyncedUpTo(db, input) + 1)),
                                          SyncedUpTo(db, input) + 1);
            var size := if n > 0 then n else if n == 0 then (if cold then |found| else 0) else |found| + n;
            var taken := if size < 0 then 0 else if size > |found| then |found| else size;
            Batch(db, input) == if cold then found[|found| - taken..] else found[..taken]
  {
  }

  // ---------------------------------------------------------------- end to end

  /** A soft hold under the default setting is synced as hidden. */
  lemma SoftHoldIsHidden(db: Tables, input: Input, u: int, m: int) returns (i: nat)
    requires Bookkept(db) && Completes(db, input) && u in Batch(db, input) && !Mapped(db.items, input.key, u)
    requires input.outcome(u) == Ingested(m, Some(SoftHold)) && !input.softHold
    ensures |db.items| <= i < |Run(db, input).0.items|
    ensures var item := Run(db, input).0.items[i];
            item.upstreamUid == u && item.messageId == Some(m) && item.visibility == Hidden
  {
    i := FreshRowTellsOutcome(db, input, u);
  }
}
