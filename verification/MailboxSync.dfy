/** Incremental sync of upstream IMAP folders into the mailbox item table
    (app/mailboxes/sync_service.py, with the upstream contract of app/proxies/imap/client.py).

    The two tables are a sequence of rows and a map of checkpoints. What the network, the
    ingestion pipeline and the analysis do with one UID is an input of the run. */
module MailboxSync {
  import opened Options
  import opened Policy

  // ---------------------------------------------------------------- tables

  datatype Key = Key(profile: int, folder: string)

  datatype Item = Item(
    id: int, key: Key, upstreamUid: int, uidValidity: int,
    messageId: Option<int>, visibility: Visibility, mindwallUid: Option<int>)

  datatype SyncStatus = Idle | Syncing | Error | Partial

  datatype SyncState = SyncState(
    uidValidity: Option<int>, lastSeenUid: Option<int>, status: SyncStatus, lastSyncCount: Option<int>)

  const NEW_STATE := SyncState(None, None, Idle, None)

  datatype Tables = Tables(items: seq<Item>, states: map<Key, SyncState>)

  // ---------------------------------------------------------------- inputs of one run

  /** What happens to one UID of the batch. The two Crash outcomes reach the catch-all
      handler: before the mapping lookup answers, or while the row is written. */
  datatype Outcome =
    | LookupCrash
    | FetchFailed
    | IngestFailed
    | Ingested(messageId: int, verdict: Option<Verdict>)   // None: the analysis raised
    | WriteCrash(verdict: Option<Verdict>)

  /** The reply of a UID SEARCH: raised, not OK, or a list of UIDs in any order. */
  datatype Reply = Raised | NotOk | Uids(uids: seq<int>)

  /** The search keys a run sends: UID SEARCH ALL and UID SEARCH min:*. */
  datatype Search = SearchAll | SearchFrom(min: int)

  datatype Upstream =
    | DecryptFailed
    | ConnectFailed(authentication: bool)
    | Connected(selectable: bool, uidValidity: int, search: Search -> Reply)

  datatype Input = Input(key: Key, upstream: Upstream, batchSize: int, softHold: bool, outcome: int -> Outcome)

  datatype Result = Result(
    newMessages: nat, skipped: nat, errors: nat, quarantined: nat,
    failedAuth: bool, failedConnection: bool)

  const NO_RESULT := Result(0, 0, 0, 0, false, false)

  // ---------------------------------------------------------------- the upstream client

  ghost predicate Ascending(s: seq<int>)
  {
    forall i, j | 0 <= i < j < |s| :: s[i] <= s[j]
  }

  function Insert(x: int, s: seq<int>): (r: seq<int>)
    ensures |r| == |s| + 1
    ensures forall u :: u in r <==> u == x || u in s
  {
    if s == [] || x <= s[0] then [x] + s
    else [s[0]] + Insert(x, s[1..])
  }

  lemma {:induction false} InsertAscending(x: int, s: seq<int>)
    requires Ascending(s)
    ensures Ascending(Insert(x, s))
  {
    if s != [] && x > s[0] {
      InsertAscending(x, s[1..]);
      var r := Insert(x, s[1..]);
      forall k | 0 <= k < |r|
        ensures s[0] <= r[k]
      {
        assert r[k] in r;
      }
    }
  }

  function Sorted(s: seq<int>): (r: seq<int>)
    ensures |r| == |s|
    ensures forall u :: u in r <==> u in s
    ensures Ascending(r)
  {
    if s == [] then []
    else
      var rest := Sorted(s[1..]);
      InsertAscending(s[0], rest);
      Insert(s[0], rest)
  }

  function AtLeast(s: seq<int>, min: int): (r: seq<int>)
    ensures forall u :: u in r <==> u in s && min <= u
  {
    if s == [] then []
    else if s[0] >= min then [s[0]] + AtLeast(s[1..], min) else AtLeast(s[1..], min)
  }

  lemma {:induction false} AtLeastAscending(s: seq<int>, min: int)
    requires Ascending(s)
    ensures Ascending(AtLeast(s, min))
  {
    if s != [] {
      AtLeastAscending(s[1..], min);
      var rest := AtLeast(s[1..], min);
      forall k | 0 <= k < |rest|
        ensures s[0] <= rest[k]
      {
        assert rest[k] in s[1..];
      }
    }
  }

  /** All UIDs of the folder, sorted; empty when the search is not OK. */
  function AllUids(reply: Reply): seq<int>
    requires !reply.Raised?
  {
    if reply.NotOk? then [] else Sorted(reply.uids)
  }

  /** The UIDs of the reply to "min:*" that are at least min, sorted. */
  function UidsInRange(reply: Reply, min: int): seq<int>
    requires !reply.Raised?
  {
    if reply.NotOk? then [] else AtLeast(Sorted(reply.uids), min)
  }

  /** s[-n:] as Python evaluates it, also for n <= 0. */
  function LastN(s: seq<int>, n: int): seq<int>
  {
    if n > 0 then (if n >= |s| then s else s[|s| - n..])
    else if -n >= |s| then [] else s[-n..]
  }

  /** s[:n] as Python evaluates it, also for n < 0. */
  function FirstN(s: seq<int>, n: int): seq<int>
  {
    if n >= |s| then s
    else if n >= 0 then s[..n]
    else if |s| + n <= 0 then [] else s[..|s| + n]
  }

  // ---------------------------------------------------------------- row helpers

  predicate Mapped(items: seq<Item>, key: Key, uid: int)
  {
    exists i | 0 <= i < |items| :: items[i].key == key && items[i].upstreamUid == uid
  }

  /** SELECT MAX(mindwall_uid) over the profile's rows; NULLs are ignored. */
  function MaxMindwallUid(items: seq<Item>, profile: int): Option<int>
  {
    if items == [] then None
    else
      var rest := MaxMindwallUid(items[..|items| - 1], profile);
      var last := items[|items| - 1];
      if last.key.profile == profile && last.mindwallUid.Some?
         && (rest.None? || last.mindwallUid.value > rest.value)
      then last.mindwallUid else rest
  }

  function AllocateMindwallUid(items: seq<Item>, profile: int): int
  {
    var m := MaxMindwallUid(items, profile);
    (if m.Some? then m.value else 0) + 1
  }

  /** The row inserted for a UID: its position in the table is its id. */
  function NewItem(items: seq<Item>, key: Key, uid: int, validity: int, messageId: Option<int>, v: Visibility): Item
  {
    Item(|items| + 1, key, uid, validity, messageId, v, Some(AllocateMindwallUid(items, key.profile)))
  }

  function EffectiveVerdict(verdict: Option<Verdict>): Verdict
  {
    if verdict.Some? then verdict.value else Allow
  }

  // ---------------------------------------------------------------- specification of the loop

  datatype Progress = Progress(items: seq<Item>, highest: int, result: Result)

  /** One iteration: what it adds to the table, the checkpoint and the counters. */
  function Process(p: Progress, key: Key, validity: int, softHold: bool, uid: int, o: Outcome): Progress
  {
    var r := p.result;
    var raised := if uid > p.highest then uid else p.highest;
    if o.LookupCrash? then
      p.(result := r.(errors := r.errors + 1))
    else if Mapped(p.items, key, uid) then
      p.(highest := raised, result := r.(skipped := r.skipped + 1))
    else match o
      case FetchFailed =>
        p.(items := p.items + [NewItem(p.items, key, uid, validity, None, IngestionError)],
           result := r.(errors := r.errors + 1))
      case IngestFailed =>
        p.(items := p.items + [NewItem(p.items, key, uid, validity, None, IngestionError)],
           result := r.(errors := r.errors + 1))
      case Ingested(messageId, verdict) =>
        var v := VerdictToVisibility(EffectiveVerdict(verdict), softHold);
        Progress(p.items + [NewItem(p.items, key, uid, validity, Some(messageId), v)], raised,
                 r.(newMessages := r.newMessages + 1,
                    quarantined := r.quarantined + if v == Quarantined then 1 else 0))
      case WriteCrash(verdict) =>
        var v := VerdictToVisibility(EffectiveVerdict(verdict), softHold);
        p.(result := r.(errors := r.errors + 1,
                        quarantined := r.quarantined + if v == Quarantined then 1 else 0))
      case LookupCrash => p
  }

  function ProcessAll(p: Progress, key: Key, validity: int, softHold: bool, uids: seq<int>,
                      outcome: int -> Outcome): Progress
  {
    if uids == [] then p
    else
      var last := |uids| - 1;
      Process(ProcessAll(p, key, validity, softHold, uids[..last], outcome),
              key, validity, softHold, uids[last], outcome(uids[last]))
  }

  // ---------------------------------------------------------------- specification of a run

  function StateOf(db: Tables, key: Key): SyncState
  {
    if key in db.states then db.states[key] else NEW_STATE
  }

  /** The state after the folder was selected: a changed UIDVALIDITY drops the checkpoint. */
  function Selected(s: SyncState, validity: int): SyncState
  {
    var reset := s.uidValidity.Some? && s.uidValidity.value != validity;
    s.(uidValidity := Some(validity), lastSeenUid := if reset then None else s.lastSeenUid)
  }

  /** state.last_seen_uid or 0 */
  function LastSeen(s: SyncState): int
  {
    if s.lastSeenUid.Some? then s.lastSeenUid.value else 0
  }

  /** The checkpoint a run that selected its folder starts from; 0 when there is none. */
  function SyncedUpTo(db: Tables, input: Input): int
    requires input.upstream.Connected?
  {
    LastSeen(Selected(StateOf(db, input.key), input.upstream.uidValidity))
  }

  /** Whether the upstream conversation gets as far as a batch. */
  predicate Completes(db: Tables, input: Input)
  {
    && input.upstream.Connected?
    && input.upstream.selectable
    && !input.upstream.search(SearchAll).Raised?
    && (SyncedUpTo(db, input) != 0 ==> !input.upstream.search(SearchFrom(SyncedUpTo(db, input) + 1)).Raised?)
  }

  function Batch(db: Tables, input: Input): seq<int>
    requires Completes(db, input)
  {
    var lastSeen := SyncedUpTo(db, input);
    if lastSeen == 0 then LastN(AllUids(input.upstream.search(SearchAll)), input.batchSize)
    else FirstN(UidsInRange(input.upstream.search(SearchFrom(lastSeen + 1)), lastSeen + 1), input.batchSize)
  }

  function Aborted(auth: bool): Result
  {
    NO_RESULT.(failedAuth := auth, failedConnection := !auth)
  }

  function FinalStatus(r: Result): SyncStatus
  {
    if r.errors > 0 && r.newMessages == 0 then Error else if r.errors > 0 then Partial else Idle
  }

  function Loop(db: Tables, input: Input): Progress
    requires Completes(db, input)
  {
    ProcessAll(Progress(db.items, SyncedUpTo(db, input), NO_RESULT), input.key, input.upstream.uidValidity,
               input.softHold, Batch(db, input), input.outcome)
  }

  /** The tables and the summary after one run. */
  function Run(db: Tables, input: Input): (Tables, Result)
  {
    var s := StateOf(db, input.key);
    if Completes(db, input) then
      var selected := Selected(s, input.upstream.uidValidity);
      var p := Loop(db, input);
      var s' := SyncState(selected.uidValidity,
                          if p.highest > LastSeen(selected) then Some(p.highest) else selected.lastSeenUid,
                          FinalStatus(p.result), Some(p.result.newMessages));
      (Tables(p.items, db.states[input.key := s']), p.result)
    else
      var u := input.upstream;
      var reached := u.Connected? && u.selectable && !u.search(SearchAll).Raised?;
      var s' := (if reached then Selected(s, u.uidValidity) else s).(status := Error);
      (db.(states := db.states[input.key := s']),
       Aborted(u.DecryptFailed? || (u.ConnectFailed? && u.authentication)))
  }

  /** The tables while a run is in progress: its checkpoint row says so. */
  function InProgress(db: Tables, key: Key): Tables
  {
    db.(states := db.states[key := StateOf(db, key).(status := Syncing)])
  }

  /** A run that selected its folder overwrites the status it started with. */
  lemma SyncingIsTransient(db: Tables, input: Input)
    requires input.upstream.Connected?
    ensures var (a, r) := Run(InProgress(db, input.key), input);
            a.items == Run(db, input).0.items && a.states == Run(db, input).0.states && r == Run(db, input).1
  {
  }

  /** What a run that does not get to search its folder leaves behind. */
  lemma AbortedRun(db: Tables, input: Input)
    requires var u := input.upstream; !(u.Connected? && u.selectable && !u.search(SearchAll).Raised?)
    ensures var u := input.upstream;
            Run(db, input) == (db.(states := db.states[input.key := StateOf(db, input.key).(status := Error)]),
                               Aborted(u.DecryptFailed? || (u.ConnectFailed? && u.authentication)))
  {
  }

  // ---------------------------------------------------------------- the service

  class SyncService {
    var items: seq<Item>
    var states: map<Key, SyncState>

    function Contents(): Tables
      reads this
    {
      Tables(items, states)
    }

    /** Loads the checkpoint row of a folder, creating it when there is none. */
    method GetSyncState(key: Key) returns (state: SyncState)
      modifies this`states
      ensures state == StateOf(old(Contents()), key)
      ensures states == old(states)[key := state]
    {
      if key !in states {
        states := states[key := NEW_STATE];
      }
      state := states[key];
    }

    /** Writes a changed checkpoint row back. */
    method Flush(key: Key, state: SyncState)
      modifies this`states
      ensures states == old(states)[key := state]
    {
      states := states[key := state];
    }

    method UidAlreadyMapped(key: Key, uid: int) returns (mapped: bool)
      ensures mapped <==> Mapped(items, key, uid)
    {
      mapped := Mapped(items, key, uid);
    }

    method RecordFailedItem(key: Key, uid: int, validity: int)
      modifies this`items
      ensures items == old(items) + [NewItem(old(items), key, uid, validity, None, IngestionError)]
    {
      var mindwallUid := AllocateMindwallUid(items, key.profile);
      items := items + [Item(|items| + 1, key, uid, validity, None, IngestionError, Some(mindwallUid))];
    }

    /** Records a fatal failure of the run. */
    method Abort(key: Key, state: SyncState, authentication: bool) returns (result: Result)
      modifies this`states
      ensures states == old(states)[key := state.(status := Error)]
      ensures result == Aborted(authentication)
    {
      Flush(key, state.(status := Error));
      result := NO_RESULT;
      if authentication {
        result := result.(failedAuth := true);
      } else {
        result := result.(failedConnection := true);
      }
    }

    /** The body of the loop over the batch, for one UID. */
    method SyncUid(input: Input, validity: int, uid: int, highest: int, result: Result)
      returns (highest': int, result': Result)
      modifies this`items
      ensures Progress(items, highest', result')
           == Process(Progress(old(items), highest, result), input.key, validity, input.softHold, uid,
                      input.outcome(uid))
    {
      highest', result' := highest, result;
      var o := input.outcome(uid);
      if o.LookupCrash? {
        result' := result'.(errors := result'.errors + 1);
        return;
      }
      var already := UidAlreadyMapped(input.key, uid);
      if already {
        result' := result'.(skipped := result'.skipped + 1);
        highest' := if uid > highest' then uid else highest';
        return;
      }
      if o.FetchFailed? || o.IngestFailed? {
        RecordFailedItem(input.key, uid, validity);
        result' := result'.(errors := result'.errors + 1);
        return;
      }
      var verdict := Allow;
      if o.verdict.Some? {
        verdict := o.verdict.value;
      }
      var visibility := VerdictToVisibility(verdict, input.softHold);
      if visibility == Quarantined {
        result' := result'.(quarantined := result'.quarantined + 1);
      }
      if o.WriteCrash? {
        result' := result'.(errors := result'.errors + 1);
        return;
      }
      var mindwallUid := AllocateMindwallUid(items, input.key.profile);
      items := items + [Item(|items| + 1, input.key, uid, validity, Some(o.messageId), visibility, Some(mindwallUid))];
      result' := result'.(newMessages := result'.newMessages + 1);
      highest' := if uid > highest' then uid else highest';
    }

    /** The loop over the chosen batch. */
    method ProcessBatch(input: Input, validity: int, lastSeen: int, newUids: seq<int>)
      returns (highest: int, result: Result)
      modifies this`items
      ensures Progress(items, highest, result)
           == ProcessAll(Progress(old(items), lastSeen, NO_RESULT), input.key, validity, input.softHold,
                         newUids, input.outcome)
    {
      highest, result := lastSeen, NO_RESULT;
      var i := 0;
      while i < |newUids|
        invariant 0 <= i <= |newUids|
        invariant Progress(items, highest, result)
               == ProcessAll(Progress(old(items), lastSeen, NO_RESULT), input.key, validity, input.softHold,
                             newUids[..i], input.outcome)
      {
        highest, result := SyncUid(input, validity, newUids[i], highest, result);
        assert newUids[..i + 1][..i] == newUids[..i];
        i := i + 1;
      }
      assert newUids[..i] == newUids;
    }

    /** Writes the checkpoint, the count and the status of a completed run. */
    method Checkpoint(key: Key, selected: SyncState, lastSeen: int, highest: int, result: Result)
      modifies this`states
      ensures states == old(states)[key := SyncState(
                selected.uidValidity,
                if highest > lastSeen then Some(highest) else selected.lastSeenUid,
                FinalStatus(result), Some(result.newMessages))]
    {
      var state := selected;
      if highest > lastSeen {
        state := state.(lastSeenUid := Some(highest));
      }
      state := state.(lastSyncCount := Some(result.newMessages));
      if result.errors > 0 && result.newMessages == 0 {
        state := state.(status := Error);
      } else if result.errors > 0 {
        state := state.(status := Partial);
      } else {
        state := state.(status := Idle);
      }
      Flush(key, state);
    }

    /** The part of a run after the folder answered SELECT. */
    method SyncSelected(input: Input, previous: SyncState) returns (result: Result)
      requires input.upstream.Connected? && input.upstream.selectable
      requires !input.upstream.search(SearchAll).Raised?
      requires previous.(status := Syncing) == StateOf(Contents(), input.key).(status := Syncing)
      modifies this
      ensures Contents().items == Run(old(Contents()), input).0.items
      ensures Contents().states == Run(old(Contents()), input).0.states
      ensures result == Run(old(Contents()), input).1
    {
      var key, validity, state := input.key, input.upstream.uidValidity, previous;
      var allUids := AllUids(input.upstream.search(SearchAll));
      if state.uidValidity.Some? && state.uidValidity.value != validity {
        state := state.(lastSeenUid := None);
      }
      state := state.(uidValidity := Some(validity));
      var lastSeen := LastSeen(state);
      var newUids: seq<int>;
      if lastSeen == 0 {
        newUids := LastN(allUids, input.batchSize);
      } else {
        var reply := input.upstream.search(SearchFrom(lastSeen + 1));
        if reply.Raised? {
          result := Abort(key, state, false);
          return;
        }
        newUids := FirstN(UidsInRange(reply, lastSeen + 1), input.batchSize);
      }
      var highest;
      highest, result := ProcessBatch(input, validity, lastSeen, newUids);
      Checkpoint(key, state, lastSeen, highest, result);
    }

    /** One sync run. */
    method SyncMailboxFolder(input: Input) returns (result: Result)
      modifies this
      ensures (Contents(), result) == Run(old(Contents()), input)
    {
      var key := input.key;
      var state := GetSyncState(key);
      state := state.(status := Syncing);
      Flush(key, state);
      ghost var before := old(Contents());
      assert Contents().states == InProgress(before, key).states;
      match input.upstream {
        case DecryptFailed =>
          result := Abort(key, state, true);
          AbortedRun(before, input);
        case ConnectFailed(authentication) =>
          result := Abort(key, state, authentication);
          AbortedRun(before, input);
        case Connected(selectable, validity, search) =>
          if !selectable || search(SearchAll).Raised? {
            result := Abort(key, state, false);
            AbortedRun(before, input);
          } else {
            result := SyncSelected(input, state);
            SyncingIsTransient(before, input);
          }
      }
      assert states == Run(before, input).0.states;
    }
  }
}
