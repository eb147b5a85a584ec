/** What the audit log guarantees over any interleaving of operations. */
module ReviewLaws {
  import opened Options
  import opened Policy
  import opened Review

  // ---------------------------------------------------------------- runs

  function After(s: Store, ops: seq<Operation>): Store
    decreases |ops|
  {
    if ops == [] then s else After(Step(s, ops[0]).0, ops[1..])
  }

  lemma SliceAppend(log: seq<AuditEvent>, e: AuditEvent, target: Target)
    ensures Slice(log + [e], target) == if e.target == target then Slice(log, target) + [e] else Slice(log, target)
  {
    assert (log + [e])[..|log|] == log;
  }

  lemma ReplaysOneMore(s: Store, s': Store, e: AuditEvent, target: Target)
    requires Replays(s, target)
    requires s'.log == s.log + [e]
    requires e.target == target ==> e.fromStatus == StatusOf(s, target) && e.toStatus == StatusOf(s', target)
    requires e.target != target ==> StatusOf(s', target) == StatusOf(s, target)
    ensures Replays(s', target)
  {
    SliceAppend(s.log, e, target);
    if e.target == target {
      var slice := Slice(s.log, target);
      assert (slice + [e])[..|slice|] == slice;
    }
  }

  lemma StepKeepsStatuses(s: Store, op: Operation)
    requires Audited(s)
    ensures var s' := Step(s, op).0;
            && (forall i | 0 <= i < |s'.items| :: s'.items[i].status in ItemStatuses())
            && (forall i | 0 <= i < |s'.alerts| :: s'.alerts[i].status in {Open, Acknowledged, Resolved})
            && (forall i, j | 0 <= i < j < |s'.items| :: s'.items[i].messageId != s'.items[j].messageId)
  {
  }

  lemma StepKeepsAudited(s: Store, op: Operation)
    requires Audited(s)
    ensures Audited(Step(s, op).0)
    ensures s.log <= Step(s, op).0.log
  {
    var (s', r) := Step(s, op);
    StepRecords(s, op);
    StepKeepsStatuses(s, op);
    if r.Done? {
      var e := s'.log[|s.log|];
      forall target
        ensures Replays(s', target)
      {
        assert Replays(s, target);
        ReplaysOneMore(s, s', e, target);
      }
    }
  }

  /** Audit replay: under any interleaving of quarantining, re-analysis, review actions and
      alert steps, from empty tables, each object's slice of the shared log leads from
      nothing to its current status, every event is an allowed transition, each message has
      at most one item, and the log only grows. */
  lemma {:induction false} AuditReplay(s: Store, ops: seq<Operation>)
    requires Audited(s)
    ensures Audited(After(s, ops)) && s.log <= After(s, ops).log
    decreases |ops|
  {
    if ops != [] {
      StepKeepsAudited(s, ops[0]);
      AuditReplay(Step(s, ops[0]).0, ops[1..]);
    }
  }

  lemma ReachableIsAudited(ops: seq<Operation>)
    ensures Audited(After(EMPTY, ops))
  {
    assert Audited(EMPTY) by {
      assert forall target :: Slice(EMPTY.log, target) == [];
    }
    AuditReplay(EMPTY, ops);
  }

  // ---------------------------------------------------------------- bounded lifetimes

  /** How far a status is along its lifecycle. */
  function Rank(s: Status): nat
  {
    match s
    case PendingReview => 0
    case Open => 0
    case InReview => 1
    case Acknowledged => 1
    case Deleted => 3
    case _ => 2
  }

  /** Status changes after creation. */
  function Changes(slice: seq<AuditEvent>): nat
  {
    if slice == [] then 0
    else
      var e := slice[|slice| - 1];
      Changes(slice[..|slice| - 1]) + if e.fromStatus.Some? && e.toStatus != e.fromStatus then 1 else 0
  }

  ghost predicate LegalSlice(slice: seq<AuditEvent>, target: Target)
  {
    Chained(slice) && forall e | e in slice :: LegalEvent(e) && e.target == target
  }

  lemma LegalFront(slice: seq<AuditEvent>, target: Target)
    requires slice != [] && LegalSlice(slice, target)
    ensures LegalSlice(slice[..|slice| - 1], target)
    ensures LegalEvent(slice[|slice| - 1]) && slice[|slice| - 1].target == target
    ensures slice[|slice| - 1].fromStatus == Final(slice[..|slice| - 1])
  {
    assert slice[|slice| - 1] in slice;
    assert forall e | e in slice[..|slice| - 1] :: e in slice;
  }

  lemma {:induction false} SliceIsLegal(s: Store, target: Target)
    requires Audited(s)
    ensures LegalSlice(Slice(s.log, target), target)
  {
    assert Replays(s, target);
    SliceMembers(s.log, target);
  }

  lemma {:induction false} SliceMembers(log: seq<AuditEvent>, target: Target)
    ensures forall e | e in Slice(log, target) :: e in log && e.target == target
  {
    if log != [] {
      SliceMembers(log[..|log| - 1], target);
    }
  }

  lemma {:induction false} ChangesAtMostRank(slice: seq<AuditEvent>, target: Target)
    requires LegalSlice(slice, target)
    ensures slice != [] ==> Final(slice).Some? && Changes(slice) <= Rank(Final(slice).value)
    ensures slice == [] ==> Changes(slice) == 0
  {
    if slice != [] {
      LegalFront(slice, target);
      ChangesAtMostRank(slice[..|slice| - 1], target);
    }
  }

  /** No object changes status more than its lifecycle allows: three times for an item, twice
      for an alert, however often it is re-analysed. */
  lemma BoundedLifetimes(ops: seq<Operation>, target: Target)
    ensures var slice := Slice(After(EMPTY, ops).log, target);
            Changes(slice) <= if target.ItemTarget? then 3 else 2
  {
    var s := After(EMPTY, ops);
    ReachableIsAudited(ops);
    SliceIsLegal(s, target);
    LegalSliceBounded(Slice(s.log, target), target);
  }

  lemma LegalSliceBounded(slice: seq<AuditEvent>, target: Target)
    requires LegalSlice(slice, target)
    ensures Changes(slice) <= if target.ItemTarget? then 3 else 2
  {
    ChangesAtMostRank(slice, target);
    if slice != [] {
      LegalFront(slice, target);
    }
  }

  // ---------------------------------------------------------------- pending items

  /** An event that takes an item out of review. */
  predicate Decides(e: AuditEvent)
  {
    e.action.ItemReviewed? && e.action.review != MarkInReview
  }

  predicate Undecided(slice: seq<AuditEvent>)
  {
    forall i | 0 <= i < |slice| :: !Decides(slice[i])
  }

  lemma {:induction false} PendingMeansUndecided(slice: seq<AuditEvent>, target: Target)
    requires slice != [] && LegalSlice(slice, target) && target.ItemTarget?
    ensures Final(slice).Some? && (AwaitsReview(Final(slice).value) <==> Undecided(slice))
  {
    LegalFront(slice, target);
    var front := slice[..|slice| - 1];
    if front != [] {
      PendingMeansUndecided(front, target);
      if Undecided(front) && !Decides(slice[|slice| - 1]) {
        assert Undecided(slice);
      }
      if !Undecided(front) {
        var i :| 0 <= i < |front| && Decides(front[i]);
        assert Decides(slice[i]);
      }
    }
  }

  /** Number of items whose history holds no deciding event. */
  function UndecidedCount(s: Store, n: nat): nat
    requires n <= |s.items|
  {
    if n == 0 then 0
    else UndecidedCount(s, n - 1) + if Undecided(Slice(s.log, ItemTarget(n))) then 1 else 0
  }

  /** The pending count is the number of items that the log knows no release, false-positive,
      confirmation or deletion of. */
  lemma PendingCountMatchesLog(ops: seq<Operation>)
    ensures var s := After(EMPTY, ops);
            PendingCount(s.items) == UndecidedCount(s, |s.items|)
  {
    var s := After(EMPTY, ops);
    ReachableIsAudited(ops);
    assert s.items[..|s.items|] == s.items;
    PendingPrefix(s, |s.items|);
  }

  lemma {:induction false} PendingPrefix(s: Store, n: nat)
    requires Audited(s) && n <= |s.items|
    ensures PendingCount(s.items[..n]) == UndecidedCount(s, n)
  {
    if n > 0 {
      PendingPrefix(s, n - 1);
      assert s.items[..n][..n - 1] == s.items[..n - 1];
      var target := ItemTarget(n);
      assert Replays(s, target);
      SliceIsLegal(s, target);
      PendingMeansUndecided(Slice(s.log, target), target);
    }
  }

  // ---------------------------------------------------------------- provenance

  /** The last review action of a history, if there is one. */
  function LastReview(slice: seq<AuditEvent>): Option<AuditEvent>
  {
    if slice == [] then None
    else if slice[|slice| - 1].action.ItemReviewed? then Some(slice[|slice| - 1])
    else LastReview(slice[..|slice| - 1])
  }

  /** An item is attributed to the actor of its last review action. */
  ghost predicate Attributed(s: Store)
  {
    forall i | 0 <= i < |s.items| :: AttributedItem(s.items[i], Slice(s.log, ItemTarget(i + 1)))
  }

  lemma {:induction false} PendingIsUnreviewed(slice: seq<AuditEvent>, target: Target)
    requires LegalSlice(slice, target) && Final(slice) == Some(PendingReview)
    ensures LastReview(slice) == None
  {
    if slice != [] {
      LegalFront(slice, target);
      if slice[|slice| - 1].action.ItemUpdated? {
        PendingIsUnreviewed(slice[..|slice| - 1], target);
      } else {
        CreatedFirst(slice[..|slice| - 1], target);
      }
    }
  }

  /** Only an empty history leads to no status. */
  lemma CreatedFirst(slice: seq<AuditEvent>, target: Target)
    requires LegalSlice(slice, target)
    ensures Final(slice).None? ==> slice == []
  {
    if slice != [] {
      LegalFront(slice, target);
    }
  }

  lemma LastReviewAppend(slice: seq<AuditEvent>, e: AuditEvent)
    ensures LastReview(slice + [e]) == if e.action.ItemReviewed? then Some(e) else LastReview(slice)
  {
    assert (slice + [e])[..|slice|] == slice;
  }

  ghost predicate AttributedItem(item: QuarantineItem, slice: seq<AuditEvent>)
  {
    var last := LastReview(slice);
    && (item.reviewedAt.Some? <==> last.Some?)
    && item.reviewedBy == if last.Some? then last.value.actor else None
  }

  lemma ReviewAttributes(item: QuarantineItem, slice: seq<AuditEvent>, target: Target, a: ReviewAction,
                         actor: Option<int>, note: Option<string>, now: int, e: AuditEvent)
    requires AttributedItem(item, slice) && LegalSlice(slice, target) && Final(slice) == Some(item.status)
    requires item.status in ValidFrom(a) && e.action == ItemReviewed(a) && e.actor == actor
    ensures AttributedItem(Reviewed(item, a, actor, note, now), slice + [e])
  {
    LastReviewAppend(slice, e);
    if a == MarkInReview {
      PendingIsUnreviewed(slice, target);
    }
  }

  lemma StepKeepsAttributed(s: Store, op: Operation)
    requires Audited(s) && Attributed(s)
    ensures Attributed(Step(s, op).0)
  {
    var (s', r) := Step(s, op);
    StepRecords(s, op);
    forall i | 0 <= i < |s'.items|
      ensures AttributedItem(s'.items[i], Slice(s'.log, ItemTarget(i + 1)))
    {
      if r.Done? {
        StepAttributesItem(s, op, i);
      } else {
        assert AttributedItem(s.items[i], Slice(s.log, ItemTarget(i + 1)));
      }
    }
  }

  /** A successful review action replaces its item; every other operation keeps the
      provenance of every item, and a new item has none. */
  lemma StepProvenance(s: Store, op: Operation, i: nat)
    requires Step(s, op).1.Done? && i < |Step(s, op).0.items|
    ensures var item', e := Step(s, op).0.items[i], Step(s, op).0.log[|s.log|];
            if i < |s.items| && op.ApplyAction? && op.itemId == i + 1 then
              && ParseAction(op.action).Some?
              && var a := ParseAction(op.action).value;
                 && s.items[i].status in ValidFrom(a)
                 && item' == Reviewed(s.items[i], a, op.actor, op.note, op.now)
                 && e.target == ItemTarget(i + 1) && e.action == ItemReviewed(a) && e.actor == op.actor
            else
              && (e.target == ItemTarget(i + 1) ==> !e.action.ItemReviewed?)
              && item'.reviewedAt == (if i < |s.items| then s.items[i].reviewedAt else None)
              && item'.reviewedBy == (if i < |s.items| then s.items[i].reviewedBy else None)
  {
  }

  lemma StepAttributesItem(s: Store, op: Operation, i: nat)
    requires Audited(s) && Attributed(s) && Step(s, op).1.Done? && i < |Step(s, op).0.items|
    ensures AttributedItem(Step(s, op).0.items[i], Slice(Step(s, op).0.log, ItemTarget(i + 1)))
  {
    var target := ItemTarget(i + 1);
    var slice := Slice(s.log, target);
    assert Replays(s, target);
    SliceIsLegal(s, target);
    CreatedFirst(slice, target);
    assert i < |s.items| ==> AttributedItem(s.items[i], slice);
    StepRecords(s, op);
    StepAttributesSlice(s, op, i, slice);
  }

  lemma StepAttributesSlice(s: Store, op: Operation, i: nat, slice: seq<AuditEvent>)
    requires Step(s, op).1.Done? && i < |Step(s, op).0.items| && slice == Slice(s.log, ItemTarget(i + 1))
    requires Step(s, op).0.log == s.log + [Step(s, op).0.log[|s.log|]]
    requires LegalSlice(slice, ItemTarget(i + 1)) && Final(slice) == StatusOf(s, ItemTarget(i + 1))
    requires if i < |s.items| then AttributedItem(s.items[i], slice) else slice == []
    ensures AttributedItem(Step(s, op).0.items[i], Slice(Step(s, op).0.log, ItemTarget(i + 1)))
  {
    var e := Step(s, op).0.log[|s.log|];
    StepProvenance(s, op, i);
    SliceAppend(s.log, e, ItemTarget(i + 1));
    LastReviewAppend(slice, e);
    if i < |s.items| && op.ApplyAction? && op.itemId == i + 1 {
      ReviewAttributes(s.items[i], slice, ItemTarget(i + 1), ParseAction(op.action).value, op.actor, op.note, op.now,
                       e);
    }
  }

  /** Over any interleaving, an item is attributed to the actor of the last review action the
      log holds for it, and an item without attribution was never reviewed. */
  lemma {:induction false} ReviewsAreAttributed(s: Store, ops: seq<Operation>)
    requires Audited(s) && Attributed(s)
    ensures Attributed(After(s, ops))
    decreases |ops|
  {
    if ops != [] {
      StepKeepsAudited(s, ops[0]);
      StepKeepsAttributed(s, ops[0]);
      ReviewsAreAttributed(Step(s, ops[0]).0, ops[1..]);
    }
  }

  // ---------------------------------------------------------------- operations by name

  /** The item moves to a status and the log gains the event of that action; the item keeps all
      else but its notes and provenance, and so do all other objects. */
  ghost predicate Moves(s: Store, s': Store, itemId: int, to: Status, action: ReviewAction, actor: Option<int>,
                        note: Option<string>, now: int)
    requires 1 <= itemId <= |s.items|
  {
    var item := s.items[itemId - 1];
    && |s'.items| == |s.items| && s'.alerts == s.alerts
    && (forall i | 0 <= i < |s.items| && i != itemId - 1 :: s'.items[i] == s.items[i])
    && s'.log == s.log + [AuditEvent(ItemReviewed(action), ItemTarget(itemId), actor, Some(item.status), Some(to),
                                     note)]
    && var item' := s'.items[itemId - 1];
       && item'.status == to
       && item'.messageId == item.messageId && item'.analysisRunId == item.analysisRunId
       && item'.triggerVerdict == item.triggerVerdict && item'.riskScore == item.riskScore
       && Noted(item.notes, note, item'.notes)
       && (if to == InReview && item.reviewedAt.Some?
           then item'.reviewedAt == item.reviewedAt && item'.reviewedBy == item.reviewedBy
           else item'.reviewedAt == Some(now) && item'.reviewedBy == actor)
  }

  /** A note is added behind the notes there are, after an empty line; none is lost. */
  predicate Noted(notes: Option<string>, note: Option<string>, notes': Option<string>)
  {
    if note == None || note == Some("") then notes' == notes
    else if notes == None || notes == Some("") then notes' == note
    else notes' == Some(notes.value + "\n\n" + note.value)
  }

  /** An accepted action moves the item, any other leaves the store alone. */
  ghost predicate Acts(s: Store, s': Store, r: Outcome, itemId: int, from: set<Status>, to: Status,
                       action: ReviewAction, actor: Option<int>, note: Option<string>, now: int)
    requires 1 <= itemId <= |s.items|
  {
    if s.items[itemId - 1].status in from then r == Done(itemId) && Moves(s, s', itemId, to, action, actor, note, now)
    else r == InvalidTransition && s' == s
  }

  lemma ReviewedActs(s: Store, itemId: int, name: string, actor: Option<int>, note: Option<string>, now: int)
    requires 1 <= itemId <= |s.items| && ParseAction(name).Some?
    ensures var (s', r) := Step(s, ApplyAction(itemId, name, actor, note, now));
            var a := ParseAction(name).value;
            Acts(s, s', r, itemId, ValidFrom(a), TargetStatus(a), a, actor, note, now)
  {
  }

  /** What each review action does to an item, by the name a reviewer gives it: from which statuses
      it is accepted and which status it leads to. */
  lemma {:induction false} ActionsByName(s: Store, itemId: int, name: string, actor: Option<int>, note: Option<string>,
                                         now: int)
    requires 1 <= itemId <= |s.items|
    ensures var (s', r) := Step(s, ApplyAction(itemId, name, actor, note, now));
            var open := {PendingReview, InReview};
            && (name == "mark_in_review" ==>
                  Acts(s, s', r, itemId, {PendingReview}, InReview, MarkInReview, actor, note, now))
            && (name == "release" ==> Acts(s, s', r, itemId, open, Released, Release, actor, note, now))
            && (name == "mark_false_positive" ==>
                  Acts(s, s', r, itemId, open, FalsePositive, MarkFalsePositive, actor, note, now))
            && (name == "confirm_malicious" ==>
                  Acts(s, s', r, itemId, open, ConfirmedMalicious, ConfirmMalicious, actor, note, now))
            && (name == "delete" ==>
                  Acts(s, s', r, itemId, open + {Released, FalsePositive, ConfirmedMalicious}, Deleted, Delete, actor,
                       note, now))
            && (name !in {"mark_in_review", "release", "mark_false_positive", "confirm_malicious", "delete"} ==>
                  r == UnknownAction && s' == s)
  {
    if ParseAction(name).Some? {
      ReviewedActs(s, itemId, name, actor, note, now);
      FromStatuses();
    }
  }

  lemma FromStatuses()
    ensures ValidFrom(Delete) == {PendingReview, InReview} + {Released, FalsePositive, ConfirmedMalicious}
  {
  }

  /** An item that does not exist is not found, whatever the action. */
  lemma MissingItem(s: Store, itemId: int, name: string, actor: Option<int>, note: Option<string>, now: int)
    requires !(1 <= itemId <= |s.items|)
    ensures Step(s, ApplyAction(itemId, name, actor, note, now)) == (s, NotFound)
  {
  }

  /** Quarantining a message creates a pending item for it once; again, it only refreshes verdict,
      analysis and risk, and logs the status it has. */
  lemma {:induction false} QuarantineOnce(s: Store, messageId: int, run: int, verdict: Verdict, risk: Option<real>,
                                          actor: Option<int>)
    ensures var (s', r) := Step(s, QuarantineMessage(messageId, run, verdict, risk, actor));
            && s'.alerts == s.alerts && r.Done? && 1 <= r.id <= |s'.items| && |s'.log| == |s.log| + 1
            && (forall i | 0 <= i < |s.items| && i != r.id - 1 :: s'.items[i] == s.items[i])
            && var item' := s'.items[r.id - 1];
               && item'.messageId == messageId && item'.analysisRunId == run && item'.triggerVerdict == verdict
               && item'.riskScore == risk
               && if exists i :: 0 <= i < |s.items| && s.items[i].messageId == messageId then
                    && |s'.items| == |s.items|
                    && var item := s.items[r.id - 1];
                       && item'.status == item.status && item'.notes == item.notes
                       && item'.reviewedAt == item.reviewedAt && item'.reviewedBy == item.reviewedBy
                       && s'.log[|s.log|]
                          == AuditEvent(ItemUpdated, ItemTarget(r.id), actor, Some(item.status), Some(item.status),
                                        None)
                  else
                    && |s'.items| == |s.items| + 1 == r.id
                    && item'.status == PendingReview && item'.notes == None && item'.reviewedAt == None
                    && item'.reviewedBy == None
                    && s'.log[|s.log|]
                       == AuditEvent(ItemCreated, ItemTarget(r.id), actor, None, Some(PendingReview), None)
  {
    var found := ItemOfMessage(s.items, messageId);
    if found.Some? {
      assert s.items[found.value].messageId == messageId;
    }
  }

  /** The life of an alert, by its statuses: created open, acknowledged only when open, resolved
      unless resolved; each step is attributed, keeps the other attributions, and replaces the
      resolution note unless it brings none. */
  lemma {:induction false} AlertSteps(s: Store, alertId: int, actor: Option<int>, note: Option<string>, now: int)
    requires 1 <= alertId <= |s.alerts|
    ensures var alert := s.alerts[alertId - 1];
            var kept := if note == None || note == Some("") then alert.resolutionNote else note;
            && Step(s, Acknowledge(alertId, actor, note, now))
               == (if alert.status != Open then (s, InvalidTransition)
                   else (Store(s.items,
                               s.alerts[alertId - 1 := Alert(alert.severity, Acknowledged, alert.quarantineItemId,
                                                             alert.messageId, actor, Some(now), alert.resolvedBy,
                                                             alert.resolvedAt, kept)],
                               s.log + [AuditEvent(AlertAcknowledged, AlertTarget(alertId), actor, Some(Open),
                                                   Some(Acknowledged), note)]),
                         Done(alertId)))
            && Step(s, Resolve(alertId, actor, note, now))
               == (if alert.status == Resolved then (s, InvalidTransition)
                   else (Store(s.items,
                               s.alerts[alertId - 1 := Alert(alert.severity, Resolved, alert.quarantineItemId,
                                                             alert.messageId, alert.acknowledgedBy,
                                                             alert.acknowledgedAt, actor, Some(now), kept)],
                               s.log + [AuditEvent(AlertResolved, AlertTarget(alertId), actor, Some(alert.status),
                                                   Some(Resolved), note)]),
                         Done(alertId)))
  {
  }

  /** A new alert is open, with the severity and links it was created for, and nothing else. */
  lemma NewAlertIsOpen(s: Store, severity: Severity, itemId: Option<int>, messageId: Option<int>, actor: Option<int>)
    ensures Step(s, CreateAlert(severity, itemId, messageId, actor))
         == (Store(s.items, s.alerts + [Alert(severity, Open, itemId, messageId, None, None, None, None, None)],
                   s.log + [AuditEvent(AlertCreated, AlertTarget(|s.alerts| + 1), actor, None, Some(Open), None)]),
             Done(|s.alerts| + 1))
  {
  }
}
