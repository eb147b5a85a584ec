/** Quarantine review and alert triage over one append-only audit log
    (app/quarantine/service.py, app/alerts/service.py, app/audit/service.py). */
module Review {
  import opened Options
  import opened Policy

  // ---------------------------------------------------------------- data

  /** Statuses of quarantine items and of alerts. */
  datatype Status =
    | PendingReview | InReview | Released | FalsePositive | ConfirmedMalicious | Deleted
    | Open | Acknowledged | Resolved

  datatype ReviewAction = MarkInReview | Release | MarkFalsePositive | ConfirmMalicious | Delete

  datatype Severity = Low | Medium | High | Critical

  datatype QuarantineItem = QuarantineItem(
    messageId: int, analysisRunId: int, status: Status, triggerVerdict: Verdict, riskScore: Option<real>,
    notes: Option<string>, reviewedAt: Option<int>, reviewedBy: Option<int>)

  datatype Alert = Alert(
    severity: Severity, status: Status, quarantineItemId: Option<int>, messageId: Option<int>,
    acknowledgedBy: Option<int>, acknowledgedAt: Option<int>, resolvedBy: Option<int>, resolvedAt: Option<int>,
    resolutionNote: Option<string>)

  datatype Target = ItemTarget(id: int) | AlertTarget(id: int)

  datatype EventAction =
    | ItemCreated | ItemUpdated | ItemReviewed(review: ReviewAction)
    | AlertCreated | AlertAcknowledged | AlertResolved

  datatype AuditEvent = AuditEvent(
    action: EventAction, target: Target, actor: Option<int>,
    fromStatus: Option<Status>, toStatus: Option<Status>, note: Option<string>)

  /** The three tables. The id of a row is its position, counted from 1. */
  datatype Store = Store(items: seq<QuarantineItem>, alerts: seq<Alert>, log: seq<AuditEvent>)

  const EMPTY := Store([], [], [])

  datatype Operation =
    | QuarantineMessage(messageId: int, analysisRunId: int, verdict: Verdict, risk: Option<real>, actor: Option<int>)
    | ApplyAction(itemId: int, action: string, actor: Option<int>, note: Option<string>, now: int)
    | CreateAlert(severity: Severity, quarantineItemId: Option<int>, about: Option<int>, actor: Option<int>)
    | Acknowledge(alertId: int, actor: Option<int>, note: Option<string>, now: int)
    | Resolve(alertId: int, actor: Option<int>, note: Option<string>, now: int)

  datatype Outcome = Done(id: int) | NotFound | UnknownAction | InvalidTransition

  // ---------------------------------------------------------------- transitions

  function ParseAction(action: string): Option<ReviewAction>
  {
    if action == "mark_in_review" then Some(MarkInReview)
    else if action == "release" then Some(Release)
    else if action == "mark_false_positive" then Some(MarkFalsePositive)
    else if action == "confirm_malicious" then Some(ConfirmMalicious)
    else if action == "delete" then Some(Delete)
    else None
  }

  function ValidFrom(action: ReviewAction): set<Status>
  {
    match action
    case MarkInReview => {PendingReview}
    case Delete => {PendingReview, InReview, Released, FalsePositive, ConfirmedMalicious}
    case _ => {PendingReview, InReview}
  }

  function TargetStatus(action: ReviewAction): Status
  {
    match action
    case MarkInReview => InReview
    case Release => Released
    case MarkFalsePositive => FalsePositive
    case ConfirmMalicious => ConfirmedMalicious
    case Delete => Deleted
  }

  /** The row of a message, if there is one. */
  function ItemOfMessage(items: seq<QuarantineItem>, messageId: int): (r: Option<nat>)
    ensures r.Some? ==> r.value < |items| && items[r.value].messageId == messageId
    ensures r.None? ==> forall i | 0 <= i < |items| :: items[i].messageId != messageId
  {
    if items == [] then None
    else if items[|items| - 1].messageId == messageId then Some(|items| - 1)
    else ItemOfMessage(items[..|items| - 1], messageId)
  }

  function AppendNote(notes: Option<string>, note: Option<string>): Option<string>
  {
    if note.None? || note.value == "" then notes
    else if notes.None? || notes.value == "" then note
    else Some(notes.value + "\n\n" + note.value)
  }

  /** Marking in review keeps an earlier provenance; every other action sets it anew. */
  function Reviewed(item: QuarantineItem, action: ReviewAction, actor: Option<int>, note: Option<string>,
                    now: int): QuarantineItem
  {
    var moved := item.(status := TargetStatus(action), notes := AppendNote(item.notes, note));
    if action != MarkInReview || item.reviewedAt.None?
    then moved.(reviewedAt := Some(now), reviewedBy := actor)
    else moved
  }

  function ReplaceNote(current: Option<string>, note: Option<string>): Option<string>
  {
    if note.None? || note.value == "" then current else note
  }

  // ---------------------------------------------------------------- specification of the operations

  function Record(s: Store, e: AuditEvent): Store
  {
    s.(log := s.log + [e])
  }

  function Step(s: Store, op: Operation): (Store, Outcome)
  {
    match op
    case QuarantineMessage(messageId, analysisRunId, verdict, risk, actor) =>
      var found := ItemOfMessage(s.items, messageId);
      if found.Some? then
        var i := found.value;
        var item := s.items[i].(analysisRunId := analysisRunId, riskScore := risk, triggerVerdict := verdict);
        (Record(s.(items := s.items[i := item]),
                AuditEvent(ItemUpdated, ItemTarget(i + 1), actor, Some(item.status), Some(item.status), None)),
         Done(i + 1))
      else
        var item := QuarantineItem(messageId, analysisRunId, PendingReview, verdict, risk, None, None, None);
        (Record(s.(items := s.items + [item]),
                AuditEvent(ItemCreated, ItemTarget(|s.items| + 1), actor, None, Some(PendingReview), None)),
         Done(|s.items| + 1))
    case ApplyAction(itemId, action, actor, note, now) =>
      if !(1 <= itemId <= |s.items|) then (s, NotFound)
      else if ParseAction(action).None? then (s, UnknownAction)
      else
        var a, item := ParseAction(action).value, s.items[itemId - 1];
        if item.status !in ValidFrom(a) then (s, InvalidTransition)
        else
          (Record(s.(items := s.items[itemId - 1 := Reviewed(item, a, actor, note, now)]),
                  AuditEvent(ItemReviewed(a), ItemTarget(itemId), actor, Some(item.status), Some(TargetStatus(a)),
                             note)),
           Done(itemId))
    case CreateAlert(severity, quarantineItemId, messageId, actor) =>
      var alert := Alert(severity, Open, quarantineItemId, messageId, None, None, None, None, None);
      (Record(s.(alerts := s.alerts + [alert]),
              AuditEvent(AlertCreated, AlertTarget(|s.alerts| + 1), actor, None, Some(Open), None)),
       Done(|s.alerts| + 1))
    case Acknowledge(alertId, actor, note, now) =>
      if !(1 <= alertId <= |s.alerts|) then (s, NotFound)
      else
        var alert := s.alerts[alertId - 1];
        if alert.status != Open then (s, InvalidTransition)
        else
          var alert' := alert.(status := Acknowledged, acknowledgedBy := actor, acknowledgedAt := Some(now),
                               resolutionNote := ReplaceNote(alert.resolutionNote, note));
          (Record(s.(alerts := s.alerts[alertId - 1 := alert']),
                  AuditEvent(AlertAcknowledged, AlertTarget(alertId), actor, Some(Open), Some(Acknowledged), note)),
           Done(alertId))
    case Resolve(alertId, actor, note, now) =>
      if !(1 <= alertId <= |s.alerts|) then (s, NotFound)
      else
        var alert := s.alerts[alertId - 1];
        if alert.status == Resolved then (s, InvalidTransition)
        else
          var alert' := alert.(status := Resolved, resolvedBy := actor, resolvedAt := Some(now),
                               resolutionNote := ReplaceNote(alert.resolutionNote, note));
          (Record(s.(alerts := s.alerts[alertId - 1 := alert']),
                  AuditEvent(AlertResolved, AlertTarget(alertId), actor, Some(alert.status), Some(Resolved), note)),
           Done(alertId))
  }

  /** The audit history of one object, oldest first. */
  function Slice(log: seq<AuditEvent>, target: Target): seq<AuditEvent>
  {
    if log == [] then []
    else
      var front, last := Slice(log[..|log| - 1], target), log[|log| - 1];
      if last.target == target then front + [last] else front
  }

  predicate AwaitsReview(s: Status) { s == PendingReview || s == InReview }

  function PendingCount(items: seq<QuarantineItem>): nat
  {
    if items == [] then 0
    else PendingCount(items[..|items| - 1]) + if AwaitsReview(items[|items| - 1].status) then 1 else 0
  }

  /** The severity of the alert a verdict calls for; none below soft hold. */
  function AlertSeverity(verdict: Verdict): (s: Option<Severity>)
    ensures s.Some? <==> Strictness(verdict) >= Strictness(SoftHold)
    ensures s == Some(Critical) <==> verdict == EscalateToAdmin
    ensures s == Some(High) <==> verdict == Quarantine || verdict == Reject
    ensures s == Some(Medium) <==> verdict == SoftHold
  {
    match verdict
    case EscalateToAdmin => Some(Critical)
    case Quarantine => Some(High)
    case Reject => Some(High)
    case SoftHold => Some(Medium)
    case _ => None
  }

  // ---------------------------------------------------------------- the services

  class ReviewService {
    var items: seq<QuarantineItem>
    var alerts: seq<Alert>
    var log: seq<AuditEvent>

    function State(): Store
      reads this
    {
      Store(items, alerts, log)
    }

    constructor ()
      ensures State() == EMPTY
    {
      items, alerts, log := [], [], [];
    }

    method RecordEvent(e: AuditEvent)
      modifies `log
      ensures log == old(log) + [e]
    {
      log := log + [e];
    }

    method GetEventsForTarget(target: Target) returns (events: seq<AuditEvent>)
      ensures events == Slice(log, target)
    {
      events := [];
      for i := 0 to |log|
        invariant events == Slice(log[..i], target)
      {
        if log[i].target == target {
          events := events + [log[i]];
        }
        assert log[..i + 1][..i] == log[..i];
      }
      assert log[..|log|] == log;
    }

    method GetOrCreateQuarantineItem(messageId: int, analysisRunId: int, verdict: Verdict, risk: Option<real>,
                                     actor: Option<int>)
      returns (id: int, created: bool)
      modifies this
      ensures (State(), Done(id)) == Step(old(State()),
                                          QuarantineMessage(messageId, analysisRunId, verdict, risk, actor))
      ensures created <==> ItemOfMessage(old(items), messageId).None?
    {
      var existing := ItemOfMessage(items, messageId);
      if existing.Some? {
        var i := existing.value;
        var item := items[i];
        item := item.(analysisRunId := analysisRunId);
        item := item.(riskScore := risk);
        item := item.(triggerVerdict := verdict);
        items := items[i := item];
        RecordEvent(AuditEvent(ItemUpdated, ItemTarget(i + 1), actor, Some(item.status), Some(item.status), None));
        return i + 1, false;
      }
      items := items + [QuarantineItem(messageId, analysisRunId, PendingReview, verdict, risk, None, None, None)];
      RecordEvent(AuditEvent(ItemCreated, ItemTarget(|items|), actor, None, Some(PendingReview), None));
      return |items|, true;
    }

    method ReviewItem(itemId: int, action: string, actor: Option<int>, note: Option<string>, now: int)
      returns (outcome: Outcome)
      modifies this
      ensures (State(), outcome) == Step(old(State()), ApplyAction(itemId, action, actor, note, now))
    {
      if !(1 <= itemId <= |items|) {
        return NotFound;
      }
      var parsed := ParseAction(action);
      if parsed.None? {
        return UnknownAction;
      }
      var item := items[itemId - 1];
      if item.status !in ValidFrom(parsed.value) {
        return InvalidTransition;
      }
      var fromStatus := item.status;
      item := item.(status := TargetStatus(parsed.value));
      if parsed.value != MarkInReview || item.reviewedAt.None? {
        item := item.(reviewedAt := Some(now), reviewedBy := actor);
      }
      if note.Some? && note.value != "" {
        if item.notes.Some? && item.notes.value != "" {
          item := item.(notes := Some(item.notes.value + "\n\n" + note.value));
        } else {
          item := item.(notes := note);
        }
      }
      items := items[itemId - 1 := item];
      RecordEvent(AuditEvent(ItemReviewed(parsed.value), ItemTarget(itemId), actor, Some(fromStatus),
                             Some(TargetStatus(parsed.value)), note));
      outcome := Done(itemId);
    }

    method CountPendingReview() returns (n: nat)
      ensures n == PendingCount(items)
    {
      n := 0;
      for i := 0 to |items|
        invariant n == PendingCount(items[..i])
      {
        if AwaitsReview(items[i].status) {
          n := n + 1;
        }
        assert items[..i + 1][..i] == items[..i];
      }
      assert items[..|items|] == items;
    }

    method NewAlert(severity: Severity, quarantineItemId: Option<int>, messageId: Option<int>, actor: Option<int>)
      returns (id: int)
      modifies this
      ensures (State(), Done(id)) == Step(old(State()), CreateAlert(severity, quarantineItemId, messageId, actor))
    {
      alerts := alerts + [Alert(severity, Open, quarantineItemId, messageId, None, None, None, None, None)];
      id := |alerts|;
      RecordEvent(AuditEvent(AlertCreated, AlertTarget(id), actor, None, Some(Open), None));
    }

    /** An alert for a verdict that warrants one. */
    method NewAlertForVerdict(verdict: Verdict, quarantineItemId: Option<int>, messageId: Option<int>)
      returns (id: Option<int>)
      modifies this
      ensures id.Some? <==> AlertSeverity(verdict).Some?
      ensures id.None? ==> State() == old(State())
      ensures id.Some? ==>
                (State(), Done(id.value))
                == Step(old(State()), CreateAlert(AlertSeverity(verdict).value, quarantineItemId, messageId, None))
    {
      var severity: Severity;
      match verdict {
        case EscalateToAdmin => severity := Critical;
        case Quarantine => severity := High;
        case Reject => severity := High;
        case SoftHold => severity := Medium;
        case _ => return None;
      }
      var n := NewAlert(severity, quarantineItemId, messageId, None);
      id := Some(n);
    }

    method AcknowledgeAlert(alertId: int, actor: Option<int>, note: Option<string>, now: int) returns (outcome: Outcome)
      modifies this
      ensures (State(), outcome) == Step(old(State()), Acknowledge(alertId, actor, note, now))
    {
      if !(1 <= alertId <= |alerts|) {
        return NotFound;
      }
      var alert := alerts[alertId - 1];
      if alert.status != Open {
        return InvalidTransition;
      }
      var fromStatus := alert.status;
      alert := alert.(status := Acknowledged, acknowledgedBy := actor, acknowledgedAt := Some(now));
      if note.Some? && note.value != "" {
        alert := alert.(resolutionNote := note);
      }
      alerts := alerts[alertId - 1 := alert];
      RecordEvent(AuditEvent(AlertAcknowledged, AlertTarget(alertId), actor, Some(fromStatus), Some(Acknowledged),
                             note));
      outcome := Done(alertId);
    }

    method ResolveAlert(alertId: int, actor: Option<int>, note: Option<string>, now: int) returns (outcome: Outcome)
      modifies this
      ensures (State(), outcome) == Step(old(State()), Resolve(alertId, actor, note, now))
    {
      if !(1 <= alertId <= |alerts|) {
        return NotFound;
      }
      var alert := alerts[alertId - 1];
      if alert.status == Resolved {
        return InvalidTransition;
      }
      var fromStatus := alert.status;
      alert := alert.(status := Resolved, resolvedBy := actor, resolvedAt := Some(now));
      if note.Some? && note.value != "" {
        alert := alert.(resolutionNote := note);
      }
      alerts := alerts[alertId - 1 := alert];
      RecordEvent(AuditEvent(AlertResolved, AlertTarget(alertId), actor, Some(fromStatus), Some(Resolved), note));
      outcome := Done(alertId);
    }
  }

  // ---------------------------------------------------------------- replaying the log

  /** The status a history leads to. */
  function Final(slice: seq<AuditEvent>): Option<Status>
  {
    if slice == [] then None else slice[|slice| - 1].toStatus
  }

  /** Starting from nothing, every event leaves the status the one before arrived at. */
  predicate Chained(slice: seq<AuditEvent>)
  {
    slice != [] ==>
      && Chained(slice[..|slice| - 1])
      && slice[|slice| - 1].fromStatus == Final(slice[..|slice| - 1])
  }

  /** An event that records a transition the services allow. */
  predicate LegalEvent(e: AuditEvent)
  {
    match e.action
    case ItemCreated => e.target.ItemTarget? && e.fromStatus == None && e.toStatus == Some(PendingReview)
    case ItemUpdated => e.target.ItemTarget? && e.fromStatus.Some? && e.toStatus == e.fromStatus
    case ItemReviewed(a) =>
      && e.target.ItemTarget? && e.fromStatus.Some? && e.fromStatus.value in ValidFrom(a)
      && e.toStatus == Some(TargetStatus(a))
    case AlertCreated => e.target.AlertTarget? && e.fromStatus == None && e.toStatus == Some(Open)
    case AlertAcknowledged => e.target.AlertTarget? && e.fromStatus == Some(Open) && e.toStatus == Some(Acknowledged)
    case AlertResolved =>
      e.target.AlertTarget? && e.fromStatus in {Some(Open), Some(Acknowledged)} && e.toStatus == Some(Resolved)
  }

  /** The status of an object now; None when there is no such object. */
  function StatusOf(s: Store, target: Target): Option<Status>
  {
    match target
    case ItemTarget(id) => if 1 <= id <= |s.items| then Some(s.items[id - 1].status) else None
    case AlertTarget(id) => if 1 <= id <= |s.alerts| then Some(s.alerts[id - 1].status) else None
  }

  ghost predicate Replays(s: Store, target: Target)
  {
    Chained(Slice(s.log, target)) && Final(Slice(s.log, target)) == StatusOf(s, target)
  }

  /** The log tells every object's life, from nothing to its current status. */
  ghost predicate Audited(s: Store)
  {
    && (forall e | e in s.log :: LegalEvent(e))
    && (forall target :: Replays(s, target))
    && (forall i | 0 <= i < |s.items| :: s.items[i].status in ItemStatuses())
    && (forall i | 0 <= i < |s.alerts| :: s.alerts[i].status in {Open, Acknowledged, Resolved})
    && (forall i, j | 0 <= i < j < |s.items| :: s.items[i].messageId != s.items[j].messageId)
  }

  function ItemStatuses(): set<Status>
  {
    {PendingReview, InReview, Released, FalsePositive, ConfirmedMalicious, Deleted}
  }

  /** An operation adds at most one event, which takes its target from the old to the new
      status; every other object keeps its status. */
  lemma StepRecords(s: Store, op: Operation)
    requires forall i | 0 <= i < |s.items| :: s.items[i].status in ItemStatuses()
    requires forall i | 0 <= i < |s.alerts| :: s.alerts[i].status in {Open, Acknowledged, Resolved}
    ensures var (s', r) := Step(s, op);
            if r.Done? then
              && |s'.log| == |s.log| + 1 && s'.log == s.log + [s'.log[|s.log|]]
              && var e := s'.log[|s.log|];
                 && LegalEvent(e)
                 && e.fromStatus == StatusOf(s, e.target) && e.toStatus == StatusOf(s', e.target)
                 && forall t | t != e.target :: StatusOf(s', t) == StatusOf(s, t)
            else s' == s
  {
  }
}
