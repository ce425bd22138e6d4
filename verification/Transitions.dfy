/** Each transaction as a function of the store: what it commits and what it answers. A transaction
    that does not answer `Done` has been rolled back, except the pipeline's rejection receipt. */
module Transitions {
  import opened Common
  import opened Store

  datatype Answer =
    | Done
    | StaleState         // HTTP 409
    | IllegalTransition  // HTTP 500
    | InvalidArgument    // ValueError before any SQL
    | ConstraintFailure  // a CHECK or key constraint the code does not translate
    | PermanentFailure   // the job fails and is not retried
    | DatabaseError      // a statement the server refuses

  datatype Txn = Txn(store: Store, answer: Answer)

  // ---- which open cluster absorbs an alert -------------------------------------------------

  /** The six predicates of the dedup query, on one row. */
  predicate Absorbs(row: AlertRow, key: ClusterKey, now: Time, cfg: Config) {
    && row.key == key
    && (row.closedAt.None? || row.sealedAt.None?)
    && !row.status.Duplicate?
    && row.lastSeenAt >= now - cfg.idleGap
    && row.firstSeenAt >= now - (if row.status.AutoClosed? then cfg.maxAgeAutoClosed else cfg.maxAge)
    && row.occurrenceCount < cfg.maxClusterSize
  }

  /** An answer the query may give: the most recently seen candidate (any of them on a tie), or
      nothing when there is no candidate. */
  ghost predicate DedupAnswer(alerts: map<AlertId, AlertRow>, key: ClusterKey, now: Time, cfg: Config,
                              head: Option<AlertId>)
  {
    match head
    case None => forall id :: id in alerts ==> !Absorbs(alerts[id], key, now, cfg)
    case Some(h) =>
      && h in alerts && Absorbs(alerts[h], key, now, cfg)
      && forall id :: id in alerts && Absorbs(alerts[id], key, now, cfg) ==>
                        alerts[id].lastSeenAt <= alerts[h].lastSeenAt
  }

  // ---- one intake row ----------------------------------------------------------------------

  function FreshRow(key: ClusterKey, status: Status, now: Time): AlertRow {
    AlertRow(key, status, None, 1, None, None, None, None, now, now)
  }

  /** The front of the text, a thousand characters of it or all there is. */
  lemma RecordedIsTheFront(message: string)
    ensures Recorded(message) <= message
    ensures |Recorded(message)| == if |message| < 1000 then |message| else 1000
  {
  }

  function WithReceipt(s: Store, intakeId: IntakeId, outcome: Outcome, now: Time): Store
    requires intakeId in s.intake
  {
    s.(intake := s.intake[intakeId := s.intake[intakeId].(receipt := Some(Receipt(outcome, now)))])
  }

  /** An exception's text, as far as it is recorded. */
  function Recorded(message: string): string {
    if |message| > 1000 then message[..1000] else message
  }

  function MergeDuplicate(s: Store, intakeId: IntakeId, id: AlertId, key: ClusterKey, head: AlertId, now: Time): Store
    requires intakeId in s.intake && head in s.alerts
  {
    var parent := s.alerts[head].(occurrenceCount := s.alerts[head].occurrenceCount + 1, lastSeenAt := now);
    var row := FreshRow(key, Duplicate, now).(duplicateOf := Some(head), closedAt := Some(now), sealedAt := Some(now));
    WithReceipt(
      s.(alerts := s.alerts[head := parent][id := row],
         audit := s.audit + [DuplicateMerged(id, head, parent.occurrenceCount)]),
      intakeId, DuplicateOutcome, now)
  }

  function OpenAutoClosed(s: Store, intakeId: IntakeId, id: AlertId, key: ClusterKey, rule: RuleId, now: Time): Store
    requires intakeId in s.intake
  {
    WithReceipt(
      s.(alerts := s.alerts[id := FreshRow(key, AutoClosed, now).(closedAt := Some(now))],
         triageJobs := s.triageJobs + {id},
         audit := s.audit + [AlertAutoClosed(id, rule)]),
      intakeId, AutoClosedOutcome, now)
  }

  function OpenQueued(s: Store, intakeId: IntakeId, id: AlertId, key: ClusterKey, now: Time): Store
    requires intakeId in s.intake
  {
    WithReceipt(
      s.(alerts := s.alerts[id := FreshRow(key, QueuedTier1, now)],
         triageJobs := s.triageJobs + {id},
         audit := s.audit + [AlertReceived(id), EnrichStarted(id), Enriched(id)]),
      intakeId, AlertOutcome, now)
  }

  /** One pipeline job: `head` is what the dedup query answered and `rule` what auto-close decided. */
  function Pipeline(s: Store, intakeId: IntakeId, head: Option<AlertId>, rule: Option<RuleId>, now: Time): Txn {
    if intakeId !in s.intake then Txn(s, PermanentFailure)
    else if s.intake[intakeId].receipt.Some? then Txn(s, Done)
    else match s.intake[intakeId].text
      case Broken(message) =>
        Txn(WithReceipt(s, intakeId, RejectedOutcome(Recorded(message)), now), PermanentFailure)
      case Refused(reason) =>
        var rejected := s.rejectedAlerts + [reason];
        Txn(WithReceipt(s.(rejectedAlerts := rejected), intakeId, RejectedOutcome(reason), now), Done)
      case Alert(id, key) =>
        if id in s.alerts then Txn(s, StaleState)
        else if head.Some? then
          if head.value !in s.alerts then Txn(s, PermanentFailure)
          else Txn(MergeDuplicate(s, intakeId, id, key, head.value, now), Done)
        else if rule.Some? then Txn(OpenAutoClosed(s, intakeId, id, key, rule.value, now), Done)
        else Txn(OpenQueued(s, intakeId, id, key, now), Done)
  }

  // ---- the analyst's transactions -----------------------------------------------------------

  function Acknowledge(s: Store, id: AlertId, user: UserId): Txn {
    if id in s.alerts && s.alerts[id].status.QueuedTier1? && s.alerts[id].acknowledgedBy.None? then
      Txn(s.(alerts := s.alerts[id := s.alerts[id].(status := Tier1Active, acknowledgedBy := Some(user))],
             audit := s.audit + [Acknowledged(id, user)]), Done)
    else Txn(s, StaleState)
  }

  function Reopen(s: Store, id: AlertId, user: UserId, reason: string): Txn {
    if reason == "" then Txn(s, InvalidArgument)
    else if id in s.alerts && s.alerts[id].status.AutoClosed? then
      Txn(s.(alerts := s.alerts[id := s.alerts[id].(status := QueuedTier1, closedAt := None)],
             audit := s.audit + [Reopened(id, user, reason)]), Done)
    else Txn(s, StaleState)
  }

  function Closed(row: AlertRow, status: Status, now: Time): AlertRow {
    row.(status := status, closedAt := Some(now), sealedAt := Some(now))
  }

  /** Close `heads` and every duplicate of `parents`. */
  function CloseClusters(alerts: map<AlertId, AlertRow>, heads: set<AlertId>, parents: set<AlertId>,
                         status: Status, now: Time): map<AlertId, AlertRow>
  {
    map id | id in alerts ::
      if id in heads || (alerts[id].duplicateOf.Some? && alerts[id].duplicateOf.value in parents)
      then Closed(alerts[id], status, now) else alerts[id]
  }

  function Decide(s: Store, id: AlertId, user: UserId, decision: Status, seen: int, now: Time, cfg: Config): Txn {
    if decision != ClosedFp && decision != ClosedBenign then Txn(s, IllegalTransition)
    else if id !in s.alerts || s.alerts[id].status != Tier1Active then Txn(s, StaleState)
    else if s.alerts[id].occurrenceCount - seen > cfg.reviewDeltaTolerance then Txn(s, StaleState)
    else Txn(s.(alerts := CloseClusters(s.alerts, {id}, {id}, decision, now),
                audit := s.audit + [Decided(id, user, decision, s.alerts[id].occurrenceCount)]), Done)
  }

  function Without(ids: seq<AlertId>, id: AlertId): seq<AlertId> {
    if ids == [] then []
    else (if ids[0] == id then [] else [ids[0]]) + Without(ids[1..], id)
  }

  lemma {:induction false} WithoutKeepsOthers(ids: seq<AlertId>, id: AlertId)
    ensures id !in Without(ids, id)
    ensures forall x :: x in Without(ids, id) <==> x in ids && x != id
  {
    if ids != [] {
      WithoutKeepsOthers(ids[1..], id);
      assert ids == [ids[0]] + ids[1..];
    }
  }

  /** The trigger, then its correlated heads, before the cap cuts. */
  function Candidates(id: AlertId, correlated: seq<AlertId>): seq<AlertId> {
    [id] + Without(correlated, id)
  }

  function Capped(ids: seq<AlertId>, cap: nat): seq<AlertId> {
    if |ids| > cap then ids[..cap] else ids
  }

  /** The two escalation UPDATEs: heads change status and take the case, duplicates only the case. */
  function EscalateRows(alerts: map<AlertId, AlertRow>, heads: set<AlertId>, caseId: CaseId): map<AlertId, AlertRow> {
    map id | id in alerts ::
      var row := if id in heads then alerts[id].(status := EscalatedTier2, caseId := Some(caseId)) else alerts[id];
      if row.duplicateOf.Some? && row.duplicateOf.value in heads then row.(caseId := Some(caseId)) else row
  }

  function EscalateEvents(id: AlertId, user: UserId, caseId: CaseId, dropped: nat, heads: seq<AlertId>): seq<Event> {
    (if dropped > 0 then [CaseTruncated(caseId, user, dropped)] else [])
    + [Escalated(id, user, caseId, heads), CaseOpened(caseId, user, id, |heads|)]
  }

  /** Why the statements of an escalation over `heads` would roll back, in the order they run: the
      inserts' key constraints, the CHECK on the escalated rows, the row count of their UPDATE. */
  function EscalateRefusal(s: Store, caseId: CaseId, heads: seq<AlertId>): Option<Answer> {
    if caseId in s.cases || exists h :: h in heads && h !in s.alerts then Some(ConstraintFailure)
    else if (exists h :: h in heads && h in s.caseAlerts) || |Elements(heads)| != |heads| then Some(StaleState)
    else if exists h :: h in heads && s.alerts[h].caseId.None? && s.alerts[h].sealedAt.Some? then
      Some(ConstraintFailure)
    else if exists h :: h in heads && s.alerts[h].caseId.Some? then Some(StaleState)
    else None
  }

  function EscalateStore(s: Store, id: AlertId, user: UserId, caseId: CaseId, dropped: nat,
                         heads: seq<AlertId>): Store {
    s.(alerts := EscalateRows(s.alerts, Elements(heads), caseId),
       cases := s.cases[caseId := Investigating],
       caseAlerts := s.caseAlerts + map h | h in Elements(heads) :: caseId,
       audit := s.audit + EscalateEvents(id, user, caseId, dropped, heads))
  }

  /** `correlated` is what the correlation query answered; `caseId` is the new random id. */
  function Escalate(s: Store, id: AlertId, user: UserId, caseId: CaseId, correlated: seq<AlertId>, cfg: Config): Txn {
    if id !in s.alerts then Txn(s, StaleState)
    else if cfg.maxAlertsPerCase < 0 then Txn(s, DatabaseError)
    else
      var all := Candidates(id, correlated);
      var heads := Capped(all, cfg.maxAlertsPerCase);
      var refusal := EscalateRefusal(s, caseId, heads);
      if refusal.Some? then Txn(s, refusal.value)
      else Txn(EscalateStore(s, id, user, caseId, |all| - |heads|, heads), Done)
  }

  /** Heads the first conclusion UPDATE touches. */
  function OpenHeadsOf(alerts: map<AlertId, AlertRow>, caseId: CaseId): set<AlertId> {
    set id | id in alerts && alerts[id].caseId == Some(caseId) && alerts[id].status.EscalatedTier2?
  }

  /** Heads whose duplicates the second conclusion UPDATE touches. */
  function ParentsOf(alerts: map<AlertId, AlertRow>, caseId: CaseId): set<AlertId> {
    set id | id in alerts && alerts[id].caseId == Some(caseId) && alerts[id].duplicateOf.None?
  }

  function Conclude(s: Store, caseId: CaseId, user: UserId, conclusion: CaseStatus, now: Time): Txn {
    if conclusion.Investigating? then Txn(s, IllegalTransition)
    else if caseId !in s.cases || s.cases[caseId] != Investigating then Txn(s, StaleState)
    else Txn(s.(cases := s.cases[caseId := conclusion],
                alerts := CloseClusters(s.alerts, OpenHeadsOf(s.alerts, caseId), ParentsOf(s.alerts, caseId),
                                        AlertStatusFor(conclusion), now),
                audit := s.audit + [Concluded(caseId, user, conclusion)]), Done)
  }

  // ---- runs ---------------------------------------------------------------------------------

  datatype Action =
    | Arrive(intakeId: IntakeId, text: Parsed, heartbeat: bool)
    | RunPipeline(jobIntakeId: IntakeId, head: Option<AlertId>, rule: Option<RuleId>)
    | DoAcknowledge(ackId: AlertId, ackUser: UserId)
    | DoDecide(decideId: AlertId, decideUser: UserId, decision: Status, seen: int)
    | DoEscalate(trigger: AlertId, escalateUser: UserId, newCase: CaseId, correlated: seq<AlertId>)
    | DoReopen(reopenId: AlertId, reopenUser: UserId, reason: string)
    | DoConclude(concludeCase: CaseId, concludeUser: UserId, conclusion: CaseStatus)

  datatype Step = Step(now: Time, action: Action)

  /** What the correlation query may answer: distinct open heads other than the trigger, at most
      the limit of them. */
  ghost predicate CorrelationAnswer(s: Store, id: AlertId, ids: seq<AlertId>, cfg: Config) {
    && NoRepeats(ids)
    && |ids| <= cfg.maxAlertsPerCase
    && forall h :: h in ids ==>
         h != id && IsHead(s.alerts, h) && (s.alerts[h].status.QueuedTier1? || s.alerts[h].status.Tier1Active?)
  }

  /** Time does not go back, and the two queries whose answers a step carries gave those answers. */
  ghost predicate Legal(s: Store, step: Step, cfg: Config) {
    && s.clock <= step.now
    && match step.action
       case RunPipeline(i, head, _) =>
         i in s.intake && s.intake[i].receipt.None? && s.intake[i].text.Alert? ==>
           DedupAnswer(s.alerts, s.intake[i].text.key, step.now, cfg, head)
       case DoEscalate(id, _, _, correlated) =>
         0 <= cfg.maxAlertsPerCase ==> CorrelationAnswer(s, id, correlated, cfg)
       case _ => true
  }

  /** The row-per-arrival insert: a re-read of a stored row changes nothing, a heartbeat is stored as
      processed. */
  function ArriveRow(s: Store, intakeId: IntakeId, text: Parsed, heartbeat: bool, now: Time): Txn {
    if intakeId in s.intake then Txn(s, Done)
    else
      var receipt := if heartbeat then Some(Receipt(HeartbeatOutcome, now)) else None;
      Txn(s.(intake := s.intake[intakeId := IntakeRow(text, receipt)]), Done)
  }

  function Perform(s: Store, step: Step, cfg: Config): Txn {
    match step.action
    case Arrive(i, text, heartbeat) => ArriveRow(s, i, text, heartbeat, step.now)
    case RunPipeline(i, head, rule) => Pipeline(s, i, head, rule, step.now)
    case DoAcknowledge(id, user) => Acknowledge(s, id, user)
    case DoDecide(id, user, decision, seen) => Decide(s, id, user, decision, seen, step.now, cfg)
    case DoEscalate(id, user, c, correlated) => Escalate(s, id, user, c, correlated, cfg)
    case DoReopen(id, user, reason) => Reopen(s, id, user, reason)
    case DoConclude(c, user, conclusion) => Conclude(s, c, user, conclusion, step.now)
  }

  function After(s: Store, step: Step, cfg: Config): Store {
    Perform(s, step, cfg).store.(clock := step.now)
  }

  function Run(s: Store, steps: seq<Step>, cfg: Config): Store {
    if steps == [] then s else After(Run(s, steps[..|steps| - 1], cfg), steps[|steps| - 1], cfg)
  }

  ghost predicate LegalRun(s: Store, steps: seq<Step>, cfg: Config) {
    steps == [] ||
    (LegalRun(s, steps[..|steps| - 1], cfg)
     && Legal(Run(s, steps[..|steps| - 1], cfg), steps[|steps| - 1], cfg))
  }
}
