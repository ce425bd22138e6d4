/** The rows the alert and case lifecycle reads and writes, and its audit events. */
module Store {
  import opened Common

  type AlertId = string
  type CaseId = string
  type IntakeId = int
  type UserId = string
  type RuleId = string
  /** A database timestamp, in clock ticks. */
  type Time = int

  datatype Config = Config(
    idleGap: Time,              // DEDUP_IDLE_GAP_MINUTES
    maxAgeAutoClosed: Time,     // MAX_CLUSTER_AGE_AUTOCLOSED_MINUTES
    maxAge: Time,               // MAX_CLUSTER_AGE_HOURS
    maxClusterSize: int,        // MAX_CLUSTER_SIZE
    reviewDeltaTolerance: int,  // REVIEW_DELTA_TOLERANCE
    maxAlertsPerCase: int)      // MAX_ALERTS_PER_CASE

  datatype Status =
    | Received | Duplicate | AutoClosed | Enriching | QueuedTier1 | Tier1Active
    | EscalatedTier2 | ClosedFp | ClosedBenign | ClosedConfirmed

  /** Statuses written by a human decision: nothing leaves them. */
  predicate Terminal(status: Status) {
    status.ClosedFp? || status.ClosedBenign? || status.ClosedConfirmed?
  }

  datatype CaseStatus = Investigating | ConcludedFp | ConcludedPolicyViolation | ConfirmedIncident

  datatype ClusterKey = ClusterKey(ruleId: string, srcip: string, dstip: string, agentName: string)

  datatype AlertRow = AlertRow(
    key: ClusterKey,
    status: Status,
    duplicateOf: Option<AlertId>,
    occurrenceCount: int,
    caseId: Option<CaseId>,
    acknowledgedBy: Option<UserId>,
    closedAt: Option<Time>,
    sealedAt: Option<Time>,
    firstSeenAt: Time,
    lastSeenAt: Time)

  /** What an intake row's text comes to; it depends on the text alone. */
  datatype Parsed =
    | Broken(message: string)                         // a permanent error: no JSON, or a value no table takes
    | Refused(reason: string)                         // the parser's own rejection
    | Alert(alertId: AlertId, key: ClusterKey)

  datatype Outcome =
    | AlertOutcome | DuplicateOutcome | AutoClosedOutcome | RejectedOutcome(error: string) | HeartbeatOutcome

  /** The columns written together, once: `processed_at`, `outcome` and `error`. */
  datatype Receipt = Receipt(outcome: Outcome, at: Time)

  datatype IntakeRow = IntakeRow(text: Parsed, receipt: Option<Receipt>)

  datatype Event =
    | AlertReceived(alertId: AlertId)
    | DuplicateMerged(alertId: AlertId, parent: AlertId, occurrence: int)
    | AlertAutoClosed(alertId: AlertId, rule: RuleId)
    | EnrichStarted(alertId: AlertId)
    | Enriched(alertId: AlertId)
    | Acknowledged(alertId: AlertId, user: UserId)
    | Decided(alertId: AlertId, user: UserId, decision: Status, occurrenceCount: int)
    | CaseTruncated(caseId: CaseId, user: UserId, dropped: nat)
    | Escalated(alertId: AlertId, user: UserId, caseId: CaseId, alertIds: seq<AlertId>)
    | CaseOpened(caseId: CaseId, user: UserId, trigger: AlertId, alertCount: nat)
    | Reopened(alertId: AlertId, user: UserId, reason: string)
    | Concluded(caseId: CaseId, user: UserId, conclusion: CaseStatus)

  /** The tables. `caseAlerts` is keyed by alert: the unique index on `alert_id` lets an alert
      appear in one row only. `triageJobs` holds the subjects that have a `triage` job row. */
  datatype Store = Store(
    alerts: map<AlertId, AlertRow>,
    cases: map<CaseId, CaseStatus>,
    caseAlerts: map<AlertId, CaseId>,
    triageJobs: set<AlertId>,
    intake: map<IntakeId, IntakeRow>,
    rejectedAlerts: seq<string>,
    audit: seq<Event>,
    clock: Time)

  const EMPTY: Store := Store(map[], map[], map[], {}, map[], [], [], 0)

  /** The CHECK constraints of table `alerts` that the lifecycle columns are under. */
  predicate ChecksHold(id: AlertId, row: AlertRow) {
    && (row.status.Duplicate? || row.status.AutoClosed? || Terminal(row.status) ==> row.closedAt.Some?)
    && (Terminal(row.status) ==> row.sealedAt.Some?)
    && (row.status.EscalatedTier2? ==> row.sealedAt.None?)
    && (row.status.Duplicate? ==> row.duplicateOf.Some? && row.sealedAt.Some?)
    && row.duplicateOf != Some(id)
    && row.firstSeenAt <= row.lastSeenAt
    && 1 <= row.occurrenceCount
  }

  predicate IsHead(alerts: map<AlertId, AlertRow>, id: AlertId) {
    id in alerts && alerts[id].duplicateOf.None?
  }

  function Heads(alerts: map<AlertId, AlertRow>): set<AlertId> {
    set id | id in alerts && alerts[id].duplicateOf.None?
  }

  function DuplicatesOf(alerts: map<AlertId, AlertRow>, head: AlertId): set<AlertId> {
    set id | id in alerts && alerts[id].duplicateOf == Some(head)
  }

  /** The rows of one case in `case_alerts`. */
  function CaseHeads(caseAlerts: map<AlertId, CaseId>, caseId: CaseId): set<AlertId> {
    set id | id in caseAlerts && caseAlerts[id] == caseId
  }

  /** The alert status a case's heads carry: escalated while it is open, then its conclusion's. */
  function AlertStatusFor(status: CaseStatus): Status {
    match status
    case Investigating => EscalatedTier2
    case ConcludedFp => ClosedFp
    case ConcludedPolicyViolation => ClosedBenign
    case ConfirmedIncident => ClosedConfirmed
  }
}
