/** The database as the transactions see it: tables updated in place, one statement after another,
    with a rollback when a statement is refused. Each transaction is proved to commit what its
    function in `Transitions` says, so everything proved of runs holds of these methods. */
module Database {
  import opened Common
  import opened Store
  import T = Transitions
  import Lifecycle
  import Runs
  import Joins

  class Database {
    var alerts: map<AlertId, AlertRow>
    var cases: map<CaseId, CaseStatus>
    var caseAlerts: map<AlertId, CaseId>
    var triageJobs: set<AlertId>
    var intake: map<IntakeId, IntakeRow>
    var rejectedAlerts: seq<string>
    var audit: seq<Event>
    var clock: Time

    function State(): Store
      reads this
    {
      Store(alerts, cases, caseAlerts, triageJobs, intake, rejectedAlerts, audit, clock)
    }

    ghost predicate Valid(cfg: Config)
      reads this
    {
      Lifecycle.Inv(State(), cfg)
    }

    constructor ()
      ensures State() == EMPTY
    {
      alerts, cases, caseAlerts, triageJobs := map[], map[], map[], {};
      intake, rejectedAlerts, audit, clock := map[], [], [], 0;
    }

    /** Undo everything since `before`, except that time has passed. */
    method Rollback(before: Store)
      modifies this
      ensures State() == before.(clock := old(clock))
    {
      alerts, cases, caseAlerts := before.alerts, before.cases, before.caseAlerts;
      triageJobs, intake := before.triageJobs, before.intake;
      rejectedAlerts, audit := before.rejectedAlerts, before.audit;
    }

    // ---- dedup ----------------------------------------------------------------------------------

    /** The dedup query: `ORDER BY last_seen_at DESC LIMIT 1` over the six predicates. */
    method FindOpenCluster(key: ClusterKey, now: Time, cfg: Config) returns (head: Option<AlertId>)
      ensures T.DedupAnswer(alerts, key, now, cfg, head)
      ensures head.Some? ==>
                var row := alerts[head.value];
                && row.key.ruleId == key.ruleId && row.key.srcip == key.srcip
                && row.key.dstip == key.dstip && row.key.agentName == key.agentName
                && (row.closedAt.None? || row.sealedAt.None?) && row.status != Duplicate
                && now - row.lastSeenAt <= cfg.idleGap && row.occurrenceCount < cfg.maxClusterSize
                && now - row.firstSeenAt <= if row.status == AutoClosed then cfg.maxAgeAutoClosed else cfg.maxAge
      ensures head.None? ==>
                forall id <- alerts ::
                  || alerts[id].key.ruleId != key.ruleId || alerts[id].key.srcip != key.srcip
                  || alerts[id].key.dstip != key.dstip || alerts[id].key.agentName != key.agentName
                  || (alerts[id].closedAt.Some? && alerts[id].sealedAt.Some?) || alerts[id].status == Duplicate
                  || now - alerts[id].lastSeenAt > cfg.idleGap || alerts[id].occurrenceCount >= cfg.maxClusterSize
                  || now - alerts[id].firstSeenAt >
                       if alerts[id].status == AutoClosed then cfg.maxAgeAutoClosed else cfg.maxAge
    {
      var todo := alerts.Keys;
      head := None;
      while todo != {}
        invariant todo <= alerts.Keys
        invariant head.None? ==>
                    forall id :: id in alerts && id !in todo ==> !T.Absorbs(alerts[id], key, now, cfg)
        invariant head.Some? ==>
                    && head.value in alerts && T.Absorbs(alerts[head.value], key, now, cfg)
                    && forall id :: id in alerts && id !in todo && T.Absorbs(alerts[id], key, now, cfg) ==>
                                      alerts[id].lastSeenAt <= alerts[head.value].lastSeenAt
        decreases |todo|
      {
        var id :| id in todo;
        todo := todo - {id};
        if T.Absorbs(alerts[id], key, now, cfg)
           && (head.None? || alerts[head.value].lastSeenAt < alerts[id].lastSeenAt)
        {
          head := Some(id);
        }
      }
    }

    method BumpParent(parent: AlertId, now: Time) returns (found: bool)
      modifies this`alerts
      ensures found == (parent in old(alerts))
      ensures found ==> alerts == old(alerts)[parent := old(alerts)[parent].(
                                    occurrenceCount := old(alerts)[parent].occurrenceCount + 1, lastSeenAt := now)]
      ensures !found ==> alerts == old(alerts)
    {
      found := parent in alerts;
      if found {
        var row := alerts[parent];
        alerts := alerts[parent := row.(occurrenceCount := row.occurrenceCount + 1, lastSeenAt := now)];
      }
    }

    // ---- single-row transitions -------------------------------------------------------------------

    /** The guarded UPDATE and its audit event: `from` and `guard` are the WHERE clause, `change` the
        extra SET columns. */
    method Apply(id: AlertId, from: set<Status>, to: Status, guard: AlertRow -> bool, change: AlertRow -> AlertRow,
                 e: Event)
      returns (answer: T.Answer)
      modifies this`alerts, this`audit
      ensures answer == if id in old(alerts) && old(alerts)[id].status in from && guard(old(alerts)[id])
                        then T.Done else T.StaleState
      ensures answer.Done? ==> alerts == old(alerts)[id := change(old(alerts)[id]).(status := to)]
      ensures answer.Done? ==> audit == old(audit) + [e]
      ensures !answer.Done? ==> alerts == old(alerts) && audit == old(audit)
    {
      if id !in alerts || alerts[id].status !in from || !guard(alerts[id]) {
        return T.StaleState;
      }
      alerts := alerts[id := change(alerts[id]).(status := to)];
      audit := audit + [e];
      answer := T.Done;
    }

    method StartEnrichment(id: AlertId) returns (answer: T.Answer)
      modifies this`alerts, this`audit
      ensures answer.Done? <==> id in old(alerts) && old(alerts)[id].status.Received?
      ensures answer.Done? ==> alerts == old(alerts)[id := old(alerts)[id].(status := Enriching)]
      ensures answer.Done? ==> audit == old(audit) + [EnrichStarted(id)]
      ensures !answer.Done? ==> alerts == old(alerts) && audit == old(audit)
    {
      answer := Apply(id, {Received}, Enriching, _ => true, row => row, EnrichStarted(id));
    }

    /** Enrichment ends and the triage job is queued in the same transaction. */
    method FinishEnrichment(id: AlertId) returns (answer: T.Answer)
      modifies this`alerts, this`audit, this`triageJobs
      ensures answer.Done? <==> id in old(alerts) && old(alerts)[id].status.Enriching?
      ensures answer.Done? ==> alerts == old(alerts)[id := old(alerts)[id].(status := QueuedTier1)]
      ensures answer.Done? ==> audit == old(audit) + [Enriched(id)] && triageJobs == old(triageJobs) + {id}
      ensures !answer.Done? ==> alerts == old(alerts) && audit == old(audit) && triageJobs == old(triageJobs)
    {
      answer := Apply(id, {Enriching}, QueuedTier1, _ => true, row => row, Enriched(id));
      if answer.Done? {
        triageJobs := triageJobs + {id};
      }
    }

    method Acknowledge(id: AlertId, user: UserId, now: Time, ghost cfg: Config) returns (answer: T.Answer)
      requires Valid(cfg) && clock <= now
      modifies this
      ensures Valid(cfg)
      ensures State() == T.Acknowledge(old(State()), id, user).store.(clock := now)
      ensures answer == T.Acknowledge(old(State()), id, user).answer
    {
      clock := now;
      answer := Apply(id, {QueuedTier1}, Tier1Active, (row: AlertRow) => row.acknowledgedBy.None?,
                      (row: AlertRow) => row.(acknowledgedBy := Some(user)), Acknowledged(id, user));
      Lifecycle.AcknowledgeKeepsInv(old(State()), id, user, now, cfg);
    }

    method Reopen(id: AlertId, user: UserId, reason: string, now: Time, ghost cfg: Config) returns (answer: T.Answer)
      requires Valid(cfg) && clock <= now
      modifies this
      ensures Valid(cfg)
      ensures State() == T.Reopen(old(State()), id, user, reason).store.(clock := now)
      ensures answer == T.Reopen(old(State()), id, user, reason).answer
    {
      clock := now;
      Lifecycle.ReopenKeepsInv(old(State()), id, user, reason, now, cfg);
      if reason == "" {
        return T.InvalidArgument;
      }
      answer := Apply(id, {AutoClosed}, QueuedTier1, _ => true, (row: AlertRow) => row.(closedAt := None),
                      Reopened(id, user, reason));
    }

    // ---- the pipeline -------------------------------------------------------------------------------

    method InsertAlert(id: AlertId, row: AlertRow) returns (answer: T.Answer)
      modifies this`alerts
      ensures answer == if id in old(alerts) then T.StaleState else T.Done
      ensures alerts == if id in old(alerts) then old(alerts) else old(alerts)[id := row]
    {
      if id in alerts {
        return T.StaleState;
      }
      alerts := alerts[id := row];
      answer := T.Done;
    }

    method FinishReceipt(intakeId: IntakeId, outcome: Outcome, now: Time)
      requires intakeId in intake
      modifies this`intake
      ensures intake == old(intake)[intakeId := old(intake)[intakeId].(receipt := Some(Receipt(outcome, now)))]
    {
      intake := intake[intakeId := intake[intakeId].(receipt := Some(Receipt(outcome, now)))];
    }

    method OpenDuplicate(id: AlertId, key: ClusterKey, head: AlertId, now: Time) returns (answer: T.Answer)
      requires head in alerts
      modifies this`alerts, this`audit
      ensures answer == if id in old(alerts) then T.StaleState else T.Done
      ensures answer.Done? ==>
                && alerts == old(alerts)[id := T.FreshRow(key, Duplicate, now).(
                                           duplicateOf := Some(head), closedAt := Some(now), sealedAt := Some(now))]
                && audit == old(audit) + [DuplicateMerged(id, head, old(alerts)[head].occurrenceCount)]
      ensures !answer.Done? ==> alerts == old(alerts) && audit == old(audit)
    {
      var row := T.FreshRow(key, Duplicate, now);
      answer := InsertAlert(id, row.(duplicateOf := Some(head), closedAt := Some(now), sealedAt := Some(now)));
      if answer.Done? {
        audit := audit + [DuplicateMerged(id, head, alerts[head].occurrenceCount)];
      }
    }

    method OpenAutoClosed(id: AlertId, key: ClusterKey, rule: RuleId, now: Time) returns (answer: T.Answer)
      modifies this`alerts, this`audit, this`triageJobs
      ensures answer == if id in old(alerts) then T.StaleState else T.Done
      ensures answer.Done? ==>
                && alerts == old(alerts)[id := T.FreshRow(key, AutoClosed, now).(closedAt := Some(now))]
                && audit == old(audit) + [AlertAutoClosed(id, rule)] && triageJobs == old(triageJobs) + {id}
      ensures !answer.Done? ==> alerts == old(alerts) && audit == old(audit) && triageJobs == old(triageJobs)
    {
      answer := InsertAlert(id, T.FreshRow(key, AutoClosed, now).(closedAt := Some(now)));
      if answer.Done? {
        triageJobs := triageJobs + {id};
        audit := audit + [AlertAutoClosed(id, rule)];
      }
    }

    method OpenReceived(id: AlertId, key: ClusterKey, now: Time) returns (answer: T.Answer)
      modifies this`alerts, this`audit
      ensures answer == if id in old(alerts) then T.StaleState else T.Done
      ensures answer.Done? ==>
                && alerts == old(alerts)[id := T.FreshRow(key, Received, now)]
                && audit == old(audit) + [AlertReceived(id)]
      ensures !answer.Done? ==> alerts == old(alerts) && audit == old(audit)
    {
      answer := InsertAlert(id, T.FreshRow(key, Received, now));
      if answer.Done? {
        audit := audit + [AlertReceived(id)];
      }
    }

    /** The branch of one parsed alert; any answer but `Done` leaves a transaction to roll back. */
    method Process(intakeId: IntakeId, id: AlertId, key: ClusterKey, rule: Option<RuleId>, now: Time, cfg: Config)
      returns (answer: T.Answer, ghost head: Option<AlertId>)
      requires intakeId in intake && intake[intakeId] == IntakeRow(Alert(id, key), None)
      modifies this
      ensures clock == old(clock)
      ensures T.DedupAnswer(old(alerts), key, now, cfg, head)
      ensures answer == T.Pipeline(old(State()), intakeId, head, rule, now).answer
      ensures answer.Done? ==> State() == T.Pipeline(old(State()), intakeId, head, rule, now).store
    {
      var found := FindOpenCluster(key, now, cfg);
      head := found;
      if found.Some? {
        var bumped := BumpParent(found.value, now);
        answer := OpenDuplicate(id, key, found.value, now);
        if answer.Done? {
          FinishReceipt(intakeId, DuplicateOutcome, now);
        }
      } else if rule.Some? {
        answer := OpenAutoClosed(id, key, rule.value, now);
        if answer.Done? {
          FinishReceipt(intakeId, AutoClosedOutcome, now);
        }
      } else {
        answer := OpenReceived(id, key, now);
        if answer.Done? {
          answer := StartEnrichment(id);
          answer := FinishEnrichment(id);
          FinishReceipt(intakeId, AlertOutcome, now);
          assert alerts == old(alerts)[id := T.FreshRow(key, QueuedTier1, now)];
          assert audit == old(audit) + [AlertReceived(id), EnrichStarted(id), Enriched(id)];
        }
      }
    }

    /** One intake row inside the job's transaction, its rejections included. */
    method ProcessRow(intakeId: IntakeId, rule: Option<RuleId>, now: Time, cfg: Config)
      returns (answer: T.Answer, ghost head: Option<AlertId>)
      modifies this
      ensures clock == old(clock)
      ensures old(intakeId in intake && intake[intakeId].receipt.None? && intake[intakeId].text.Alert?) ==>
                T.DedupAnswer(old(alerts), old(intake)[intakeId].text.key, now, cfg, head)
      ensures State() == T.Pipeline(old(State()), intakeId, head, rule, now).store
      ensures answer == T.Pipeline(old(State()), intakeId, head, rule, now).answer
    {
      head := None;
      if intakeId !in intake {
        return T.PermanentFailure, None;
      }
      var row := intake[intakeId];
      if row.receipt.Some? {
        return T.Done, None;
      }
      match row.text
      case Broken(message) =>
        FinishReceipt(intakeId, RejectedOutcome(T.Recorded(message)), now);
        answer := T.PermanentFailure;
      case Refused(reason) =>
        rejectedAlerts := rejectedAlerts + [reason];
        FinishReceipt(intakeId, RejectedOutcome(reason), now);
        answer := T.Done;
      case Alert(id, key) =>
        var before := State();
        answer, head := Process(intakeId, id, key, rule, now, cfg);
        if !answer.Done? {
          Rollback(before);
        }
    }

    /** An intake row to process whose text is an alert of a free id. */
    predicate NewAlert(intakeId: IntakeId)
      reads this
    {
      intakeId in intake && intake[intakeId].receipt.None? && intake[intakeId].text.Alert?
      && intake[intakeId].text.alertId !in alerts
    }

    method RunPipelineJob(intakeId: IntakeId, rule: Option<RuleId>, now: Time, cfg: Config)
      returns (answer: T.Answer, ghost head: Option<AlertId>)
      requires Valid(cfg) && clock <= now
      modifies this
      ensures Valid(cfg)
      ensures T.Legal(old(State()), T.Step(now, T.RunPipeline(intakeId, head, rule)), cfg)
      ensures State() == T.Pipeline(old(State()), intakeId, head, rule, now).store.(clock := now)
      ensures answer == T.Pipeline(old(State()), intakeId, head, rule, now).answer
      ensures old(NewAlert(intakeId)) ==>
                var id, key := old(intake)[intakeId].text.alertId, old(intake)[intakeId].text.key;
                && id in alerts && alerts[id].key == key
                && (alerts[id].duplicateOf.Some? <==> exists h :: Joins.MayJoin(old(State()), h, key, now, cfg))
                && (alerts[id].duplicateOf.Some? ==>
                      Joins.Latest(old(State()), alerts[id].duplicateOf.value, key, now, cfg))
    {
      answer, head := ProcessRow(intakeId, rule, now, cfg);
      clock := now;
      if old(NewAlert(intakeId)) { Joins.PipelineJoinsExactly(old(State()), intakeId, head, rule, now, cfg); }
      Lifecycle.PipelineKeepsInv(old(State()), intakeId, head, rule, now, cfg);
    }

    // ---- decisions, escalation, conclusion -------------------------------------------------------------

    /** `UPDATE alerts SET status, closed_at, sealed_at WHERE duplicate_of` is one of `parents`. */
    method CloseDuplicatesOf(parents: set<AlertId>, status: Status, now: Time)
      modifies this`alerts
      ensures alerts == T.CloseClusters(old(alerts), {}, parents, status, now)
    {
      alerts := map id | id in alerts ::
        if alerts[id].duplicateOf.Some? && alerts[id].duplicateOf.value in parents
        then T.Closed(alerts[id], status, now) else alerts[id];
    }

    method CloseHeads(heads: set<AlertId>, status: Status, now: Time)
      modifies this`alerts
      ensures alerts == T.CloseClusters(old(alerts), heads, {}, status, now)
    {
      alerts := map id | id in alerts :: if id in heads then T.Closed(alerts[id], status, now) else alerts[id];
    }

    /** Closing heads and then their duplicates closes the clusters. */
    lemma TwoUpdatesCloseClusters(a: map<AlertId, AlertRow>, heads: set<AlertId>, parents: set<AlertId>,
                                  status: Status, now: Time)
      ensures T.CloseClusters(T.CloseClusters(a, heads, {}, status, now), {}, parents, status, now) ==
              T.CloseClusters(a, heads, parents, status, now)
    {
    }

    method DecideRows(id: AlertId, user: UserId, decision: Status, seen: int, now: Time, cfg: Config)
        returns (answer: T.Answer)
      modifies this
      ensures State() == T.Decide(old(State()), id, user, decision, seen, now, cfg).store
      ensures answer == T.Decide(old(State()), id, user, decision, seen, now, cfg).answer
    {
      if decision != ClosedFp && decision != ClosedBenign {
        return T.IllegalTransition;
      }
      if id !in alerts || alerts[id].status != Tier1Active {
        return T.StaleState;
      }
      var occurrenceCount := alerts[id].occurrenceCount;
      if occurrenceCount - seen > cfg.reviewDeltaTolerance {
        return T.StaleState;
      }
      CloseHeads({id}, decision, now);
      CloseDuplicatesOf({id}, decision, now);
      TwoUpdatesCloseClusters(old(alerts), {id}, {id}, decision, now);
      audit := audit + [Decided(id, user, decision, occurrenceCount)];
      answer := T.Done;
    }

    method Decide(id: AlertId, user: UserId, decision: Status, seen: int, now: Time, cfg: Config)
        returns (answer: T.Answer)
      requires Valid(cfg) && clock <= now
      modifies this
      ensures Valid(cfg)
      ensures State() == T.Decide(old(State()), id, user, decision, seen, now, cfg).store.(clock := now)
      ensures answer == T.Decide(old(State()), id, user, decision, seen, now, cfg).answer
    {
      answer := DecideRows(id, user, decision, seen, now, cfg);
      clock := now;
      Lifecycle.DecideKeepsInv(old(State()), id, user, decision, seen, now, cfg);
    }

    method ConcludeRows(caseId: CaseId, user: UserId, conclusion: CaseStatus, now: Time) returns (answer: T.Answer)
      modifies this
      ensures State() == T.Conclude(old(State()), caseId, user, conclusion, now).store
      ensures answer == T.Conclude(old(State()), caseId, user, conclusion, now).answer
    {
      if conclusion.Investigating? {
        return T.IllegalTransition;
      }
      if caseId !in cases || cases[caseId] != Investigating {
        return T.StaleState;
      }
      var status := AlertStatusFor(conclusion);
      cases := cases[caseId := conclusion];
      var heads := T.OpenHeadsOf(alerts, caseId);
      CloseHeads(heads, status, now);
      var parents := T.ParentsOf(alerts, caseId);
      assert parents == T.ParentsOf(old(alerts), caseId);
      CloseDuplicatesOf(parents, status, now);
      TwoUpdatesCloseClusters(old(alerts), heads, parents, status, now);
      audit := audit + [Concluded(caseId, user, conclusion)];
      answer := T.Done;
    }

    method ConcludeCase(caseId: CaseId, user: UserId, conclusion: CaseStatus, now: Time, ghost cfg: Config)
      returns (answer: T.Answer)
      requires Valid(cfg) && clock <= now
      modifies this
      ensures Valid(cfg)
      ensures State() == T.Conclude(old(State()), caseId, user, conclusion, now).store.(clock := now)
      ensures answer == T.Conclude(old(State()), caseId, user, conclusion, now).answer
      ensures answer.Done? ==> Runs.CaseClosedAs(old(State()), alerts, caseId, conclusion, now)
    {
      answer := ConcludeRows(caseId, user, conclusion, now);
      clock := now;
      if answer.Done? { Runs.ConclusionClosesTheCase(old(State()), caseId, user, conclusion, now, cfg); }
      Lifecycle.ConcludeKeepsInv(old(State()), caseId, user, conclusion, now, cfg);
    }

    lemma OneMoreHead(before: map<AlertId, CaseId>, heads: seq<AlertId>, i: nat, caseId: CaseId)
      requires i < |heads|
      ensures before + InCase(Elements(heads[..i + 1]), caseId) ==
              (before + InCase(Elements(heads[..i]), caseId))[heads[i] := caseId]
    {
      assert heads[..i + 1] == heads[..i] + [heads[i]];
    }

    static function InCase(heads: set<AlertId>, caseId: CaseId): map<AlertId, CaseId> {
      map h | h in heads :: caseId
    }

    /** The inserts into `case_alerts`, one head at a time; a collision with the unique index stops
        them half-way. */
    method InsertCaseAlerts(caseId: CaseId, heads: seq<AlertId>) returns (ok: bool)
      modifies this`caseAlerts
      ensures ok <==> NoRepeats(heads) && forall h :: h in heads ==> h !in old(caseAlerts)
      ensures ok ==> caseAlerts == old(caseAlerts) + InCase(Elements(heads), caseId)
    {
      ghost var before := caseAlerts;
      for i := 0 to |heads|
        invariant NoRepeats(heads[..i]) && forall h :: h in heads[..i] ==> h !in before
        invariant caseAlerts == before + InCase(Elements(heads[..i]), caseId)
      {
        assert heads[..i + 1] == heads[..i] + [heads[i]];
        if heads[i] in caseAlerts {
          return false;
        }
        OneMoreHead(before, heads, i, caseId);
        caseAlerts := caseAlerts[heads[i] := caseId];
      }
      assert heads[..|heads|] == heads;
      ok := true;
    }
  
    static function OutsideCases(a: map<AlertId, AlertRow>, ids: set<AlertId>): set<AlertId> {
      set id | id in ids && id in a && a[id].caseId.None?
    }

    static function Escalated(a: map<AlertId, AlertRow>, ids: set<AlertId>, caseId: CaseId): map<AlertId, AlertRow> {
      map id | id in a :: if id in ids then a[id].(status := EscalatedTier2, caseId := Some(caseId)) else a[id]
    }

    static function Linked(a: map<AlertId, AlertRow>, parents: set<AlertId>, caseId: CaseId): map<AlertId, AlertRow> {
      map id | id in a ::
        if a[id].duplicateOf.Some? && a[id].duplicateOf.value in parents then a[id].(caseId := Some(caseId)) else a[id]
    }

    lemma TwoUpdatesEscalate(a: map<AlertId, AlertRow>, heads: set<AlertId>, caseId: CaseId)
      ensures Linked(Escalated(a, heads, caseId), heads, caseId) == T.EscalateRows(a, heads, caseId)
    {
    }

    /** The row count falls short exactly when some head is in a case already. */
    lemma ShortCountMeansTaken(a: map<AlertId, AlertRow>, heads: set<AlertId>)
      requires heads <= a.Keys
      ensures |OutsideCases(a, heads)| == |heads| <==> forall h :: h in heads ==> a[h].caseId.None?
      ensures |OutsideCases(a, heads)| == |heads| ==> OutsideCases(a, heads) == heads
    {
      SubsetCardinality(OutsideCases(a, heads), heads);
      if forall h :: h in heads ==> a[h].caseId.None? {
        assert OutsideCases(a, heads) == heads;
      }
    }

    /** The two UPDATEs on `alerts`. The first skips rows already in a case, fails its CHECK on a
        sealed row, and is only accepted when it touched every head. */
    method EscalateUpdates(caseId: CaseId, heads: set<AlertId>) returns (answer: T.Answer)
      requires heads <= alerts.Keys
      modifies this`alerts
      ensures answer ==
              if exists h :: h in OutsideCases(old(alerts), heads) && old(alerts)[h].sealedAt.Some? then
                T.ConstraintFailure
                        else if |OutsideCases(old(alerts), heads)| != |heads| then T.StaleState
                        else T.Done
      ensures answer.Done? ==> alerts == T.EscalateRows(old(alerts), heads, caseId)
    {
      var open := OutsideCases(alerts, heads);
      if exists h :: h in open && alerts[h].sealedAt.Some? {
        return T.ConstraintFailure;
      }
      alerts := Escalated(alerts, open, caseId);
      if |open| != |heads| {
        return T.StaleState;
      }
      ShortCountMeansTaken(old(alerts), heads);
      alerts := Linked(alerts, heads, caseId);
      TwoUpdatesEscalate(old(alerts), heads, caseId);
      answer := T.Done;
    }

    /** What each statement checks adds up to the refusal of the whole. */
    lemma RefusalByStatements(s: Store, caseId: CaseId, heads: seq<AlertId>)
      requires caseId !in s.cases && Elements(heads) <= s.alerts.Keys
      ensures T.EscalateRefusal(s, caseId, heads) ==
              if !(NoRepeats(heads) && forall h :: h in heads ==> h !in s.caseAlerts) then Some(T.StaleState)
              else if exists h :: h in OutsideCases(s.alerts, Elements(heads)) && s.alerts[h].sealedAt.Some? then
                Some(T.ConstraintFailure)
              else if |OutsideCases(s.alerts, Elements(heads))| != |Elements(heads)| then Some(T.StaleState)
              else None
    {
      RepeatsShowInCardinality(heads);
      ShortCountMeansTaken(s.alerts, Elements(heads));
    }

    /** The statements of one escalation; an answer other than `Done` leaves work to roll back. */
    method EscalateStatements(id: AlertId, user: UserId, caseId: CaseId, dropped: nat, heads: seq<AlertId>)
      returns (answer: T.Answer)
      requires forall h :: h in heads ==> h in alerts
      modifies this
      ensures clock == old(clock)
      ensures answer == (var r := T.EscalateRefusal(old(State()), caseId, heads); if r.Some? then r.value else T.Done)
      ensures answer.Done? ==> State() == T.EscalateStore(old(State()), id, user, caseId, dropped, heads)
    {
      if caseId in cases {
        return T.ConstraintFailure;
      }
      RefusalByStatements(State(), caseId, heads);
      cases := cases[caseId := Investigating];
      var inserted := InsertCaseAlerts(caseId, heads);
      if !inserted {
        return T.StaleState;
      }
      answer := EscalateUpdates(caseId, Elements(heads));
      if answer.Done? {
        WriteEscalationEvents(id, user, caseId, dropped, heads);
        assert InCase(Elements(heads), caseId) == map h | h in Elements(heads) :: caseId;
      }
    }

    method WriteEscalationEvents(id: AlertId, user: UserId, caseId: CaseId, dropped: nat, heads: seq<AlertId>)
      modifies this`audit
      ensures audit == old(audit) + T.EscalateEvents(id, user, caseId, dropped, heads)
    {
      if dropped > 0 {
        audit := audit + [CaseTruncated(caseId, user, dropped)];
      }
      audit := audit + [Event.Escalated(id, user, caseId, heads)];
      audit := audit + [CaseOpened(caseId, user, id, |heads|)];
    }

    /** `correlated` is the correlation query's answer, `caseId` the new random id. */
    method EscalateTables(id: AlertId, user: UserId, caseId: CaseId, correlated: seq<AlertId>, cfg: Config)
      returns (answer: T.Answer)
      requires forall h :: h in correlated ==> h in alerts
      modifies this
      ensures State() == T.Escalate(old(State()), id, user, caseId, correlated, cfg).store
      ensures answer == T.Escalate(old(State()), id, user, caseId, correlated, cfg).answer
    {
      if id !in alerts {
        return T.StaleState;
      }
      if cfg.maxAlertsPerCase < 0 {
        return T.DatabaseError;
      }
      var heads := T.Candidates(id, correlated);
      var dropped := 0;
      T.WithoutKeepsOthers(correlated, id);
      if |heads| > cfg.maxAlertsPerCase {
        dropped := |heads| - cfg.maxAlertsPerCase;
        heads := heads[..cfg.maxAlertsPerCase];
      }
      var before := State();
      answer := EscalateStatements(id, user, caseId, dropped, heads);
      if !answer.Done? {
        Rollback(before);
      }
    }

    method Escalate(id: AlertId, user: UserId, caseId: CaseId, correlated: seq<AlertId>, now: Time, cfg: Config)
      returns (answer: T.Answer)
      requires Valid(cfg) && clock <= now
      requires 0 <= cfg.maxAlertsPerCase ==> T.CorrelationAnswer(State(), id, correlated, cfg)
      requires cfg.maxAlertsPerCase < 0 ==> correlated == []
      modifies this
      ensures Valid(cfg)
      ensures State() == T.Escalate(old(State()), id, user, caseId, correlated, cfg).store.(clock := now)
      ensures answer == T.Escalate(old(State()), id, user, caseId, correlated, cfg).answer
    {
      answer := EscalateTables(id, user, caseId, correlated, cfg);
      clock := now;
      Lifecycle.EscalateKeepsInv(old(State()), id, user, caseId, correlated, now, cfg);
    }
  }
}
