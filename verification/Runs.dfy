/** What holds in every state a run of transactions reaches from the empty database. */
module Runs {
  import opened Common
  import opened Store
  import opened Transitions
  import opened Lifecycle

  // ---- every run keeps the invariant --------------------------------------------------------------

  lemma StepKeepsInv(s: Store, step: Step, cfg: Config)
    requires Inv(s, cfg) && Legal(s, step, cfg)
    ensures Inv(After(s, step, cfg), cfg)
  {
    match step.action
    case Arrive(i, text, heartbeat) =>
      var t := After(s, step, cfg);
      assert Landed(t.intake) == Landed(s.intake);
      SameTablesKeepInv(s, t, cfg);
    case RunPipeline(i, head, rule) => PipelineKeepsInv(s, i, head, rule, step.now, cfg);
    case DoAcknowledge(id, user) => AcknowledgeKeepsInv(s, id, user, step.now, cfg);
    case DoDecide(id, user, decision, seen) => DecideKeepsInv(s, id, user, decision, seen, step.now, cfg);
    case DoEscalate(id, user, c, correlated) => EscalateKeepsInv(s, id, user, c, correlated, step.now, cfg);
    case DoReopen(id, user, reason) => ReopenKeepsInv(s, id, user, reason, step.now, cfg);
    case DoConclude(c, user, conclusion) => ConcludeKeepsInv(s, c, user, conclusion, step.now, cfg);
  }

  lemma {:induction false} RunKeepsInv(s: Store, steps: seq<Step>, cfg: Config)
    requires Inv(s, cfg) && LegalRun(s, steps, cfg)
    ensures Inv(Run(s, steps, cfg), cfg)
  {
    if steps != [] {
      RunKeepsInv(s, steps[..|steps| - 1], cfg);
      StepKeepsInv(Run(s, steps[..|steps| - 1], cfg), steps[|steps| - 1], cfg);
    }
  }

  lemma EmptyIsValid(cfg: Config)
    ensures Inv(EMPTY, cfg)
  {
    assert Landed(EMPTY.intake) == {};
    assert ViewOf(EMPTY) == NOTHING;
  }

  lemma ReachableIsValid(steps: seq<Step>, cfg: Config)
    requires LegalRun(EMPTY, steps, cfg)
    ensures Inv(Run(EMPTY, steps, cfg), cfg)
  {
    EmptyIsValid(cfg);
    RunKeepsInv(EMPTY, steps, cfg);
  }

  // ---- event replay ---------------------------------------------------------------------------------

  /** The audit log alone rebuilds every alert's status, every merge, every cluster's size and the
      members of every case. */
  lemma AuditLogRebuildsTheState(steps: seq<Step>, cfg: Config)
    requires LegalRun(EMPTY, steps, cfg)
    ensures Replay(Run(EMPTY, steps, cfg).audit) == ViewOf(Run(EMPTY, steps, cfg))
  {
    ReachableIsValid(steps, cfg);
  }

  // ---- conservation -----------------------------------------------------------------------------------

  ghost function OccurrenceSum(alerts: map<AlertId, AlertRow>, ids: set<AlertId>): int
    requires ids <= alerts.Keys
    decreases |ids|
  {
    if ids == {} then 0
    else var id :| id in ids; alerts[id].occurrenceCount + OccurrenceSum(alerts, ids - {id})
  }

  /** Rows that are one of `heads` or a duplicate of one. */
  function Covered(alerts: map<AlertId, AlertRow>, heads: set<AlertId>): set<AlertId> {
    set id | id in alerts && (id in heads || (alerts[id].duplicateOf.Some? && alerts[id].duplicateOf.value in heads))
  }

  lemma {:induction false} ClustersPartitionTheirRows(alerts: map<AlertId, AlertRow>, heads: set<AlertId>, cfg: Config)
    requires CountsOk(alerts, cfg) && heads <= Heads(alerts)
    ensures OccurrenceSum(alerts, heads) == |Covered(alerts, heads)|
    decreases |heads|
  {
    if heads == {} {
      assert Covered(alerts, heads) == {};
    } else {
      var h :| h in heads && OccurrenceSum(alerts, heads) ==
          alerts[h].occurrenceCount + OccurrenceSum(alerts, heads - {h});
      ClustersPartitionTheirRows(alerts, heads - {h}, cfg);
      assert IsHead(alerts, h);
      assert CountOk(alerts, h, cfg);
      assert Covered(alerts, heads) == Covered(alerts, heads - {h}) + DuplicatesOf(alerts, h) + {h};
      assert Covered(alerts, heads - {h}) !! DuplicatesOf(alerts, h);
      assert h !in Covered(alerts, heads - {h}) && h !in DuplicatesOf(alerts, h);
    }
  }

  /** Every alert row is counted by exactly one head, and every landed intake row made one row. */
  lemma OccurrencesAreConserved(steps: seq<Step>, cfg: Config)
    requires LegalRun(EMPTY, steps, cfg)
    ensures var s := Run(EMPTY, steps, cfg);
            OccurrenceSum(s.alerts, Heads(s.alerts)) == |s.alerts| == |Landed(s.intake)|
  {
    ReachableIsValid(steps, cfg);
    var s := Run(EMPTY, steps, cfg);
    ClustersPartitionTheirRows(s.alerts, Heads(s.alerts), cfg);
    forall id | id in s.alerts ensures id in Covered(s.alerts, Heads(s.alerts)) {
      assert RowOk(s, id);
    }
    assert Covered(s.alerts, Heads(s.alerts)) == s.alerts.Keys;
    assert |s.alerts| == |s.alerts.Keys|;
  }

  /** Depth one, exact counts, the size ceiling. */
  lemma ClustersAreFlatAndBounded(steps: seq<Step>, cfg: Config, id: AlertId)
    requires LegalRun(EMPTY, steps, cfg)
    requires id in Run(EMPTY, steps, cfg).alerts
    ensures var a := Run(EMPTY, steps, cfg).alerts;
            && (a[id].duplicateOf.Some? ==> IsHead(a, a[id].duplicateOf.value) && DuplicatesOf(a, id) == {})
            && (a[id].duplicateOf.None? ==>
                  && a[id].occurrenceCount == 1 + |DuplicatesOf(a, id)|
                  && (1 <= cfg.maxClusterSize ==> a[id].occurrenceCount <= cfg.maxClusterSize))
  {
    ReachableIsValid(steps, cfg);
    var s := Run(EMPTY, steps, cfg);
    assert RowOk(s, id);
    if s.alerts[id].duplicateOf.None? {
      assert IsHead(s.alerts, id);
      assert CountOk(s.alerts, id, cfg);
    } else {
      forall x | x in s.alerts ensures s.alerts[x].duplicateOf != Some(id) { assert RowOk(s, x); }
    }
  }

  // ---- closure ------------------------------------------------------------------------------------------

  /** A decided cluster is decided as a whole, late arrivals included; an undecided one has every
      duplicate in status `duplicate`. */
  lemma ClosureIsUniform(steps: seq<Step>, cfg: Config, id: AlertId)
    requires LegalRun(EMPTY, steps, cfg)
    requires id in Run(EMPTY, steps, cfg).alerts && Run(EMPTY, steps, cfg).alerts[id].duplicateOf.Some?
    ensures var a := Run(EMPTY, steps, cfg).alerts;
            var head := a[id].duplicateOf.value;
            head in a && a[id].status == (if Terminal(a[head].status) then a[head].status else Duplicate)
  {
    ReachableIsValid(steps, cfg);
    assert RowOk(Run(EMPTY, steps, cfg), id);
  }

  lemma EscalateKeepsDecided(s: Store, trigger: AlertId, user: UserId, c: CaseId, correlated: seq<AlertId>,
                             cfg: Config, id: AlertId)
    requires RowsOk(s) && id in s.alerts && Terminal(s.alerts[id].status)
    ensures var a := Escalate(s, trigger, user, c, correlated, cfg).store.alerts; id in a && a[id] == s.alerts[id]
  {
    assert RowOk(s, id);
    var dropped, heads := EscalateTakesOpenHeads(s, trigger, user, c, correlated, cfg);
    if Escalate(s, trigger, user, c, correlated, cfg).store != s {
      assert id in Elements(heads) ==> Takeable(s, id);
      if s.alerts[id].duplicateOf.Some? {
        var p := s.alerts[id].duplicateOf.value;
        assert RowOk(s, p);
        assert p in Elements(heads) ==> Takeable(s, p);
      }
    }
  }

  lemma ConcludeKeepsDecided(s: Store, c: CaseId, user: UserId, conclusion: CaseStatus, now: Time, id: AlertId)
    requires RowsOk(s) && id in s.alerts && Terminal(s.alerts[id].status)
    ensures var a := Conclude(s, c, user, conclusion, now).store.alerts; id in a && a[id] == s.alerts[id]
  {
    if c in s.cases && s.cases[c].Investigating? {
      ConclusionTouchesMembers(s, c);
      assert RowOk(s, id);
      if s.alerts[id].duplicateOf.Some? { assert RowOk(s, s.alerts[id].duplicateOf.value); }
    }
  }

  lemma PipelineKeepsDecided(s: Store, i: IntakeId, head: Option<AlertId>, rule: Option<RuleId>, now: Time,
                             cfg: Config, id: AlertId)
    requires RowsOk(s) && id in s.alerts && Terminal(s.alerts[id].status)
    requires i in s.intake && s.intake[i].receipt.None? && s.intake[i].text.Alert? ==>
               DedupAnswer(s.alerts, s.intake[i].text.key, now, cfg, head)
    ensures var a := Pipeline(s, i, head, rule, now).store.alerts; id in a && a[id] == s.alerts[id]
  {
    assert RowOk(s, id);
  }

  lemma DecideKeepsDecided(s: Store, d: AlertId, user: UserId, decision: Status, seen: int, now: Time, cfg: Config,
                           id: AlertId)
    requires RowsOk(s) && id in s.alerts && Terminal(s.alerts[id].status)
    ensures var a := Decide(s, d, user, decision, seen, now, cfg).store.alerts; id in a && a[id] == s.alerts[id]
  {
    assert RowOk(s, id);
    if s.alerts[id].duplicateOf.Some? { assert RowOk(s, s.alerts[id].duplicateOf.value); }
  }

  lemma DecidedRowsKept(s: Store, step: Step, cfg: Config, id: AlertId)
    requires Inv(s, cfg) && Legal(s, step, cfg)
    requires id in s.alerts && Terminal(s.alerts[id].status)
    ensures id in After(s, step, cfg).alerts && After(s, step, cfg).alerts[id] == s.alerts[id]
  {
    match step.action
    case RunPipeline(i, head, rule) => PipelineKeepsDecided(s, i, head, rule, step.now, cfg, id);
    case DoEscalate(trigger, user, c, correlated) => EscalateKeepsDecided(s, trigger, user, c, correlated, cfg, id);
    case DoConclude(c, user, conclusion) => ConcludeKeepsDecided(s, c, user, conclusion, step.now, id);
    case DoDecide(d, user, decision, seen) => DecideKeepsDecided(s, d, user, decision, seen, step.now, cfg, id);
    case _ =>
  }

  /** No later transaction changes any column of a decided alert. */
  lemma {:induction false} DecisionsAreFinal(s: Store, steps: seq<Step>, cfg: Config, id: AlertId)
    requires Inv(s, cfg) && LegalRun(s, steps, cfg)
    requires id in s.alerts && Terminal(s.alerts[id].status)
    ensures id in Run(s, steps, cfg).alerts && Run(s, steps, cfg).alerts[id] == s.alerts[id]
  {
    if steps != [] {
      var before := steps[..|steps| - 1];
      DecisionsAreFinal(s, before, cfg, id);
      RunKeepsInv(s, before, cfg);
      DecidedRowsKept(Run(s, before, cfg), steps[|steps| - 1], cfg, id);
    }
  }

  // ---- cases ----------------------------------------------------------------------------------------------

  /** `case_alerts` and `alerts.case_id` agree on the heads, a case is no larger than its cap, and a
      head's status is what its case's status says. */
  lemma CasesHoldTheirHeads(steps: seq<Step>, cfg: Config, id: AlertId, c: CaseId)
    requires LegalRun(EMPTY, steps, cfg)
    requires IsHead(Run(EMPTY, steps, cfg).alerts, id)
    ensures var s := Run(EMPTY, steps, cfg);
            && (id in CaseHeads(s.caseAlerts, c) <==> s.alerts[id].caseId == Some(c))
            && (c in s.cases ==> |CaseHeads(s.caseAlerts, c)| <= cfg.maxAlertsPerCase)
            && (id in CaseHeads(s.caseAlerts, c) ==> c in s.cases && s.alerts[id].status == AlertStatusFor(s.cases[c]))
  {
    ReachableIsValid(steps, cfg);
    assert RowOk(Run(EMPTY, steps, cfg), id);
  }

  /** A row of the case: one of its heads, or a duplicate of one. */
  ghost predicate InCase(s: Store, c: CaseId, id: AlertId) {
    && id in s.alerts
    && (|| (id in s.caseAlerts && s.caseAlerts[id] == c)
        || (s.alerts[id].duplicateOf.Some? && s.alerts[id].duplicateOf.value in s.caseAlerts
            && s.caseAlerts[s.alerts[id].duplicateOf.value] == c))
  }

  /** Every row of the case, heads and duplicates, is closed as what was concluded; no other row changes. */
  ghost predicate CaseClosedAs(s: Store, after: map<AlertId, AlertRow>, c: CaseId, conclusion: CaseStatus, now: Time) {
    && after.Keys == s.alerts.Keys
    && forall id {:trigger InCase(s, c, id)} :: id in s.alerts ==>
         if InCase(s, c, id) then
           && (conclusion.ConcludedFp? ==> after[id].status.ClosedFp?)
           && (conclusion.ConcludedPolicyViolation? ==> after[id].status.ClosedBenign?)
           && (conclusion.ConfirmedIncident? ==> after[id].status.ClosedConfirmed?)
           && after[id].closedAt == after[id].sealedAt == Some(now)
         else after[id] == s.alerts[id]
  }

  lemma ConclusionClosesTheCase(s: Store, c: CaseId, user: UserId, conclusion: CaseStatus, now: Time, cfg: Config)
    requires Inv(s, cfg) && Conclude(s, c, user, conclusion, now).answer.Done?
    ensures var t := Conclude(s, c, user, conclusion, now).store;
            c in t.cases && t.cases[c] == conclusion && CaseClosedAs(s, t.alerts, c, conclusion, now)
  {
    ConclusionTouchesMembers(s, c);
    forall id {:trigger InCase(s, c, id)} | id in s.alerts
      ensures InCase(s, c, id) <==> id in Covered(s.alerts, CaseHeads(s.caseAlerts, c))
    {
      assert RowOk(s, id);
      if s.alerts[id].duplicateOf.Some? { assert RowOk(s, s.alerts[id].duplicateOf.value); }
    }
  }

  /** In every reachable state the rows of a case are as its status says: heads escalated while it is
      investigated, and heads and duplicates closed alike once it is concluded. */
  lemma CaseStatusIsTheRows(steps: seq<Step>, cfg: Config, c: CaseId, id: AlertId)
    requires LegalRun(EMPTY, steps, cfg) && InCase(Run(EMPTY, steps, cfg), c, id)
    ensures var s := Run(EMPTY, steps, cfg);
            var row := s.alerts[id];
            && c in s.cases
            && (s.cases[c].Investigating? ==> if row.duplicateOf.None? then row.status.EscalatedTier2?
                                              else row.status.Duplicate?)
            && (s.cases[c].ConcludedFp? ==> row.status.ClosedFp?)
            && (s.cases[c].ConcludedPolicyViolation? ==> row.status.ClosedBenign?)
            && (s.cases[c].ConfirmedIncident? ==> row.status.ClosedConfirmed?)
  {
    ReachableIsValid(steps, cfg);
    var s := Run(EMPTY, steps, cfg);
    assert RowOk(s, id);
    if s.alerts[id].duplicateOf.Some? { assert RowOk(s, s.alerts[id].duplicateOf.value); }
    assert id in s.caseAlerts ==> IsHead(s.alerts, id);
  }

  /** Every head a run shows past intake has its triage job, and none is left half-enriched. */
  lemma NoHeadWithoutTriageJob(steps: seq<Step>, cfg: Config, id: AlertId)
    requires LegalRun(EMPTY, steps, cfg)
    requires IsHead(Run(EMPTY, steps, cfg).alerts, id)
    ensures var s := Run(EMPTY, steps, cfg);
            id in s.triageJobs && !s.alerts[id].status.Received? && !s.alerts[id].status.Enriching?
  {
    ReachableIsValid(steps, cfg);
    assert RowOk(Run(EMPTY, steps, cfg), id);
  }

  /** Of distinct heads that are the trigger and takeable others, only the trigger can be refused. */
  lemma OnlyTheTriggerCanBeRefused(s: Store, id: AlertId, c: CaseId, heads: seq<AlertId>)
    requires RowsOk(s) && id in heads && NoRepeats(heads) && id in s.alerts
    requires forall h {:trigger Takeable(s, h)} :: h in heads && h != id ==> Takeable(s, h)
    ensures EscalateRefusal(s, c, heads).None? <==>
              c !in s.cases && IsHead(s.alerts, id) && !Terminal(s.alerts[id].status) && s.alerts[id].caseId.None?
  {
    RepeatsShowInCardinality(heads);
    forall h | h in heads && h != id ensures h in s.alerts && h !in s.caseAlerts && Takeable(s, h) {
      assert Takeable(s, h);
      assert RowOk(s, h);
      assert h in s.caseAlerts ==> IsHead(s.alerts, h);
    }
    assert RowOk(s, id);
    assert id in s.caseAlerts ==> IsHead(s.alerts, id);
  }

  lemma CandidatesAreRefusedByTheTrigger(s: Store, id: AlertId, c: CaseId, correlated: seq<AlertId>, cfg: Config)
    requires Inv(s, cfg) && CorrelationAnswer(s, id, correlated, cfg) && id in s.alerts && 0 < cfg.maxAlertsPerCase
    ensures EscalateRefusal(s, c, Capped(Candidates(id, correlated), cfg.maxAlertsPerCase)).None? <==>
              c !in s.cases && IsHead(s.alerts, id) && !Terminal(s.alerts[id].status) && s.alerts[id].caseId.None?
  {
    CandidatesFacts(id, correlated);
    var heads := Capped(Candidates(id, correlated), cfg.maxAlertsPerCase);
    assert heads[0] == id;
    forall h | h in heads && h != id ensures Takeable(s, h) {
      assert h in correlated;
      assert RowOk(s, h);
    }
    OnlyTheTriggerCanBeRefused(s, id, c, heads);
  }

  /** What the constraints make of the missing status check: an escalation succeeds exactly on an
      undecided head outside every case, unless the cap is zero; then it opens a case with no alert
      in it whatever the trigger is. */
  lemma EscalateSucceedsExactly(s: Store, id: AlertId, user: UserId, c: CaseId, correlated: seq<AlertId>, cfg: Config)
    requires Inv(s, cfg) && (0 <= cfg.maxAlertsPerCase ==> CorrelationAnswer(s, id, correlated, cfg))
    ensures Escalate(s, id, user, c, correlated, cfg).answer.Done? <==>
              && 0 <= cfg.maxAlertsPerCase && c !in s.cases && id in s.alerts
              && (0 < cfg.maxAlertsPerCase ==>
                    IsHead(s.alerts, id) && !Terminal(s.alerts[id].status) && s.alerts[id].caseId.None?)
    ensures Escalate(s, id, user, c, correlated, cfg).answer.Done? && cfg.maxAlertsPerCase == 0 ==>
              Escalate(s, id, user, c, correlated, cfg).store.alerts == s.alerts
  {
    if 0 <= cfg.maxAlertsPerCase && id in s.alerts {
      CandidatesFacts(id, correlated);
      var heads := Capped(Candidates(id, correlated), cfg.maxAlertsPerCase);
      if 0 < cfg.maxAlertsPerCase {
        CandidatesAreRefusedByTheTrigger(s, id, c, correlated, cfg);
      } else {
        assert Elements(heads) == {};
        assert EscalateRows(s.alerts, {}, c) == s.alerts;
      }
    }
  }

  // ---- receipts ---------------------------------------------------------------------------------------------

  /** An arrival stores its text once: a heartbeat as processed, at that time, anything else to be processed; and a
      second arrival of the same row changes nothing. */
  lemma ArrivalIsStoredOnce(s: Store, i: IntakeId, text: Parsed, heartbeat: bool, now: Time, cfg: Config)
    ensures var t := After(s, Step(now, Arrive(i, text, heartbeat)), cfg);
            && t.alerts == s.alerts && t.audit == s.audit && i in t.intake
            && (i in s.intake ==> t.intake == s.intake)
            && (i !in s.intake ==>
                  && t.intake[i].text == text && (forall j <- s.intake :: j in t.intake && t.intake[j] == s.intake[j])
                  && (heartbeat ==> t.intake[i].receipt == Some(Receipt(HeartbeatOutcome, now)))
                  && (!heartbeat ==> t.intake[i].receipt.None?))
  {
  }

  /** A pipeline job receipts its row exactly when the row's alert id is not yet an alert's, and rejects it
      exactly when its text is no alert the tables take. */
  lemma PipelineReceiptsExactly(s: Store, i: IntakeId, head: Option<AlertId>, rule: Option<RuleId>, now: Time,
                                cfg: Config)
    requires i in s.intake && s.intake[i].receipt.None?
    requires s.intake[i].text.Alert? ==> DedupAnswer(s.alerts, s.intake[i].text.key, now, cfg, head)
    ensures var receipt := Pipeline(s, i, head, rule, now).store.intake[i].receipt;
            && (receipt.Some? <==> !(s.intake[i].text.Alert? && s.intake[i].text.alertId in s.alerts))
            && (receipt.Some? && receipt.value.outcome.RejectedOutcome? <==> !s.intake[i].text.Alert?)
            && (receipt.Some? ==> receipt.value.at == now && !receipt.value.outcome.HeartbeatOutcome?)
  {
  }

  lemma EscalateKeepsIds(s: Store, id: AlertId, user: UserId, c: CaseId, correlated: seq<AlertId>, cfg: Config)
    ensures var t := Escalate(s, id, user, c, correlated, cfg).store;
            t.alerts.Keys == s.alerts.Keys && t.intake == s.intake
  {
    var dropped, heads := EscalateTakesOpenHeads(s, id, user, c, correlated, cfg);
  }

  lemma PipelineKeepsIds(s: Store, i: IntakeId, head: Option<AlertId>, rule: Option<RuleId>, now: Time)
    ensures s.alerts.Keys <= Pipeline(s, i, head, rule, now).store.alerts.Keys
  {
  }

  lemma StepKeepsIds(s: Store, step: Step, cfg: Config, id: AlertId)
    requires id in s.alerts
    ensures id in After(s, step, cfg).alerts
  {
    match step.action
    case RunPipeline(i, head, rule) => PipelineKeepsIds(s, i, head, rule, step.now);
    case DoEscalate(trigger, user, c, correlated) => EscalateKeepsIds(s, trigger, user, c, correlated, cfg);
    case _ =>
  }

  /** A receipt, once written, is never written again. */
  lemma StepKeepsReceipts(s: Store, step: Step, cfg: Config, i: IntakeId)
    requires i in s.intake && s.intake[i].receipt.Some?
    ensures i in After(s, step, cfg).intake && After(s, step, cfg).intake[i] == s.intake[i]
  {
    match step.action
    case DoEscalate(trigger, user, c, correlated) => EscalateKeepsIds(s, trigger, user, c, correlated, cfg);
    case _ =>
  }

  lemma StepKeepsCollidingRow(s: Store, step: Step, cfg: Config, i: IntakeId)
    requires i in s.intake && s.intake[i].receipt.None?
    requires s.intake[i].text.Alert? && s.intake[i].text.alertId in s.alerts
    ensures i in After(s, step, cfg).intake && After(s, step, cfg).intake[i] == s.intake[i]
  {
    match step.action
    case DoEscalate(trigger, user, c, correlated) => EscalateKeepsIds(s, trigger, user, c, correlated, cfg);
    case _ =>
  }

  lemma {:induction false} ReceiptsAreWrittenOnce(s: Store, steps: seq<Step>, cfg: Config, i: IntakeId)
    requires i in s.intake && s.intake[i].receipt.Some?
    ensures i in Run(s, steps, cfg).intake && Run(s, steps, cfg).intake[i] == s.intake[i]
  {
    if steps != [] {
      ReceiptsAreWrittenOnce(s, steps[..|steps| - 1], cfg, i);
      StepKeepsReceipts(Run(s, steps[..|steps| - 1], cfg), steps[|steps| - 1], cfg, i);
    }
  }

  /** The documented promise that every intake row gets a receipt fails for a row whose alert id
      another row took first: the job answers `StaleState`, which is retried and never recorded, so
      no continuation of the run receipts it. */
  lemma {:induction false} CollidingRowIsNeverReceipted(s: Store, steps: seq<Step>, cfg: Config, i: IntakeId)
    requires i in s.intake && s.intake[i].receipt.None?
    requires s.intake[i].text.Alert? && s.intake[i].text.alertId in s.alerts
    ensures i in Run(s, steps, cfg).intake && Run(s, steps, cfg).intake[i] == s.intake[i]
    ensures s.intake[i].text.alertId in Run(s, steps, cfg).alerts
  {
    if steps != [] {
      CollidingRowIsNeverReceipted(s, steps[..|steps| - 1], cfg, i);
      var before := Run(s, steps[..|steps| - 1], cfg);
      StepKeepsIds(before, steps[|steps| - 1], cfg, s.intake[i].text.alertId);
      StepKeepsCollidingRow(before, steps[|steps| - 1], cfg, i);
    }
  }

  lemma RunMore(s: Store, steps: seq<Step>, step: Step, cfg: Config)
    requires LegalRun(s, steps, cfg) && Legal(Run(s, steps, cfg), step, cfg)
    ensures LegalRun(s, steps + [step], cfg) && Run(s, steps + [step], cfg) == After(Run(s, steps, cfg), step, cfg)
  {
    assert (steps + [step])[..|steps|] == steps;
  }

  /** Such a row is one short run away: two documents with the same alert id. */
  lemma CollisionHappens(first: ClusterKey, second: ClusterKey, cfg: Config)
    ensures var steps := [] + [Step(0, Arrive(1, Parsed.Alert("a", first), false))]
                         + [Step(0, RunPipeline(1, None, None))]
                         + [Step(0, Arrive(2, Parsed.Alert("a", second), false))];
            && LegalRun(EMPTY, steps, cfg)
            && var s := Run(EMPTY, steps, cfg);
               2 in s.intake && s.intake[2] == IntakeRow(Parsed.Alert("a", second), None) && "a" in s.alerts
  {
    var arrive, pipeline := Step(0, Arrive(1, Parsed.Alert("a", first), false)), Step(0, RunPipeline(1, None, None));
    RunMore(EMPTY, [], arrive, cfg);
    RunMore(EMPTY, [] + [arrive], pipeline, cfg);
    RunMore(EMPTY, [] + [arrive] + [pipeline], Step(0, Arrive(2, Parsed.Alert("a", second), false)), cfg);
  }
}
