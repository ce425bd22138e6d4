/** What every transaction keeps, and what follows for every run from the empty database. */
module Lifecycle {
  import opened Common
  import opened Store
  import opened Transitions

  // ---- the invariant --------------------------------------------------------------------------

  /** The status a duplicate carries: its own until its head is decided, then its head's. */
  function Mirror(head: Status): Status {
    if Terminal(head) then head else Duplicate
  }

  ghost predicate DuplicateOk(row: AlertRow, parent: AlertRow) {
    && parent.duplicateOf.None?
    && row.status == Mirror(parent.status)
    && row.occurrenceCount == 1
    && row.closedAt.Some? && row.sealedAt.Some?
    && (row.caseId.Some? ==> row.caseId == parent.caseId)
  }

  ghost predicate HeadOk(s: Store, id: AlertId, row: AlertRow) {
    && !row.status.Duplicate? && !row.status.Received? && !row.status.Enriching?
    && (row.sealedAt.Some? <==> Terminal(row.status))
    && (row.status.QueuedTier1? || row.status.AutoClosed? ==> row.acknowledgedBy.None?)
    && id in s.triageJobs
    && (row.caseId.Some? <==> id in s.caseAlerts)
    && (row.caseId.None? ==> !row.status.EscalatedTier2? && !row.status.ClosedConfirmed?)
    && (row.caseId.Some? ==>
          && row.caseId.value in s.cases
          && s.caseAlerts[id] == row.caseId.value
          && row.status == AlertStatusFor(s.cases[row.caseId.value]))
  }

  ghost predicate RowOk(s: Store, id: AlertId)
    requires id in s.alerts
  {
    var row := s.alerts[id];
    && ChecksHold(id, row)
    && row.lastSeenAt <= s.clock
    && if row.duplicateOf.Some?
       then row.duplicateOf.value in s.alerts && DuplicateOk(row, s.alerts[row.duplicateOf.value])
       else HeadOk(s, id, row)
  }

  ghost predicate RowsOk(s: Store) {
    && (forall id {:trigger RowOk(s, id)} :: id in s.alerts ==> RowOk(s, id))
    && (forall id {:trigger IsHead(s.alerts, id)} :: id in s.caseAlerts ==> IsHead(s.alerts, id))
  }

  ghost predicate CountOk(alerts: map<AlertId, AlertRow>, id: AlertId, cfg: Config)
    requires id in alerts
  {
    && alerts[id].occurrenceCount == 1 + |DuplicatesOf(alerts, id)|
    && (alerts[id].occurrenceCount <= cfg.maxClusterSize || alerts[id].occurrenceCount == 1)
  }

  ghost predicate CountsOk(alerts: map<AlertId, AlertRow>, cfg: Config) {
    forall id {:trigger CountOk(alerts, id, cfg)} :: IsHead(alerts, id) ==> CountOk(alerts, id, cfg)
  }

  ghost predicate CasesOk(s: Store, cfg: Config) {
    && (forall c {:trigger CaseHeads(s.caseAlerts, c)} ::
          c in s.cases ==> |CaseHeads(s.caseAlerts, c)| <= cfg.maxAlertsPerCase)
  }

  predicate LandedOutcome(outcome: Outcome) {
    outcome.AlertOutcome? || outcome.DuplicateOutcome? || outcome.AutoClosedOutcome?
  }

  /** Intake rows whose receipt says an alert row came of them. */
  function Landed(intake: map<IntakeId, IntakeRow>): set<IntakeId> {
    set i | i in intake && intake[i].receipt.Some? && LandedOutcome(intake[i].receipt.value.outcome)
  }

  ghost predicate Inv(s: Store, cfg: Config) {
    && RowsOk(s)
    && CountsOk(s.alerts, cfg)
    && CasesOk(s, cfg)
    && |s.alerts| == |Landed(s.intake)|
    && Replay(s.audit) == ViewOf(s)
  }

  // ---- event replay -----------------------------------------------------------------------------

  /** What the audit log alone says: statuses, who merged into whom, cluster sizes, case members. */
  datatype View = View(
    status: map<AlertId, Status>,
    parent: map<AlertId, AlertId>,
    count: map<AlertId, int>,
    members: map<CaseId, set<AlertId>>)

  const NOTHING: View := View(map[], map[], map[], map[])

  function SetAll(status: map<AlertId, Status>, parent: map<AlertId, AlertId>, heads: set<AlertId>, to: Status)
    : map<AlertId, Status>
  {
    map id | id in status ::
      if id in heads || (id in parent && parent[id] in heads) then to else status[id]
  }

  function SetThese(status: map<AlertId, Status>, ids: set<AlertId>, to: Status): map<AlertId, Status> {
    map id | id in status :: if id in ids then to else status[id]
  }

  function ReplayEvent(v: View, e: Event): View {
    match e
    case AlertReceived(id) => v.(status := v.status[id := Received], count := v.count[id := 1])
    case DuplicateMerged(id, parent, occurrence) =>
      View(v.status[id := Duplicate], v.parent[id := parent], v.count[id := 1][parent := occurrence], v.members)
    case AlertAutoClosed(id, _) => v.(status := v.status[id := AutoClosed], count := v.count[id := 1])
    case EnrichStarted(id) => v.(status := v.status[id := Enriching])
    case Enriched(id) => v.(status := v.status[id := QueuedTier1])
    case Acknowledged(id, _) => v.(status := v.status[id := Tier1Active])
    case Decided(id, _, decision, _) => v.(status := SetAll(v.status, v.parent, {id}, decision))
    case CaseTruncated(_, _, _) => v
    case Escalated(_, _, c, ids) =>
      v.(status := SetThese(v.status, Elements(ids), EscalatedTier2), members := v.members[c := Elements(ids)])
    case CaseOpened(_, _, _, _) => v
    case Reopened(id, _, _) => v.(status := v.status[id := QueuedTier1])
    case Concluded(c, _, conclusion) =>
      if c in v.members
      then v.(status := SetAll(v.status, v.parent, v.members[c], AlertStatusFor(conclusion)))
      else v
  }

  function Replay(log: seq<Event>): View {
    Fold(ReplayEvent, NOTHING, log)
  }

  function Statuses(alerts: map<AlertId, AlertRow>): map<AlertId, Status> {
    map id | id in alerts :: alerts[id].status
  }

  function Parents(alerts: map<AlertId, AlertRow>): map<AlertId, AlertId> {
    map id | id in alerts && alerts[id].duplicateOf.Some? :: alerts[id].duplicateOf.value
  }

  function Counts(alerts: map<AlertId, AlertRow>): map<AlertId, int> {
    map id | id in alerts :: alerts[id].occurrenceCount
  }

  function Members(cases: map<CaseId, CaseStatus>, caseAlerts: map<AlertId, CaseId>): map<CaseId, set<AlertId>> {
    map c | c in cases :: CaseHeads(caseAlerts, c)
  }

  /** What the tables say about the same things. */
  function ViewOf(s: Store): View {
    View(Statuses(s.alerts), Parents(s.alerts), Counts(s.alerts), Members(s.cases, s.caseAlerts))
  }

  // ---- one row changes or appears ---------------------------------------------------------------

  lemma ViewAfterRow(alerts: map<AlertId, AlertRow>, id: AlertId, row: AlertRow)
    ensures Statuses(alerts[id := row]) == Statuses(alerts)[id := row.status]
    ensures Counts(alerts[id := row]) == Counts(alerts)[id := row.occurrenceCount]
    ensures (id in alerts && alerts[id].duplicateOf == row.duplicateOf) || (id !in alerts && row.duplicateOf.None?) ==>
              Parents(alerts[id := row]) == Parents(alerts)
    ensures row.duplicateOf.Some? ==>
              Parents(alerts[id := row]) == Parents(alerts)[id := row.duplicateOf.value]
  {
  }

  lemma DuplicatesAfterRow(alerts: map<AlertId, AlertRow>, id: AlertId, row: AlertRow, head: AlertId)
    ensures id in alerts && alerts[id].duplicateOf == row.duplicateOf ==>
              DuplicatesOf(alerts[id := row], head) == DuplicatesOf(alerts, head)
    ensures id !in alerts && row.duplicateOf != Some(head) ==>
              DuplicatesOf(alerts[id := row], head) == DuplicatesOf(alerts, head)
    ensures id !in alerts && row.duplicateOf == Some(head) ==>
              |DuplicatesOf(alerts[id := row], head)| == |DuplicatesOf(alerts, head)| + 1
  {
    if id !in alerts && row.duplicateOf == Some(head) {
      assert DuplicatesOf(alerts[id := row], head) == DuplicatesOf(alerts, head) + {id};
    }
  }

  lemma SizeAfterRow(alerts: map<AlertId, AlertRow>, id: AlertId, row: AlertRow)
    ensures |alerts[id := row]| == if id in alerts then |alerts| else |alerts| + 1
  {
    assert alerts[id := row].Keys == alerts.Keys + {id};
    if id in alerts { assert alerts.Keys + {id} == alerts.Keys; }
  }

  lemma LandedAfterReceipt(s: Store, intakeId: IntakeId, outcome: Outcome, now: Time)
    requires intakeId in s.intake && s.intake[intakeId].receipt.None?
    ensures var after := Landed(WithReceipt(s, intakeId, outcome, now).intake);
            if LandedOutcome(outcome) then |after| == |Landed(s.intake)| + 1 else after == Landed(s.intake)
  {
    var after := Landed(WithReceipt(s, intakeId, outcome, now).intake);
    if LandedOutcome(outcome) {
      assert after == Landed(s.intake) + {intakeId};
    }
  }

  /** Columns of one row that other rows' validity and the counts depend on. */
  ghost predicate SameLinks(a: AlertRow, b: AlertRow) {
    a.duplicateOf == b.duplicateOf && a.caseId == b.caseId && Mirror(a.status) == Mirror(b.status)
  }

  /** A row that is not touched, under a head whose links are not touched, stays valid. */
  lemma FrameRow(s: Store, t: Store, id: AlertId)
    requires id in s.alerts && RowOk(s, id) && id in t.alerts && t.alerts[id] == s.alerts[id]
    requires s.clock <= t.clock && s.triageJobs <= t.triageJobs
    requires s.alerts[id].duplicateOf.Some? ==>
               var p := s.alerts[id].duplicateOf.value;
               p in t.alerts && SameLinks(s.alerts[p], t.alerts[p])
    requires s.alerts[id].duplicateOf.None? ==> (id in s.caseAlerts <==> id in t.caseAlerts)
    requires s.alerts[id].duplicateOf.None? && s.alerts[id].caseId.Some? ==>
               var c := s.alerts[id].caseId.value;
               c in t.cases && t.cases[c] == s.cases[c] && t.caseAlerts[id] == s.caseAlerts[id]
    ensures RowOk(t, id)
  {
  }

  // ---- the pipeline ---------------------------------------------------------------------------

  lemma MergeKeepsRows(s: Store, t: Store, id: AlertId, key: ClusterKey, head: AlertId, now: Time, cfg: Config)
    requires RowsOk(s) && s.clock <= now && id !in s.alerts
    requires head in s.alerts && Absorbs(s.alerts[head], key, now, cfg)
    requires t.alerts == s.alerts[head := s.alerts[head].(occurrenceCount := s.alerts[head].occurrenceCount + 1,
        lastSeenAt := now)]
                                 [id := FreshRow(key, Duplicate, now).(duplicateOf := Some(head),
                                     closedAt := Some(now), sealedAt := Some(now))]
    requires t.caseAlerts == s.caseAlerts && t.cases == s.cases && t.triageJobs == s.triageJobs && t.clock == now
    ensures RowsOk(t) && IsHead(s.alerts, head)
  {
    assert RowOk(s, head);
    forall x | x in t.alerts ensures RowOk(t, x) {
      if x != id && x != head {
        assert RowOk(s, x);
        FrameRow(s, t, x);
      }
    }
    forall x | x in t.caseAlerts ensures IsHead(t.alerts, x) {
      assert IsHead(s.alerts, x);
    }
  }

  lemma MergeKeepsCounts(a: map<AlertId, AlertRow>, id: AlertId, key: ClusterKey, head: AlertId, now: Time, cfg: Config)
    requires CountsOk(a, cfg) && id !in a
    requires IsHead(a, head) && Absorbs(a[head], key, now, cfg)
    ensures CountsOk(a[head := a[head].(occurrenceCount := a[head].occurrenceCount + 1, lastSeenAt := now)]
                      [id := FreshRow(key, Duplicate, now).(duplicateOf := Some(head), closedAt := Some(now),
                          sealedAt := Some(now))], cfg)
  {
    var parent := a[head].(occurrenceCount := a[head].occurrenceCount + 1, lastSeenAt := now);
    var row := FreshRow(key, Duplicate, now).(duplicateOf := Some(head), closedAt := Some(now), sealedAt := Some(now));
    var b := a[head := parent];
    var c := b[id := row];
    forall h | IsHead(c, h) ensures CountOk(c, h, cfg) {
      assert CountOk(a, h, cfg);
      DuplicatesAfterRow(a, head, parent, h);
      DuplicatesAfterRow(b, id, row, h);
    }
  }

  lemma MergeKeepsInv(s: Store, i: IntakeId, id: AlertId, key: ClusterKey, head: AlertId, now: Time, cfg: Config)
    requires Inv(s, cfg) && s.clock <= now
    requires i in s.intake && s.intake[i].receipt.None? && id !in s.alerts
    requires head in s.alerts && Absorbs(s.alerts[head], key, now, cfg)
    ensures Inv(MergeDuplicate(s, i, id, key, head, now).(clock := now), cfg)
  {
    var t := MergeDuplicate(s, i, id, key, head, now).(clock := now);
    MergeKeepsRows(s, t, id, key, head, now, cfg);
    MergeKeepsCounts(s.alerts, id, key, head, now, cfg);
    LandedAfterReceipt(s, i, DuplicateOutcome, now);
    SizeAfterRow(s.alerts, head, t.alerts[head]);
    SizeAfterRow(s.alerts[head := t.alerts[head]], id, t.alerts[id]);
    MergeReplays(s, i, id, key, head, now);
  }

  lemma MergeReplays(s: Store, i: IntakeId, id: AlertId, key: ClusterKey, head: AlertId, now: Time)
    requires Replay(s.audit) == ViewOf(s) && i in s.intake && head in s.alerts && id !in s.alerts
    ensures var t := MergeDuplicate(s, i, id, key, head, now); Replay(t.audit) == ViewOf(t)
  {
    var t := MergeDuplicate(s, i, id, key, head, now);
    FoldOne(ReplayEvent, NOTHING, s.audit, DuplicateMerged(id, head, t.alerts[head].occurrenceCount));
    ViewAfterMerge(s.alerts, id, t.alerts[id], head, t.alerts[head]);
  }

  lemma ViewAfterMerge(a: map<AlertId, AlertRow>, id: AlertId, row: AlertRow, head: AlertId, parent: AlertRow)
    requires head in a && id !in a && row.duplicateOf.Some? && row.occurrenceCount == 1
    requires parent.status == a[head].status && parent.duplicateOf == a[head].duplicateOf
    ensures var b := a[head := parent][id := row];
            && Statuses(b) == Statuses(a)[id := row.status]
            && Parents(b) == Parents(a)[id := row.duplicateOf.value]
            && Counts(b) == Counts(a)[id := 1][head := parent.occurrenceCount]
  {
    ViewAfterRow(a, head, parent);
    ViewAfterRow(a[head := parent], id, row);
    assert Statuses(a)[head := parent.status] == Statuses(a);
    assert Counts(a)[head := parent.occurrenceCount][id := 1] == Counts(a)[id := 1][head := parent.occurrenceCount];
  }

  lemma OpenKeepsRows(s: Store, t: Store, id: AlertId, row: AlertRow)
    requires RowsOk(s) && s.clock <= t.clock && id !in s.alerts
    requires row.duplicateOf.None? && row.caseId.None? && row.sealedAt.None? && row.acknowledgedBy.None?
    requires row.occurrenceCount == 1 && row.firstSeenAt == row.lastSeenAt == t.clock
    requires row.status.QueuedTier1? || (row.status.AutoClosed? && row.closedAt.Some?)
    requires t.alerts == s.alerts[id := row] && t.triageJobs == s.triageJobs + {id}
    requires t.caseAlerts == s.caseAlerts && t.cases == s.cases
    ensures RowsOk(t)
  {
    forall x | x in t.alerts ensures RowOk(t, x) {
      if x != id {
        assert RowOk(s, x);
        FrameRow(s, t, x);
      } else {
        assert id in s.caseAlerts ==> IsHead(s.alerts, id);
      }
    }
    forall x | x in t.caseAlerts ensures IsHead(t.alerts, x) {
      assert IsHead(s.alerts, x);
    }
  }

  lemma OpenKeepsCounts(s: Store, id: AlertId, row: AlertRow, cfg: Config)
    requires RowsOk(s) && CountsOk(s.alerts, cfg) && id !in s.alerts
    requires row.duplicateOf.None? && row.occurrenceCount == 1
    ensures CountsOk(s.alerts[id := row], cfg)
  {
    var b := s.alerts[id := row];
    forall h | IsHead(b, h) ensures CountOk(b, h, cfg) {
      if h == id {
        forall x | x in s.alerts ensures s.alerts[x].duplicateOf != Some(id) {
          assert RowOk(s, x);
        }
        assert DuplicatesOf(b, id) == {};
      } else {
        assert CountOk(s.alerts, h, cfg);
        DuplicatesAfterRow(s.alerts, id, row, h);
      }
    }
  }

  lemma AutoCloseKeepsInv(s: Store, i: IntakeId, id: AlertId, key: ClusterKey, rule: RuleId, now: Time, cfg: Config)
    requires Inv(s, cfg) && s.clock <= now
    requires i in s.intake && s.intake[i].receipt.None? && id !in s.alerts
    ensures Inv(OpenAutoClosed(s, i, id, key, rule, now).(clock := now), cfg)
  {
    var t := OpenAutoClosed(s, i, id, key, rule, now).(clock := now);
    OpenKeepsRows(s, t, id, t.alerts[id]);
    OpenKeepsCounts(s, id, t.alerts[id], cfg);
    LandedAfterReceipt(s, i, AutoClosedOutcome, now);
    SizeAfterRow(s.alerts, id, t.alerts[id]);
    FoldOne(ReplayEvent, NOTHING, s.audit, AlertAutoClosed(id, rule));
    ViewAfterRow(s.alerts, id, t.alerts[id]);
  }

  lemma QueueReplays(s: Store, t: Store, id: AlertId, row: AlertRow)
    requires Replay(s.audit) == ViewOf(s) && id !in s.alerts
    requires row.duplicateOf.None? && row.occurrenceCount == 1 && row.status.QueuedTier1?
    requires t.alerts == s.alerts[id := row] && t.caseAlerts == s.caseAlerts && t.cases == s.cases
    requires t.audit == s.audit + [AlertReceived(id), EnrichStarted(id), Enriched(id)]
    ensures Replay(t.audit) == ViewOf(t)
  {
    FoldThree(ReplayEvent, NOTHING, s.audit, AlertReceived(id), EnrichStarted(id), Enriched(id));
    ViewAfterRow(s.alerts, id, row);
    assert Statuses(s.alerts)[id := Received][id := Enriching][id := QueuedTier1] ==
        Statuses(s.alerts)[id := QueuedTier1];
  }

  lemma QueueKeepsInv(s: Store, i: IntakeId, id: AlertId, key: ClusterKey, now: Time, cfg: Config)
    requires Inv(s, cfg) && s.clock <= now
    requires i in s.intake && s.intake[i].receipt.None? && id !in s.alerts
    ensures Inv(OpenQueued(s, i, id, key, now).(clock := now), cfg)
  {
    var t := OpenQueued(s, i, id, key, now).(clock := now);
    OpenKeepsRows(s, t, id, t.alerts[id]);
    OpenKeepsCounts(s, id, t.alerts[id], cfg);
    LandedAfterReceipt(s, i, AlertOutcome, now);
    SizeAfterRow(s.alerts, id, t.alerts[id]);
    QueueReplays(s, t, id, t.alerts[id]);
  }

  lemma SameTablesKeepInv(s: Store, t: Store, cfg: Config)
    requires Inv(s, cfg) && s.clock <= t.clock
    requires t.alerts == s.alerts && t.cases == s.cases && t.caseAlerts == s.caseAlerts
    requires t.triageJobs == s.triageJobs && t.audit == s.audit && Landed(t.intake) == Landed(s.intake)
    ensures Inv(t, cfg)
  {
    forall x | x in t.alerts ensures RowOk(t, x) {
      assert RowOk(s, x);
      FrameRow(s, t, x);
    }
    forall x | x in t.caseAlerts ensures IsHead(t.alerts, x) {
      assert IsHead(s.alerts, x);
    }
  }

  lemma RejectionKeepsInv(s: Store, i: IntakeId, outcome: Outcome, rejected: seq<string>, now: Time, cfg: Config)
    requires Inv(s, cfg) && s.clock <= now && outcome.RejectedOutcome?
    requires i in s.intake && s.intake[i].receipt.None?
    ensures Inv(WithReceipt(s.(rejectedAlerts := rejected), i, outcome, now).(clock := now), cfg)
  {
    LandedAfterReceipt(s, i, outcome, now);
    SameTablesKeepInv(s, WithReceipt(s.(rejectedAlerts := rejected), i, outcome, now).(clock := now), cfg);
  }

  lemma PipelineKeepsInv(s: Store, i: IntakeId, head: Option<AlertId>, rule: Option<RuleId>, now: Time, cfg: Config)
    requires Inv(s, cfg) && s.clock <= now
    requires i in s.intake && s.intake[i].receipt.None? && s.intake[i].text.Alert? ==>
               DedupAnswer(s.alerts, s.intake[i].text.key, now, cfg, head)
    ensures Inv(Pipeline(s, i, head, rule, now).store.(clock := now), cfg)
  {
    var t := Pipeline(s, i, head, rule, now).store.(clock := now);
    if i in s.intake && s.intake[i].receipt.None? {
      if s.intake[i].text.Alert? {
        var id, key := s.intake[i].text.alertId, s.intake[i].text.key;
        if id in s.alerts {
          SameTablesKeepInv(s, t, cfg);
        } else if head.Some? {
          MergeKeepsInv(s, i, id, key, head.value, now, cfg);
        } else if rule.Some? {
          AutoCloseKeepsInv(s, i, id, key, rule.value, now, cfg);
        } else {
          QueueKeepsInv(s, i, id, key, now, cfg);
        }
      } else {
        RejectionKeepsInv(s, i, t.intake[i].receipt.value.outcome, t.rejectedAlerts, now, cfg);
      }
    } else {
      SameTablesKeepInv(s, t, cfg);
    }
  }

  // ---- acknowledge and reopen --------------------------------------------------------------------

  /** One head changes its own columns and keeps its links, counts and times. */
  lemma OneHeadKeepsAllButReplay(s: Store, t: Store, id: AlertId, row: AlertRow, cfg: Config)
    requires RowsOk(s) && CountsOk(s.alerts, cfg) && id in s.alerts && s.clock <= t.clock
    requires s.alerts[id].duplicateOf.None? && SameLinks(s.alerts[id], row)
    requires t.alerts == s.alerts[id := row] && t.caseAlerts == s.caseAlerts && t.cases == s.cases
    requires t.triageJobs == s.triageJobs
    requires RowOk(t, id)
    requires row.occurrenceCount == s.alerts[id].occurrenceCount
    ensures RowsOk(t) && CountsOk(t.alerts, cfg) && |t.alerts| == |s.alerts|
  {
    forall x | x in t.alerts ensures RowOk(t, x) {
      if x != id {
        assert RowOk(s, x);
        FrameRow(s, t, x);
      }
    }
    forall x | x in t.caseAlerts ensures IsHead(t.alerts, x) {
      assert IsHead(s.alerts, x);
    }
    forall h | IsHead(t.alerts, h) ensures CountOk(t.alerts, h, cfg) {
      assert CountOk(s.alerts, h, cfg);
      DuplicatesAfterRow(s.alerts, id, row, h);
    }
    SizeAfterRow(s.alerts, id, row);
  }

  lemma StatusChangeReplays(s: Store, t: Store, id: AlertId, row: AlertRow, e: Event)
    requires Replay(s.audit) == ViewOf(s) && id in s.alerts
    requires row.duplicateOf == s.alerts[id].duplicateOf && row.occurrenceCount == s.alerts[id].occurrenceCount
    requires t.alerts == s.alerts[id := row] && t.caseAlerts == s.caseAlerts && t.cases == s.cases
    requires t.audit == s.audit + [e]
    requires ReplayEvent(ViewOf(s), e) == ViewOf(s).(status := Statuses(s.alerts)[id := row.status])
    ensures Replay(t.audit) == ViewOf(t)
  {
    FoldOne(ReplayEvent, NOTHING, s.audit, e);
    ViewAfterRow(s.alerts, id, row);
    assert Counts(s.alerts)[id := row.occurrenceCount] == Counts(s.alerts);
  }

  lemma AcknowledgeKeepsInv(s: Store, id: AlertId, user: UserId, now: Time, cfg: Config)
    requires Inv(s, cfg) && s.clock <= now
    ensures Inv(Acknowledge(s, id, user).store.(clock := now), cfg)
  {
    var t := Acknowledge(s, id, user).store.(clock := now);
    if Acknowledge(s, id, user).answer.Done? {
      assert RowOk(s, id);
      OneHeadKeepsAllButReplay(s, t, id, t.alerts[id], cfg);
      StatusChangeReplays(s, t, id, t.alerts[id], Acknowledged(id, user));
    } else {
      SameTablesKeepInv(s, t, cfg);
    }
  }

  lemma ReopenKeepsInv(s: Store, id: AlertId, user: UserId, reason: string, now: Time, cfg: Config)
    requires Inv(s, cfg) && s.clock <= now
    ensures Inv(Reopen(s, id, user, reason).store.(clock := now), cfg)
  {
    var t := Reopen(s, id, user, reason).store.(clock := now);
    if Reopen(s, id, user, reason).answer.Done? {
      assert RowOk(s, id);
      OneHeadKeepsAllButReplay(s, t, id, t.alerts[id], cfg);
      StatusChangeReplays(s, t, id, t.alerts[id], Reopened(id, user, reason));
    } else {
      SameTablesKeepInv(s, t, cfg);
    }
  }

  // ---- closing whole clusters --------------------------------------------------------------------

  lemma ViewAfterClosing(a: map<AlertId, AlertRow>, heads: set<AlertId>, status: Status, now: Time)
    ensures var b := CloseClusters(a, heads, heads, status, now);
            && Statuses(b) == SetAll(Statuses(a), Parents(a), heads, status)
            && Parents(b) == Parents(a)
            && Counts(b) == Counts(a)
  {
  }

  lemma ClosingKeepsCounts(a: map<AlertId, AlertRow>, heads: set<AlertId>, status: Status, now: Time, cfg: Config)
    requires CountsOk(a, cfg)
    ensures var b := CloseClusters(a, heads, heads, status, now); CountsOk(b, cfg) && |b| == |a|
  {
    var b := CloseClusters(a, heads, heads, status, now);
    forall h | IsHead(b, h) ensures CountOk(b, h, cfg) {
      assert CountOk(a, h, cfg);
      assert DuplicatesOf(b, h) == DuplicatesOf(a, h);
    }
    assert b.Keys == a.Keys;
    assert |b| == |b.Keys|;
  }

  ghost predicate CaseKept(s: Store, t: Store, id: AlertId)
    requires id in s.alerts
  {
    var c := s.alerts[id].caseId;
    s.alerts[id].duplicateOf.None? && c.Some? && c.value in s.cases ==>
      c.value in t.cases && t.cases[c.value] == s.cases[c.value]
  }

  lemma ClosingKeepsRows(s: Store, t: Store, heads: set<AlertId>, status: Status)
    requires RowsOk(s) && s.clock <= t.clock && Terminal(status)
    requires t.alerts == CloseClusters(s.alerts, heads, heads, status, t.clock)
    requires t.caseAlerts == s.caseAlerts && t.triageJobs == s.triageJobs
    requires forall h {:trigger h in heads} :: h in heads ==> IsHead(s.alerts, h) && HeadOk(t, h, t.alerts[h])
    requires forall x {:trigger CaseKept(s, t, x)} :: x in s.alerts && x !in heads ==> CaseKept(s, t, x)
    ensures RowsOk(t)
  {
    forall x | x in t.alerts ensures RowOk(t, x) {
      assert RowOk(s, x);
      var row := s.alerts[x];
      if row.duplicateOf.Some? {
        assert RowOk(s, row.duplicateOf.value);
        if row.duplicateOf.value !in heads { FrameRow(s, t, x); }
      } else if x !in heads {
        assert CaseKept(s, t, x);
        FrameRow(s, t, x);
      }
    }
    forall x | x in t.caseAlerts ensures IsHead(t.alerts, x) {
      assert IsHead(s.alerts, x);
    }
  }

  lemma ClosingReplays(s: Store, t: Store, heads: set<AlertId>, status: Status, e: Event)
    requires Replay(s.audit) == ViewOf(s)
    requires t.alerts == CloseClusters(s.alerts, heads, heads, status, t.clock)
    requires Members(t.cases, t.caseAlerts) == Members(s.cases, s.caseAlerts)
    requires t.audit == s.audit + [e]
    requires ReplayEvent(ViewOf(s), e) ==
        ViewOf(s).(status := SetAll(Statuses(s.alerts), Parents(s.alerts), heads, status))
    ensures Replay(t.audit) == ViewOf(t)
  {
    FoldOne(ReplayEvent, NOTHING, s.audit, e);
    ViewAfterClosing(s.alerts, heads, status, t.clock);
  }

  /** Closing whole clusters keeps the invariant, if the logged event says the same. */
  lemma ClosingKeepsInv(s: Store, t: Store, heads: set<AlertId>, status: Status, e: Event, cfg: Config)
    requires Inv(s, cfg) && s.clock <= t.clock && Terminal(status)
    requires t.alerts == CloseClusters(s.alerts, heads, heads, status, t.clock) && t.cases.Keys == s.cases.Keys
    requires t.caseAlerts == s.caseAlerts && t.triageJobs == s.triageJobs && t.intake == s.intake
    requires forall h {:trigger h in heads} :: h in heads ==> IsHead(s.alerts, h) && HeadOk(t, h, t.alerts[h])
    requires forall x {:trigger CaseKept(s, t, x)} :: x in s.alerts && x !in heads ==> CaseKept(s, t, x)
    requires t.audit == s.audit + [e]
    requires ReplayEvent(ViewOf(s), e) ==
        ViewOf(s).(status := SetAll(Statuses(s.alerts), Parents(s.alerts), heads, status))
    ensures Inv(t, cfg)
  {
    ClosingKeepsRows(s, t, heads, status);
    ClosingKeepsCounts(s.alerts, heads, status, t.clock, cfg);
    assert Members(t.cases, t.caseAlerts) == Members(s.cases, s.caseAlerts);
    ClosingReplays(s, t, heads, status, e);
  }

  lemma DecideKeepsInv(s: Store, id: AlertId, user: UserId, decision: Status, seen: int, now: Time, cfg: Config)
    requires Inv(s, cfg) && s.clock <= now
    ensures Inv(Decide(s, id, user, decision, seen, now, cfg).store.(clock := now), cfg)
  {
    var t := Decide(s, id, user, decision, seen, now, cfg).store.(clock := now);
    if Decide(s, id, user, decision, seen, now, cfg).answer.Done? {
      DecisionKeepsInv(s, t, id, user, decision, cfg);
    } else {
      SameTablesKeepInv(s, t, cfg);
    }
  }

  lemma DecisionKeepsInv(s: Store, t: Store, id: AlertId, user: UserId, decision: Status, cfg: Config)
    requires Inv(s, cfg) && s.clock <= t.clock && id in s.alerts && s.alerts[id].status.Tier1Active?
    requires decision.ClosedFp? || decision.ClosedBenign?
    requires t == s.(alerts := CloseClusters(s.alerts, {id}, {id}, decision, t.clock), clock := t.clock,
                     audit := s.audit + [Decided(id, user, decision, s.alerts[id].occurrenceCount)])
    ensures Inv(t, cfg)
  {
    assert RowOk(s, id);
    ClosingKeepsInv(s, t, {id}, decision, Decided(id, user, decision, s.alerts[id].occurrenceCount), cfg);
  }

  /** The rows the two conclusion UPDATEs select are the case's rows in `case_alerts`. */
  lemma ConclusionTouchesMembers(s: Store, c: CaseId)
    requires RowsOk(s) && c in s.cases && s.cases[c].Investigating?
    ensures OpenHeadsOf(s.alerts, c) == CaseHeads(s.caseAlerts, c) == ParentsOf(s.alerts, c)
  {
    forall x | x in s.alerts
      ensures x in OpenHeadsOf(s.alerts, c) <==> x in CaseHeads(s.caseAlerts, c)
      ensures x in ParentsOf(s.alerts, c) <==> x in CaseHeads(s.caseAlerts, c)
    {
      assert RowOk(s, x);
      assert x in s.caseAlerts ==> IsHead(s.alerts, x);
      if s.alerts[x].duplicateOf.Some? { assert RowOk(s, s.alerts[x].duplicateOf.value); }
    }
    forall x | x in s.caseAlerts ensures x in s.alerts { assert IsHead(s.alerts, x); }
  }

  lemma ConcludeKeepsInv(s: Store, c: CaseId, user: UserId, conclusion: CaseStatus, now: Time, cfg: Config)
    requires Inv(s, cfg) && s.clock <= now
    ensures Inv(Conclude(s, c, user, conclusion, now).store.(clock := now), cfg)
  {
    var t := Conclude(s, c, user, conclusion, now).store.(clock := now);
    if Conclude(s, c, user, conclusion, now).answer.Done? {
      ConclusionKeepsInv(s, t, c, user, conclusion, cfg);
    } else {
      SameTablesKeepInv(s, t, cfg);
    }
  }

  lemma ConclusionKeepsInv(s: Store, t: Store, c: CaseId, user: UserId, conclusion: CaseStatus, cfg: Config)
    requires Inv(s, cfg) && s.clock <= t.clock && c in s.cases && s.cases[c].Investigating?
        && !conclusion.Investigating?
    requires t == Conclude(s, c, user, conclusion, t.clock).store.(clock := t.clock)
    ensures Inv(t, cfg)
  {
    ConclusionTouchesMembers(s, c);
    var heads, status := CaseHeads(s.caseAlerts, c), AlertStatusFor(conclusion);
    forall h | h in heads ensures IsHead(s.alerts, h) && HeadOk(t, h, t.alerts[h]) {
      assert IsHead(s.alerts, h);
      assert RowOk(s, h);
    }
    forall x | x in s.alerts && x !in heads ensures CaseKept(s, t, x) {
      assert RowOk(s, x);
    }
    assert t.cases.Keys == s.cases.Keys;
    ClosingKeepsInv(s, t, heads, status, Concluded(c, user, conclusion), cfg);
  }

  // ---- escalation --------------------------------------------------------------------------------

  lemma CandidatesFacts(id: AlertId, correlated: seq<AlertId>)
    requires id !in correlated && NoRepeats(correlated)
    ensures Candidates(id, correlated) == [id] + correlated && NoRepeats(Candidates(id, correlated))
  {
    WithoutAbsent(correlated, id);
  }

  lemma {:induction false} WithoutAbsent(ids: seq<AlertId>, id: AlertId)
    requires id !in ids
    ensures Without(ids, id) == ids
  {
    if ids != [] {
      WithoutAbsent(ids[1..], id);
      assert ids == [ids[0]] + ids[1..];
    }
  }

  lemma ViewAfterEscalation(a: map<AlertId, AlertRow>, heads: set<AlertId>, c: CaseId)
    ensures Statuses(EscalateRows(a, heads, c)) == SetThese(Statuses(a), heads, EscalatedTier2)
    ensures Parents(EscalateRows(a, heads, c)) == Parents(a)
    ensures Counts(EscalateRows(a, heads, c)) == Counts(a)
  {
  }

  lemma EscalationKeepsCounts(a: map<AlertId, AlertRow>, heads: set<AlertId>, c: CaseId, cfg: Config)
    requires CountsOk(a, cfg)
    ensures CountsOk(EscalateRows(a, heads, c), cfg) && |EscalateRows(a, heads, c)| == |a|
  {
    var b := EscalateRows(a, heads, c);
    forall h | IsHead(b, h) ensures CountOk(b, h, cfg) {
      assert CountOk(a, h, cfg);
      assert DuplicatesOf(b, h) == DuplicatesOf(a, h);
    }
    assert b.Keys == a.Keys;
    assert |b| == |b.Keys|;
  }

  /** Heads an escalation may take: rows outside every case and unsealed, hence open heads. */
  ghost predicate Takeable(s: Store, h: AlertId) {
    h in s.alerts && s.alerts[h].caseId.None? && s.alerts[h].sealedAt.None?
  }

  lemma EscalationKeepsRows(s: Store, t: Store, heads: set<AlertId>, c: CaseId)
    requires RowsOk(s) && s.clock <= t.clock && c !in s.cases
    requires forall h {:trigger Takeable(s, h)} :: h in heads ==> Takeable(s, h)
    requires t.alerts == EscalateRows(s.alerts, heads, c) && t.triageJobs == s.triageJobs
    requires t.cases == s.cases[c := Investigating]
    requires t.caseAlerts == s.caseAlerts + (map h | h in heads :: c)
    ensures RowsOk(t)
  {
    forall x | x in t.alerts ensures RowOk(t, x) {
      assert RowOk(s, x);
      assert x in heads ==> Takeable(s, x);
      if s.alerts[x].duplicateOf.Some? {
        var p := s.alerts[x].duplicateOf.value;
        assert RowOk(s, p);
        assert p in heads ==> Takeable(s, p);
        if p !in heads { FrameRow(s, t, x); }
      } else if x !in heads {
        FrameRow(s, t, x);
      }
    }
    forall x | x in t.caseAlerts ensures IsHead(t.alerts, x) {
      if x in heads {
        assert Takeable(s, x);
        assert RowOk(s, x);
      } else {
        assert IsHead(s.alerts, x);
      }
    }
  }

  lemma MembersAfterEscalation(s: Store, heads: set<AlertId>, c: CaseId)
    requires RowsOk(s) && c !in s.cases
    requires forall h {:trigger Takeable(s, h)} :: h in heads ==> Takeable(s, h)
    ensures var rows := s.caseAlerts + map h | h in heads :: c;
            && CaseHeads(rows, c) == heads
            && (forall d :: d in s.cases ==> CaseHeads(rows, d) == CaseHeads(s.caseAlerts, d))
            && Members(s.cases[c := Investigating], rows) == Members(s.cases, s.caseAlerts)[c := heads]
  {
    forall x | x in s.caseAlerts ensures s.caseAlerts[x] in s.cases && x !in heads {
      assert IsHead(s.alerts, x);
      assert RowOk(s, x);
      assert x in heads ==> Takeable(s, x);
    }
  }

  /** The truncation notice and the case-opened notice say nothing about any alert. */
  lemma NoticesReplayToNothing(log: seq<Event>, id: AlertId, user: UserId, c: CaseId, dropped: nat, heads: seq<AlertId>)
    ensures Replay(log + EscalateEvents(id, user, c, dropped, heads)) ==
            ReplayEvent(Replay(log), Escalated(id, user, c, heads))
  {
    var cut, esc := CaseTruncated(c, user, dropped), Escalated(id, user, c, heads);
    var notice := CaseOpened(c, user, id, |heads|);
    if dropped > 0 {
      assert EscalateEvents(id, user, c, dropped, heads) == [cut, esc, notice];
      FoldThree(ReplayEvent, NOTHING, log, cut, esc, notice);
    } else {
      assert EscalateEvents(id, user, c, dropped, heads) == [esc, notice];
      FoldTwo(ReplayEvent, NOTHING, log, esc, notice);
    }
  }

  lemma EscalationKeepsCases(s: Store, t: Store, heads: seq<AlertId>, c: CaseId, cfg: Config)
    requires RowsOk(s) && CasesOk(s, cfg) && c !in s.cases
    requires |Elements(heads)| == |heads| <= cfg.maxAlertsPerCase
    requires forall h {:trigger Takeable(s, h)} :: h in Elements(heads) ==> Takeable(s, h)
    requires t.cases == s.cases[c := Investigating]
    requires t.caseAlerts == s.caseAlerts + (map h | h in Elements(heads) :: c)
    ensures CasesOk(t, cfg)
  {
    MembersAfterEscalation(s, Elements(heads), c);
  }

  lemma EscalationReplays(s: Store, id: AlertId, user: UserId, c: CaseId, dropped: nat, heads: seq<AlertId>)
    requires RowsOk(s) && c !in s.cases
    requires forall h {:trigger Takeable(s, h)} :: h in Elements(heads) ==> Takeable(s, h)
    requires Replay(s.audit) == ViewOf(s)
    ensures var t := EscalateStore(s, id, user, c, dropped, heads); Replay(t.audit) == ViewOf(t)
  {
    NoticesReplayToNothing(s.audit, id, user, c, dropped, heads);
    ViewAfterEscalation(s.alerts, Elements(heads), c);
    MembersAfterEscalation(s, Elements(heads), c);
  }

  lemma EscalateStoreKeepsInv(s: Store, id: AlertId, user: UserId, c: CaseId, dropped: nat, heads: seq<AlertId>,
                              now: Time, cfg: Config)
    requires Inv(s, cfg) && s.clock <= now && c !in s.cases
    requires |Elements(heads)| == |heads| <= cfg.maxAlertsPerCase
    requires forall h {:trigger Takeable(s, h)} :: h in Elements(heads) ==> Takeable(s, h)
    ensures Inv(EscalateStore(s, id, user, c, dropped, heads).(clock := now), cfg)
  {
    var t := EscalateStore(s, id, user, c, dropped, heads).(clock := now);
    EscalationKeepsRows(s, t, Elements(heads), c);
    EscalationKeepsCounts(s.alerts, Elements(heads), c, cfg);
    EscalationKeepsCases(s, t, heads, c, cfg);
    EscalationReplays(s, id, user, c, dropped, heads);
  }

  /** An escalation that is not refused takes open heads outside every case only. */
  lemma EscalateTakesOpenHeads(s: Store, id: AlertId, user: UserId, c: CaseId, correlated: seq<AlertId>, cfg: Config)
    returns (dropped: nat, heads: seq<AlertId>)
    ensures var r := Escalate(s, id, user, c, correlated, cfg);
            r.store != s ==>
              && r.store == EscalateStore(s, id, user, c, dropped, heads)
              && c !in s.cases && |Elements(heads)| == |heads| <= cfg.maxAlertsPerCase
              && forall h {:trigger Takeable(s, h)} :: h in Elements(heads) ==> Takeable(s, h)
  {
    var all := Candidates(id, correlated);
    heads := if 0 <= cfg.maxAlertsPerCase then Capped(all, cfg.maxAlertsPerCase) else [];
    dropped := |all| - |heads|;
  }

  lemma EscalateKeepsInv(s: Store, id: AlertId, user: UserId, c: CaseId, correlated: seq<AlertId>, now: Time,
                         cfg: Config)
    requires Inv(s, cfg) && s.clock <= now
    ensures Inv(Escalate(s, id, user, c, correlated, cfg).store.(clock := now), cfg)
  {
    var after := Escalate(s, id, user, c, correlated, cfg).store;
    var dropped, heads := EscalateTakesOpenHeads(s, id, user, c, correlated, cfg);
    if after == s {
      SameTablesKeepInv(s, s.(clock := now), cfg);
    } else {
      EscalateStoreKeepsInv(s, id, user, c, dropped, heads, now, cfg);
    }
  }
}
