/** Which head an alert joins, in columns and times: at each pipeline run, and so for every row of a
    reachable state. */
module Joins {
  import opened Common
  import opened Store
  import opened Transitions
  import opened Lifecycle
  import opened Runs

  /** An undecided head of the same rule, addresses and agent, seen within the idle gap, first seen within
      the age its status allows, and not full. */
  ghost predicate MayJoin(s: Store, h: AlertId, key: ClusterKey, now: Time, cfg: Config) {
    && h in s.alerts
    && var head := s.alerts[h];
       && head.duplicateOf.None?
       && !head.status.ClosedFp? && !head.status.ClosedBenign? && !head.status.ClosedConfirmed?
       && head.key.ruleId == key.ruleId && head.key.srcip == key.srcip
       && head.key.dstip == key.dstip && head.key.agentName == key.agentName
       && now - head.lastSeenAt <= cfg.idleGap
       && (head.status.AutoClosed? ==> now - head.firstSeenAt <= cfg.maxAgeAutoClosed)
       && (!head.status.AutoClosed? ==> now - head.firstSeenAt <= cfg.maxAge)
       && head.occurrenceCount < cfg.maxClusterSize
  }

  ghost predicate Latest(s: Store, h: AlertId, key: ClusterKey, now: Time, cfg: Config) {
    MayJoin(s, h, key, now, cfg)
    && forall g :: MayJoin(s, g, key, now, cfg) ==> s.alerts[g].lastSeenAt <= s.alerts[h].lastSeenAt
  }

  lemma AbsorbsExactly(s: Store, h: AlertId, key: ClusterKey, now: Time, cfg: Config)
    requires RowsOk(s) && h in s.alerts
    ensures Absorbs(s.alerts[h], key, now, cfg) <==> MayJoin(s, h, key, now, cfg)
  {
    assert RowOk(s, h);
    if s.alerts[h].duplicateOf.Some? { assert RowOk(s, s.alerts[h].duplicateOf.value); }
  }

  /** One pipeline run on a new alert: it becomes a duplicate exactly when a head may be joined, then of the
      one seen last; otherwise a head. Its own columns and times are those of the arrival. */
  lemma PipelineJoinsExactly(s: Store, i: IntakeId, head: Option<AlertId>, rule: Option<RuleId>, now: Time, cfg: Config)
    requires Inv(s, cfg) && Legal(s, Step(now, RunPipeline(i, head, rule)), cfg)
    requires i in s.intake && s.intake[i].receipt.None? && s.intake[i].text.Alert?
    requires s.intake[i].text.alertId !in s.alerts
    ensures var id, key := s.intake[i].text.alertId, s.intake[i].text.key;
            var t := Pipeline(s, i, head, rule, now).store;
            && t.alerts.Keys == s.alerts.Keys + {id}
            && t.alerts[id].key == key && t.alerts[id].firstSeenAt == t.alerts[id].lastSeenAt == now
            && (t.alerts[id].duplicateOf.Some? <==> exists h :: MayJoin(s, h, key, now, cfg))
            && (t.alerts[id].duplicateOf.Some? ==>
                  var h := t.alerts[id].duplicateOf.value;
                  && Latest(s, h, key, now, cfg)
                  && t.alerts[h] == s.alerts[h].(occurrenceCount := s.alerts[h].occurrenceCount + 1, lastSeenAt := now)
                  && forall x <- s.alerts :: x != h ==> t.alerts[x] == s.alerts[x])
            && (t.alerts[id].duplicateOf.None? ==> forall x <- s.alerts :: t.alerts[x] == s.alerts[x])
  {
    AnswerIsLatest(s, s.intake[i].text.key, now, cfg, head);
    PipelineRows(s, i, head, rule, now);
  }

  /** The dedup query answers the head to join that was seen last, or that there is none. */
  lemma AnswerIsLatest(s: Store, key: ClusterKey, now: Time, cfg: Config, head: Option<AlertId>)
    requires RowsOk(s) && DedupAnswer(s.alerts, key, now, cfg, head)
    ensures head.Some? <==> exists h :: MayJoin(s, h, key, now, cfg)
    ensures head.Some? ==> Latest(s, head.value, key, now, cfg)
  {
    forall h | h in s.alerts ensures Absorbs(s.alerts[h], key, now, cfg) <==> MayJoin(s, h, key, now, cfg) {
      AbsorbsExactly(s, h, key, now, cfg);
    }
  }

  lemma PipelineRows(s: Store, i: IntakeId, head: Option<AlertId>, rule: Option<RuleId>, now: Time)
    requires i in s.intake && s.intake[i].receipt.None? && s.intake[i].text.Alert?
    requires s.intake[i].text.alertId !in s.alerts && (head.Some? ==> head.value in s.alerts)
    ensures var id, key := s.intake[i].text.alertId, s.intake[i].text.key;
            var t := Pipeline(s, i, head, rule, now).store;
            && t.alerts.Keys == s.alerts.Keys + {id}
            && t.alerts[id].key == key && t.alerts[id].firstSeenAt == t.alerts[id].lastSeenAt == now
            && t.alerts[id].duplicateOf == head
            && (forall x <- s.alerts :: Some(x) != head ==> t.alerts[x] == s.alerts[x])
            && (head.Some? ==> t.alerts[head.value] == s.alerts[head.value].(
                                 occurrenceCount := s.alerts[head.value].occurrenceCount + 1, lastSeenAt := now))
  {
  }

  // ---- rows of a run ------------------------------------------------------------------------------------

  /** What no later transaction changes of a row. */
  ghost predicate SameBirth(a: AlertRow, b: AlertRow) {
    a.key == b.key && a.duplicateOf == b.duplicateOf && a.firstSeenAt == b.firstSeenAt
  }

  lemma StepKeepsBirth(s: Store, step: Step, cfg: Config, id: AlertId)
    requires id in s.alerts
    ensures id in After(s, step, cfg).alerts && SameBirth(s.alerts[id], After(s, step, cfg).alerts[id])
  {
    StepKeepsIds(s, step, cfg, id);
    match step.action
    case DoEscalate(trigger, user, c, correlated) => EscalationKeepsBirth(s, trigger, user, c, correlated, cfg, id);
    case _ =>
  }

  lemma EscalationKeepsBirth(s: Store, trigger: AlertId, user: UserId, c: CaseId, correlated: seq<AlertId>, cfg: Config,
                             id: AlertId)
    requires id in s.alerts
    ensures var a := Escalate(s, trigger, user, c, correlated, cfg).store.alerts;
            id in a && SameBirth(s.alerts[id], a[id])
  {
  }

  lemma {:induction false} RunKeepsBirth(steps: seq<Step>, k: nat, cfg: Config, id: AlertId)
    requires k <= |steps| && id in Run(EMPTY, steps[..k], cfg).alerts
    ensures var a := Run(EMPTY, steps, cfg).alerts;
            id in a && SameBirth(Run(EMPTY, steps[..k], cfg).alerts[id], a[id])
    decreases |steps|
  {
    if k < |steps| {
      var before := steps[..|steps| - 1];
      assert before[..k] == steps[..k];
      RunKeepsBirth(before, k, cfg, id);
      StepKeepsBirth(Run(EMPTY, before, cfg), steps[|steps| - 1], cfg, id);
    } else {
      assert steps[..k] == steps;
    }
  }

  lemma {:induction false} PrefixIsLegal(steps: seq<Step>, k: nat, cfg: Config)
    requires LegalRun(EMPTY, steps, cfg) && k <= |steps|
    ensures LegalRun(EMPTY, steps[..k], cfg)
    decreases |steps|
  {
    if k < |steps| {
      PrefixIsLegal(steps[..|steps| - 1], k, cfg);
      assert steps[..|steps| - 1][..k] == steps[..k];
    } else {
      assert steps[..k] == steps;
    }
  }

  /** The row appears with step `k`. */
  ghost predicate BornAt(steps: seq<Step>, k: nat, cfg: Config, id: AlertId) {
    && k < |steps| && id !in Run(EMPTY, steps[..k], cfg).alerts
    && id in After(Run(EMPTY, steps[..k], cfg), steps[k], cfg).alerts
  }

  lemma {:induction false} EveryRowIsBorn(steps: seq<Step>, cfg: Config, id: AlertId) returns (k: nat)
    requires id in Run(EMPTY, steps, cfg).alerts
    ensures BornAt(steps, k, cfg, id)
  {
    var before := steps[..|steps| - 1];
    if id in Run(EMPTY, before, cfg).alerts {
      k := EveryRowIsBorn(before, cfg, id);
      assert before[..k] == steps[..k];
    } else {
      k := |steps| - 1;
    }
  }

  /** Only a pipeline run makes a row, of a row of intake that had none. */
  lemma OnlyPipelinesMakeRows(s: Store, step: Step, cfg: Config, id: AlertId)
    requires id !in s.alerts && id in After(s, step, cfg).alerts
    ensures step.action.RunPipeline?
    ensures var i := step.action.jobIntakeId;
            && i in s.intake && s.intake[i].receipt.None? && s.intake[i].text.Alert? && s.intake[i].text.alertId == id
  {
    match step.action
    case DoEscalate(trigger, user, c, correlated) => EscalateKeepsIds(s, trigger, user, c, correlated, cfg);
    case _ =>
  }

  /** How the arrival of a row went: what was before it, and the row's head, if it joined one. */
  ghost predicate Arrived(s: Store, now: Time, row: AlertRow, cfg: Config) {
    && row.firstSeenAt == now
    && (row.duplicateOf.Some? ==> Latest(s, row.duplicateOf.value, row.key, now, cfg))
    && (row.duplicateOf.None? ==> forall h :: !MayJoin(s, h, row.key, now, cfg))
  }

  /** Step `k` of the run was the row's arrival. */
  ghost predicate ArrivedAt(steps: seq<Step>, k: nat, cfg: Config, id: AlertId)
    requires id in Run(EMPTY, steps, cfg).alerts
  {
    BornAt(steps, k, cfg, id)
    && Arrived(Run(EMPTY, steps[..k], cfg), steps[k].now, Run(EMPTY, steps, cfg).alerts[id], cfg)
  }

  /** Over every run: each alert row arrived at some step, and joined the open head of its own four columns
      that was then seen last, inside both windows and below the ceiling; it is a head exactly when there was
      no such head. */
  lemma EveryRowArrived(steps: seq<Step>, cfg: Config, id: AlertId) returns (k: nat)
    requires LegalRun(EMPTY, steps, cfg) && id in Run(EMPTY, steps, cfg).alerts
    ensures ArrivedAt(steps, k, cfg, id)
  {
    k := EveryRowIsBorn(steps, cfg, id);
    var s, step := Run(EMPTY, steps[..k], cfg), steps[k];
    PrefixIsLegal(steps, k, cfg);
    PrefixIsLegal(steps, k + 1, cfg);
    assert steps[..k + 1][..k] == steps[..k];
    ReachableIsValid(steps[..k], cfg);
    OnlyPipelinesMakeRows(s, step, cfg, id);
    PipelineJoinsExactly(s, step.action.jobIntakeId, step.action.head, step.action.rule, step.now, cfg);
    RunKeepsBirth(steps, k + 1, cfg, id);
  }

  /** A duplicate has its head's rule, addresses and agent, in every reachable state. */
  lemma DuplicatesShareTheirKey(steps: seq<Step>, cfg: Config, id: AlertId)
    requires LegalRun(EMPTY, steps, cfg) && id in Run(EMPTY, steps, cfg).alerts
    requires Run(EMPTY, steps, cfg).alerts[id].duplicateOf.Some?
    ensures var a := Run(EMPTY, steps, cfg).alerts;
            var h := a[id].duplicateOf.value;
            && h in a
            && a[id].key.ruleId == a[h].key.ruleId && a[id].key.srcip == a[h].key.srcip
            && a[id].key.dstip == a[h].key.dstip && a[id].key.agentName == a[h].key.agentName
  {
    var row := Run(EMPTY, steps, cfg).alerts[id];
    var k := EveryRowArrived(steps, cfg, id);
    assert MayJoin(Run(EMPTY, steps[..k], cfg), row.duplicateOf.value, row.key, steps[k].now, cfg);
    RunKeepsBirth(steps, k, cfg, row.duplicateOf.value);
  }
}
