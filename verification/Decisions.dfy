/** What the analyst's transactions do to rows, in rows and numbers, when the invariant holds. */
module Decisions {
  import opened Common
  import opened Store
  import opened Transitions
  import opened Lifecycle
  import opened Runs

  /** A decision goes through exactly on an acknowledged alert of whose arrivals, itself and its duplicates, no
      more than the tolerance came since the analyst counted them. */
  lemma DecisionSucceedsExactly(
    s: Store, id: AlertId, user: UserId, decision: Status, seen: int, now: Time, cfg: Config)
    requires Inv(s, cfg)
    ensures Decide(s, id, user, decision, seen, now, cfg).answer.Done? <==>
              && (decision.ClosedFp? || decision.ClosedBenign?)
              && id in s.alerts && s.alerts[id].status.Tier1Active?
              && 1 + |DuplicatesOf(s.alerts, id)| <= seen + cfg.reviewDeltaTolerance
    ensures !Decide(s, id, user, decision, seen, now, cfg).answer.Done? ==>
              Decide(s, id, user, decision, seen, now, cfg).store == s
  {
    if id in s.alerts && s.alerts[id].status.Tier1Active? {
      assert RowOk(s, id);
      assert IsHead(s.alerts, id);
      assert CountOk(s.alerts, id, cfg);
    }
  }

  /** It closes the alert and all its duplicates as decided, now and for good, and touches no other row. */
  lemma DecisionClosesTheCluster(
    s: Store, id: AlertId, user: UserId, decision: Status, seen: int, now: Time, cfg: Config)
    requires Inv(s, cfg) && Decide(s, id, user, decision, seen, now, cfg).answer.Done?
    ensures var a := Decide(s, id, user, decision, seen, now, cfg).store.alerts;
            && a.Keys == s.alerts.Keys
            && (forall x <- a :: x == id || x in DuplicatesOf(s.alerts, id) ==>
                  a[x].status == decision && a[x].closedAt == a[x].sealedAt == Some(now))
            && (forall x <- a :: x != id && x !in DuplicatesOf(s.alerts, id) ==> a[x] == s.alerts[x])
  {
  }

  /** An alert waiting in the queue can always be acknowledged, and nothing else can. */
  lemma AcknowledgeSucceedsExactly(s: Store, id: AlertId, user: UserId, cfg: Config)
    requires Inv(s, cfg)
    ensures var r := Acknowledge(s, id, user);
            && (r.answer.Done? <==> id in s.alerts && s.alerts[id].status.QueuedTier1?)
            && (r.answer.Done? ==> r.store.alerts[id].status.Tier1Active?
                                   && r.store.alerts[id].acknowledgedBy == Some(user))
            && (forall x <- s.alerts :: x != id || !r.answer.Done? ==>
                  x in r.store.alerts && r.store.alerts[x] == s.alerts[x])
  {
    if id in s.alerts { assert RowOk(s, id); }
    if id in s.alerts && s.alerts[id].duplicateOf.Some? { assert RowOk(s, s.alerts[id].duplicateOf.value); }
  }

  /** A reason is all it takes to put an auto-closed alert back into the queue, open again. */
  lemma ReopenSucceedsExactly(s: Store, id: AlertId, user: UserId, reason: string)
    ensures var r := Reopen(s, id, user, reason);
            && (r.answer.Done? <==> reason != "" && id in s.alerts && s.alerts[id].status.AutoClosed?)
            && (r.answer.Done? ==> r.store.alerts[id].status.QueuedTier1? && r.store.alerts[id].closedAt.None?)
            && (forall x <- s.alerts :: x != id || !r.answer.Done? ==>
                  x in r.store.alerts && r.store.alerts[x] == s.alerts[x])
  {
  }

  /** How many of the others a case has room for beside its trigger. */
  function Room(others: nat, cfg: Config): nat
    requires 0 < cfg.maxAlertsPerCase
  {
    if others < cfg.maxAlertsPerCase then others else cfg.maxAlertsPerCase - 1
  }

  /** The rows in `taken` are escalated into the case, their duplicates are linked to it, and no other row
      changes. */
  ghost predicate TakenInto(a: map<AlertId, AlertRow>, b: map<AlertId, AlertRow>, taken: set<AlertId>, c: CaseId) {
    && b.Keys == a.Keys
    && (forall x <- a :: x in taken ==> b[x].status.EscalatedTier2? && b[x].caseId == Some(c))
    && (forall x <- a :: x !in taken && a[x].duplicateOf.Some? && a[x].duplicateOf.value in taken ==>
          b[x] == a[x].(caseId := Some(c)))
    && (forall x <- a :: x !in taken && (a[x].duplicateOf.None? || a[x].duplicateOf.value !in taken) ==> b[x] == a[x])
  }

  lemma EscalateRowsExactly(s: Store, taken: set<AlertId>, c: CaseId)
    requires RowsOk(s) && c !in s.cases
    ensures TakenInto(s.alerts, EscalateRows(s.alerts, taken, c), taken, c)
    ensures CaseHeads(s.caseAlerts + map h | h in taken :: c, c) == taken
  {
    forall x | x in s.caseAlerts ensures s.caseAlerts[x] != c {
      assert IsHead(s.alerts, x);
      assert RowOk(s, x);
    }
  }

  lemma HeadsTaken(id: AlertId, correlated: seq<AlertId>, cfg: Config)
    requires 0 < cfg.maxAlertsPerCase && id !in correlated && NoRepeats(correlated)
    ensures Elements(Capped(Candidates(id, correlated), cfg.maxAlertsPerCase)) ==
            {id} + Elements(correlated[..Room(|correlated|, cfg)])
  {
    HeadsInOrder(id, correlated, cfg);
  }

  lemma HeadsInOrder(id: AlertId, correlated: seq<AlertId>, cfg: Config)
    requires 0 < cfg.maxAlertsPerCase && id !in correlated && NoRepeats(correlated)
    ensures |Candidates(id, correlated)| == 1 + |correlated|
    ensures Capped(Candidates(id, correlated), cfg.maxAlertsPerCase) == [id] + correlated[..Room(|correlated|, cfg)]
  {
    CandidatesFacts(id, correlated);
    assert Capped([id] + correlated, cfg.maxAlertsPerCase) == [id] + correlated[..Room(|correlated|, cfg)];
  }

  lemma StoreTakes(s: Store, id: AlertId, user: UserId, c: CaseId, dropped: nat, heads: seq<AlertId>,
                   taken: set<AlertId>)
    requires RowsOk(s) && c !in s.cases && Elements(heads) == taken
    ensures CaseTakes(s, EscalateStore(s, id, user, c, dropped, heads), c, taken)
  {
    EscalateRowsExactly(s, taken, c);
  }

  /** What the log gains: how many candidates the cap left out, if any; who was escalated, trigger first; and how
      many the case began with. */
  lemma EscalationIsLogged(s: Store, id: AlertId, user: UserId, c: CaseId, correlated: seq<AlertId>, cfg: Config)
    requires CorrelationAnswer(s, id, correlated, cfg) && 0 < cfg.maxAlertsPerCase
    requires Escalate(s, id, user, c, correlated, cfg).answer.Done?
    ensures var taken := [id] + correlated[..Room(|correlated|, cfg)];
            var logged := [Escalated(id, user, c, taken), CaseOpened(c, user, id, |taken|)];
            Escalate(s, id, user, c, correlated, cfg).store.audit ==
            s.audit + if |correlated| < cfg.maxAlertsPerCase then logged
                      else [CaseTruncated(c, user, 1 + |correlated| - cfg.maxAlertsPerCase)] + logged
  {
    var dropped := EscalationStore(s, id, user, c, correlated, cfg);
    HeadsInOrder(id, correlated, cfg);
  }

  /** The new case is under investigation, holds these heads, and the rows say so. */
  ghost predicate CaseTakes(s: Store, t: Store, c: CaseId, taken: set<AlertId>) {
    && c in t.cases && t.cases[c].Investigating? && CaseHeads(t.caseAlerts, c) == taken
    && TakenInto(s.alerts, t.alerts, taken, c)
  }

  lemma EscalationStore(s: Store, id: AlertId, user: UserId, c: CaseId, correlated: seq<AlertId>, cfg: Config)
      returns (dropped: nat)
    requires 0 < cfg.maxAlertsPerCase && Escalate(s, id, user, c, correlated, cfg).answer.Done?
    ensures c !in s.cases
    ensures dropped == |Candidates(id, correlated)| - |Capped(Candidates(id, correlated), cfg.maxAlertsPerCase)|
    ensures Escalate(s, id, user, c, correlated, cfg).store ==
            EscalateStore(s, id, user, c, dropped, Capped(Candidates(id, correlated), cfg.maxAlertsPerCase))
  {
    dropped := |Candidates(id, correlated)| - |Capped(Candidates(id, correlated), cfg.maxAlertsPerCase)|;
  }

  /** An escalation's new case holds its trigger and the first of the correlated heads, as many as the cap
      leaves room for. */
  lemma EscalationTakesExactly(s: Store, id: AlertId, user: UserId, c: CaseId, correlated: seq<AlertId>, cfg: Config)
    requires RowsOk(s) && CorrelationAnswer(s, id, correlated, cfg) && 0 < cfg.maxAlertsPerCase
    requires Escalate(s, id, user, c, correlated, cfg).answer.Done?
    ensures CaseTakes(s, Escalate(s, id, user, c, correlated, cfg).store, c,
                      {id} + Elements(correlated[..Room(|correlated|, cfg)]))
  {
    var dropped := EscalationStore(s, id, user, c, correlated, cfg);
    var heads := Capped(Candidates(id, correlated), cfg.maxAlertsPerCase);
    HeadsTaken(id, correlated, cfg);
    StoreTakes(s, id, user, c, dropped, heads, Elements(heads));
  }
}
