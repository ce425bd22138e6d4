/** The job queue: its statements as functions of the job rows. */
module Jobs {
  import opened Common

  type JobId = nat
  type Time = int

  datatype JobStatus = Pending | Running | Succeeded | Failed
  datatype Outcome = Success | Transient(error: string) | Permanent(error: string)

  datatype Row = Row(jobType: string, subject: string, status: JobStatus, attempts: nat, scheduledAt: Time,
                     lockedAt: Option<Time>, lastError: Option<string>)

  /** A claimed job, as the worker keeps it. */
  datatype Ticket = Ticket(id: JobId, jobType: string, subject: string, attempts: nat)

  datatype Config = Config(maxAttempts: int, backoff: seq<int>, lockTimeout: Time)

  const JOB_TYPES: set<string> := {"pipeline", "triage", "investigate", "digest", "health", "pull"}

  predicate Live(r: Row) {
    r.status.Pending? || r.status.Running?
  }

  predicate Same(a: Row, b: Row) {
    a.jobType == b.jobType && a.subject == b.subject
  }

  /** The partial unique index: one live job for each type and subject. */
  ghost predicate OneLive(rows: map<JobId, Row>) {
    forall i, j :: i in rows && j in rows && i != j && Live(rows[i]) && Live(rows[j]) ==> !Same(rows[i], rows[j])
  }

  predicate HasLive(rows: map<JobId, Row>, jobType: string, subject: string) {
    exists i :: i in rows && Live(rows[i]) && rows[i].jobType == jobType && rows[i].subject == subject
  }

  /** `ON CONFLICT … DO NOTHING`. */
  function Enqueued(rows: map<JobId, Row>, next: JobId, jobType: string, subject: string, at: Time): map<JobId, Row> {
    if HasLive(rows, jobType, subject) then rows
    else rows[next := Row(jobType, subject, Pending, 0, at, None, None)]
  }

  predicate Due(r: Row, now: Time) {
    r.status.Pending? && r.scheduledAt <= now
  }

  function Claimed(rows: map<JobId, Row>, id: JobId, now: Time): map<JobId, Row>
    requires id in rows
  {
    rows[id := rows[id].(status := Running, attempts := rows[id].attempts + 1, lockedAt := Some(now))]
  }

  function TicketOf(rows: map<JobId, Row>, id: JobId): Ticket
    requires id in rows
  {
    Ticket(id, rows[id].jobType, rows[id].subject, rows[id].attempts)
  }

  /** What finishing does, and what can go wrong in it. */
  datatype Finish = Done(rows: map<JobId, Row>, exhausted: bool) | IndexRejects | BackoffMissing

  function MarkSucceeded(rows: map<JobId, Row>, id: JobId): map<JobId, Row> {
    if id in rows then rows[id := rows[id].(status := Succeeded)] else rows
  }

  function MarkFailed(rows: map<JobId, Row>, id: JobId, error: string): map<JobId, Row> {
    if id in rows then rows[id := rows[id].(status := Failed, lastError := Some(error))] else rows
  }

  function Rescheduled(rows: map<JobId, Row>, id: JobId, at: Time, error: string): map<JobId, Row> {
    if id in rows then rows[id := rows[id].(status := Pending, scheduledAt := at, lastError := Some(error))] else rows
  }

  /** Writing the job back to pending is refused when its subject has another live job by now. */
  predicate Collides(rows: map<JobId, Row>, id: JobId) {
    id in rows && exists j :: j in rows && j != id && Live(rows[j]) && Same(rows[j], rows[id])
  }

  /** `JOB_BACKOFF[attempts - 1]`, a Python index: -1 is the last entry. */
  function BackoffAt(backoff: seq<int>, i: int): Option<int> {
    if 0 <= i < |backoff| then Some(backoff[i])
    else if -|backoff| <= i < 0 then Some(backoff[|backoff| + i])
    else None
  }

  /** The delay before the next attempt. */
  function Delay(cfg: Config, attempts: nat): Option<int> {
    BackoffAt(cfg.backoff, attempts - 1)
  }

  function Finished(rows: map<JobId, Row>, t: Ticket, outcome: Outcome, now: Time, cfg: Config): Finish {
    match outcome
    case Success => Done(MarkSucceeded(rows, t.id), false)
    case Permanent(error) => Done(MarkFailed(rows, t.id, error), false)
    case Transient(error) =>
      if t.attempts >= cfg.maxAttempts then Done(MarkFailed(rows, t.id, error), true)
      else
        var delay := Delay(cfg, t.attempts);
        if delay.None? then BackoffMissing
        else if Collides(rows, t.id) then IndexRejects
        else Done(Rescheduled(rows, t.id, now + delay.value, error), false)
  }

  predicate Stale(r: Row, now: Time, cfg: Config) {
    r.status.Running? && r.lockedAt.Some? && r.lockedAt.value < now - cfg.lockTimeout
  }

  function Reclaimed(rows: map<JobId, Row>, now: Time, cfg: Config): map<JobId, Row> {
    map i | i in rows :: if Stale(rows[i], now, cfg) then rows[i].(status := Pending, lockedAt := None) else rows[i]
  }

  // ---- the index is kept by every statement ------------------------------------------------------

  lemma EnqueueKeepsOneLive(rows: map<JobId, Row>, next: JobId, jobType: string, subject: string, at: Time)
    requires OneLive(rows) && next !in rows
    ensures OneLive(Enqueued(rows, next, jobType, subject, at))
  {
  }

  lemma FinishKeepsOneLive(rows: map<JobId, Row>, t: Ticket, outcome: Outcome, now: Time, cfg: Config)
    requires OneLive(rows) && Finished(rows, t, outcome, now, cfg).Done?
    ensures OneLive(Finished(rows, t, outcome, now, cfg).rows)
  {
    var after := Finished(rows, t, outcome, now, cfg).rows;
    forall i, j | i in after && j in after && i != j && Live(after[i]) && Live(after[j])
      ensures !Same(after[i], after[j])
    {
      if i != t.id && j != t.id { assert after[i] == rows[i] && after[j] == rows[j]; }
    }
  }

  lemma ReclaimKeepsOneLive(rows: map<JobId, Row>, now: Time, cfg: Config)
    requires OneLive(rows)
    ensures OneLive(Reclaimed(rows, now, cfg))
  {
  }

  /** The backoff list is long enough for every attempt that is retried exactly when it has an entry
      for each attempt but the last. */
  lemma BackoffIsLongEnoughExactly(cfg: Config)
    requires cfg.maxAttempts >= 1
    ensures (forall attempts: nat :: 1 <= attempts < cfg.maxAttempts ==> Delay(cfg, attempts).Some?) <==>
            cfg.maxAttempts <= |cfg.backoff| + 1
  {
    if cfg.maxAttempts > |cfg.backoff| + 1 {
      var attempts: nat := |cfg.backoff| + 1;
      assert Delay(cfg, attempts).None?;
    }
  }

  /** What a finished job's row says: done; failed, with the error, for good or because this was the last
      attempt; or to be tried again after the delay of this attempt. */
  predicate Resolved(was: Row, row: Row, t: Ticket, outcome: Outcome, now: Time, cfg: Config) {
    match outcome
    case Success => row == was.(status := Succeeded)
    case Permanent(error) => row == was.(status := Failed, lastError := Some(error))
    case Transient(error) =>
      && row == was.(status := row.status, scheduledAt := row.scheduledAt, lastError := Some(error))
      && (t.attempts >= cfg.maxAttempts ==> row.status.Failed? && row.scheduledAt == was.scheduledAt)
      && (1 <= t.attempts < cfg.maxAttempts ==>
            row.status.Pending? && t.attempts <= |cfg.backoff|
            && row.scheduledAt == now + cfg.backoff[t.attempts - 1])
  }

  lemma FinishResolves(rows: map<JobId, Row>, t: Ticket, outcome: Outcome, now: Time, cfg: Config)
    requires Finished(rows, t, outcome, now, cfg).Done?
    ensures var after := Finished(rows, t, outcome, now, cfg).rows;
            && after.Keys == rows.Keys && (forall j <- rows :: j != t.id ==> after[j] == rows[j])
            && (t.id in rows ==> Resolved(rows[t.id], after[t.id], t, outcome, now, cfg))
  {
  }

  // ---- the table -------------------------------------------------------------------------------------

  class JobTable {
    var rows: map<JobId, Row>
    var next: JobId
    var exhausted: seq<string>

    ghost predicate Valid()
      reads this
    {
      OneLive(rows) && forall i <- rows :: i < next
    }

    constructor ()
      ensures Valid() && rows == map[] && exhausted == []
    {
      rows, next, exhausted := map[], 0, [];
    }

    /** A job type outside the contract is refused before the table is touched. */
    method Enqueue(jobType: string, subject: string, at: Time) returns (refused: bool, id: Option<JobId>)
      requires Valid()
      modifies this`rows, this`next
      ensures Valid()
      ensures refused <==> jobType !in JOB_TYPES
      ensures rows == if refused then old(rows) else Enqueued(old(rows), old(next), jobType, subject, at)
      ensures id.Some? <==> !refused && !HasLive(old(rows), jobType, subject)
      ensures id.None? && !refused ==>
                exists i <- rows :: rows[i].jobType == jobType && rows[i].subject == subject
                                    && (rows[i].status.Pending? || rows[i].status.Running?)
      ensures id.Some? ==> id.value !in old(rows) && HasLive(rows, jobType, subject)
                           && rows == old(rows)[id.value := Row(jobType, subject, Pending, 0, at, None, None)]
    {
      refused, id := jobType !in JOB_TYPES, None;
      if refused || HasLive(rows, jobType, subject) {
        return;
      }
      EnqueueKeepsOneLive(rows, next, jobType, subject, at);
      rows := rows[next := Row(jobType, subject, Pending, 0, at, None, None)];
      id := Some(next);
      next := next + 1;
      assert id.value in rows && Live(rows[id.value]);
    }

    /** The oldest due job of the given types that no other transaction has locked. */
    method OldestDue(types: set<string>, now: Time, locked: set<JobId>) returns (id: Option<JobId>)
      ensures id.Some? ==> id.value in rows && Due(rows[id.value], now) && rows[id.value].jobType in types
                           && id.value !in locked
      ensures forall j <- rows :: Due(rows[j], now) && rows[j].jobType in types && j !in locked ==>
                id.Some? && rows[id.value].scheduledAt <= rows[j].scheduledAt
    {
      id := None;
      var left := rows.Keys;
      while left != {}
        invariant left <= rows.Keys
        invariant id.Some? ==> id.value in rows && Due(rows[id.value], now) && rows[id.value].jobType in types
                               && id.value !in locked
        invariant forall j <- rows :: j !in left && Due(rows[j], now) && rows[j].jobType in types && j !in locked ==>
                    id.Some? && rows[id.value].scheduledAt <= rows[j].scheduledAt
        decreases |left|
      {
        var j :| j in left;
        if Due(rows[j], now) && rows[j].jobType in types && j !in locked
           && (id.None? || rows[j].scheduledAt < rows[id.value].scheduledAt) {
          id := Some(j);
        }
        left := left - {j};
      }
    }

    method ClaimJob(types: set<string>, now: Time, locked: set<JobId>) returns (t: Option<Ticket>)
      requires Valid()
      modifies this`rows
      ensures Valid()
      ensures t.None? ==> rows == old(rows)
                          && forall j <- rows :: Due(rows[j], now) && rows[j].jobType in types ==> j in locked
      ensures t.None? ==> forall j <- rows :: rows[j].status.Pending? && rows[j].jobType in types && j !in locked ==>
                            now < rows[j].scheduledAt
      ensures t.Some? ==> t.value.id in old(rows) && t.value.id !in locked && Due(old(rows)[t.value.id], now)
                          && t.value.jobType in types
                          && rows == Claimed(old(rows), t.value.id, now) && t.value == TicketOf(rows, t.value.id)
      ensures t.Some? ==>
                var was, row := old(rows)[t.value.id], rows[t.value.id];
                && was.status.Pending? && was.scheduledAt <= now && row.status.Running? && row.lockedAt == Some(now)
                && row.attempts == t.value.attempts == was.attempts + 1
                && row.jobType == t.value.jobType == was.jobType && row.subject == t.value.subject == was.subject
                && rows == old(rows)[t.value.id := row]
      ensures t.Some? ==> forall j <- old(rows) ::
                            Due(old(rows)[j], now) && old(rows)[j].jobType in types && j !in locked ==>
                              old(rows)[t.value.id].scheduledAt <= old(rows)[j].scheduledAt
    {
      var id := OldestDue(types, now, locked);
      if id.None? {
        return None;
      }
      rows := Claimed(rows, id.value, now);
      t := Some(TicketOf(rows, id.value));
    }

    /** Nothing is committed when the backoff list is too short or the index refuses the row. */
    method FinishJob(t: Ticket, outcome: Outcome, now: Time, cfg: Config) returns (committed: bool)
      requires Valid()
      modifies this`rows, this`exhausted
      ensures Valid()
      ensures var f := Finished(old(rows), t, outcome, now, cfg);
              && committed == f.Done?
              && rows == (if f.Done? then f.rows else old(rows))
              && exhausted == (if f.Done? && f.exhausted then old(exhausted) + [t.subject] else old(exhausted))
      ensures committed && t.id in old(rows) ==> Resolved(old(rows)[t.id], rows[t.id], t, outcome, now, cfg)
      ensures rows.Keys == old(rows).Keys && forall j <- rows :: j != t.id || !committed ==> rows[j] == old(rows)[j]
    {
      if Finished(rows, t, outcome, now, cfg).Done? { FinishResolves(rows, t, outcome, now, cfg); }
      if Finished(rows, t, outcome, now, cfg).Done? { FinishKeepsOneLive(rows, t, outcome, now, cfg); }
      if outcome.Success? {
        rows := MarkSucceeded(rows, t.id);
        return true;
      }
      if outcome.Permanent? {
        rows := MarkFailed(rows, t.id, outcome.error);
        return true;
      }
      if t.attempts >= cfg.maxAttempts {
        rows := MarkFailed(rows, t.id, outcome.error);
        exhausted := exhausted + [t.subject];
        return true;
      }
      var delay := Delay(cfg, t.attempts);
      if delay.None? || Collides(rows, t.id) {
        return false;
      }
      rows := Rescheduled(rows, t.id, now + delay.value, outcome.error);
      committed := true;
    }

    method ReclaimStale(now: Time, cfg: Config) returns (count: nat)
      requires Valid()
      modifies this`rows
      ensures Valid() && rows == Reclaimed(old(rows), now, cfg)
      ensures count == |set i <- old(rows) | Stale(old(rows)[i], now, cfg)|
      ensures rows.Keys == old(rows).Keys
      ensures forall i <- rows ::
                var was := old(rows)[i];
                if was.status.Running? && was.lockedAt.Some? && now - was.lockedAt.value > cfg.lockTimeout
                then rows[i] == was.(status := Pending, lockedAt := None) else rows[i] == was
    {
      ReclaimKeepsOneLive(rows, now, cfg);
      count := |set i <- rows | Stale(rows[i], now, cfg)|;
      rows := Reclaimed(rows, now, cfg);
    }
  }
}
