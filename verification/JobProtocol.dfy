/** Several workers over one queue: every interleaving of their commits, crashes included. */
module JobProtocol {
  import opened Common
  import opened Jobs

  const PIPELINE := "pipeline"
  const PINNED := "receipt columns are pinned once set"

  /** Between two commits a worker is here. */
  datatype Worker =
    | Idle
    | Holding(t: Ticket)                                        // claimed, handler not begun
    | Working(t: Ticket, unreceipted: bool)                     // what the handler read of its intake row
    | Failing(t: Ticket, outcome: Outcome)                      // handler failed, job not finished
    | Asking(jobType: string, subject: string, delay: int)      // succeeded, wants a follow-up

  /** `receipts` counts the receipt writes of each intake row; `refusals` the writes the unique index
      or the receipt pins refused; `mishaps` the finishes that ran off the backoff list. */
  datatype World = World(rows: map<JobId, Row>, next: JobId, now: Time, workers: seq<Worker>,
                         receipts: map<string, nat>, refusals: nat, mishaps: nat)

  datatype Action =
    | Enqueue(jobType: string, subject: string, at: Time)
    | Claim(k: nat, id: JobId)
    | Read(k: nat)
    | Succeed(k: nat, followUp: Option<int>)
    | RejectRow(k: nat, error: string)      // a permanent failure of the pipeline writes its receipt first
    | Fail(k: nat, outcome: Outcome)
    | Finish(k: nat)
    | Ask(k: nat)
    | Reclaim
    | Crash(k: nat)
    | Tick(dt: Time)

  function Receipts(w: World, subject: string): nat {
    if subject in w.receipts then w.receipts[subject] else 0
  }

  function Put(w: World, k: nat, x: Worker): World
    requires k < |w.workers|
  {
    w.(workers := w.workers[k := x])
  }

  function Held(x: Worker): Option<Ticket> {
    if x.Holding? || x.Working? || x.Failing? then Some(x.t) else None
  }

  /** A claim takes any due pending row: older ones may be locked by other transactions. */
  predicate Enabled(w: World, a: Action) {
    match a
    case Enqueue(_, _, _) => true
    case Claim(k, id) => k < |w.workers| && w.workers[k].Idle? && id in w.rows && Due(w.rows[id], w.now)
    case Read(k) => k < |w.workers| && w.workers[k].Holding?
    case Succeed(k, _) => k < |w.workers| && w.workers[k].Working?
    case RejectRow(k, _) =>
      k < |w.workers| && w.workers[k].Working? && w.workers[k].t.jobType == PIPELINE && w.workers[k].unreceipted
    case Fail(k, outcome) => k < |w.workers| && w.workers[k].Working? && !outcome.Success?
    case Finish(k) => k < |w.workers| && w.workers[k].Failing?
    case Ask(k) => k < |w.workers| && w.workers[k].Asking?
    case Reclaim => true
    case Crash(k) => k < |w.workers|
    case Tick(dt) => dt >= 0
  }

  /** The handler's receipt is due in the commit it works towards. */
  predicate WritesReceipt(x: Worker) {
    x.Working? && x.t.jobType == PIPELINE && x.unreceipted
  }

  function AddReceipt(w: World, subject: string): World {
    w.(receipts := w.receipts[subject := Receipts(w, subject) + 1])
  }

  function Step(w: World, a: Action, cfg: Config): World
    requires Enabled(w, a)
  {
    match a
    case Enqueue(jobType, subject, at) =>
      w.(rows := Enqueued(w.rows, w.next, jobType, subject, at), next := w.next + 1)
    case Claim(k, id) =>
      var rows := Claimed(w.rows, id, w.now);
      Put(w, k, Holding(TicketOf(rows, id))).(rows := rows)
    case Read(k) => Put(w, k, Working(w.workers[k].t, Receipts(w, w.workers[k].t.subject) == 0))
    case Succeed(k, followUp) =>
      var x := w.workers[k];
      if WritesReceipt(x) && Receipts(w, x.t.subject) > 0 then
        Put(w, k, Failing(x.t, Transient(PINNED))).(refusals := w.refusals + 1)
      else
        var v := if WritesReceipt(x) then AddReceipt(w, x.t.subject) else w;
        var after := if followUp.Some? then Asking(x.t.jobType, x.t.subject, followUp.value) else Idle;
        Put(v, k, after).(rows := MarkSucceeded(w.rows, x.t.id))
    case RejectRow(k, error) =>
      var x := w.workers[k];
      if Receipts(w, x.t.subject) > 0 then Put(w, k, Failing(x.t, Transient(PINNED))).(refusals := w.refusals + 1)
      else Put(AddReceipt(w, x.t.subject), k, Failing(x.t, Permanent(error)))
    case Fail(k, outcome) => Put(w, k, Failing(w.workers[k].t, outcome))
    case Finish(k) =>
      var f := Finished(w.rows, w.workers[k].t, w.workers[k].outcome, w.now, cfg);
      var v := Put(w, k, Idle);
      if f.Done? then v.(rows := f.rows)
      else if f.IndexRejects? then v.(refusals := w.refusals + 1)
      else v.(mishaps := w.mishaps + 1)
    case Ask(k) =>
      var x := w.workers[k];
      Put(w, k, Idle).(rows := Enqueued(w.rows, w.next, x.jobType, x.subject, w.now + x.delay), next := w.next + 1)
    case Reclaim => w.(rows := Reclaimed(w.rows, w.now, cfg))
    case Crash(k) => Put(w, k, Idle)
    case Tick(dt) => w.(now := w.now + dt)
  }

  function Run(w: World, actions: seq<Action>, cfg: Config): World
    requires Legal(w, actions, cfg)
    decreases |actions|
  {
    if actions == [] then w else Run(Step(w, actions[0], cfg), actions[1..], cfg)
  }

  predicate Legal(w: World, actions: seq<Action>, cfg: Config)
    decreases |actions|
  {
    actions == [] || (Enabled(w, actions[0]) && Legal(Step(w, actions[0], cfg), actions[1..], cfg))
  }

  function Start(workers: nat): World {
    World(map[], 0, 0, seq(workers, _ => Idle), map[], 0, 0)
  }

  // ---- what the index and the pins keep, whatever happens ------------------------------------------

  ghost predicate Sane(w: World) {
    && OneLive(w.rows)
    && (forall i <- w.rows :: i < w.next)
    && (forall s <- w.receipts :: w.receipts[s] <= 1)
  }

  lemma StepKeepsSane(w: World, a: Action, cfg: Config)
    requires Sane(w) && Enabled(w, a)
    ensures Sane(Step(w, a, cfg))
  {
    match a
    case Enqueue(jobType, subject, at) => EnqueueKeepsOneLive(w.rows, w.next, jobType, subject, at);
    case Finish(k) =>
      if Finished(w.rows, w.workers[k].t, w.workers[k].outcome, w.now, cfg).Done? {
        FinishKeepsOneLive(w.rows, w.workers[k].t, w.workers[k].outcome, w.now, cfg);
      }
    case Ask(k) =>
      EnqueueKeepsOneLive(w.rows, w.next, w.workers[k].jobType, w.workers[k].subject, w.now + w.workers[k].delay);
    case Reclaim => ReclaimKeepsOneLive(w.rows, w.now, cfg);
    case _ =>
  }

  /** In every run, crashes and untimely reclaims included: one live job for each type and subject, and
      no intake row receipted twice. */
  lemma {:induction false} AlwaysSane(w: World, actions: seq<Action>, cfg: Config)
    requires Sane(w) && Legal(w, actions, cfg)
    ensures Sane(Run(w, actions, cfg))
    decreases |actions|
  {
    if actions != [] {
      StepKeepsSane(w, actions[0], cfg);
      AlwaysSane(Step(w, actions[0], cfg), actions[1..], cfg);
    }
  }

  // ---- runs in which no job is reclaimed while its worker still runs it -------------------------------

  /** No stale running row is still in a worker's hands. */
  ghost predicate Timely(w: World, a: Action, cfg: Config) {
    a.Reclaim? ==>
      forall k :: 0 <= k < |w.workers| && Held(w.workers[k]).Some? && Held(w.workers[k]).value.id in w.rows ==>
        !Stale(w.rows[Held(w.workers[k]).value.id], w.now, cfg)
  }

  ghost predicate AllTimely(w: World, actions: seq<Action>, cfg: Config)
    requires Legal(w, actions, cfg)
    decreases |actions|
  {
    actions == [] || (Timely(w, actions[0], cfg) && AllTimely(Step(w, actions[0], cfg), actions[1..], cfg))
  }

  /** A ticket in hand is the running row it was made from. */
  ghost predicate Mine(w: World, t: Ticket) {
    && t.id in w.rows && w.rows[t.id].status.Running? && t.attempts >= 1
    && w.rows[t.id].jobType == t.jobType && w.rows[t.id].subject == t.subject
  }

  ghost predicate Orderly(w: World) {
    && Sane(w)
    && (forall k {:trigger w.workers[k]} :: 0 <= k < |w.workers| && Held(w.workers[k]).Some? ==>
          Mine(w, Held(w.workers[k]).value))
    && (forall k, l {:trigger w.workers[k], w.workers[l]} ::
          0 <= k < l < |w.workers| && Held(w.workers[k]).Some? && Held(w.workers[l]).Some? ==>
            Held(w.workers[k]).value.id != Held(w.workers[l]).value.id)
    && (forall k {:trigger w.workers[k]} :: 0 <= k < |w.workers| && WritesReceipt(w.workers[k]) ==>
          Receipts(w, w.workers[k].t.subject) == 0)
    && w.refusals == 0
  }

  /** Two workers never have the same subject in hand. */
  lemma HandsAreApart(w: World, k: nat, l: nat)
    requires Orderly(w) && k < |w.workers| && l < |w.workers| && k != l
    requires Held(w.workers[k]).Some? && Held(w.workers[l]).Some?
    ensures var a, b := Held(w.workers[k]).value, Held(w.workers[l]).value;
            a.id != b.id && (a.jobType != b.jobType || a.subject != b.subject)
  {
    var a, b := Held(w.workers[k]).value, Held(w.workers[l]).value;
    assert Mine(w, a) && Mine(w, b);
    assert a.id != b.id by {
      if k < l { assert w.workers[k] == w.workers[k]; } else { assert w.workers[l] == w.workers[l]; }
    }
  }

  /** One step keeps the order, as long as no job is reclaimed under its worker. */
  lemma StepIsOrderly(w: World, a: Action, cfg: Config)
    requires Orderly(w) && Enabled(w, a) && Timely(w, a, cfg)
    ensures Orderly(Step(w, a, cfg))
  {
    StepKeepsSane(w, a, cfg);
    var v := Step(w, a, cfg);
    match a
    case Succeed(k, _) => SuccessIsOrderly(w, a.k, a.followUp, cfg);
    case RejectRow(k, error) => RejectionIsOrderly(w, k, error, cfg);
    case Finish(k) => FinishIsOrderly(w, k, cfg);
    case Claim(k, id) => ClaimIsOrderly(w, k, id, cfg);
    case Reclaim => ReclaimIsOrderly(w, cfg);
    case _ => QuietIsOrderly(w, a, cfg);
  }

  lemma ReclaimIsOrderly(w: World, cfg: Config)
    requires Orderly(w) && Timely(w, Reclaim, cfg) && Sane(Step(w, Reclaim, cfg))
    ensures Orderly(Step(w, Reclaim, cfg))
  {
  }

  /** Steps that write to no row in hand. */
  lemma QuietIsOrderly(w: World, a: Action, cfg: Config)
    requires Orderly(w) && Enabled(w, a) && Sane(Step(w, a, cfg))
    requires a.Enqueue? || a.Read? || a.Fail? || a.Ask? || a.Crash? || a.Tick?
    ensures Orderly(Step(w, a, cfg))
  {
    if a.Enqueue? || a.Tick? { NobodyMoves(w, a, cfg); } else { OneMoves(w, a, cfg); }
  }

  lemma NobodyMoves(w: World, a: Action, cfg: Config)
    requires Orderly(w) && Enabled(w, a) && Sane(Step(w, a, cfg)) && (a.Enqueue? || a.Tick?)
    ensures Orderly(Step(w, a, cfg))
  {
  }

  lemma OneMoves(w: World, a: Action, cfg: Config)
    requires Orderly(w) && Enabled(w, a) && Sane(Step(w, a, cfg)) && (a.Read? || a.Fail? || a.Ask? || a.Crash?)
    ensures Orderly(Step(w, a, cfg))
  {
  }

  lemma SuccessIsOrderly(w: World, k: nat, followUp: Option<int>, cfg: Config)
    requires Orderly(w) && Enabled(w, Succeed(k, followUp)) && Sane(Step(w, Succeed(k, followUp), cfg))
    ensures Orderly(Step(w, Succeed(k, followUp), cfg))
  {
    forall l: nat | l < |w.workers| && l != k && Held(w.workers[l]).Some?
      ensures w.workers[l].t.id != w.workers[k].t.id
      ensures w.workers[l].t.jobType == w.workers[k].t.jobType ==> w.workers[l].t.subject != w.workers[k].t.subject
    {
      HandsAreApart(w, k, l);
    }
  }

  lemma RejectionIsOrderly(w: World, k: nat, error: string, cfg: Config)
    requires Orderly(w) && Enabled(w, RejectRow(k, error)) && Sane(Step(w, RejectRow(k, error), cfg))
    ensures Orderly(Step(w, RejectRow(k, error), cfg))
  {
    forall l: nat | l < |w.workers| && l != k && Held(w.workers[l]).Some?
      ensures w.workers[l].t.id != w.workers[k].t.id
      ensures w.workers[l].t.jobType == w.workers[k].t.jobType ==> w.workers[l].t.subject != w.workers[k].t.subject
    {
      HandsAreApart(w, k, l);
    }
  }

  lemma FinishIsOrderly(w: World, k: nat, cfg: Config)
    requires Orderly(w) && Enabled(w, Finish(k)) && Sane(Step(w, Finish(k), cfg))
    ensures Orderly(Step(w, Finish(k), cfg))
  {
    var t, v := w.workers[k].t, Step(w, Finish(k), cfg);
    assert Mine(w, t);
    NothingElseIsFinished(w.rows, t, w.workers[k].outcome, w.now, cfg);
    forall l: nat | l < |w.workers| && l != k && Held(w.workers[l]).Some?
      ensures Mine(v, Held(w.workers[l]).value)
    {
      HandsAreApart(w, k, l);
      assert Mine(w, Held(w.workers[l]).value);
    }
  }

  lemma NothingElseIsFinished(rows: map<JobId, Row>, t: Ticket, outcome: Outcome, now: Time, cfg: Config)
    requires OneLive(rows) && t.id in rows && rows[t.id].status.Running?
    ensures var f := Finished(rows, t, outcome, now, cfg);
            !f.IndexRejects? && (f.Done? ==> f.rows == rows[t.id := f.rows[t.id]])
  {
    assert !Collides(rows, t.id);
  }

  lemma ClaimIsOrderly(w: World, k: nat, id: JobId, cfg: Config)
    requires Orderly(w) && Enabled(w, Claim(k, id)) && Sane(Step(w, Claim(k, id), cfg))
    ensures Orderly(Step(w, Claim(k, id), cfg))
  {
    forall l: nat | l < |w.workers| && Held(w.workers[l]).Some? ensures w.workers[l].t.id != id {
      assert Mine(w, w.workers[l].t);
    }
  }

  /** While no job is reclaimed under its worker, neither the unique index nor the receipt pins ever
      refuse a write: the protocol itself keeps one live job and one receipt. */
  lemma {:induction false} TimelyRunsAreNeverRefused(w: World, actions: seq<Action>, cfg: Config)
    requires Orderly(w) && Legal(w, actions, cfg) && AllTimely(w, actions, cfg)
    ensures Orderly(Run(w, actions, cfg))
    decreases |actions|
  {
    if actions != [] {
      StepIsOrderly(w, actions[0], cfg);
      TimelyRunsAreNeverRefused(Step(w, actions[0], cfg), actions[1..], cfg);
    }
  }

  // ---- exactly which writes are refused ------------------------------------------------------------

  /** A retry is written back for a job that others have resolved and asked for again. */
  predicate LateFinish(w: World, a: Action, cfg: Config)
    requires Enabled(w, a)
  {
    && a.Finish?
    && var t := w.workers[a.k].t;
       && w.workers[a.k].outcome.Transient? && t.attempts < cfg.maxAttempts && Delay(cfg, t.attempts).Some?
       && t.id in w.rows && !Live(w.rows[t.id]) && HasLive(w.rows, w.rows[t.id].jobType, w.rows[t.id].subject)
  }

  /** A receipt is written for a row that got one since the handler read it. */
  predicate LateReceipt(w: World, a: Action)
    requires Enabled(w, a)
  {
    && (a.RejectRow? || (a.Succeed? && WritesReceipt(w.workers[a.k])))
    && Receipts(w, w.workers[a.k].t.subject) > 0
  }

  lemma WriteIsRefusedExactly(w: World, a: Action, cfg: Config)
    requires Sane(w) && Enabled(w, a)
    ensures Step(w, a, cfg).refusals == w.refusals + if LateFinish(w, a, cfg) || LateReceipt(w, a) then 1 else 0
  {
    if a.Finish? {
      var t := w.workers[a.k].t;
      if t.id in w.rows {
        if j :| j in w.rows && j != t.id && Live(w.rows[j]) && Same(w.rows[j], w.rows[t.id]) {
          assert HasLive(w.rows, w.rows[t.id].jobType, w.rows[t.id].subject);
        }
      }
    }
  }

  function LateWrites(w: World, actions: seq<Action>, cfg: Config): nat
    requires Legal(w, actions, cfg)
    decreases |actions|
  {
    if actions == [] then 0
    else
      var late := LateFinish(w, actions[0], cfg) || LateReceipt(w, actions[0]);
      (if late then 1 else 0) + LateWrites(Step(w, actions[0], cfg), actions[1..], cfg)
  }

  /** Over any run, timely or not, the refused writes are exactly the late ones. */
  lemma {:induction false} LateWritesAreRefusedExactly(w: World, actions: seq<Action>, cfg: Config)
    requires Sane(w) && Legal(w, actions, cfg)
    ensures Run(w, actions, cfg).refusals == w.refusals + LateWrites(w, actions, cfg)
    decreases |actions|
  {
    if actions != [] {
      WriteIsRefusedExactly(w, actions[0], cfg);
      StepKeepsSane(w, actions[0], cfg);
      LateWritesAreRefusedExactly(Step(w, actions[0], cfg), actions[1..], cfg);
    }
  }

  // ---- the backoff list ----------------------------------------------------------------------------

  /** Every ticket in hand has been claimed at least once, and no finish has run off the list. */
  ghost predicate InRange(w: World) {
    && (forall k {:trigger w.workers[k]} :: 0 <= k < |w.workers| && Held(w.workers[k]).Some? ==>
          Held(w.workers[k]).value.attempts >= 1)
    && w.mishaps == 0
  }

  /** With a delay for each attempt but the last, no run indexes outside the list, whatever happens. */
  lemma {:induction false} BackoffIsAlwaysInRange(w: World, actions: seq<Action>, cfg: Config)
    requires InRange(w) && Legal(w, actions, cfg) && cfg.maxAttempts <= |cfg.backoff| + 1
    ensures InRange(Run(w, actions, cfg))
    decreases |actions|
  {
    if actions != [] {
      assert InRange(Step(w, actions[0], cfg));
      BackoffIsAlwaysInRange(Step(w, actions[0], cfg), actions[1..], cfg);
    }
  }

  // ---- what the other steps leave ------------------------------------------------------------------------

  /** A finish that is not refused resolves the worker's row, and no other; the worker is free. */
  lemma FinishLeavesItResolved(w: World, k: nat, cfg: Config)
    requires Enabled(w, Finish(k))
    ensures var v, x := Step(w, Finish(k), cfg), w.workers[k];
            && v.workers[k].Idle?
            && (v.refusals == w.refusals && v.mishaps == w.mishaps && x.t.id in w.rows ==>
                  Resolved(w.rows[x.t.id], v.rows[x.t.id], x.t, x.outcome, w.now, cfg))
            && (forall j <- w.rows :: j != x.t.id ==> j in v.rows && v.rows[j] == w.rows[j])
  {
    var f := Finished(w.rows, w.workers[k].t, w.workers[k].outcome, w.now, cfg);
    if f.Done? { FinishResolves(w.rows, w.workers[k].t, w.workers[k].outcome, w.now, cfg); }
  }

  /** After a follow-up was asked for, its subject has a live job: the new one, due after the delay, or one there
      was already. */
  lemma AskedIsQueued(w: World, k: nat, cfg: Config)
    requires Enabled(w, Ask(k)) && w.next !in w.rows
    ensures var v, x := Step(w, Ask(k), cfg), w.workers[k];
            && v.workers[k].Idle?
            && if w.next in v.rows
               then v.rows[w.next] == Row(x.jobType, x.subject, Pending, 0, w.now + x.delay, None, None)
               else v.rows == w.rows && exists i <- w.rows :: (w.rows[i].status.Pending? || w.rows[i].status.Running?)
                                          && w.rows[i].jobType == x.jobType && w.rows[i].subject == x.subject
  {
  }

  /** A job whose worker crashed stays claimed until its lock is too old; then it can be claimed again. */
  lemma CrashedIsReclaimed(w: World, id: JobId, cfg: Config)
    requires id in w.rows && w.rows[id].status.Running? && w.rows[id].lockedAt.Some?
    ensures var v := Step(w, Reclaim, cfg);
            && id in v.rows && v.workers == w.workers
            && (v.rows[id].status.Pending? <==> w.now - w.rows[id].lockedAt.value > cfg.lockTimeout)
            && (v.rows[id].status.Running? <==> w.now - w.rows[id].lockedAt.value <= cfg.lockTimeout)
  {
  }

  // ---- a pipeline job that is done has its receipt -------------------------------------------------------

  /** A worker that found its row receipted was right. */
  ghost predicate WellRead(w: World) {
    forall k {:trigger w.workers[k]} :: 0 <= k < |w.workers| && w.workers[k].Working? && !w.workers[k].unreceipted ==>
      Receipts(w, w.workers[k].t.subject) > 0
  }

  lemma {:induction false} AlwaysWellRead(w: World, actions: seq<Action>, cfg: Config)
    requires WellRead(w) && Legal(w, actions, cfg)
    ensures WellRead(Run(w, actions, cfg))
    decreases |actions|
  {
    if actions != [] {
      assert WellRead(Step(w, actions[0], cfg));
      AlwaysWellRead(Step(w, actions[0], cfg), actions[1..], cfg);
    }
  }

  /** When a worker commits the success of a pipeline job, whatever happened before, the intake row has its
      receipt, exactly one, and the job's row says so; a rejection leaves one as well. */
  lemma CommittedPipelineIsReceipted(workers: nat, actions: seq<Action>, a: Action, cfg: Config)
    requires Legal(Start(workers), actions, cfg) && Enabled(Run(Start(workers), actions, cfg), a)
    requires a.Succeed? || a.RejectRow?
    requires Run(Start(workers), actions, cfg).workers[a.k].t.jobType == PIPELINE
    ensures var w := Run(Start(workers), actions, cfg);
            var v, t := Step(w, a, cfg), w.workers[a.k].t;
            v.refusals == w.refusals ==>
              && Receipts(v, t.subject) == 1
              && (a.Succeed? && t.id in w.rows ==> v.rows[t.id].status.Succeeded?)
  {
    StartIsOrderly(workers);
    AlwaysSane(Start(workers), actions, cfg);
    AlwaysWellRead(Start(workers), actions, cfg);
    StepKeepsSane(Run(Start(workers), actions, cfg), a, cfg);
  }

  // ---- from the start --------------------------------------------------------------------------------

  lemma StartIsOrderly(workers: nat)
    ensures Orderly(Start(workers)) && InRange(Start(workers))
  {
  }

  /** Any run of any number of workers from an empty queue. */
  lemma RunsFromTheStart(workers: nat, actions: seq<Action>, cfg: Config)
    requires Legal(Start(workers), actions, cfg)
    ensures var w := Run(Start(workers), actions, cfg);
            && OneLive(w.rows) && (forall s <- w.receipts :: w.receipts[s] <= 1)
            && w.refusals == LateWrites(Start(workers), actions, cfg)
            && (AllTimely(Start(workers), actions, cfg) ==> w.refusals == 0)
            && (cfg.maxAttempts <= |cfg.backoff| + 1 ==> w.mishaps == 0)
  {
    StartIsOrderly(workers);
    AlwaysSane(Start(workers), actions, cfg);
    LateWritesAreRefusedExactly(Start(workers), actions, cfg);
    if AllTimely(Start(workers), actions, cfg) { TimelyRunsAreNeverRefused(Start(workers), actions, cfg); }
    if cfg.maxAttempts <= |cfg.backoff| + 1 { BackoffIsAlwaysInRange(Start(workers), actions, cfg); }
  }

  // ---- the untimely reclaim ----------------------------------------------------------------------------

  /** Worker 0 is still at its job when the job is reclaimed, done by worker 1 and asked for again. */
  function UntimelyRun(): seq<Action> {
    [Enqueue("pull", "m", 0)] + ([Claim(0, 0)] + ([Read(0)] + ([Tick(400)] + ([Reclaim] + Redone()))))
  }

  function Redone(): seq<Action> {
    [Claim(1, 0)] + ([Read(1)] + ([Succeed(1, None)] + AskedAgain()))
  }

  function AskedAgain(): seq<Action> {
    [Enqueue("pull", "m", 400), Fail(0, Transient("timeout")), Finish(0)]
  }

  lemma RunFirst(w: World, a: Action, rest: seq<Action>, cfg: Config)
    requires Enabled(w, a) && Legal(Step(w, a, cfg), rest, cfg)
    ensures Legal(w, [a] + rest, cfg) && Run(w, [a] + rest, cfg) == Run(Step(w, a, cfg), rest, cfg)
  {
    assert ([a] + rest)[1..] == rest;
  }

  /** The job's rows in that run: claimed and reclaimed twice, then done while worker 0 still holds its
      first ticket. */
  function PullRow(status: JobStatus, attempts: nat, at: Time, lockedAt: Option<Time>): Row {
    Row("pull", "m", status, attempts, at, lockedAt, None)
  }

  lemma SecondHalf(cfg: Config, w: World)
    requires cfg == Config(3, [10, 60, 300], 300)
    requires w == World(map[0 := PullRow(Succeeded, 2, 0, Some(400))], 1, 400,
                        [Working(Ticket(0, "pull", "m", 1), true), Idle], map[], 0, 0)
    ensures var rest := [Enqueue("pull", "m", 400), Fail(0, Transient("timeout")), Finish(0)];
            Legal(w, rest, cfg) && Run(w, rest, cfg).refusals == 1
  {
    var a := Step(w, Enqueue("pull", "m", 400), cfg);
    assert a.rows == map[0 := PullRow(Succeeded, 2, 0, Some(400)), 1 := PullRow(Pending, 0, 400, None)];
    var b := Step(a, Fail(0, Transient("timeout")), cfg);
    assert Collides(b.rows, 0) by { assert 1 in b.rows && Live(b.rows[1]) && Same(b.rows[1], b.rows[0]); }
    var c := Step(b, Finish(0), cfg);
    RunFirst(b, Finish(0), [], cfg);
    RunFirst(a, Fail(0, Transient("timeout")), [Finish(0)], cfg);
    RunFirst(w, Enqueue("pull", "m", 400), [Fail(0, Transient("timeout")), Finish(0)], cfg);
    assert [Enqueue("pull", "m", 400)] + [Fail(0, Transient("timeout")), Finish(0)] ==
        [Enqueue("pull", "m", 400), Fail(0, Transient("timeout")), Finish(0)];
    assert [Fail(0, Transient("timeout"))] + [Finish(0)] == [Fail(0, Transient("timeout")), Finish(0)];
    assert [Finish(0)] + [] == [Finish(0)];
  }

  lemma MiddlePart(cfg: Config, w: World, rest: seq<Action>)
    requires cfg == Config(3, [10, 60, 300], 300)
    requires w == World(map[0 := PullRow(Pending, 1, 0, None)], 1, 400,
                        [Working(Ticket(0, "pull", "m", 1), true), Idle], map[], 0, 0)
    requires var v := World(map[0 := PullRow(Succeeded, 2, 0, Some(400))], 1, 400,
                            [Working(Ticket(0, "pull", "m", 1), true), Idle], map[], 0, 0);
             Legal(v, rest, cfg) && Run(v, rest, cfg).refusals == 1
    ensures var all := [Claim(1, 0)] + ([Read(1)] + ([Succeed(1, None)] + rest));
            Legal(w, all, cfg) && Run(w, all, cfg).refusals == 1
  {
    var a := Step(w, Claim(1, 0), cfg);
    assert a.rows == map[0 := PullRow(Running, 2, 0, Some(400))];
    var b := Step(a, Read(1), cfg);
    assert b.workers == [Working(Ticket(0, "pull", "m", 1), true), Working(Ticket(0, "pull", "m", 2), true)];
    var c := Step(b, Succeed(1, None), cfg);
    assert c.rows == map[0 := PullRow(Succeeded, 2, 0, Some(400))];
    assert c.workers == [Working(Ticket(0, "pull", "m", 1), true), Idle];
    RunFirst(b, Succeed(1, None), rest, cfg);
    RunFirst(a, Read(1), [Succeed(1, None)] + rest, cfg);
    RunFirst(w, Claim(1, 0), [Read(1)] + ([Succeed(1, None)] + rest), cfg);
  }

  lemma FirstPart(cfg: Config, rest: seq<Action>)
    requires cfg == Config(3, [10, 60, 300], 300)
    requires var v := World(map[0 := PullRow(Pending, 1, 0, None)], 1, 400,
                            [Working(Ticket(0, "pull", "m", 1), true), Idle], map[], 0, 0);
             Legal(v, rest, cfg) && Run(v, rest, cfg).refusals == 1
    ensures var all := [Enqueue("pull", "m", 0)] + ([Claim(0, 0)] + ([Read(0)] + ([Tick(400)] + ([Reclaim] + rest))));
            Legal(Start(2), all, cfg) && Run(Start(2), all, cfg).refusals == 1
  {
    var a := Step(Start(2), Enqueue("pull", "m", 0), cfg);
    assert a.rows == map[0 := PullRow(Pending, 0, 0, None)];
    var b := Step(a, Claim(0, 0), cfg);
    assert b.rows == map[0 := PullRow(Running, 1, 0, Some(0))];
    var c := Step(b, Read(0), cfg);
    assert c.workers == [Working(Ticket(0, "pull", "m", 1), true), Idle];
    var d := Step(c, Tick(400), cfg);
    var e := Step(d, Reclaim, cfg);
    assert e.rows == map[0 := PullRow(Pending, 1, 0, None)];
    RunFirst(d, Reclaim, rest, cfg);
    RunFirst(c, Tick(400), [Reclaim] + rest, cfg);
    RunFirst(b, Read(0), [Tick(400)] + ([Reclaim] + rest), cfg);
    RunFirst(a, Claim(0, 0), [Read(0)] + ([Tick(400)] + ([Reclaim] + rest)), cfg);
    RunFirst(Start(2), Enqueue("pull", "m", 0), [Claim(0, 0)] + ([Read(0)] + ([Tick(400)] + ([Reclaim] + rest))), cfg);
  }

  /** So the condition is needed: a job reclaimed under its worker can make the index refuse a finish. */
  lemma UntimelyReclaimIsRefused(cfg: Config)
    requires cfg == Config(3, [10, 60, 300], 300)
    ensures Legal(Start(2), UntimelyRun(), cfg) && Run(Start(2), UntimelyRun(), cfg).refusals == 1
  {
    SecondHalf(cfg, World(map[0 := PullRow(Succeeded, 2, 0, Some(400))], 1, 400,
                          [Working(Ticket(0, "pull", "m", 1), true), Idle], map[], 0, 0));
    MiddlePart(cfg, World(map[0 := PullRow(Pending, 1, 0, None)], 1, 400,
                          [Working(Ticket(0, "pull", "m", 1), true), Idle], map[], 0, 0), AskedAgain());
    FirstPart(cfg, Redone());
  }
}
