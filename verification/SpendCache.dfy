/** Evaluation threads sharing an on-disk cache, key locks and a spend guard, step by step. */
module SpendCache {

  type Key = string
  type Answer = string

  /** Where a thread stands in one `complete()`: before its first look at the disk, behind a miss, holding
      the key's lock, past the spend check with the call under way, or with the answer in hand. */
  datatype Thread =
    | Idle
    | Waiting(key: Key)
    | Entered(key: Key)
    | Missed(key: Key)
    | Calling(key: Key)
    | Answered(key: Key, answer: Answer, cost: nat)
    | Recorded(key: Key, answer: Answer)

  datatype Result = Result(key: Key, answer: Answer, cached: bool)

  /** `disk` holds the entries that read back as recorded; `writes` counts the entries written in this
      run; `passed` says whether any spend check has passed. */
  datatype World = World(threads: seq<Thread>, disk: map<Key, Answer>, results: seq<Result>, writes: map<Key, nat>,
                         live: nat, passed: bool)

  /** Month spend, the cap, and the most one call costs, in the smallest unit of money. */
  datatype Budget = Budget(month: nat, cap: nat, most: nat)

  datatype Action =
    | Look(t: nat, key: Key)               // first look at the disk
    | Lock(t: nat)
    | LookAgain(t: nat)                    // second look, under the lock
    | Check(t: nat)
    | Return(t: nat, answer: Answer, cost: nat)
    | CallFails(t: nat)
    | Record(t: nat)
    | Write(t: nat)
    | WriteFails(t: nat)

  predicate HoldsLock(x: Thread) {
    !x.Idle? && !x.Waiting?
  }

  /** The key's lock is free. */
  predicate Free(w: World, key: Key) {
    forall u :: 0 <= u < |w.threads| && HoldsLock(w.threads[u]) ==> w.threads[u].key != key
  }

  predicate Enabled(w: World, a: Action, b: Budget) {
    && a.t < |w.threads|
    && var x := w.threads[a.t];
       match a
       case Look(_, _) => x.Idle?
       case Lock(_) => x.Waiting? && Free(w, x.key)
       case LookAgain(_) => x.Entered?
       case Check(_) => x.Missed?
       case Return(_, _, cost) => x.Calling? && cost <= b.most
       case CallFails(_) => x.Calling?
       case Record(_) => x.Answered?
       case Write(_) => x.Recorded?
       case WriteFails(_) => x.Recorded?
  }

  function Put(w: World, t: nat, x: Thread): World
    requires t < |w.threads|
  {
    w.(threads := w.threads[t := x])
  }

  function Writes(w: World, key: Key): nat {
    if key in w.writes then w.writes[key] else 0
  }

  function Step(w: World, a: Action, b: Budget): World
    requires Enabled(w, a, b)
  {
    var x := w.threads[a.t];
    match a
    case Look(t, key) =>
      if key in w.disk then w.(results := w.results + [Result(key, w.disk[key], true)])
      else Put(w, t, Waiting(key))
    case Lock(t) => Put(w, t, Entered(x.key))
    case LookAgain(t) =>
      if x.key in w.disk then Put(w, t, Idle).(results := w.results + [Result(x.key, w.disk[x.key], true)])
      else Put(w, t, Missed(x.key))
    case Check(t) =>
      if b.month + w.live >= b.cap then Put(w, t, Idle) else Put(w, t, Calling(x.key)).(passed := true)
    case Return(t, answer, cost) => Put(w, t, Answered(x.key, answer, cost))
    case CallFails(t) => Put(w, t, Idle)
    case Record(t) => Put(w, t, Recorded(x.key, x.answer)).(live := w.live + x.cost)
    case Write(t) =>
      Put(w, t, Idle).(disk := w.disk[x.key := x.answer], results := w.results + [Result(x.key, x.answer, false)],
                       writes := w.writes[x.key := Writes(w, x.key) + 1])
    case WriteFails(t) => Put(w, t, Idle)
  }

  predicate Legal(w: World, actions: seq<Action>, b: Budget)
    decreases |actions|
  {
    actions == [] || (Enabled(w, actions[0], b) && Legal(Step(w, actions[0], b), actions[1..], b))
  }

  function Run(w: World, actions: seq<Action>, b: Budget): World
    requires Legal(w, actions, b)
    decreases |actions|
  {
    if actions == [] then w else Run(Step(w, actions[0], b), actions[1..], b)
  }

  /** Any number of idle threads over any disk. */
  function Start(threads: nat, disk: map<Key, Answer>): World {
    World(seq(threads, _ => Idle), disk, [], map[], 0, false)
  }

  // ---- the spend bound ------------------------------------------------------------------------------

  predicate InFlight(x: Thread) {
    x.Calling? || x.Answered?
  }

  function Flights(threads: seq<Thread>): nat {
    if threads == [] then 0
    else Flights(threads[..|threads| - 1]) + if InFlight(threads[|threads| - 1]) then 1 else 0
  }

  lemma {:induction false} FlightsUpdate(threads: seq<Thread>, t: nat, x: Thread)
    requires t < |threads|
    ensures Flights(threads[t := x]) ==
            Flights(threads) - (if InFlight(threads[t]) then 1 else 0) + (if InFlight(x) then 1 else 0)
  {
    var front := threads[..|threads| - 1];
    if t < |threads| - 1 {
      FlightsUpdate(front, t, x);
      assert threads[t := x][..|threads| - 1] == front[t := x];
    } else {
      assert threads[t := x][..|threads| - 1] == front;
    }
  }

  lemma {:induction false} FlightsAtMost(threads: seq<Thread>)
    ensures Flights(threads) <= |threads|
  {
    if threads != [] { FlightsAtMost(threads[..|threads| - 1]); }
  }

  /** What is spent, with every call under way counted at the most it can cost. */
  function Exposure(w: World, b: Budget): nat {
    b.month + w.live + Flights(w.threads) * b.most
  }

  ghost predicate Bounded(w: World, b: Budget) {
    && (w.passed ==> Exposure(w, b) < b.cap + |w.threads| * b.most)
    && (!w.passed ==> w.live == 0 && Flights(w.threads) == 0)
    && forall t {:trigger w.threads[t]} ::
         0 <= t < |w.threads| && w.threads[t].Answered? ==> w.threads[t].cost <= b.most
  }

  lemma MoreFlights(n: nat, m: nat, most: nat)
    requires n <= m
    ensures n * most <= m * most
  {
  }

  lemma OneFlight(n: nat, most: nat)
    ensures (n + 1) * most == n * most + most
  {
  }

  lemma {:induction false} SomeFlight(threads: seq<Thread>, t: nat)
    requires t < |threads| && InFlight(threads[t])
    ensures Flights(threads) > 0
  {
    if t < |threads| - 1 { SomeFlight(threads[..|threads| - 1], t); }
  }

  lemma StepIsBounded(w: World, a: Action, b: Budget)
    requires Bounded(w, b) && Enabled(w, a, b)
    ensures Bounded(Step(w, a, b), b)
  {
    var v := Step(w, a, b);
    var x := w.threads[a.t];
    FlightsUpdate(w.threads, a.t, v.threads[a.t]);
    assert v.threads == w.threads[a.t := v.threads[a.t]];
    FlightsAtMost(v.threads);
    if InFlight(x) { SomeFlight(w.threads, a.t); }
    match a
    case Check(t) => MoreFlights(Flights(v.threads), |v.threads|, b.most);
    case Record(t) => OneFlight(Flights(v.threads), b.most);
    case CallFails(t) => OneFlight(Flights(v.threads), b.most);
    case _ =>
  }

  /** In every interleaving: once a check has passed, what has been recorded never reaches the cap by
      more than one call for each thread; before that nothing has been spent. */
  lemma {:induction false} SpendStaysBounded(w: World, actions: seq<Action>, b: Budget)
    requires Bounded(w, b) && Legal(w, actions, b)
    ensures var v := Run(w, actions, b);
            && Bounded(v, b)
            && (v.passed ==> b.month + v.live < b.cap + |v.threads| * b.most)
            && (!v.passed ==> v.live == 0)
    decreases |actions|
  {
    if actions != [] {
      StepIsBounded(w, actions[0], b);
      SpendStaysBounded(Step(w, actions[0], b), actions[1..], b);
    }
  }

  // ---- single flight -----------------------------------------------------------------------------------

  /** Past the second look, nothing has been written under the key. */
  predicate PastLook(x: Thread) {
    x.Missed? || x.Calling? || x.Answered? || x.Recorded?
  }

  ghost predicate Single(w: World, first: map<Key, Answer>) {
    && (forall t, u {:trigger w.threads[t], w.threads[u]} ::
          0 <= t < u < |w.threads| && HoldsLock(w.threads[t]) && HoldsLock(w.threads[u]) ==>
            w.threads[t].key != w.threads[u].key)
    && (forall t {:trigger w.threads[t]} ::
          0 <= t < |w.threads| && PastLook(w.threads[t]) ==> w.threads[t].key !in w.disk)
    && (forall r <- w.results :: r.key in w.disk && w.disk[r.key] == r.answer)
    && (forall k <- first :: k in w.disk && w.disk[k] == first[k])
    && (forall k :: Writes(w, k) == if k in w.disk && k !in first then 1 else 0)
  }

  lemma StepIsSingle(w: World, a: Action, b: Budget, first: map<Key, Answer>)
    requires Single(w, first) && Enabled(w, a, b)
    ensures Single(Step(w, a, b), first)
  {
    match a
    case Write(t) => WriteIsSingle(w, t, b, first);
    case Lock(t) => LockIsSingle(w, t, b, first);
    case Look(t, key) => LookIsSingle(w, t, key, b, first);
    case LookAgain(t) => LookAgainIsSingle(w, t, b, first);
    case _ => MoveIsSingle(w, a, b, first);
  }

  lemma LockIsSingle(w: World, t: nat, b: Budget, first: map<Key, Answer>)
    requires Single(w, first) && Enabled(w, Lock(t), b)
    ensures Single(Step(w, Lock(t), b), first)
  {
  }

  lemma LookIsSingle(w: World, t: nat, key: Key, b: Budget, first: map<Key, Answer>)
    requires Single(w, first) && Enabled(w, Look(t, key), b)
    ensures Single(Step(w, Look(t, key), b), first)
  {
  }

  lemma LookAgainIsSingle(w: World, t: nat, b: Budget, first: map<Key, Answer>)
    requires Single(w, first) && Enabled(w, LookAgain(t), b)
    ensures Single(Step(w, LookAgain(t), b), first)
  {
  }

  lemma MoveIsSingle(w: World, a: Action, b: Budget, first: map<Key, Answer>)
    requires Single(w, first) && Enabled(w, a, b) && !a.Write? && !a.Look? && !a.LookAgain? && !a.Lock?
    ensures Single(Step(w, a, b), first)
  {
    var v := Step(w, a, b);
    assert v.disk == w.disk && v.results == w.results && v.writes == w.writes;
  }

  lemma WriteIsSingle(w: World, t: nat, b: Budget, first: map<Key, Answer>)
    requires Single(w, first) && Enabled(w, Write(t), b)
    ensures Single(Step(w, Write(t), b), first)
  {
    forall u: nat | u < |w.threads| && u != t && HoldsLock(w.threads[u]) ensures w.threads[u].key != w.threads[t].key {
      assert t < u || u < t;
    }
  }

  /** In every interleaving: all results for one key carry the same answer, the one on disk; at most one
      live call's entry is written for a key, and none for a key that was there before; calls for one
      key are never under way together. */
  lemma {:induction false} OneAnswerForEachKey(w: World, actions: seq<Action>, b: Budget, first: map<Key, Answer>)
    requires Single(w, first) && Legal(w, actions, b)
    ensures var v := Run(w, actions, b);
            && Single(v, first)
            && (forall i, j :: 0 <= i < |v.results| && 0 <= j < |v.results| && v.results[i].key == v.results[j].key ==>
                  v.results[i].answer == v.results[j].answer)
            && (forall k :: Writes(v, k) <= 1)
            && (forall t, u :: 0 <= t < u < |v.threads| && InFlight(v.threads[t]) && InFlight(v.threads[u]) ==>
                  v.threads[t].key != v.threads[u].key)
    decreases |actions|
  {
    if actions != [] {
      StepIsSingle(w, actions[0], b, first);
      OneAnswerForEachKey(Step(w, actions[0], b), actions[1..], b, first);
    }
  }

  lemma {:induction false} IdleThreads(n: nat)
    ensures Flights(seq(n, _ => Idle)) == 0
  {
    if n > 0 {
      IdleThreads(n - 1);
      assert seq(n, _ => Idle)[..n - 1] == seq(n - 1, _ => Idle);
    }
  }

  lemma StartIsFit(threads: nat, disk: map<Key, Answer>, b: Budget)
    ensures Bounded(Start(threads, disk), b) && Single(Start(threads, disk), disk)
  {
    IdleThreads(threads);
  }

  // ---- what was spent, read off the actions alone ---------------------------------------------------------

  /** What thread `t`'s last answer cost. */
  function LastCost(actions: seq<Action>, t: nat): nat {
    if actions == [] then 0
    else
      var a := actions[|actions| - 1];
      if a.Return? && a.t == t then a.cost else LastCost(actions[..|actions| - 1], t)
  }

  /** The costs of the answers that were recorded. */
  function Paid(actions: seq<Action>): nat {
    if actions == [] then 0
    else
      var before, a := actions[..|actions| - 1], actions[|actions| - 1];
      Paid(before) + if a.Record? then LastCost(before, a.t) else 0
  }

  lemma {:induction false} RunMore(w: World, actions: seq<Action>, b: Budget)
    requires actions != [] && Legal(w, actions, b)
    ensures var before, a := actions[..|actions| - 1], actions[|actions| - 1];
            && Legal(w, before, b) && Enabled(Run(w, before, b), a, b)
            && Run(w, actions, b) == Step(Run(w, before, b), a, b)
    decreases |actions|
  {
    var before := actions[..|actions| - 1];
    if |actions| > 1 {
      RunMore(Step(w, actions[0], b), actions[1..], b);
      assert actions[1..][..|actions| - 2] == before[1..];
    } else {
      assert actions[1..] == [] && before == [];
    }
  }

  /** Over every run from the start: live spend is exactly what was paid, and a thread with an answer in hand
      holds the cost of its last call. */
  lemma {:induction false} LiveIsPaid(threads: nat, disk: map<Key, Answer>, actions: seq<Action>, b: Budget)
    requires Legal(Start(threads, disk), actions, b)
    ensures var w := Run(Start(threads, disk), actions, b);
            && w.live == Paid(actions) && |w.threads| == threads
            && forall t {:trigger w.threads[t]} ::
                 0 <= t < |w.threads| && w.threads[t].Answered? ==> w.threads[t].cost == LastCost(actions, t)
    decreases |actions|
  {
    if actions != [] {
      RunMore(Start(threads, disk), actions, b);
      LiveIsPaid(threads, disk, actions[..|actions| - 1], b);
    }
  }

  /** The bound in terms of what was paid: once a check has passed, it is below the cap plus one call for each
      thread; before that it is nothing. */
  lemma PaidStaysBounded(threads: nat, disk: map<Key, Answer>, actions: seq<Action>, b: Budget)
    requires Legal(Start(threads, disk), actions, b)
    ensures var w := Run(Start(threads, disk), actions, b);
            if w.passed then b.month + Paid(actions) < b.cap + threads * b.most else Paid(actions) == 0
  {
    StartIsFit(threads, disk, b);
    LiveIsPaid(threads, disk, actions, b);
    SpendStaysBounded(Start(threads, disk), actions, b);
  }

  /** At any point of any run a check sends its thread home exactly when the month's spend and what was paid
      have reached the cap, and lets it call otherwise. */
  lemma CheckRefusesExactly(threads: nat, disk: map<Key, Answer>, actions: seq<Action>, b: Budget, t: nat)
    requires Legal(Start(threads, disk), actions, b)
    requires Enabled(Run(Start(threads, disk), actions, b), Check(t), b)
    ensures var w := Run(Start(threads, disk), actions, b);
            var x := Step(w, Check(t), b).threads[t];
            if b.month + Paid(actions) >= b.cap then x == Idle else x == Calling(w.threads[t].key)
  {
    LiveIsPaid(threads, disk, actions, b);
  }

  // ---- what a thread gets ----------------------------------------------------------------------------------

  /** An entry on disk is served at either look, without a call; a written one is on disk and served; a miss goes
      on towards a call, and a refused, failed or unwritten one ends with no result. */
  lemma ThreadsAreServed(w: World, a: Action, b: Budget)
    requires Enabled(w, a, b)
    ensures var v, x := Step(w, a, b), w.threads[a.t];
            && (a.Look? && a.key in w.disk ==>
                 v.threads == w.threads && v.results == w.results + [Result(a.key, w.disk[a.key], true)])
            && (a.Look? && a.key !in w.disk ==> v.threads[a.t] == Waiting(a.key) && v.results == w.results)
            && (a.LookAgain? && x.key in w.disk ==>
                 v.threads[a.t].Idle? && v.results == w.results + [Result(x.key, w.disk[x.key], true)])
            && (a.LookAgain? && x.key !in w.disk ==> v.threads[a.t] == Missed(x.key) && v.results == w.results)
            && (a.Write? ==> && v.threads[a.t].Idle? && v.disk == w.disk[x.key := x.answer]
                             && v.results == w.results + [Result(x.key, x.answer, false)])
            && (a.CallFails? || a.WriteFails? ==> v.threads[a.t].Idle? && v.results == w.results && v.disk == w.disk)
  {
  }

  // ---- results --------------------------------------------------------------------------------------------

  /** Results for a key that were measured live. */
  function Measured(results: seq<Result>, key: Key): nat {
    if results == [] then 0
    else
      var r := results[|results| - 1];
      Measured(results[..|results| - 1], key) + if r.key == key && !r.cached then 1 else 0
  }

  lemma MeasuredMore(results: seq<Result>, r: Result, key: Key)
    ensures Measured(results + [r], key) == Measured(results, key) + if r.key == key && !r.cached then 1 else 0
  {
    assert (results + [r])[..|results|] == results;
  }

  lemma MeasuredStep(w: World, a: Action, b: Budget, key: Key)
    requires Enabled(w, a, b) && Measured(w.results, key) == Writes(w, key)
    ensures Measured(Step(w, a, b).results, key) == Writes(Step(w, a, b), key)
  {
    var v := Step(w, a, b);
    if v.results != w.results {
      var r := v.results[|v.results| - 1];
      assert v.results == w.results + [r];
      MeasuredMore(w.results, r, key);
    }
  }

  /** Every live result is an entry written, and every entry written a live result: at most one of a key. */
  lemma {:induction false} MeasuredOncePerKey(threads: nat, disk: map<Key, Answer>, actions: seq<Action>, b: Budget,
                                              key: Key)
    requires Legal(Start(threads, disk), actions, b)
    ensures var w := Run(Start(threads, disk), actions, b);
            Measured(w.results, key) == Writes(w, key) == if key in w.disk && key !in disk then 1 else 0
    decreases |actions|
  {
    StartIsFit(threads, disk, b);
    OneAnswerForEachKey(Start(threads, disk), actions, b, disk);
    if actions != [] {
      RunMore(Start(threads, disk), actions, b);
      var before := actions[..|actions| - 1];
      MeasuredOncePerKey(threads, disk, before, b, key);
      MeasuredStep(Run(Start(threads, disk), before, b), actions[|actions| - 1], b, key);
    }
  }
}
