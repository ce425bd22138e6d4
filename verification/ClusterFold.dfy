/** The offline cluster fold: a sorted stream, one open cluster per key, three ceilings. */
module ClusterFold {
  import opened Common
  import opened Store

  datatype Alert = Alert(time: Time, id: string, key: ClusterKey)

  datatype Ceilings = Ceilings(idleGap: Time, maxAge: Time, maxSize: int)

  datatype Reason = IdleGap | MaxAge | MaxSize

  datatype Folded = Folded(key: ClusterKey, firstSeen: Time, lastSeen: Time, count: int,
                           closedBy: Option<Reason>, members: seq<string>)

  // ---- the fold over an interleaved stream ------------------------------------------------------

  function Opened(a: Alert): Folded {
    Folded(a.key, a.time, a.time, 1, None, [a.id])
  }

  function Joined(c: Folded, a: Alert): Folded {
    c.(count := c.count + 1, members := c.members + [a.id], lastSeen := a.time)
  }

  /** The first ceiling an alert would break by joining, in the order they are checked. */
  function Refuses(c: Folded, a: Alert, cfg: Ceilings): Option<Reason> {
    if a.time - c.lastSeen > cfg.idleGap then Some(IdleGap)
    else if a.time - c.firstSeen > cfg.maxAge then Some(MaxAge)
    else if c.count >= cfg.maxSize then Some(MaxSize)
    else None
  }

  /** `open` holds, per key, the position of its open cluster. */
  datatype State = State(open: map<ClusterKey, nat>, clusters: seq<Folded>)

  ghost predicate Bounded(st: State) {
    forall k :: k in st.open ==> st.open[k] < |st.clusters|
  }

  function Feed(st: State, a: Alert, cfg: Ceilings): (r: State)
    requires Bounded(st)
    ensures Bounded(r)
  {
    if a.key !in st.open then
      State(st.open[a.key := |st.clusters|], st.clusters + [Opened(a)])
    else
      var j := st.open[a.key];
      var reason := Refuses(st.clusters[j], a, cfg);
      if reason.None? then State(st.open, st.clusters[j := Joined(st.clusters[j], a)])
      else State(st.open[a.key := |st.clusters|], st.clusters[j := st.clusters[j].(closedBy := reason)] + [Opened(a)])
  }

  function FoldAll(alerts: seq<Alert>, cfg: Ceilings): (st: State)
    ensures Bounded(st)
  {
    if alerts == [] then State(map[], []) else Feed(FoldAll(alerts[..|alerts| - 1], cfg), alerts[|alerts| - 1], cfg)
  }

  /** The open cluster of a key is the last cluster with that key. */
  ghost predicate StateOk(st: State) {
    && Bounded(st)
    && (forall k {:trigger st.open[k]} :: k in st.open ==> st.clusters[st.open[k]].key == k)
    && (forall j {:trigger st.clusters[j]} ::
          0 <= j < |st.clusters| ==> st.clusters[j].key in st.open && j <= st.open[st.clusters[j].key])
  }

  lemma FeedKeepsStateOk(st: State, a: Alert, cfg: Ceilings)
    requires StateOk(st)
    ensures StateOk(Feed(st, a, cfg))
  {
  }

  lemma {:induction false} FoldAllStateOk(alerts: seq<Alert>, cfg: Ceilings)
    ensures StateOk(FoldAll(alerts, cfg))
  {
    if alerts != [] {
      FoldAllStateOk(alerts[..|alerts| - 1], cfg);
      FeedKeepsStateOk(FoldAll(alerts[..|alerts| - 1], cfg), alerts[|alerts| - 1], cfg);
    }
  }

  // ---- one key at a time --------------------------------------------------------------------------

  function OfKey(alerts: seq<Alert>, k: ClusterKey): seq<Alert> {
    if alerts == [] then []
    else OfKey(alerts[..|alerts| - 1], k)
         + if alerts[|alerts| - 1].key == k then [alerts[|alerts| - 1]] else []
  }

  function ClustersOfKey(cs: seq<Folded>, k: ClusterKey): seq<Folded> {
    if cs == [] then []
    else ClustersOfKey(cs[..|cs| - 1], k) + if cs[|cs| - 1].key == k then [cs[|cs| - 1]] else []
  }

  /** The fold of a stream of one key: the open cluster is the last one. */
  function FeedLast(cs: seq<Folded>, a: Alert, cfg: Ceilings): seq<Folded> {
    if cs == [] then [Opened(a)]
    else
      var last := cs[|cs| - 1];
      var reason := Refuses(last, a, cfg);
      if reason.None? then cs[|cs| - 1 := Joined(last, a)]
      else cs[|cs| - 1 := last.(closedBy := reason)] + [Opened(a)]
  }

  function FoldOneKey(alerts: seq<Alert>, cfg: Ceilings): seq<Folded> {
    if alerts == [] then [] else FeedLast(FoldOneKey(alerts[..|alerts| - 1], cfg), alerts[|alerts| - 1], cfg)
  }

  lemma {:induction false} OfKeyAppend(cs: seq<Folded>, c: Folded, k: ClusterKey)
    ensures ClustersOfKey(cs + [c], k) == ClustersOfKey(cs, k) + if c.key == k then [c] else []
  {
    assert (cs + [c])[..|cs|] == cs;
  }

  /** Where the last cluster of a key stands in the key's own list. */
  lemma {:induction false} UpdateLastOfKey(cs: seq<Folded>, j: nat, c: Folded, k: ClusterKey)
    requires j < |cs| && cs[j].key == c.key
    requires forall i :: j < i < |cs| ==> cs[i].key != c.key
    ensures k != c.key ==> ClustersOfKey(cs[j := c], k) == ClustersOfKey(cs, k)
    ensures var own := ClustersOfKey(cs, c.key);
            && own != [] && own[|own| - 1] == cs[j]
            && ClustersOfKey(cs[j := c], c.key) == own[|own| - 1 := c]
  {
    var n := |cs| - 1;
    if j == n {
      assert cs[j := c][..n] == cs[..n];
    } else {
      UpdateLastOfKey(cs[..n], j, c, k);
      assert cs[j := c][..n] == cs[..n][j := c];
    }
  }

  lemma FeedOpenKey(st: State, a: Alert, cfg: Ceilings, k: ClusterKey)
    requires StateOk(st) && a.key in st.open
    ensures ClustersOfKey(Feed(st, a, cfg).clusters, k) ==
            if a.key == k then FeedLast(ClustersOfKey(st.clusters, k), a, cfg) else ClustersOfKey(st.clusters, k)
  {
    var j := st.open[a.key];
    var c := st.clusters[j];
    var reason := Refuses(c, a, cfg);
    var next := if reason.None? then Joined(c, a) else c.(closedBy := reason);
    UpdateLastOfKey(st.clusters, j, next, k);
    if reason.Some? {
      OfKeyAppend(st.clusters[j := next], Opened(a), k);
    }
  }

  lemma FeedOneKey(st: State, a: Alert, cfg: Ceilings, k: ClusterKey)
    requires StateOk(st)
    ensures ClustersOfKey(Feed(st, a, cfg).clusters, k) ==
            if a.key == k then FeedLast(ClustersOfKey(st.clusters, k), a, cfg) else ClustersOfKey(st.clusters, k)
  {
    if a.key in st.open {
      FeedOpenKey(st, a, cfg, k);
    } else {
      OfKeyAppend(st.clusters, Opened(a), k);
      NoneOfKey(st.clusters, a.key);
    }
  }

  lemma {:induction false} NoneOfKey(cs: seq<Folded>, k: ClusterKey)
    requires forall j :: 0 <= j < |cs| ==> cs[j].key != k
    ensures ClustersOfKey(cs, k) == []
  {
    if cs != [] { NoneOfKey(cs[..|cs| - 1], k); }
  }

  lemma {:induction false} AllOfKey(cs: seq<Folded>, k: ClusterKey)
    requires forall j :: 0 <= j < |cs| ==> cs[j].key == k
    ensures ClustersOfKey(cs, k) == cs
  {
    if cs != [] {
      AllOfKey(cs[..|cs| - 1], k);
      assert cs == cs[..|cs| - 1] + [cs[|cs| - 1]];
    }
  }

  lemma OfKeyStep(alerts: seq<Alert>, k: ClusterKey)
    requires alerts != []
    ensures var before, a := alerts[..|alerts| - 1], alerts[|alerts| - 1];
            OfKey(alerts, k) == if a.key == k then OfKey(before, k) + [a] else OfKey(before, k)
  {
  }

  lemma FoldOneKeyAppend(alerts: seq<Alert>, a: Alert, cfg: Ceilings)
    ensures FoldOneKey(alerts + [a], cfg) == FeedLast(FoldOneKey(alerts, cfg), a, cfg)
  {
    assert (alerts + [a])[..|alerts|] == alerts;
  }

  lemma {:induction false} KeyClustersAreItsOwnFold(alerts: seq<Alert>, cfg: Ceilings, k: ClusterKey)
    ensures ClustersOfKey(FoldAll(alerts, cfg).clusters, k) == FoldOneKey(OfKey(alerts, k), cfg)
  {
    if alerts != [] {
      var before, a := alerts[..|alerts| - 1], alerts[|alerts| - 1];
      KeyClustersAreItsOwnFold(before, cfg, k);
      OfKeyStep(alerts, k);
      FoldOneKeyAppend(OfKey(before, k), a, cfg);
      var st := FoldAll(before, cfg);
      FoldAllStateOk(before, cfg);
      FeedOneKey(st, a, cfg, k);
    }
  }

  lemma {:induction false} OfKeyHasOneKey(alerts: seq<Alert>, k: ClusterKey)
    ensures forall i :: 0 <= i < |OfKey(alerts, k)| ==> OfKey(alerts, k)[i].key == k
    ensures OfKey(OfKey(alerts, k), k) == OfKey(alerts, k)
  {
    if alerts != [] {
      var before, a := alerts[..|alerts| - 1], alerts[|alerts| - 1];
      OfKeyHasOneKey(before, k);
      OfKeyStep(alerts, k);
      if a.key == k {
        assert (OfKey(before, k) + [a])[..|OfKey(before, k)|] == OfKey(before, k);
      }
    }
  }

  lemma {:induction false} KeysSeen(alerts: seq<Alert>, cfg: Ceilings)
    ensures FoldAll(alerts, cfg).open.Keys == set a | a in alerts :: a.key
  {
    if alerts != [] {
      var before, a := alerts[..|alerts| - 1], alerts[|alerts| - 1];
      KeysSeen(before, cfg);
      assert alerts == before + [a];
    }
  }

  /** Independence: the clusters of a key in the interleaved fold are the fold of that key's alerts
      alone. */
  lemma KeysDoNotInterfere(alerts: seq<Alert>, cfg: Ceilings, k: ClusterKey)
    ensures ClustersOfKey(FoldAll(alerts, cfg).clusters, k) == FoldAll(OfKey(alerts, k), cfg).clusters
  {
    KeyClustersAreItsOwnFold(alerts, cfg, k);
    OfKeyHasOneKey(alerts, k);
    var own := OfKey(alerts, k);
    KeyClustersAreItsOwnFold(own, cfg, k);
    KeysSeen(own, cfg);
    FoldAllStateOk(own, cfg);
    AllOfKey(FoldAll(own, cfg).clusters, k);
  }

  // ---- runs -----------------------------------------------------------------------------------------

  /** A cluster the three ceilings allow. */
  ghost predicate Feasible(run: seq<Alert>, cfg: Ceilings) {
    && run != []
    && (forall i :: 0 < i < |run| ==> run[i].time - run[i - 1].time <= cfg.idleGap)
    && run[|run| - 1].time - run[0].time <= cfg.maxAge
    && |run| <= cfg.maxSize
  }

  ghost predicate TimeSorted(alerts: seq<Alert>) {
    forall i, j :: 0 <= i < j < |alerts| ==> alerts[i].time <= alerts[j].time
  }

  function Concat(runs: seq<seq<Alert>>): seq<Alert> {
    if runs == [] then [] else Concat(runs[..|runs| - 1]) + runs[|runs| - 1]
  }

  function Joins(run: seq<Alert>, a: Alert, cfg: Ceilings): bool
    requires run != []
  {
    && a.time - run[|run| - 1].time <= cfg.idleGap
    && a.time - run[0].time <= cfg.maxAge
    && |run| < cfg.maxSize
  }

  /** The same greedy fold keeping the alerts themselves, run by run. */
  function Greedy(alerts: seq<Alert>, cfg: Ceilings): (runs: seq<seq<Alert>>)
    ensures forall i :: 0 <= i < |runs| ==> runs[i] != []
  {
    if alerts == [] then []
    else
      var runs, a := Greedy(alerts[..|alerts| - 1], cfg), alerts[|alerts| - 1];
      if runs != [] && Joins(runs[|runs| - 1], a, cfg) then runs[|runs| - 1 := runs[|runs| - 1] + [a]]
      else runs + [[a]]
  }

  function Ids(alerts: seq<Alert>): seq<string> {
    seq(|alerts|, i requires 0 <= i < |alerts| => alerts[i].id)
  }

  ghost predicate Describes(c: Folded, run: seq<Alert>) {
    && run != []
    && c.key == run[0].key && c.firstSeen == run[0].time && c.lastSeen == run[|run| - 1].time
    && c.count == |run| && c.members == Ids(run)
  }

  /** Each cluster of the fold is one greedy run: its span, its size and its members in order. */
  lemma {:induction false} ClustersAreGreedyRuns(alerts: seq<Alert>, cfg: Ceilings)
    ensures |FoldOneKey(alerts, cfg)| == |Greedy(alerts, cfg)|
    ensures forall i :: 0 <= i < |Greedy(alerts, cfg)| ==> Describes(FoldOneKey(alerts, cfg)[i], Greedy(alerts, cfg)[i])
  {
    if alerts != [] {
      var before, a := alerts[..|alerts| - 1], alerts[|alerts| - 1];
      ClustersAreGreedyRuns(before, cfg);
      var runs := Greedy(before, cfg);
      if runs != [] {
        assert Ids(runs[|runs| - 1] + [a]) == Ids(runs[|runs| - 1]) + [a.id];
      }
      assert Ids([a]) == [a.id];
    }
  }

  /** The first ceiling `a` would break by joining `run`, read off the run's alerts. */
  function FirstBroken(run: seq<Alert>, a: Alert, cfg: Ceilings): Option<Reason>
    requires run != []
  {
    if a.time - run[|run| - 1].time > cfg.idleGap then Some(IdleGap)
    else if a.time - run[0].time > cfg.maxAge then Some(MaxAge)
    else if |run| >= cfg.maxSize then Some(MaxSize)
    else None
  }

  /** `closed_by` names the ceiling that the head of the key's next cluster broke, and nothing on the
      cluster still open. */
  lemma {:induction false} ClosedByIsTheCeilingBroken(alerts: seq<Alert>, cfg: Ceilings)
    ensures var cs, runs := FoldOneKey(alerts, cfg), Greedy(alerts, cfg);
            && |cs| == |runs|
            && (forall i :: 0 <= i < |cs| - 1 ==>
                  cs[i].closedBy == FirstBroken(runs[i], runs[i + 1][0], cfg) && cs[i].closedBy.Some?)
            && (cs != [] ==> cs[|cs| - 1].closedBy.None?)
  {
    ClustersAreGreedyRuns(alerts, cfg);
    if alerts != [] {
      var before := alerts[..|alerts| - 1];
      ClosedByIsTheCeilingBroken(before, cfg);
      ClustersAreGreedyRuns(before, cfg);
      var cs, runs := FoldOneKey(before, cfg), Greedy(before, cfg);
      if runs != [] {
        assert Describes(cs[|cs| - 1], runs[|runs| - 1]);
      }
    }
  }

  lemma {:induction false} ConcatAppend(runs: seq<seq<Alert>>, run: seq<Alert>)
    ensures Concat(runs + [run]) == Concat(runs) + run
  {
    assert (runs + [run])[..|runs|] == runs;
  }

  lemma ConcatExtendLast(runs: seq<seq<Alert>>, run: seq<Alert>)
    requires runs != []
    ensures Concat(runs[|runs| - 1 := run]) == Concat(runs[..|runs| - 1]) + run
  {
    assert runs[|runs| - 1 := run][..|runs| - 1] == runs[..|runs| - 1];
  }

  /** The runs laid end to end are the stream: nothing lost, repeated or reordered. */
  lemma {:induction false} GreedyPartitions(alerts: seq<Alert>, cfg: Ceilings)
    ensures Concat(Greedy(alerts, cfg)) == alerts
  {
    if alerts != [] {
      var before, a := alerts[..|alerts| - 1], alerts[|alerts| - 1];
      GreedyPartitions(before, cfg);
      var runs := Greedy(before, cfg);
      ConcatAppend(runs, [a]);
      if runs != [] { ConcatExtendLast(runs, runs[|runs| - 1] + [a]); }
      assert alerts == before + [a];
    }
  }

  lemma {:induction false} GreedyRunsFeasible(alerts: seq<Alert>, cfg: Ceilings)
    requires 1 <= cfg.maxSize && 0 <= cfg.maxAge
    ensures forall i :: 0 <= i < |Greedy(alerts, cfg)| ==> Feasible(Greedy(alerts, cfg)[i], cfg)
  {
    if alerts != [] {
      var before, a := alerts[..|alerts| - 1], alerts[|alerts| - 1];
      GreedyRunsFeasible(before, cfg);
      var runs := Greedy(before, cfg);
      if runs != [] && Joins(runs[|runs| - 1], a, cfg) {
        assert Feasible(runs[|runs| - 1] + [a], cfg);
      }
      assert Feasible([a], cfg);
    }
  }

  /** The fold's clusters obey the ceilings exactly when a single alert does. */
  lemma FeasibleExactly(alerts: seq<Alert>, cfg: Ceilings)
    requires alerts != [] && TimeSorted(alerts)
    ensures (forall i :: 0 <= i < |Greedy(alerts, cfg)| ==> Feasible(Greedy(alerts, cfg)[i], cfg))
            <==> 1 <= cfg.maxSize && 0 <= cfg.maxAge
  {
    if 1 <= cfg.maxSize && 0 <= cfg.maxAge {
      GreedyRunsFeasible(alerts, cfg);
    } else {
      GreedyPartitions(alerts, cfg);
      var runs := Greedy(alerts, cfg);
      var last := runs[|runs| - 1];
      assert alerts == Concat(runs[..|runs| - 1]) + last;
      var n := |Concat(runs[..|runs| - 1])|;
      assert last[0] == alerts[n] && last[|last| - 1] == alerts[|alerts| - 1];
      assert !Feasible(last, cfg);
    }
  }

  /** Greedy stays ahead: no feasible split has fewer runs, and one with as many has a last run at
      least as long. */
  lemma {:induction false} StaysAhead(alerts: seq<Alert>, split: seq<seq<Alert>>, cfg: Ceilings)
    requires TimeSorted(alerts) && Concat(split) == alerts
    requires forall i :: 0 <= i < |split| ==> Feasible(split[i], cfg)
    ensures |Greedy(alerts, cfg)| <= |split|
    ensures split != [] && |Greedy(alerts, cfg)| == |split| ==>
              |Greedy(alerts, cfg)[|split| - 1]| <= |split[|split| - 1]|
    decreases |alerts|
  {
    if split == [] {
    } else {
      var m := |split| - 1;
      var tail := split[m];
      var n := |alerts| - 1;
      assert alerts == Concat(split[..m]) + tail;
      var before, a := alerts[..n], alerts[n];
      assert tail[|tail| - 1] == a;
      if |tail| == 1 {
        assert before == Concat(split[..m]);
        StaysAhead(before, split[..m], cfg);
      } else {
        var shorter := tail[..|tail| - 1];
        assert Feasible(shorter, cfg) by { ShorterRunFeasible(alerts, tail, cfg); }
        ConcatExtendLast(split, shorter);
        assert before == Concat(split[..m]) + shorter && alerts == before + [a];
        StaysAhead(before, split[m := shorter], cfg);
        OneMoreAlert(before, |split|, shorter, a, tail, cfg);
      }
    }
  }

  /** Ahead of a split whose last run is `shorter`, greedy is ahead of the one where `a` joins it. */
  lemma OneMoreAlert(before: seq<Alert>, size: nat, shorter: seq<Alert>, a: Alert, tail: seq<Alert>, cfg: Ceilings)
    requires TimeSorted(before) && |Greedy(before, cfg)| <= size && before != []
    requires |Greedy(before, cfg)| == size > 0 ==> |Greedy(before, cfg)[size - 1]| <= |shorter|
    requires shorter != [] && |shorter| <= |before| && shorter == before[|before| - |shorter|..]
    requires tail == shorter + [a] && Feasible(tail, cfg)
    ensures |Greedy(before + [a], cfg)| <= size
    ensures |Greedy(before + [a], cfg)| == size > 0 ==> |Greedy(before + [a], cfg)[size - 1]| <= |tail|
  {
    var runs := Greedy(before, cfg);
    assert (before + [a])[..|before|] == before;
    GreedyPartitions(before, cfg);
    if |runs| == size { SuffixJoins(before, runs, shorter, a, tail, cfg); }
  }

  lemma ShorterRunFeasible(alerts: seq<Alert>, run: seq<Alert>, cfg: Ceilings)
    requires TimeSorted(alerts) && Feasible(run, cfg) && |run| > 1
    requires |run| <= |alerts| && run == alerts[|alerts| - |run|..]
    ensures Feasible(run[..|run| - 1], cfg)
  {
    var m := |alerts| - |run|;
    assert run[|run| - 2] == alerts[|alerts| - 2] && run[|run| - 1] == alerts[|alerts| - 1] && run[0] == alerts[m];
  }

  /** When the greedy last run is no longer than a feasible run's front, the next alert joins it. */
  lemma SuffixJoins(before: seq<Alert>, runs: seq<seq<Alert>>, shorter: seq<Alert>, a: Alert, tail: seq<Alert>,
                    cfg: Ceilings)
    requires TimeSorted(before) && runs != [] && Concat(runs) == before
    requires shorter != [] && |shorter| <= |before| && shorter == before[|before| - |shorter|..]
    requires tail == shorter + [a] && Feasible(tail, cfg)
    requires runs[|runs| - 1] != [] && |runs[|runs| - 1]| <= |shorter|
    ensures Joins(runs[|runs| - 1], a, cfg)
  {
    var last := runs[|runs| - 1];
    var n, k := |before|, |before| - |last|;
    assert before == Concat(runs[..|runs| - 1]) + last;
    assert last[|last| - 1] == before[n - 1] == shorter[|shorter| - 1];
    assert last[0] == before[k] && shorter[0] == before[n - |shorter|];
    assert tail[|tail| - 1].time - tail[|tail| - 2].time <= cfg.idleGap;
  }

  /** Optimality, per key of an interleaved sorted stream: every way to split the key's alerts into
      runs the ceilings allow has at least as many runs as the fold has clusters of that key. */
  lemma FoldIsOptimal(alerts: seq<Alert>, cfg: Ceilings, k: ClusterKey, split: seq<seq<Alert>>)
    requires TimeSorted(alerts) && Concat(split) == OfKey(alerts, k)
    requires forall i :: 0 <= i < |split| ==> Feasible(split[i], cfg)
    ensures |ClustersOfKey(FoldAll(alerts, cfg).clusters, k)| <= |split|
  {
    KeyClustersAreItsOwnFold(alerts, cfg, k);
    ClustersAreGreedyRuns(OfKey(alerts, k), cfg);
    OfKeySorted(alerts, k);
    StaysAhead(OfKey(alerts, k), split, cfg);
  }

  lemma SortedMore(alerts: seq<Alert>, last: Alert)
    requires TimeSorted(alerts) && forall x :: x in alerts ==> x.time <= last.time
    ensures TimeSorted(alerts + [last])
  {
    forall i | 0 <= i < |alerts| ensures alerts[i].time <= last.time { assert alerts[i] in alerts; }
  }

  lemma {:induction false} OfKeySorted(alerts: seq<Alert>, k: ClusterKey)
    requires TimeSorted(alerts)
    ensures TimeSorted(OfKey(alerts, k))
    ensures forall a :: a in OfKey(alerts, k) ==> a in alerts
  {
    if alerts != [] {
      var before := alerts[..|alerts| - 1];
      var last := alerts[|alerts| - 1];
      OfKeySorted(before, k);
      OfKeyStep(alerts, k);
      assert alerts == before + [last];
      forall x | x in OfKey(before, k) ensures x.time <= last.time && x in alerts {
        assert x in before;
      }
      SortedMore(OfKey(before, k), last);
    }
  }
}
