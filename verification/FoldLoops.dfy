/** The two codings of the fold as the loops they are, each proved against its specification, and
    the agreement of the two. */
module FoldLoops {
  import opened Common
  import opened Store
  import opened ClusterFold
  import opened AlertOrder

  /** One offline cluster, updated in place through the dictionary of open clusters. */
  class Cluster {
    const key: ClusterKey
    const firstSeen: Time
    var lastSeen: Time
    var count: int
    var closedBy: Option<Reason>
    var members: seq<string>

    function View(): Folded
      reads this
    {
      Folded(key, firstSeen, lastSeen, count, closedBy, members)
    }

    constructor (a: Alert)
      ensures View() == Opened(a)
    {
      key, firstSeen, lastSeen, count, closedBy, members := a.key, a.time, a.time, 1, None, [a.id];
    }
  }

  lemma FoldAllStep(alerts: seq<Alert>, i: nat, cfg: Ceilings)
    requires i < |alerts|
    ensures FoldAll(alerts[..i + 1], cfg) == Feed(FoldAll(alerts[..i], cfg), alerts[i], cfg)
  {
    assert alerts[..i + 1][..i] == alerts[..i];
  }

  /** The list of cluster objects and the dictionary into it stand for a fold state. */
  ghost predicate Represents(all: seq<Cluster>, openByKey: map<ClusterKey, Cluster>, st: State)
    reads all
  {
    && (forall i, j :: 0 <= i < j < |all| ==> all[i] != all[j])
    && |all| == |st.clusters|
    && (forall j :: 0 <= j < |all| ==> all[j].View() == st.clusters[j])
    && openByKey.Keys == st.open.Keys
    && (forall k :: k in openByKey ==> st.open[k] < |all| && openByKey[k] == all[st.open[k]])
  }

  lemma AppendedRepresents(all: seq<Cluster>, openByKey: map<ClusterKey, Cluster>, st: State, a: Alert,
                           cluster: Cluster)
    requires Represents(all, openByKey, st) && cluster !in all && cluster.View() == Opened(a)
    ensures Represents(all + [cluster], openByKey[a.key := cluster],
                       State(st.open[a.key := |st.clusters|], st.clusters + [Opened(a)]))
  {
  }

  /** Try to join the key's open cluster; if a ceiling refuses, record which one closed it. */
  method JoinOrClose(all: seq<Cluster>, openByKey: map<ClusterKey, Cluster>, a: Alert, cfg: Ceilings, ghost st: State)
    returns (reason: Option<Reason>)
    requires Bounded(st) && Represents(all, openByKey, st) && a.key in openByKey
    modifies openByKey[a.key]
    ensures reason == Refuses(st.clusters[st.open[a.key]], a, cfg)
    ensures reason.None? ==> Represents(all, openByKey, Feed(st, a, cfg))
    ensures reason.Some? ==> Represents(all, openByKey, Closed(st, a.key, reason))
  {
    var head := openByKey[a.key];
    assert head.View() == st.clusters[st.open[a.key]];
    reason := None;
    if a.time - head.lastSeen > cfg.idleGap {
      reason := Some(IdleGap);
    } else if a.time - head.firstSeen > cfg.maxAge {
      reason := Some(MaxAge);
    } else if head.count >= cfg.maxSize {
      reason := Some(MaxSize);
    }
    if reason.None? {
      head.count := head.count + 1;
      head.members := head.members + [a.id];
      head.lastSeen := a.time;
    } else {
      head.closedBy := reason;
    }
  }

  ghost function Closed(st: State, k: ClusterKey, reason: Option<Reason>): (r: State)
    requires Bounded(st) && k in st.open
    ensures Bounded(r)
  {
    State(st.open, st.clusters[st.open[k] := st.clusters[st.open[k]].(closedBy := reason)])
  }

  /** One alert of the loop: join the key's open cluster, or open another. */
  method FeedCluster(all: seq<Cluster>, openByKey: map<ClusterKey, Cluster>, ordered: seq<Alert>, i: nat, cfg: Ceilings)
    returns (all': seq<Cluster>, openByKey': map<ClusterKey, Cluster>)
    requires i < |ordered| && Represents(all, openByKey, FoldAll(ordered[..i], cfg))
    modifies all
    ensures Represents(all', openByKey', FoldAll(ordered[..i + 1], cfg))
    ensures all' == all || (|all'| == |all| + 1 && all'[..|all|] == all && fresh(all'[|all|]))
  {
    var a := ordered[i];
    ghost var st := FoldAll(ordered[..i], cfg);
    FoldAllStep(ordered, i, cfg);
    ghost var closed := st;
    if a.key in openByKey {
      var reason := JoinOrClose(all, openByKey, a, cfg, st);
      if reason.None? {
        return all, openByKey;
      }
      closed := Closed(st, a.key, reason);
    }
    var cluster := new Cluster(a);
    AppendedRepresents(all, openByKey, closed, a, cluster);
    return all + [cluster], openByKey[a.key := cluster];
  }

  method FoldOrdered(ordered: seq<Alert>, cfg: Ceilings)
      returns (all: seq<Cluster>, ghost openByKey: map<ClusterKey, Cluster>)
    ensures fresh(all)
    ensures Represents(all, openByKey, FoldAll(ordered, cfg))
  {
    var open: map<ClusterKey, Cluster> := map[];
    all := [];
    for i := 0 to |ordered|
      invariant fresh(all)
      invariant Represents(all, open, FoldAll(ordered[..i], cfg))
    {
      all, open := FeedCluster(all, open, ordered, i, cfg);
    }
    assert ordered[..|ordered|] == ordered;
    openByKey := open;
  }

  method FoldClusters(alerts: seq<Alert>, cfg: Ceilings) returns (all: seq<Cluster>)
    ensures fresh(all)
    ensures |all| == |FoldAll(Sorted(alerts), cfg).clusters|
    ensures forall j :: 0 <= j < |all| ==> all[j].View() == FoldAll(Sorted(alerts), cfg).clusters[j]
  {
    ghost var open;
    all, open := FoldOrdered(Sorted(alerts), cfg);
  }

  // ---- the second coding ------------------------------------------------------------------------

  datatype Tallied = Tallied(head: Alert, first: Time, last: Time, n: int)

  datatype Tallies = Tallies(latest: map<ClusterKey, nat>, clusters: seq<Tallied>)

  ghost predicate TalliesOk(st: Tallies) {
    forall k :: k in st.latest ==> st.latest[k] < |st.clusters|
  }

  function FeedTally(st: Tallies, a: Alert, cfg: Ceilings): (r: Tallies)
    requires TalliesOk(st)
    ensures TalliesOk(r)
  {
    if a.key in st.latest
       && a.time - st.clusters[st.latest[a.key]].last <= cfg.idleGap
       && a.time - st.clusters[st.latest[a.key]].first <= cfg.maxAge
       && st.clusters[st.latest[a.key]].n < cfg.maxSize
    then
      var c := st.clusters[st.latest[a.key]];
      Tallies(st.latest, st.clusters[st.latest[a.key] := c.(last := a.time, n := c.n + 1)])
    else Tallies(st.latest[a.key := |st.clusters|], st.clusters + [Tallied(a, a.time, a.time, 1)])
  }

  function TallyAll(alerts: seq<Alert>, cfg: Ceilings): (st: Tallies)
    ensures TalliesOk(st)
  {
    if alerts == [] then Tallies(map[], [])
    else FeedTally(TallyAll(alerts[..|alerts| - 1], cfg), alerts[|alerts| - 1], cfg)
  }

  function Since(alerts: seq<Alert>, since: Option<Time>): seq<Alert> {
    if alerts == [] then []
    else
      var front, a := Since(alerts[..|alerts| - 1], since), alerts[|alerts| - 1];
      if since.Some? && a.time < since.value then front else front + [a]
  }

  class Tally {
    const head: Alert
    const first: Time
    var last: Time
    var n: int

    function View(): Tallied
      reads this
    {
      Tallied(head, first, last, n)
    }

    constructor (a: Alert)
      ensures View() == Tallied(a, a.time, a.time, 1)
    {
      head, first, last, n := a, a.time, a.time, 1;
    }
  }

  ghost predicate RepresentsTallies(all: seq<Tally>, latest: map<ClusterKey, Tally>, st: Tallies)
    reads all
  {
    && TalliesOk(st)
    && (forall i, j :: 0 <= i < j < |all| ==> all[i] != all[j])
    && |all| == |st.clusters|
    && (forall j :: 0 <= j < |all| ==> all[j].View() == st.clusters[j])
    && latest.Keys == st.latest.Keys
    && (forall k :: k in latest ==> latest[k] == all[st.latest[k]])
  }

  lemma TallyAllAppend(alerts: seq<Alert>, a: Alert, cfg: Ceilings)
    ensures TallyAll(alerts + [a], cfg) == FeedTally(TallyAll(alerts, cfg), a, cfg)
  {
    assert (alerts + [a])[..|alerts|] == alerts;
  }

  lemma AppendedRepresentsTallies(all: seq<Tally>, latest: map<ClusterKey, Tally>, st: Tallies, a: Alert, tally: Tally)
    requires RepresentsTallies(all, latest, st) && tally !in all && tally.View() == Tallied(a, a.time, a.time, 1)
    ensures RepresentsTallies(all + [tally], latest[a.key := tally],
                              Tallies(st.latest[a.key := |st.clusters|], st.clusters + [Tallied(a, a.time, a.time, 1)]))
  {
  }

  method FeedTallyInPlace(all: seq<Tally>, latest: map<ClusterKey, Tally>, a: Alert, cfg: Ceilings, ghost st: Tallies)
    returns (all': seq<Tally>, latest': map<ClusterKey, Tally>)
    requires RepresentsTallies(all, latest, st)
    modifies all
    ensures RepresentsTallies(all', latest', FeedTally(st, a, cfg))
    ensures all' == all || (|all'| == |all| + 1 && all'[..|all|] == all && fresh(all'[|all|]))
  {
    if a.key in latest {
      var c := latest[a.key];
      assert c.View() == st.clusters[st.latest[a.key]];
      if a.time - c.last <= cfg.idleGap && a.time - c.first <= cfg.maxAge && c.n < cfg.maxSize {
        c.last := a.time;
        c.n := c.n + 1;
        return all, latest;
      }
    }
    var tally := new Tally(a);
    AppendedRepresentsTallies(all, latest, st, a, tally);
    return all + [tally], latest[a.key := tally];
  }

  /** The same fold with the `since` filter inside it. */
  function TallySince(alerts: seq<Alert>, since: Option<Time>, cfg: Ceilings): (st: Tallies)
    ensures TalliesOk(st)
  {
    if alerts == [] then Tallies(map[], [])
    else
      var st, a := TallySince(alerts[..|alerts| - 1], since, cfg), alerts[|alerts| - 1];
      if since.Some? && a.time < since.value then st else FeedTally(st, a, cfg)
  }

  lemma {:induction false} SinceFilters(alerts: seq<Alert>, since: Option<Time>, cfg: Ceilings)
    ensures TallySince(alerts, since, cfg) == TallyAll(Since(alerts, since), cfg)
  {
    if alerts != [] {
      var before, a := alerts[..|alerts| - 1], alerts[|alerts| - 1];
      SinceFilters(before, since, cfg);
      TallyAllAppend(Since(before, since), a, cfg);
    }
  }

  lemma TallySinceStep(alerts: seq<Alert>, i: nat, since: Option<Time>, cfg: Ceilings)
    requires i < |alerts|
    ensures TallySince(alerts[..i + 1], since, cfg) ==
            if since.Some? && alerts[i].time < since.value then TallySince(alerts[..i], since, cfg)
            else FeedTally(TallySince(alerts[..i], since, cfg), alerts[i], cfg)
  {
    assert alerts[..i + 1][..i] == alerts[..i];
  }

  /** One turn: an alert before the cut-off is passed over. */
  method MeasureOne(all: seq<Tally>, latest: map<ClusterKey, Tally>, alerts: seq<Alert>, i: nat, since: Option<Time>,
                    cfg: Ceilings) returns (all': seq<Tally>, latest': map<ClusterKey, Tally>)
    requires i < |alerts| && RepresentsTallies(all, latest, TallySince(alerts[..i], since, cfg))
    modifies all
    ensures RepresentsTallies(all', latest', TallySince(alerts[..i + 1], since, cfg))
    ensures all' == all || (|all'| == |all| + 1 && all'[..|all|] == all && fresh(all'[|all|]))
  {
    ghost var st := TallySince(alerts[..i], since, cfg);
    TallySinceStep(alerts, i, since, cfg);
    if since.Some? && alerts[i].time < since.value {
      return all, latest;
    }
    all', latest' := FeedTallyInPlace(all, latest, alerts[i], cfg, st);
  }

  method MeasureLoop(alerts: seq<Alert>, since: Option<Time>, cfg: Ceilings)
    returns (clusters: seq<Tally>, ghost byKey: map<ClusterKey, Tally>)
    ensures fresh(clusters)
    ensures RepresentsTallies(clusters, byKey, TallySince(alerts, since, cfg))
  {
    var latest: map<ClusterKey, Tally> := map[];
    clusters := [];
    for i := 0 to |alerts|
      invariant fresh(clusters)
      invariant RepresentsTallies(clusters, latest, TallySince(alerts[..i], since, cfg))
    {
      clusters, latest := MeasureOne(clusters, latest, alerts, i, since, cfg);
    }
    assert alerts[..|alerts|] == alerts;
    byKey := latest;
  }

  method MeasureFold(alerts: seq<Alert>, since: Option<Time>, cfg: Ceilings) returns (clusters: seq<Tally>)
    ensures fresh(clusters)
    ensures |clusters| == |TallyAll(Since(alerts, since), cfg).clusters|
    ensures forall j :: 0 <= j < |clusters| ==> clusters[j].View() == TallyAll(Since(alerts, since), cfg).clusters[j]
  {
    ghost var byKey;
    clusters, byKey := MeasureLoop(alerts, since, cfg);
    SinceFilters(alerts, since, cfg);
  }

  // ---- agreement ----------------------------------------------------------------------------------

  ghost predicate SameCluster(c: Folded, t: Tallied) {
    && c.key == t.head.key && c.firstSeen == t.first == t.head.time && c.lastSeen == t.last && c.count == t.n
    && c.members != [] && c.members[0] == t.head.id
  }

  ghost predicate Agree(st: State, ts: Tallies) {
    && st.open == ts.latest
    && |st.clusters| == |ts.clusters|
    && forall j :: 0 <= j < |st.clusters| ==> SameCluster(st.clusters[j], ts.clusters[j])
  }

  /** Fed the same stream, the two loops hold the same clusters at every moment. */
  lemma {:induction false} LoopsAgree(alerts: seq<Alert>, cfg: Ceilings)
    ensures Agree(FoldAll(alerts, cfg), TallyAll(alerts, cfg))
  {
    if alerts != [] {
      LoopsAgree(alerts[..|alerts| - 1], cfg);
      var before := alerts[..|alerts| - 1];
      FeedsAgree(FoldAll(before, cfg), TallyAll(before, cfg), alerts[|alerts| - 1], cfg);
    }
  }

  lemma FeedsAgree(st: State, ts: Tallies, a: Alert, cfg: Ceilings)
    requires Bounded(st) && TalliesOk(ts) && Agree(st, ts)
    ensures Agree(Feed(st, a, cfg), FeedTally(ts, a, cfg))
  {
    if a.key in st.open {
      assert SameCluster(st.clusters[st.open[a.key]], ts.clusters[st.open[a.key]]);
    }
  }

  lemma {:induction false} SortingOrderedIsIdentity(alerts: seq<Alert>)
    requires Ordered(alerts)
    ensures Sorted(alerts) == alerts
  {
    if alerts != [] {
      SortingOrderedIsIdentity(alerts[..|alerts| - 1]);
      assert alerts == alerts[..|alerts| - 1] + [alerts[|alerts| - 1]];
    }
  }

  /** On a sorted archive the two scripts report the same clusters, one by one. */
  lemma CodingsAgreeOnSortedInput(alerts: seq<Alert>, cfg: Ceilings)
    requires Ordered(alerts)
    ensures Since(alerts, None) == alerts
    ensures Agree(FoldAll(Sorted(alerts), cfg), TallyAll(Since(alerts, None), cfg))
  {
    SortingOrderedIsIdentity(alerts);
    SinceNone(alerts);
    LoopsAgree(alerts, cfg);
  }

  lemma {:induction false} SinceNone(alerts: seq<Alert>)
    ensures Since(alerts, None) == alerts
  {
    if alerts != [] {
      SinceNone(alerts[..|alerts| - 1]);
      assert alerts == alerts[..|alerts| - 1] + [alerts[|alerts| - 1]];
    }
  }

  // ---- agreement key by key, for any stream in time order ----------------------------------------------

  /** First and last time and number of alerts: what both codings say of a cluster. */
  datatype Shape = Shape(first: Time, last: Time, n: int)

  function Shapes(cs: seq<Folded>): seq<Shape> {
    if cs == [] then []
    else Shapes(cs[..|cs| - 1]) + [Shape(cs[|cs| - 1].firstSeen, cs[|cs| - 1].lastSeen, cs[|cs| - 1].count)]
  }

  function ShapesOfKey(ts: seq<Tallied>, k: ClusterKey): seq<Shape> {
    if ts == [] then []
    else
      var t := ts[|ts| - 1];
      ShapesOfKey(ts[..|ts| - 1], k) + if t.head.key == k then [Shape(t.first, t.last, t.n)] else []
  }

  function Times(alerts: seq<Alert>): seq<Time> {
    if alerts == [] then [] else Times(alerts[..|alerts| - 1]) + [alerts[|alerts| - 1].time]
  }

  lemma ShapesAppend(cs: seq<Folded>, c: Folded)
    ensures Shapes(cs + [c]) == Shapes(cs) + [Shape(c.firstSeen, c.lastSeen, c.count)]
  {
    assert (cs + [c])[..|cs|] == cs;
  }

  lemma {:induction false} ShapesAreSame(st: seq<Folded>, ts: seq<Tallied>, k: ClusterKey)
    requires |st| == |ts| && forall j :: 0 <= j < |st| ==> SameCluster(st[j], ts[j])
    ensures Shapes(ClustersOfKey(st, k)) == ShapesOfKey(ts, k)
  {
    if st != [] {
      var c := st[|st| - 1];
      ShapesAreSame(st[..|st| - 1], ts[..|ts| - 1], k);
      assert SameCluster(c, ts[|ts| - 1]);
      assert st == st[..|st| - 1] + [c];
      OfKeyAppend(st[..|st| - 1], c, k);
      if c.key == k {
        ShapesAppend(ClustersOfKey(st[..|st| - 1], k), c);
      } else {
        assert ClustersOfKey(st[..|st| - 1], k) + [] == ClustersOfKey(st[..|st| - 1], k);
      }
    }
  }

  /** The fold of one key looks at nothing but times. */
  lemma {:induction false} ShapesDependOnTimes(xs: seq<Alert>, ys: seq<Alert>, cfg: Ceilings)
    requires Times(xs) == Times(ys)
    ensures Shapes(FoldOneKey(xs, cfg)) == Shapes(FoldOneKey(ys, cfg))
    decreases |xs|
  {
    if xs != [] && ys != [] {
      var a, b := xs[|xs| - 1], ys[|ys| - 1];
      assert a.time == Times(xs)[|Times(xs)| - 1] == Times(ys)[|Times(ys)| - 1] == b.time;
      assert Times(xs[..|xs| - 1]) == Times(xs)[..|Times(xs)| - 1] == Times(ys[..|ys| - 1]);
      ShapesDependOnTimes(xs[..|xs| - 1], ys[..|ys| - 1], cfg);
      FeedsTakeShape(FoldOneKey(xs[..|xs| - 1], cfg), FoldOneKey(ys[..|ys| - 1], cfg), a, b, cfg);
    }
  }

  lemma FeedsTakeShape(cs: seq<Folded>, ds: seq<Folded>, a: Alert, b: Alert, cfg: Ceilings)
    requires Shapes(cs) == Shapes(ds) && a.time == b.time
    ensures Shapes(FeedLast(cs, a, cfg)) == Shapes(FeedLast(ds, b, cfg))
  {
    FeedShape(cs, a, cfg);
    FeedShape(ds, b, cfg);
  }

  /** What feeding does to shapes alone. */
  function FeedShapes(ss: seq<Shape>, t: Time, cfg: Ceilings): seq<Shape> {
    if ss == [] then [Shape(t, t, 1)]
    else
      var s := ss[|ss| - 1];
      if t - s.last <= cfg.idleGap && t - s.first <= cfg.maxAge && s.n < cfg.maxSize
      then ss[..|ss| - 1] + [Shape(s.first, t, s.n + 1)] else ss + [Shape(t, t, 1)]
  }

  lemma FeedShape(cs: seq<Folded>, a: Alert, cfg: Ceilings)
    ensures Shapes(FeedLast(cs, a, cfg)) == FeedShapes(Shapes(cs), a.time, cfg)
  {
    if cs == [] {
      ShapesAppend([], Opened(a));
      assert [] + [Opened(a)] == [Opened(a)];
    } else {
      var front, last := cs[..|cs| - 1], cs[|cs| - 1];
      var reason := Refuses(last, a, cfg);
      if reason.None? {
        ShapesAppend(front, Joined(last, a));
        assert cs[|cs| - 1 := Joined(last, a)] == front + [Joined(last, a)];
      } else {
        var closed := last.(closedBy := reason);
        ShapesAppend(front, closed);
        ShapesAppend(front + [closed], Opened(a));
        assert cs[|cs| - 1 := closed] == front + [closed];
      }
    }
  }

  /** The times of one key's alerts. */
  function KeyTimes(alerts: seq<Alert>, k: ClusterKey): seq<Time> {
    if alerts == [] then []
    else
      var a := alerts[|alerts| - 1];
      KeyTimes(alerts[..|alerts| - 1], k) + if a.key == k then [a.time] else []
  }

  lemma {:induction false} KeyTimesAreTimes(alerts: seq<Alert>, k: ClusterKey)
    ensures Times(OfKey(alerts, k)) == KeyTimes(alerts, k)
  {
    if alerts != [] {
      var front, a := OfKey(alerts[..|alerts| - 1], k), alerts[|alerts| - 1];
      KeyTimesAreTimes(alerts[..|alerts| - 1], k);
      OfKeyStep(alerts, k);
      if a.key == k { assert (front + [a])[..|front|] == front; }
    }
  }

  lemma KeyTimesMore(alerts: seq<Alert>, a: Alert, k: ClusterKey)
    ensures KeyTimes(alerts + [a], k) == KeyTimes(alerts, k) + if a.key == k then [a.time] else []
  {
    assert (alerts + [a])[..|alerts|] == alerts;
  }

  lemma KeyTimesSwap(xs: seq<Alert>, ys: seq<Alert>, a: Alert, b: Alert, k: ClusterKey)
    requires a.time == b.time && KeyTimes(ys, k) == KeyTimes(xs + [a], k)
    ensures KeyTimes(ys + [b], k) == KeyTimes((xs + [b]) + [a], k)
  {
    KeyTimesMore(ys, b, k);
    KeyTimesMore(xs, a, k);
    KeyTimesMore(xs, b, k);
    KeyTimesMore(xs + [b], a, k);
  }

  /** The sort moves an alert of a stream in time order only among alerts of its own time. */
  lemma {:induction false} InsertKeepsTimes(sorted: seq<Alert>, a: Alert, k: ClusterKey)
    requires forall i :: 0 <= i < |sorted| ==> sorted[i].time <= a.time
    ensures KeyTimes(Insert(sorted, a), k) == KeyTimes(sorted + [a], k)
  {
    if sorted != [] && !Before(sorted[|sorted| - 1], a) {
      var front, last := sorted[..|sorted| - 1], sorted[|sorted| - 1];
      InsertKeepsTimes(front, a, k);
      KeyTimesSwap(front, Insert(front, a), a, last, k);
      assert sorted == front + [last];
    }
  }

  lemma {:induction false} SortKeepsTimes(alerts: seq<Alert>, k: ClusterKey)
    requires TimeSorted(alerts)
    ensures KeyTimes(Sorted(alerts), k) == KeyTimes(alerts, k)
  {
    if alerts != [] {
      var front, a := alerts[..|alerts| - 1], alerts[|alerts| - 1];
      SortKeepsTimes(front, k);
      SortedAreEarlier(front, a.time);
      InsertKeepsTimes(Sorted(front), a, k);
      KeyTimesMore(Sorted(front), a, k);
    }
  }

  lemma SortedAreEarlier(alerts: seq<Alert>, t: Time)
    requires forall i :: 0 <= i < |alerts| ==> alerts[i].time <= t
    ensures forall i :: 0 <= i < |Sorted(alerts)| ==> Sorted(alerts)[i].time <= t
  {
    SortedFacts(alerts);
    forall i | 0 <= i < |Sorted(alerts)| ensures Sorted(alerts)[i].time <= t {
      assert Sorted(alerts)[i] in multiset(alerts);
    }
  }

  /** On any stream in time order, whatever the order of alerts of one time and whatever other keys stand
      between them, the two codings give a key the same clusters: first time, last time, number. */
  lemma CodingsAgreeOnEveryKey(alerts: seq<Alert>, cfg: Ceilings, k: ClusterKey)
    requires TimeSorted(alerts)
    ensures ShapesOfKey(TallyAll(alerts, cfg).clusters, k) ==
            Shapes(ClustersOfKey(FoldAll(Sorted(alerts), cfg).clusters, k))
  {
    LoopsAgree(alerts, cfg);
    ShapesAreSame(FoldAll(alerts, cfg).clusters, TallyAll(alerts, cfg).clusters, k);
    KeyClustersAreItsOwnFold(alerts, cfg, k);
    KeyClustersAreItsOwnFold(Sorted(alerts), cfg, k);
    SortKeepsTimes(alerts, k);
    KeyTimesAreTimes(alerts, k);
    KeyTimesAreTimes(Sorted(alerts), k);
    ShapesDependOnTimes(OfKey(alerts, k), OfKey(Sorted(alerts), k), cfg);
  }

  lemma SortPair(x: Alert, y: Alert)
    requires !Before(x, y)
    ensures Sorted([x, y]) == [y, x]
  {
    assert Sorted([]) == [] && [x][..0] == [] && [x, y][..1] == [x];
    assert Sorted([x]) == [x];
    assert Insert([x][..0], y) == [y];
  }

  /** The second coding does not sort: two alerts of one key read latest first are one cluster to it
      and two to the first. */
  lemma CodingsDifferOnUnsortedInput(k: ClusterKey)
    ensures var cfg := Ceilings(15, 240, 1000);
            var alerts := [Alert.Alert(20, "b", k), Alert.Alert(0, "a", k)];
            && |TallyAll(alerts, cfg).clusters| == 1
            && |FoldAll(Sorted(alerts), cfg).clusters| == 2
  {
    var cfg := Ceilings(15, 240, 1000);
    var late, early := Alert.Alert(20, "b", k), Alert.Alert(0, "a", k);
    TallyAllAppend([], late, cfg);
    TallyAllAppend([late], early, cfg);
    assert [] + [late] == [late] && [late] + [early] == [late, early];
    SortPair(late, early);
    FoldAllStep([early, late], 0, cfg);
    FoldAllStep([early, late], 1, cfg);
    assert [early, late][..2] == [early, late] && [early, late][..1] == [early] && [early, late][..0] == [];
  }
}
