/** The order the fold sorts by: time, then alert id as text. */
module AlertOrder {
  import opened Store
  import opened ClusterFold

  predicate TextBefore(a: string, b: string) {
    if a == "" then true
    else if b == "" then false
    else a[0] < b[0] || (a[0] == b[0] && TextBefore(a[1..], b[1..]))
  }

  /** Text order: a front comes before what it begins, and else the first difference decides. */
  lemma {:induction false} TextBeforeExactly(a: string, b: string)
    ensures TextBefore(a, b) <==>
            a <= b || exists i :: 0 <= i < |a| && i < |b| && a[..i] == b[..i] && a[i] < b[i]
  {
    if a != "" && b != "" {
      TextBeforeExactly(a[1..], b[1..]);
      if a[0] == b[0] {
        assert a <= b <==> a[1..] <= b[1..] by { assert a == [a[0]] + a[1..] && b == [b[0]] + b[1..]; }
        if i :| 0 <= i < |a| && i < |b| && a[..i] == b[..i] && a[i] < b[i] {
          assert i > 0;
          assert a[1..][..i - 1] == a[..i][1..] == b[..i][1..] == b[1..][..i - 1];
          assert a[1..][i - 1] < b[1..][i - 1];
        }
        if i :| 0 <= i < |a| - 1 && i < |b| - 1 && a[1..][..i] == b[1..][..i] && a[1..][i] < b[1..][i] {
          assert a[..i + 1] == [a[0]] + a[1..][..i] == [b[0]] + b[1..][..i] == b[..i + 1];
          assert a[i + 1] < b[i + 1];
        }
      } else {
        assert forall i :: 0 < i <= |a| && i <= |b| ==> a[..i][0] != b[..i][0];
        assert a[..0] == b[..0];
      }
    }
  }

  lemma {:induction false} TextTotal(a: string, b: string)
    ensures TextBefore(a, b) || TextBefore(b, a)
  {
    if a != "" && b != "" { TextTotal(a[1..], b[1..]); }
  }

  lemma {:induction false} TextAntisymmetric(a: string, b: string)
    requires TextBefore(a, b) && TextBefore(b, a)
    ensures a == b
  {
    if a != "" {
      TextAntisymmetric(a[1..], b[1..]);
      assert a == [a[0]] + a[1..] && b == [b[0]] + b[1..];
    }
  }

  lemma {:induction false} TextTransitive(a: string, b: string, c: string)
    requires TextBefore(a, b) && TextBefore(b, c)
    ensures TextBefore(a, c)
  {
    if a != "" && a[0] == b[0] && b[0] == c[0] { TextTransitive(a[1..], b[1..], c[1..]); }
  }

  predicate Before(a: Alert, b: Alert) {
    a.time < b.time || (a.time == b.time && TextBefore(a.id, b.id))
  }

  lemma BeforeTotal(a: Alert, b: Alert)
    ensures Before(a, b) || Before(b, a)
  {
    TextTotal(a.id, b.id);
  }

  lemma BeforeTransitive(a: Alert, b: Alert, c: Alert)
    requires Before(a, b) && Before(b, c)
    ensures Before(a, c)
  {
    if a.time == b.time == c.time { TextTransitive(a.id, b.id, c.id); }
  }

  ghost predicate Ordered(alerts: seq<Alert>) {
    forall i, j :: 0 <= i < j < |alerts| ==> Before(alerts[i], alerts[j])
  }

  /** Insert behind everything that does not come strictly after: a stable sort, one step. */
  function Insert(sorted: seq<Alert>, a: Alert): seq<Alert> {
    if sorted == [] || Before(sorted[|sorted| - 1], a) then sorted + [a]
    else Insert(sorted[..|sorted| - 1], a) + [sorted[|sorted| - 1]]
  }

  /** `sorted(alerts, key=(alert_time, alert_id))`. */
  function Sorted(alerts: seq<Alert>): seq<Alert> {
    if alerts == [] then [] else Insert(Sorted(alerts[..|alerts| - 1]), alerts[|alerts| - 1])
  }

  lemma {:induction false} InsertFacts(sorted: seq<Alert>, a: Alert)
    requires Ordered(sorted)
    ensures multiset(Insert(sorted, a)) == multiset(sorted) + multiset{a}
    ensures Ordered(Insert(sorted, a))
  {
    if sorted == [] {
    } else {
      var front, last := sorted[..|sorted| - 1], sorted[|sorted| - 1];
      assert sorted == front + [last];
      if Before(last, a) {
        forall i | 0 <= i < |sorted| ensures Before(sorted[i], a) {
          if i < |front| { BeforeTransitive(sorted[i], last, a); }
        }
      } else {
        BeforeTotal(last, a);
        InsertFacts(front, a);
        forall x | x in Insert(front, a) ensures Before(x, last) {
          assert x in multiset(Insert(front, a));
        }
      }
    }
  }

  lemma {:induction false} SortedFacts(alerts: seq<Alert>)
    ensures multiset(Sorted(alerts)) == multiset(alerts) && Ordered(Sorted(alerts))
  {
    if alerts != [] {
      var front, last := alerts[..|alerts| - 1], alerts[|alerts| - 1];
      SortedFacts(front);
      InsertFacts(Sorted(front), last);
      assert alerts == front + [last];
    }
  }

  /** No two different alerts share both time and id; distinct ids are enough. */
  ghost predicate KeyedApart(alerts: seq<Alert>) {
    forall a, b :: a in alerts && b in alerts && a.time == b.time && a.id == b.id ==> a == b
  }

  lemma LastComesAfterAll(xs: seq<Alert>, a: Alert)
    requires Ordered(xs) && a in xs
    ensures a == xs[|xs| - 1] || Before(a, xs[|xs| - 1])
  {
  }

  lemma SameLast(xs: seq<Alert>, ys: seq<Alert>)
    requires Ordered(xs) && Ordered(ys) && multiset(xs) == multiset(ys) && KeyedApart(xs)
    requires xs != [] && ys != []
    ensures xs[|xs| - 1] == ys[|ys| - 1]
  {
    var x, y := xs[|xs| - 1], ys[|ys| - 1];
    assert x in multiset(ys) && y in multiset(xs);
    LastComesAfterAll(xs, y);
    LastComesAfterAll(ys, x);
    if x != y { TextAntisymmetric(x.id, y.id); }
  }

  lemma WithoutLast(xs: seq<Alert>)
    requires xs != []
    ensures multiset(xs[..|xs| - 1]) == multiset(xs) - multiset{xs[|xs| - 1]}
  {
    assert xs == xs[..|xs| - 1] + [xs[|xs| - 1]];
  }

  lemma {:induction false} OrderedIsUnique(xs: seq<Alert>, ys: seq<Alert>)
    requires Ordered(xs) && Ordered(ys) && multiset(xs) == multiset(ys) && KeyedApart(xs)
    ensures xs == ys
    decreases |xs|
  {
    assert |xs| == |multiset(xs)| == |ys|;
    if xs != [] {
      SameLast(xs, ys);
      WithoutLast(xs);
      WithoutLast(ys);
      OrderedIsUnique(xs[..|xs| - 1], ys[..|ys| - 1]);
      assert xs == xs[..|xs| - 1] + [xs[|xs| - 1]];
      assert ys == ys[..|ys| - 1] + [ys[|ys| - 1]];
    }
  }

  /** The order the archive is read in does not matter. */
  lemma FoldIgnoresInputOrder(xs: seq<Alert>, ys: seq<Alert>, cfg: Ceilings)
    requires multiset(xs) == multiset(ys) && KeyedApart(xs)
    ensures FoldAll(Sorted(xs), cfg) == FoldAll(Sorted(ys), cfg)
  {
    SortedFacts(xs);
    SortedFacts(ys);
    forall a, b | a in Sorted(xs) && b in Sorted(xs) && a.time == b.time && a.id == b.id ensures a == b {
      assert a in multiset(Sorted(xs)) && b in multiset(Sorted(xs));
    }
    OrderedIsUnique(Sorted(xs), Sorted(ys));
  }

  /** The head of every cluster is its earliest member, and the members of a key's clusters, in
      order, are the ids of that key's alerts in order. */
  lemma MembersPartitionInOrder(alerts: seq<Alert>, cfg: Ceilings, k: ClusterKey)
    ensures var clusters := ClustersOfKey(FoldAll(Sorted(alerts), cfg).clusters, k);
            var runs := Greedy(OfKey(Sorted(alerts), k), cfg);
            && Concat(runs) == OfKey(Sorted(alerts), k)
            && |clusters| == |runs|
            && (forall i :: 0 <= i < |runs| ==> Describes(clusters[i], runs[i]))
            && (forall i, j :: 0 <= i < |runs| && 0 < j < |runs[i]| ==> Before(runs[i][0], runs[i][j]))
  {
    var own := OfKey(Sorted(alerts), k);
    SortedFacts(alerts);
    KeyClustersAreItsOwnFold(Sorted(alerts), cfg, k);
    ClustersAreGreedyRuns(own, cfg);
    GreedyPartitions(own, cfg);
    OfKeyOrdered(Sorted(alerts), k);
    RunsOrdered(Greedy(own, cfg));
  }

  lemma {:induction false} OfKeyOrdered(alerts: seq<Alert>, k: ClusterKey)
    requires Ordered(alerts)
    ensures Ordered(OfKey(alerts, k))
    ensures forall a :: a in OfKey(alerts, k) ==> a in alerts
  {
    if alerts != [] {
      var before, last := alerts[..|alerts| - 1], alerts[|alerts| - 1];
      OfKeyOrdered(before, k);
      OfKeyStep(alerts, k);
      assert alerts == before + [last];
      forall x | x in OfKey(before, k) ensures Before(x, last) {
        assert x in before;
      }
    }
  }

  lemma {:induction false} RunsOrdered(runs: seq<seq<Alert>>)
    requires Ordered(Concat(runs))
    ensures forall i :: 0 <= i < |runs| ==> Ordered(runs[i])
  {
    if runs != [] {
      var n := |runs| - 1;
      var front := Concat(runs[..n]);
      assert Concat(runs) == front + runs[n];
      assert front == Concat(runs)[..|front|] && runs[n] == Concat(runs)[|front|..];
      RunsOrdered(runs[..n]);
    }
  }
}
