/** Largest-remainder allocation, exact in integers: shares are `k * size / total`. */
module Remainder {
  import opened Common

  function Sum(xs: seq<nat>): nat {
    if xs == [] then 0 else Sum(xs[..|xs| - 1]) + xs[|xs| - 1]
  }

  lemma SumMore(xs: seq<nat>, x: nat)
    ensures Sum(xs + [x]) == Sum(xs) + x
  {
    assert (xs + [x])[..|xs|] == xs;
  }

  /** The whole part and the remainder of an exact share, over the common denominator `total`. */
  function Floor(size: nat, k: nat, total: nat): nat
    requires total > 0
  {
    k * size / total
  }

  function Rest(size: nat, k: nat, total: nat): nat
    requires total > 0
  {
    k * size % total
  }

  lemma ShareParts(size: nat, k: nat, total: nat)
    requires total > 0
    ensures total * Floor(size, k, total) + Rest(size, k, total) == k * size && Rest(size, k, total) < total
  {
  }

  function Floors(sizes: seq<nat>, k: nat, total: nat): seq<nat>
    requires total > 0
  {
    seq(|sizes|, i requires 0 <= i < |sizes| => Floor(sizes[i], k, total))
  }

  function Rests(sizes: seq<nat>, k: nat, total: nat): seq<nat>
    requires total > 0
  {
    seq(|sizes|, i requires 0 <= i < |sizes| => Rest(sizes[i], k, total))
  }

  /** The order of the units left over: larger remainder first, then earlier key. */
  predicate Beats(rests: seq<nat>, i: nat, j: nat)
    requires i < |rests| && j < |rests|
  {
    rests[i] > rests[j] || (rests[i] == rests[j] && i < j)
  }

  ghost predicate TopSet(rests: seq<nat>, picked: set<nat>) {
    && (forall i <- picked :: i < |rests|)
    && (forall i, j :: i in picked && 0 <= j < |rests| && j !in picked ==> Beats(rests, i, j))
  }

  ghost predicate Rounded(sizes: seq<nat>, k: nat, total: nat, picked: set<nat>, alloc: seq<nat>)
    requires total > 0
  {
    && |alloc| == |sizes|
    && TopSet(Rests(sizes, k, total), picked)
    && Sum(Floors(sizes, k, total)) + |picked| == k
    && forall i :: 0 <= i < |sizes| ==> alloc[i] == Floor(sizes[i], k, total) + if i in picked then 1 else 0
  }

  /** `alloc` shares `k` out over `sizes`: nothing, everything, or floors with the units left over on
      the largest remainders. */
  ghost predicate Allotted(sizes: seq<nat>, k: int, alloc: seq<nat>) {
    var total := Sum(sizes);
    && |alloc| == |sizes|
    && if k <= 0 || total == 0 then forall i :: 0 <= i < |alloc| ==> alloc[i] == 0
       else if k >= total then alloc == sizes
       else exists picked: set<nat> :: Rounded(sizes, k, total, picked, alloc)
  }

  function Capped(k: int, total: nat): nat {
    if k <= 0 then 0 else if k >= total then total else k
  }

  // ---- sums ---------------------------------------------------------------------------------------

  lemma {:induction false} SumOfShares(sizes: seq<nat>, k: nat, total: nat)
    requires total > 0
    ensures total * Sum(Floors(sizes, k, total)) + Sum(Rests(sizes, k, total)) == k * Sum(sizes)
  {
    if sizes != [] {
      var front, last := sizes[..|sizes| - 1], sizes[|sizes| - 1];
      SumOfShares(front, k, total);
      ShareParts(last, k, total);
      assert Floors(sizes, k, total)[..|front|] == Floors(front, k, total);
      assert Rests(sizes, k, total)[..|front|] == Rests(front, k, total);
      Distribute(total, Sum(Floors(front, k, total)), Floor(last, k, total));
      Distribute(k, Sum(front), last);
    }
  }

  lemma Distribute(a: nat, b: nat, c: nat)
    ensures a * (b + c) == a * b + a * c
  {
  }

  lemma {:induction false} SumZero(xs: seq<nat>)
    requires forall i :: 0 <= i < |xs| ==> xs[i] == 0
    ensures Sum(xs) == 0
  {
    if xs != [] { SumZero(xs[..|xs| - 1]); }
  }

  ghost function Below(picked: set<nat>, n: nat): set<nat> {
    set i <- picked | i < n
  }

  lemma BelowMore(picked: set<nat>, n: nat)
    ensures |Below(picked, n + 1)| == |Below(picked, n)| + if n in picked then 1 else 0
  {
    if n in picked {
      assert Below(picked, n + 1) == Below(picked, n) + {n};
    } else {
      assert Below(picked, n + 1) == Below(picked, n);
    }
  }

  lemma BelowAll(picked: set<nat>, n: nat)
    requires forall i <- picked :: i < n
    ensures Below(picked, n) == picked
  {
  }

  lemma {:induction false} SumWithUnits(floors: seq<nat>, picked: set<nat>, alloc: seq<nat>)
    requires |alloc| == |floors|
    requires forall i :: 0 <= i < |alloc| ==> alloc[i] == floors[i] + if i in picked then 1 else 0
    ensures Sum(alloc) == Sum(floors) + |Below(picked, |floors|)|
  {
    if alloc != [] {
      SumWithUnits(floors[..|floors| - 1], picked, alloc[..|alloc| - 1]);
      BelowMore(picked, |floors| - 1);
    } else {
      assert Below(picked, 0) == {};
    }
  }

  /** The allocation sums to exactly `k`, within nothing and everything. */
  lemma AllottedSum(sizes: seq<nat>, k: int, alloc: seq<nat>)
    requires Allotted(sizes, k, alloc)
    ensures Sum(alloc) == Capped(k, Sum(sizes))
  {
    var total := Sum(sizes);
    if k <= 0 || total == 0 {
      SumZero(alloc);
    } else if k < total {
      var picked :| Rounded(sizes, k, total, picked, alloc);
      SumWithUnits(Floors(sizes, k, total), picked, alloc);
      BelowAll(picked, |sizes|);
    }
  }

  // ---- bounds -------------------------------------------------------------------------------------

  lemma {:induction false} RestsBelow(rests: seq<nat>, picked: set<nat>, total: nat)
    requires forall i :: 0 <= i < |rests| ==> rests[i] < total && (i !in picked ==> rests[i] == 0)
    ensures var n := |Below(picked, |rests|)|;
            Sum(rests) <= total * n && (n > 0 ==> Sum(rests) < total * n)
  {
    if rests == [] {
      assert Below(picked, 0) == {};
    } else {
      var m := |rests| - 1;
      RestsBelow(rests[..m], picked, total);
      BelowMore(picked, m);
      if m in picked { Distribute(total, |Below(picked, m)|, 1); }
    }
  }

  lemma Balance(total: nat, floors: nat, rests: nat, k: nat, units: nat)
    requires total * floors + rests == k * total && floors + units == k
    ensures rests == total * units
  {
    Distribute(total, floors, units);
  }

  /** The remainders add up to one total for each unit left over. */
  lemma RestsAddUp(sizes: seq<nat>, k: nat, total: nat, picked: set<nat>, alloc: seq<nat>)
    requires total == Sum(sizes) > 0 && Rounded(sizes, k, total, picked, alloc)
    ensures Sum(Rests(sizes, k, total)) == total * |picked|
  {
    SumOfShares(sizes, k, total);
    Balance(total, Sum(Floors(sizes, k, total)), Sum(Rests(sizes, k, total)), k, |picked|);
  }

  /** A unit left over goes only to a key with a remainder. */
  lemma PickedHaveRests(sizes: seq<nat>, k: nat, total: nat, picked: set<nat>, alloc: seq<nat>, i: nat)
    requires total == Sum(sizes) > 0 && Rounded(sizes, k, total, picked, alloc) && i in picked
    ensures i < |sizes| && Rest(sizes[i], k, total) > 0
  {
    var rests := Rests(sizes, k, total);
    assert i < |rests|;
    RestsAddUp(sizes, k, total, picked, alloc);
    BelowAll(picked, |rests|);
    assert picked != {};
    if rests[i] == 0 {
      forall j | 0 <= j < |rests| ensures rests[j] < total && (j !in picked ==> rests[j] == 0) {
        if j !in picked { assert Beats(rests, i, j); }
      }
      RestsBelow(rests, picked, total);
    }
  }

  lemma FloorBelowSize(size: nat, k: nat, total: nat)
    requires 0 < k < total && Rest(size, k, total) > 0
    ensures Floor(size, k, total) < size
  {
    ShareParts(size, k, total);
    assert size > 0;
    if Floor(size, k, total) >= size {
      LessTimes(k, total, size);
      LessTimes(size, Floor(size, k, total) + 1, total);
    }
  }

  lemma LessTimes(a: nat, b: nat, c: nat)
    requires a < b && c > 0
    ensures a * c < b * c
  {
  }

  lemma AtMostTimes(a: nat, b: nat, c: nat)
    requires a <= b
    ensures a * c <= b * c
  {
  }

  lemma FloorAtMostSize(size: nat, k: nat, total: nat)
    requires 0 < k < total
    ensures Floor(size, k, total) <= size
  {
    ShareParts(size, k, total);
    if Floor(size, k, total) > size {
      AtMostTimes(k, total, size);
      LessTimes(size, Floor(size, k, total), total);
    }
  }

  /** Each key gets the floor or the ceiling of its exact share, and never more than its size. */
  lemma AllottedBounds(sizes: seq<nat>, k: int, alloc: seq<nat>, i: nat)
    requires Allotted(sizes, k, alloc) && i < |sizes|
    ensures alloc[i] <= sizes[i]
    ensures var total := Sum(sizes);
            0 < k < total ==>
              || alloc[i] == Floor(sizes[i], k, total)
              || (alloc[i] == Floor(sizes[i], k, total) + 1 && Rest(sizes[i], k, total) > 0)
  {
    var total := Sum(sizes);
    if 0 < k < total {
      var picked :| Rounded(sizes, k, total, picked, alloc);
      FloorAtMostSize(sizes[i], k, total);
      if i in picked {
        PickedHaveRests(sizes, k, total, picked, alloc, i);
        FloorBelowSize(sizes[i], k, total);
      }
    }
  }

  // ---- order --------------------------------------------------------------------------------------

  lemma LargerShare(a: nat, b: nat, k: nat, total: nat)
    requires total > 0 && k > 0 && a > b
    ensures Floor(a, k, total) >= Floor(b, k, total)
    ensures Floor(a, k, total) == Floor(b, k, total) ==> Rest(a, k, total) > Rest(b, k, total)
  {
    ShareParts(a, k, total);
    ShareParts(b, k, total);
    LessTimes(b, a, k);
    if Floor(a, k, total) < Floor(b, k, total) {
      AtMostTimes(Floor(a, k, total) + 1, Floor(b, k, total), total);
    }
  }

  /** A larger key never gets less than a smaller one, and equal keys differ by at most one. */
  lemma AllottedInOrder(sizes: seq<nat>, k: int, alloc: seq<nat>, i: nat, j: nat)
    requires Allotted(sizes, k, alloc) && i < |sizes| && j < |sizes|
    ensures sizes[i] > sizes[j] ==> alloc[i] >= alloc[j]
    ensures sizes[i] == sizes[j] ==> alloc[i] <= alloc[j] + 1
  {
    var total := Sum(sizes);
    if 0 < k < total {
      var picked :| Rounded(sizes, k, total, picked, alloc);
      if sizes[i] > sizes[j] {
        LargerShare(sizes[i], sizes[j], k, total);
        if j in picked && i !in picked { assert Beats(Rests(sizes, k, total), j, i); }
      }
    }
  }

  /** The sizes and `k` determine the allocation. */
  lemma AllottedIsUnique(sizes: seq<nat>, k: int, a: seq<nat>, b: seq<nat>)
    requires Allotted(sizes, k, a) && Allotted(sizes, k, b)
    ensures a == b
  {
    var total := Sum(sizes);
    if 0 < k < total {
      var p :| Rounded(sizes, k, total, p, a);
      var q :| Rounded(sizes, k, total, q, b);
      SameTopSet(Rests(sizes, k, total), p, q);
    }
  }

  lemma SameTopSet(rests: seq<nat>, p: set<nat>, q: set<nat>)
    requires TopSet(rests, p) && TopSet(rests, q) && |p| == |q|
    ensures p == q
  {
    if i :| i in p && i !in q {
      if q <= p { SubsetCardinality(q, p); }
      var j :| j in q && j !in p;
    } else {
      SubsetCardinality(p, q);
    }
  }

  // ---- the loops ------------------------------------------------------------------------------------

  /** Strictly in the order of the remainders, and every index once. */
  ghost predicate InOrder(rests: seq<nat>, order: seq<nat>) {
    && (forall p :: 0 <= p < |order| ==> order[p] < |rests|)
    && (forall p, q :: 0 <= p < q < |order| ==> Beats(rests, order[p], order[q]))
  }

  method SortedByRemainder(rests: seq<nat>) returns (order: seq<nat>)
    ensures InOrder(rests, order) && |order| == |rests|
    ensures forall i :: 0 <= i < |rests| ==> i in order
  {
    order := [];
    for i := 0 to |rests|
      invariant InOrder(rests, order) && |order| == i
      invariant forall j :: 0 <= j < i <==> j in order
    {
      var p := |order|;
      while p > 0 && !Beats(rests, order[p - 1], i)
        invariant 0 <= p <= |order|
        invariant forall q :: p <= q < |order| ==> Beats(rests, i, order[q])
      {
        assert order[p - 1] in order;
        p := p - 1;
      }
      var before := order;
      order := order[..p] + [i] + order[p..];
      InsertedInOrder(rests, before, p, i);
    }
  }

  lemma InsertedInOrder(rests: seq<nat>, order: seq<nat>, p: nat, i: nat)
    requires InOrder(rests, order) && p <= |order| && i < |rests|
    requires p > 0 ==> Beats(rests, order[p - 1], i)
    requires forall q :: p <= q < |order| ==> Beats(rests, i, order[q])
    ensures InOrder(rests, order[..p] + [i] + order[p..])
    ensures forall j :: j in order[..p] + [i] + order[p..] <==> j in order || j == i
  {
    var longer := order[..p] + [i] + order[p..];
    forall a, b | 0 <= a < b < |longer| ensures Beats(rests, longer[a], longer[b]) {
      if a < p && b == p && a < p - 1 { assert Beats(rests, order[a], order[p - 1]); }
    }
    assert order == order[..p] + order[p..];
  }

  /** As many indices as units come first in the order. */
  lemma FirstAreTop(rests: seq<nat>, order: seq<nat>, units: nat) returns (picked: set<nat>)
    requires InOrder(rests, order) && |order| == |rests| && units <= |order|
    requires forall i :: 0 <= i < |rests| ==> i in order
    ensures picked == Elements(order[..units]) && |picked| == units && TopSet(rests, picked)
  {
    picked := Elements(order[..units]);
    RepeatsShowInCardinality(order[..units]);
    assert NoRepeats(order[..units]) by {
      forall a, b | 0 <= a < b < units ensures order[a] != order[b] { assert Beats(rests, order[a], order[b]); }
    }
    assert forall q :: 0 <= q < units ==> order[q] in order[..units];
    forall i, j | i in picked && 0 <= j < |rests| && j !in picked ensures Beats(rests, i, j) {
      var a :| 0 <= a < units && order[a] == i;
      assert j in order;
      var b :| 0 <= b < |order| && order[b] == j;
      assert Beats(rests, order[a], order[b]);
    }
  }

  ghost function UpTo(n: nat): set<nat> {
    if n == 0 then {} else UpTo(n - 1) + {n - 1}
  }

  lemma {:induction false} UpToFacts(n: nat)
    ensures |UpTo(n)| == n && forall i: nat :: i in UpTo(n) <==> i < n
  {
    if n > 0 { UpToFacts(n - 1); }
  }

  lemma RestsAreFew(sizes: seq<nat>, k: nat, total: nat)
    requires total > 0
    ensures Sum(Rests(sizes, k, total)) <= total * |sizes|
  {
    var rests := Rests(sizes, k, total);
    UpToFacts(|sizes|);
    RestsBelow(rests, UpTo(|sizes|), total);
    BelowAll(UpTo(|sizes|), |rests|);
  }

  lemma UnitsBetween(total: nat, floors: nat, rests: nat, k: nat, n: nat)
    requires total > 0 && total * floors + rests == k * total && rests <= total * n
    ensures floors <= k <= floors + n
  {
    if floors > k { LessTimes(k, floors, total); }
    if floors + n < k {
      LessTimes(floors + n, k, total);
      Distribute(total, floors, n);
    }
  }

  lemma UnitsAreFew(sizes: seq<nat>, k: nat, total: nat)
    requires total == Sum(sizes) && 0 < k < total
    ensures Sum(Floors(sizes, k, total)) <= k <= Sum(Floors(sizes, k, total)) + |sizes|
  {
    var f := Sum(Floors(sizes, k, total));
    SumOfShares(sizes, k, total);
    RestsAreFew(sizes, k, total);
    UnitsBetween(total, f, Sum(Rests(sizes, k, total)), k, |sizes|);
  }

  function Counts<K>(sizes: seq<(K, nat)>): seq<nat> {
    seq(|sizes|, i requires 0 <= i < |sizes| => sizes[i].1)
  }

  ghost predicate DistinctKeys<K>(sizes: seq<(K, nat)>) {
    forall i, j :: 0 <= i < j < |sizes| ==> sizes[i].0 != sizes[j].0
  }

  /** What a map gives the keys of `sizes`, in their order. */
  function Given<K>(sizes: seq<(K, nat)>, alloc: map<K, nat>): seq<nat>
    requires forall i :: 0 <= i < |sizes| ==> sizes[i].0 in alloc
  {
    seq(|sizes|, i requires 0 <= i < |sizes| => alloc[sizes[i].0])
  }

  function KeysOf<K>(sizes: seq<(K, nat)>): set<K> {
    set i | 0 <= i < |sizes| :: sizes[i].0
  }

  method TotalSize<K>(sizes: seq<(K, nat)>) returns (total: nat)
    ensures total == Sum(Counts(sizes))
  {
    total := 0;
    for i := 0 to |sizes|
      invariant total == Sum(Counts(sizes)[..i])
    {
      assert Counts(sizes)[..i + 1] == Counts(sizes)[..i] + [sizes[i].1];
      SumMore(Counts(sizes)[..i], sizes[i].1);
      total := total + sizes[i].1;
    }
    assert Counts(sizes)[..|sizes|] == Counts(sizes);
  }

  method GiveSizes<K(==)>(sizes: seq<(K, nat)>) returns (alloc: map<K, nat>)
    requires DistinctKeys(sizes)
    ensures alloc.Keys == KeysOf(sizes) && Given(sizes, alloc) == Counts(sizes)
  {
    alloc := map[];
    for i := 0 to |sizes|
      invariant alloc.Keys == KeysOf(sizes[..i])
      invariant forall j :: 0 <= j < i ==> sizes[j].0 in alloc && alloc[sizes[j].0] == sizes[j].1
    {
      alloc := alloc[sizes[i].0 := sizes[i].1];
    }
    assert sizes[..|sizes|] == sizes;
  }

  method GiveFloors<K(==)>(sizes: seq<(K, nat)>, k: nat, total: nat) returns (alloc: map<K, nat>, floors: nat)
    requires DistinctKeys(sizes) && total > 0
    ensures alloc.Keys == KeysOf(sizes) && Given(sizes, alloc) == Floors(Counts(sizes), k, total)
    ensures floors == Sum(Floors(Counts(sizes), k, total))
  {
    alloc, floors := map[], 0;
    ghost var whole := Floors(Counts(sizes), k, total);
    for i := 0 to |sizes|
      invariant alloc.Keys == KeysOf(sizes[..i])
      invariant floors == Sum(whole[..i])
      invariant forall j :: 0 <= j < i ==> sizes[j].0 in alloc && alloc[sizes[j].0] == whole[j]
    {
      SumMore(whole[..i], whole[i]);
      assert whole[..i + 1] == whole[..i] + [whole[i]];
      alloc := alloc[sizes[i].0 := Floor(sizes[i].1, k, total)];
      floors := floors + Floor(sizes[i].1, k, total);
    }
    assert sizes[..|sizes|] == sizes && whole[..|sizes|] == whole;
  }

  lemma NotEarlier(rests: seq<nat>, order: seq<nat>, p: nat)
    requires InOrder(rests, order) && p < |order|
    ensures order[p] !in order[..p]
  {
    forall q | 0 <= q < p ensures order[q] != order[p] { assert Beats(rests, order[q], order[p]); }
  }

  /** One unit each to the first keys of the order. */
  method GiveUnits<K(==)>(sizes: seq<(K, nat)>, start: map<K, nat>, order: seq<nat>, units: nat, ghost rests: seq<nat>)
      returns (alloc: map<K, nat>)
    requires DistinctKeys(sizes) && start.Keys == KeysOf(sizes) && |rests| == |sizes|
    requires InOrder(rests, order) && units <= |order|
    ensures alloc.Keys == KeysOf(sizes)
    ensures forall j :: 0 <= j < |sizes| ==>
              alloc[sizes[j].0] == start[sizes[j].0] + if j in order[..units] then 1 else 0
  {
    alloc := start;
    for p := 0 to units
      invariant alloc.Keys == KeysOf(sizes)
      invariant forall j :: 0 <= j < |sizes| ==>
                  alloc[sizes[j].0] == start[sizes[j].0] + if j in order[..p] then 1 else 0
    {
      var i := order[p];
      NotEarlier(rests, order, p);
      assert order[..p + 1] == order[..p] + [i];
      alloc := alloc[sizes[i].0 := alloc[sizes[i].0] + 1];
    }
  }

  lemma FloorsAndUnits(counts: seq<nat>, k: nat, total: nat, picked: set<nat>, alloc: seq<nat>)
    requires total == Sum(counts) && 0 < k < total && Rounded(counts, k, total, picked, alloc)
    ensures Allotted(counts, k, alloc)
  {
  }

  /** Floors first, then the units left over in the order of the remainders. */
  method ShareOut<K(==)>(sizes: seq<(K, nat)>, k: nat, total: nat) returns (alloc: map<K, nat>)
    requires DistinctKeys(sizes) && total == Sum(Counts(sizes)) && 0 < k < total
    ensures alloc.Keys == KeysOf(sizes)
    ensures Allotted(Counts(sizes), k, Given(sizes, alloc))
  {
    var counts := Counts(sizes);
    var start, floors := GiveFloors(sizes, k, total);
    UnitsAreFew(counts, k, total);
    var rests := Rests(counts, k, total);
    var order := SortedByRemainder(rests);
    ghost var picked := FirstAreTop(rests, order, k - floors);
    alloc := GiveUnits(sizes, start, order, k - floors, rests);
    forall i | 0 <= i < |sizes|
      ensures Given(sizes, alloc)[i] == Floor(counts[i], k, total) + if i in picked then 1 else 0
    {
      assert Given(sizes, start)[i] == Floors(counts, k, total)[i];
    }
    FloorsAndUnits(counts, k, total, picked, Given(sizes, alloc));
  }

  method LargestRemainder<K(==)>(sizes: seq<(K, nat)>, k: int) returns (alloc: map<K, nat>)
    requires DistinctKeys(sizes)
    ensures alloc.Keys == KeysOf(sizes)
    ensures Allotted(Counts(sizes), k, Given(sizes, alloc))
  {
    var total := TotalSize(sizes);
    if k <= 0 || total == 0 {
      alloc := map x | x in KeysOf(sizes) :: 0;
    } else if k >= total {
      alloc := GiveSizes(sizes);
    } else {
      alloc := ShareOut(sizes, k, total);
    }
  }
}
