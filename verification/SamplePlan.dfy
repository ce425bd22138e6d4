/** How many rows each stratum of a pool contributes to the sample. */
module SamplePlan {
  import opened Common
  import opened Remainder
  import opened Topup

  datatype Severity = Critical | High | Medium | Low
  type Stratum = (string, Severity)
  datatype Row = Row(id: string, category: string, severity: Severity)

  const UNKNOWN := "unknown"
  const ALL := [Critical, High, Medium, Low]
  const CRIT_HIGH := [Critical, High]
  const MEDIUM_LOW := [Medium, Low]

  function Min(a: nat, b: nat): nat {
    if a < b then a else b
  }

  /** What is left of `total` for others. */
  function Rest(total: int, drawn: int): int {
    total - drawn
  }

  /** A counter of strata: missing keys count as zero. */
  function At(m: map<Stratum, nat>, c: string, s: Severity): nat {
    if (c, s) in m then m[(c, s)] else 0
  }

  function RowSum(m: map<Stratum, nat>, c: string, ss: seq<Severity>): nat {
    if ss == [] then 0 else RowSum(m, c, ss[..|ss| - 1]) + At(m, c, ss[|ss| - 1])
  }

  function GridSum(m: map<Stratum, nat>, cs: seq<string>, ss: seq<Severity>): nat {
    if cs == [] then 0 else GridSum(m, cs[..|cs| - 1], ss) + RowSum(m, cs[|cs| - 1], ss)
  }

  function RowSums(m: map<Stratum, nat>, cs: seq<string>, ss: seq<Severity>): (sums: map<string, nat>)
    ensures sums.Keys == Elements(cs)
  {
    map c | c in cs :: RowSum(m, c, ss)
  }

  function Zeros(cs: seq<string>): (zeros: map<string, nat>)
    ensures zeros.Keys == Elements(cs)
  {
    map c | c in cs :: 0
  }

  lemma {:induction false} RowSumsAddUp(m: map<Stratum, nat>, cs: seq<string>, all: seq<string>, ss: seq<Severity>)
    requires forall c <- cs :: c in all
    ensures SumOver(cs, RowSums(m, all, ss)) == GridSum(m, cs, ss)
  {
    if cs != [] {
      assert cs[|cs| - 1] in all;
      RowSumsAddUp(m, cs[..|cs| - 1], all, ss);
    }
  }

  lemma {:induction false} RowSumSame(m: map<Stratum, nat>, n: map<Stratum, nat>, c: string, ss: seq<Severity>)
    requires forall s <- ss :: At(m, c, s) == At(n, c, s)
    ensures RowSum(m, c, ss) == RowSum(n, c, ss)
  {
    if ss != [] { RowSumSame(m, n, c, ss[..|ss| - 1]); }
  }

  lemma {:induction false} GridSumSame(m: map<Stratum, nat>, n: map<Stratum, nat>, cs: seq<string>, ss: seq<Severity>)
    requires forall c <- cs :: RowSum(m, c, ss) == RowSum(n, c, ss)
    ensures GridSum(m, cs, ss) == GridSum(n, cs, ss)
  {
    if cs != [] { GridSumSame(m, n, cs[..|cs| - 1], ss); }
  }

  lemma RowMore(m: map<Stratum, nat>, c: string, ss: seq<Severity>, s: Severity)
    ensures RowSum(m, c, ss + [s]) == RowSum(m, c, ss) + At(m, c, s)
  {
    assert (ss + [s])[..|ss|] == ss;
  }

  lemma RowOfAll(m: map<Stratum, nat>, c: string)
    ensures RowSum(m, c, ALL) == RowSum(m, c, CRIT_HIGH) + RowSum(m, c, MEDIUM_LOW)
    ensures RowSum(m, c, CRIT_HIGH) == At(m, c, Critical) + At(m, c, High)
    ensures RowSum(m, c, MEDIUM_LOW) == At(m, c, Medium) + At(m, c, Low)
  {
    assert [] + [Critical] == [Critical] && [Critical] + [High] == CRIT_HIGH;
    assert CRIT_HIGH + [Medium] == [Critical, High, Medium] && [Critical, High, Medium] + [Low] == ALL;
    assert [] + [Medium] == [Medium] && [Medium] + [Low] == MEDIUM_LOW;
    RowMore(m, c, [], Critical);
    RowMore(m, c, [Critical], High);
    RowMore(m, c, [Critical, High], Medium);
    RowMore(m, c, [Critical, High, Medium], Low);
    RowMore(m, c, [], Medium);
    RowMore(m, c, [Medium], Low);
  }

  lemma {:induction false} GridOfAll(m: map<Stratum, nat>, cs: seq<string>)
    ensures GridSum(m, cs, ALL) == GridSum(m, cs, CRIT_HIGH) + GridSum(m, cs, MEDIUM_LOW)
  {
    if cs != [] {
      GridOfAll(m, cs[..|cs| - 1]);
      RowOfAll(m, cs[|cs| - 1]);
    }
  }

  ghost predicate Within(m: map<Stratum, nat>, n: map<Stratum, nat>) {
    m.Keys == n.Keys && forall k <- m :: m[k] <= n[k]
  }

  lemma {:induction false} RowWithin(m: map<Stratum, nat>, n: map<Stratum, nat>, c: string, ss: seq<Severity>)
    requires Within(m, n)
    ensures RowSum(m, c, ss) <= RowSum(n, c, ss)
    ensures RowSum(m, c, ss) == RowSum(n, c, ss) ==> forall s <- ss :: At(m, c, s) == At(n, c, s)
  {
    if ss != [] {
      RowWithin(m, n, c, ss[..|ss| - 1]);
      assert ss == ss[..|ss| - 1] + [ss[|ss| - 1]];
    }
  }

  // ---- shares over categories and severities ------------------------------------------------------

  function Pairs(cs: seq<string>, sizes: map<string, nat>): (ps: seq<(string, nat)>)
    requires forall c <- cs :: c in sizes
    ensures |ps| == |cs| && forall i :: 0 <= i < |cs| ==> ps[i] == (cs[i], sizes[cs[i]])
  {
    seq(|cs|, i requires 0 <= i < |cs| => (cs[i], sizes[cs[i]]))
  }

  lemma PairKeys(cs: seq<string>, sizes: map<string, nat>)
    requires NoRepeats(cs) && sizes.Keys == Elements(cs)
    ensures DistinctKeys(Pairs(cs, sizes)) && KeysOf(Pairs(cs, sizes)) == sizes.Keys
  {
    var ps := Pairs(cs, sizes);
    forall c | c in sizes ensures c in KeysOf(ps) {
      var i :| 0 <= i < |cs| && cs[i] == c;
      assert ps[i].0 == c;
    }
  }

  lemma {:induction false} SumOfSeq(cs: seq<string>, m: map<string, nat>, xs: seq<nat>)
    requires |cs| == |xs| && forall i :: 0 <= i < |cs| ==> cs[i] in m && m[cs[i]] == xs[i]
    ensures SumOver(cs, m) == Sum(xs)
  {
    if cs != [] { SumOfSeq(cs[..|cs| - 1], m, xs[..|xs| - 1]); }
  }

  method AllocateOver(cs: seq<string>, sizes: map<string, nat>, k: int) returns (alloc: map<string, nat>)
    requires NoRepeats(cs) && sizes.Keys == Elements(cs)
    ensures alloc.Keys == sizes.Keys
    ensures SumOver(cs, alloc) == Capped(k, SumOver(cs, sizes))
    ensures forall c <- cs :: alloc[c] <= sizes[c]
    ensures Shared(Pairs(cs, sizes), k, alloc)
  {
    var pairs := Pairs(cs, sizes);
    PairKeys(cs, sizes);
    alloc := LargestRemainder(pairs, k);
    AllocatedOver(cs, sizes, k, alloc);
  }

  lemma AllocatedOver(cs: seq<string>, sizes: map<string, nat>, k: int, alloc: map<string, nat>)
    requires (forall c <- cs :: c in sizes) && (forall c <- cs :: c in alloc)
    requires Allotted(Counts(Pairs(cs, sizes)), k, Given(Pairs(cs, sizes), alloc))
    ensures SumOver(cs, alloc) == Capped(k, SumOver(cs, sizes))
    ensures forall c <- cs :: alloc[c] <= sizes[c]
  {
    var ps := Pairs(cs, sizes);
    AllottedSum(Counts(ps), k, Given(ps, alloc));
    SumOfSeq(cs, sizes, Counts(ps));
    SumOfSeq(cs, alloc, Given(ps, alloc));
    forall i | 0 <= i < |cs| ensures alloc[cs[i]] <= sizes[cs[i]] {
      AllottedBounds(Counts(ps), k, Given(ps, alloc), i);
    }
  }

  /** The strata of a category that are in the pool, with their sizes. */
  function Present(size: map<Stratum, nat>, c: string, ss: seq<Severity>): seq<(Stratum, nat)> {
    if ss == [] then []
    else
      var s := ss[|ss| - 1];
      Present(size, c, ss[..|ss| - 1]) + if (c, s) in size then [((c, s), size[(c, s)])] else []
  }

  ghost predicate Listed(size: map<Stratum, nat>, c: string, ss: seq<Severity>, p: (Stratum, nat)) {
    p.0 in size && p.0.0 == c && p.0.1 in ss && p.1 == size[p.0]
  }

  lemma {:induction false} PresentMembers(size: map<Stratum, nat>, c: string, ss: seq<Severity>, p: (Stratum, nat))
    ensures p in Present(size, c, ss) <==> Listed(size, c, ss, p)
  {
    if ss != [] {
      PresentMembers(size, c, ss[..|ss| - 1], p);
      assert ss == ss[..|ss| - 1] + [ss[|ss| - 1]];
    }
  }

  lemma {:induction false} PresentIsDistinct(size: map<Stratum, nat>, c: string, ss: seq<Severity>)
    requires NoRepeats(ss)
    ensures DistinctKeys(Present(size, c, ss))
  {
    if ss != [] {
      var front, s := ss[..|ss| - 1], ss[|ss| - 1];
      PresentIsDistinct(size, c, front);
      var before := Present(size, c, front);
      forall i | 0 <= i < |before| ensures before[i].0 != (c, s) {
        PresentMembers(size, c, front, before[i]);
        assert before[i] in before && s !in front;
      }
    }
  }

  /** Any map with the same strata gives the present ones the sum of the row. */
  lemma {:induction false} GivenToPresent(size: map<Stratum, nat>, c: string, ss: seq<Severity>, m: map<Stratum, nat>)
    requires m.Keys == size.Keys
    requires forall i :: 0 <= i < |Present(size, c, ss)| ==> Present(size, c, ss)[i].0 in m
    ensures Sum(Given(Present(size, c, ss), m)) == RowSum(m, c, ss)
  {
    var ps := Present(size, c, ss);
    if ss == [] {
      assert Given(ps, m) == [];
    } else {
      var front, s := ss[..|ss| - 1], ss[|ss| - 1];
      var before := Present(size, c, front);
      assert forall i :: 0 <= i < |before| ==> before[i] == ps[i];
      GivenToPresent(size, c, front, m);
      if (c, s) in size {
        SumMore(Given(before, m), m[(c, s)]);
        assert Given(ps, m) == Given(before, m) + [m[(c, s)]];
      } else {
        assert ps == before;
      }
    }
  }

  /** The strata come in the order of the severities. */
  lemma {:induction false} PresentInOrder(size: map<Stratum, nat>, c: string, a: seq<Severity>, b: seq<Severity>)
    ensures Present(size, c, a + b) == Present(size, c, a) + Present(size, c, b)
  {
    if b == [] {
      assert a + b == a;
    } else {
      PresentInOrder(size, c, a, b[..|b| - 1]);
      assert (a + b)[..|a + b| - 1] == a + b[..|b| - 1];
    }
  }

  lemma PresentSizes(size: map<Stratum, nat>, c: string, ss: seq<Severity>)
    ensures Sum(Counts(Present(size, c, ss))) == RowSum(size, c, ss)
    ensures forall i :: 0 <= i < |Present(size, c, ss)| ==> Listed(size, c, ss, Present(size, c, ss)[i])
  {
    var ps := Present(size, c, ss);
    forall i | 0 <= i < |ps| ensures Listed(size, c, ss, ps[i]) { PresentMembers(size, c, ss, ps[i]); }
    GivenToPresent(size, c, ss, size);
    assert Given(ps, size) == Counts(ps);
  }

  /** Nothing but these strata of this category changes. */
  ghost predicate OnlyRow(a: map<Stratum, nat>, b: map<Stratum, nat>, c: string, ss: seq<Severity>) {
    a.Keys == b.Keys && forall k <- a :: k.0 != c || k.1 !in ss ==> a[k] == b[k]
  }

  method PutShares(size: map<Stratum, nat>, start: map<Stratum, nat>, c: string, ss: seq<Severity>,
                   present: seq<(Stratum, nat)>, shares: map<Stratum, nat>) returns (plan: map<Stratum, nat>)
    requires DistinctKeys(present) && Within(start, size) && shares.Keys == KeysOf(present)
    requires forall i :: 0 <= i < |present| ==> Listed(size, c, ss, present[i]) && present[i].0 in shares
                                                && shares[present[i].0] <= present[i].1
    ensures Within(plan, size) && OnlyRow(plan, start, c, ss)
    ensures forall i :: 0 <= i < |present| ==> present[i].0 in plan && plan[present[i].0] == shares[present[i].0]
  {
    plan := start;
    for i := 0 to |present|
      invariant Within(plan, size) && OnlyRow(plan, start, c, ss)
      invariant forall j :: 0 <= j < i ==> plan[present[j].0] == shares[present[j].0]
    {
      assert Listed(size, c, ss, present[i]);
      plan := plan[present[i].0 := shares[present[i].0]];
    }
  }

  /** By largest remainder. */
  ghost predicate Shared<K>(sizes: seq<(K, nat)>, k: int, alloc: map<K, nat>) {
    (forall i :: 0 <= i < |sizes| ==> sizes[i].0 in alloc) && Allotted(Counts(sizes), k, Given(sizes, alloc))
  }

  /** A category has `k` in these strata, or all there is, shared out over the severities by largest
      remainder. */
  ghost predicate SharedOut(size: map<Stratum, nat>, plan: map<Stratum, nat>, c: string, ss: seq<Severity>, k: int) {
    RowSum(plan, c, ss) == Capped(k, RowSum(size, c, ss)) && Shared(Present(size, c, ss), k, plan)
  }

  lemma SharedOutSame(size: map<Stratum, nat>, plan: map<Stratum, nat>, next: map<Stratum, nat>, c: string,
                      ss: seq<Severity>, k: int)
    requires SharedOut(size, plan, c, ss, k) && plan.Keys == next.Keys
    requires forall s <- ss :: At(plan, c, s) == At(next, c, s)
    ensures SharedOut(size, next, c, ss, k)
  {
    var present := Present(size, c, ss);
    RowSumSame(plan, next, c, ss);
    forall i | 0 <= i < |present| ensures Given(present, next)[i] == Given(present, plan)[i] {
      PresentMembers(size, c, ss, present[i]);
      assert present[i] in present;
      assert At(plan, c, present[i].0.1) == At(next, c, present[i].0.1);
    }
    assert Given(present, next) == Given(present, plan);
  }

  /** Share `k` out over the severities of one category. */
  method SplitCategory(size: map<Stratum, nat>, start: map<Stratum, nat>, c: string, k: int, ss: seq<Severity>)
      returns (plan: map<Stratum, nat>)
    requires NoRepeats(ss) && Within(start, size)
    ensures Within(plan, size) && OnlyRow(plan, start, c, ss)
    ensures SharedOut(size, plan, c, ss, k)
  {
    var present := Present(size, c, ss);
    PresentSizes(size, c, ss);
    PresentIsDistinct(size, c, ss);
    var shares := LargestRemainder(present, k);
    AllottedSum(Counts(present), k, Given(present, shares));
    forall i | 0 <= i < |present| ensures present[i].0 in shares && shares[present[i].0] <= present[i].1 {
      AllottedBounds(Counts(present), k, Given(present, shares), i);
      assert Given(present, shares)[i] <= Counts(present)[i];
    }
    plan := PutShares(size, start, c, ss, present, shares);
    GivenToPresent(size, c, ss, plan);
    assert Given(present, plan) == Given(present, shares);
  }

  /** Split every category's allocation over severities. */
  method SplitAll(size: map<Stratum, nat>, start: map<Stratum, nat>, cs: seq<string>, alloc: map<string, nat>,
                  ss: seq<Severity>) returns (plan: map<Stratum, nat>)
    requires NoRepeats(cs) && NoRepeats(ss) && Within(start, size)
    requires forall c <- cs :: c in alloc && alloc[c] <= RowSum(size, c, ss)
    ensures Within(plan, size)
    ensures forall k <- plan :: k.0 !in cs || k.1 !in ss ==> plan[k] == start[k]
    ensures forall c <- cs :: SharedOut(size, plan, c, ss, alloc[c])
  {
    plan := start;
    for i := 0 to |cs|
      invariant Within(plan, size)
      invariant forall k <- plan :: k.0 !in cs[..i] || k.1 !in ss ==> plan[k] == start[k]
      invariant forall c <- cs[..i] :: SharedOut(size, plan, c, ss, alloc[c])
    {
      assert cs[i] in cs && cs[..i + 1] == cs[..i] + [cs[i]];
      var next := SplitCategory(size, plan, cs[i], alloc[cs[i]], ss);
      forall c | c in cs[..i] ensures SharedOut(size, next, c, ss, alloc[c]) {
        assert c != cs[i];
        SharedOutSame(size, plan, next, c, ss, alloc[c]);
      }
      plan := next;
    }
    assert cs[..|cs|] == cs;
  }

  method TakeAll(size: map<Stratum, nat>, start: map<Stratum, nat>, strata: set<Stratum>)
      returns (plan: map<Stratum, nat>)
    requires Within(start, size) && strata <= size.Keys
    ensures Within(plan, size)
    ensures forall k <- plan :: plan[k] == if k in strata then size[k] else start[k]
  {
    plan := start;
    var left := strata;
    while left != {}
      invariant left <= strata && Within(plan, size)
      invariant forall k <- plan :: plan[k] == if k in strata && k !in left then size[k] else start[k]
      decreases |left|
    {
      var k :| k in left;
      plan := plan[k := size[k]];
      left := left - {k};
    }
  }

  // ---- what a plan promises ---------------------------------------------------------------------------

  function Classified(cs: seq<string>): seq<string> {
    if cs == [] then []
    else Classified(cs[..|cs| - 1]) + if cs[|cs| - 1] != UNKNOWN then [cs[|cs| - 1]] else []
  }

  lemma {:induction false} ClassifiedFacts(cs: seq<string>)
    requires NoRepeats(cs)
    ensures NoRepeats(Classified(cs)) && forall c :: c in Classified(cs) <==> c in cs && c != UNKNOWN
  {
    if cs != [] {
      ClassifiedFacts(cs[..|cs| - 1]);
      assert cs == cs[..|cs| - 1] + [cs[|cs| - 1]];
      assert cs[|cs| - 1] !in cs[..|cs| - 1];
    }
  }

  /** And the classified categories in the order of all. */
  lemma {:induction false} ClassifiedInOrder(a: seq<string>, b: seq<string>)
    ensures Classified(a + b) == Classified(a) + Classified(b)
  {
    if b == [] {
      assert a + b == a;
    } else {
      ClassifiedInOrder(a, b[..|b| - 1]);
      assert (a + b)[..|a + b| - 1] == a + b[..|b| - 1];
    }
  }

  lemma GridMore(m: map<Stratum, nat>, cs: seq<string>, c: string, ss: seq<Severity>)
    ensures GridSum(m, cs + [c], ss) == GridSum(m, cs, ss) + RowSum(m, c, ss)
  {
    assert (cs + [c])[..|cs|] == cs;
  }

  lemma {:induction false} UnknownApart(m: map<Stratum, nat>, cs: seq<string>, ss: seq<Severity>)
    requires NoRepeats(cs)
    ensures GridSum(m, cs, ss) == GridSum(m, Classified(cs), ss) + if UNKNOWN in cs then RowSum(m, UNKNOWN, ss) else 0
  {
    if cs != [] {
      var front, last := cs[..|cs| - 1], cs[|cs| - 1];
      UnknownApart(m, front, ss);
      assert cs == front + [last] && last !in front;
      if last != UNKNOWN {
        GridMore(m, Classified(front), last, ss);
      } else {
        assert Classified(cs) == Classified(front);
      }
      assert UNKNOWN in cs <==> UNKNOWN in front || last == UNKNOWN;
    }
  }

  lemma {:induction false} AbsentRow(m: map<Stratum, nat>, c: string, ss: seq<Severity>)
    requires forall k <- m :: k.0 != c
    ensures RowSum(m, c, ss) == 0
  {
    if ss != [] { AbsentRow(m, c, ss[..|ss| - 1]); }
  }

  /** A pool, by stratum: every category of a stratum is listed once. */
  ghost predicate PoolOk(size: map<Stratum, nat>, cs: seq<string>) {
    NoRepeats(cs) && forall k <- size :: k.0 in cs
  }

  lemma TotalApart(m: map<Stratum, nat>, cs: seq<string>, ss: seq<Severity>)
    requires PoolOk(m, cs)
    ensures GridSum(m, cs, ss) == GridSum(m, Classified(cs), ss) + RowSum(m, UNKNOWN, ss)
  {
    UnknownApart(m, cs, ss);
    if UNKNOWN !in cs { AbsentRow(m, UNKNOWN, ss); }
  }

  function Planned(plan: map<Stratum, nat>, cs: seq<string>): nat {
    GridSum(plan, cs, ALL)
  }

  function UnknownPart(plan: map<Stratum, nat>): nat {
    RowSum(plan, UNKNOWN, ALL)
  }

  /** Within the pool and the target; `unknown` within its budget, or within what the take-all rule
      took of it; and short only when all that is classified is taken and the cap keeps some of
      `unknown` out. */
  ghost predicate Sound(size: map<Stratum, nat>, cs: seq<string>, target: nat, budget: nat, taken: nat,
                        plan: map<Stratum, nat>)
  {
    && Within(plan, size)
    && Planned(plan, cs) <= target
    && (UnknownPart(plan) <= budget || UnknownPart(plan) <= taken)
    && (Planned(plan, cs) < target ==>
          && (forall k <- plan :: k.0 != UNKNOWN ==> plan[k] == size[k])
          && budget <= UnknownPart(plan) < UnknownPart(size))
  }

  lemma FullRow(plan: map<Stratum, nat>, size: map<Stratum, nat>, c: string)
    requires Within(plan, size) && RowSum(plan, c, ALL) == RowSum(size, c, ALL)
    ensures forall k <- plan :: k.0 == c ==> plan[k] == size[k]
  {
    RowWithin(plan, size, c, ALL);
    forall k | k in plan && k.0 == c ensures plan[k] == size[k] {
      assert k.1 == ALL[0] || k.1 == ALL[1] || k.1 == ALL[2] || k.1 == ALL[3];
      assert k.1 in ALL && k == (c, k.1);
      assert At(plan, c, k.1) == At(size, c, k.1);
    }
  }

  lemma FullClassified(plan: map<Stratum, nat>, size: map<Stratum, nat>, cs: seq<string>)
    requires PoolOk(size, cs) && Within(plan, size)
    requires forall c <- Classified(cs) :: RowSum(plan, c, ALL) == RowSum(size, c, ALL)
    ensures forall k <- plan :: k.0 != UNKNOWN ==> plan[k] == size[k]
  {
    ClassifiedFacts(cs);
    forall k | k in plan && k.0 != UNKNOWN ensures plan[k] == size[k] { FullRow(plan, size, k.0); }
  }

  // ---- the branches -------------------------------------------------------------------------------------

  datatype Note = TakeAllExceeds(taken: nat, target: nat)
                | UnknownCapBinds(given: nat, proportional: nat, budget: nat)
                | UnknownCapExceeded(taken: nat, budget: nat)
                | ClassifiedExceed(classified: nat, target: nat)
                | Floor(stuck: Stuck)
                | Short(planned: nat, target: nat, budget: nat)

  function Floors(stuck: seq<Stuck>): seq<Note> {
    seq(|stuck|, i requires 0 <= i < |stuck| => Floor(stuck[i]))
  }

  /** Shares of `k` over categories by largest remainder, then raised to the floors until each has its floor
      or nobody has anything to give. */
  ghost predicate SharedThenLifted(r: Rules, cs: seq<string>, open: map<string, nat>, k: int, start: map<string, nat>,
                                   alloc: map<string, nat>)
    requires forall c <- cs :: c in open
  {
    && start.Keys == Elements(cs) && Shared(Pairs(cs, open), k, start) && Kept(r, cs, start, alloc)
    && (Unlifted(r, cs, alloc) == [] || NothingToGive(r, cs, alloc))
  }

  lemma LiftStaysWithin(r: Rules, cs: seq<string>, open: map<string, nat>, start: map<string, nat>,
                        alloc: map<string, nat>, c: string)
    requires Kept(r, cs, start, alloc) && c in cs && c in start && start[c] <= Get(open, c)
    requires Get(r.fixed, c) + Get(open, c) == Get(r.pool, c)
    ensures alloc[c] <= Get(open, c)
  {
  }

  /** An allocation over categories, raised to the floors, that stays within what is there to give. */
  method AllocateAndLift(cs: seq<string>, open: map<string, nat>, r: Rules, k: int)
      returns (alloc: map<string, nat>, stuck: seq<Stuck>, ghost start: map<string, nat>)
    requires NoRepeats(cs) && open.Keys == Elements(cs)
    requires forall c <- cs :: Get(r.fixed, c) + Get(open, c) == Get(r.pool, c)
    ensures alloc.Keys == Elements(cs) && SharedThenLifted(r, cs, open, k, start, alloc)
    ensures SumOver(cs, alloc) == Capped(k, SumOver(cs, open))
    ensures forall c <- cs :: alloc[c] <= open[c]
    ensures stuck == Unlifted(r, cs, alloc)
  {
    var shares := AllocateOver(cs, open, k);
    alloc, stuck := FloorTopup(shares, r, cs);
    start := shares;
    forall c | c in cs ensures alloc[c] <= open[c] { LiftStaysWithin(r, cs, open, shares, alloc, c); }
  }

  // ---- what the plan gives the classified categories --------------------------------------------------

  /** The rules of the floor for a plan whose strata of `fixed` severities are not up for sharing. */
  function RulesOf(size: map<Stratum, nat>, cs: seq<string>, plan: map<Stratum, nat>, fixed: seq<Severity>,
                   floor: int): Rules {
    Rules(RowSums(plan, Classified(cs), fixed), RowSums(size, Classified(cs), ALL), floor)
  }

  /** The classified categories share `k` over their `open` strata by largest remainder, are raised to their
      floors, and each shares its part out over severities by largest remainder. */
  ghost predicate SharedAndSplit(size: map<Stratum, nat>, cs: seq<string>, plan: map<Stratum, nat>, r: Rules,
                                 open: seq<Severity>, k: int, shares: map<string, nat>)
  {
    var known := Classified(cs);
    && SharedThenLifted(r, known, RowSums(size, known, open), k, shares, RowSums(plan, known, open))
    && forall c <- known :: Shared(Present(size, c, open), RowSum(plan, c, open), plan)
  }

  ghost predicate KnownShare(size: map<Stratum, nat>, cs: seq<string>, plan: map<Stratum, nat>, fixed: seq<Severity>,
                             open: seq<Severity>, floor: int, k: int, shares: map<string, nat>)
  {
    SharedAndSplit(size, cs, plan, RulesOf(size, cs, plan, fixed, floor), open, k, shares)
  }

  /** One note for each classified category below its floor, in category order. */
  function FloorNotes(size: map<Stratum, nat>, cs: seq<string>, plan: map<Stratum, nat>, fixed: seq<Severity>,
                      open: seq<Severity>, floor: int): seq<Note> {
    Floors(Unlifted(RulesOf(size, cs, plan, fixed, floor), Classified(cs), RowSums(plan, Classified(cs), open)))
  }

  /** Only the unknown row differs. */
  ghost predicate SameKnown(a: map<Stratum, nat>, b: map<Stratum, nat>) {
    a.Keys == b.Keys && forall k <- a :: k.0 != UNKNOWN ==> a[k] == b[k]
  }

  lemma SameKnownRows(a: map<Stratum, nat>, b: map<Stratum, nat>, cs: seq<string>, ss: seq<Severity>)
    requires SameKnown(a, b) && NoRepeats(cs)
    ensures RowSums(a, Classified(cs), ss) == RowSums(b, Classified(cs), ss)
    ensures GridSum(a, Classified(cs), ss) == GridSum(b, Classified(cs), ss)
  {
    ClassifiedFacts(cs);
    forall c | c in Classified(cs) ensures RowSum(a, c, ss) == RowSum(b, c, ss) { RowSumSame(a, b, c, ss); }
    GridSumSame(a, b, Classified(cs), ss);
  }

  lemma SharesStay(size: map<Stratum, nat>, a: map<Stratum, nat>, b: map<Stratum, nat>, c: string, ss: seq<Severity>,
                   k: int)
    requires SameKnown(a, b) && c != UNKNOWN && Shared(Present(size, c, ss), k, a)
    ensures Shared(Present(size, c, ss), k, b)
  {
    var present := Present(size, c, ss);
    forall i | 0 <= i < |present| ensures present[i].0 in b && b[present[i].0] == a[present[i].0] {
      PresentMembers(size, c, ss, present[i]);
      assert present[i] in present;
    }
    assert Given(present, a) == Given(present, b);
  }

  /** Settling the unknown row leaves the classified shares as they are. */
  lemma KnownStays(size: map<Stratum, nat>, cs: seq<string>, a: map<Stratum, nat>, b: map<Stratum, nat>,
                   fixed: seq<Severity>, open: seq<Severity>, floor: int, k: int, shares: map<string, nat>)
    requires NoRepeats(cs) && SameKnown(a, b) && KnownShare(size, cs, a, fixed, open, floor, k, shares)
    ensures KnownShare(size, cs, b, fixed, open, floor, k, shares)
    ensures FloorNotes(size, cs, b, fixed, open, floor) == FloorNotes(size, cs, a, fixed, open, floor)
  {
    ClassifiedFacts(cs);
    SameKnownRows(a, b, cs, fixed);
    SameKnownRows(a, b, cs, open);
    forall c | c in Classified(cs) ensures Shared(Present(size, c, open), RowSum(b, c, open), b) {
      assert RowSums(a, Classified(cs), open)[c] == RowSums(b, Classified(cs), open)[c];
      SharesStay(size, a, b, c, open, RowSum(a, c, open));
    }
  }

  lemma SplitAsAllotted(size: map<Stratum, nat>, cs: seq<string>, plan: map<Stratum, nat>, r: Rules,
                        open: seq<Severity>, k: int, shares: map<string, nat>, alloc: map<string, nat>)
    requires alloc.Keys == Elements(Classified(cs))
    requires SharedThenLifted(r, Classified(cs), RowSums(size, Classified(cs), open), k, shares, alloc)
    requires forall c <- Classified(cs) ::
               RowSum(plan, c, open) == alloc[c] && Shared(Present(size, c, open), alloc[c], plan)
    ensures RowSums(plan, Classified(cs), open) == alloc && SharedAndSplit(size, cs, plan, r, open, k, shares)
  {
    assert RowSums(plan, Classified(cs), open) == alloc;
  }

  /** However they are lifted, the classified categories together get `k`, or all there is. */
  lemma KnownShareSum(size: map<Stratum, nat>, cs: seq<string>, plan: map<Stratum, nat>, fixed: seq<Severity>,
                      open: seq<Severity>, floor: int, k: int, shares: map<string, nat>)
    requires KnownShare(size, cs, plan, fixed, open, floor, k, shares)
    ensures GridSum(plan, Classified(cs), open) == Capped(k, GridSum(size, Classified(cs), open))
  {
    var known := Classified(cs);
    AllocatedOver(known, RowSums(size, known, open), k, shares);
    RowSumsAddUp(plan, known, known, open);
    RowSumsAddUp(size, known, known, open);
  }

  /** What is known once the classified rows and the unknown row have been settled. */
  lemma SettledPlanIsSound(size: map<Stratum, nat>, cs: seq<string>, target: nat, budget: nat, taken: nat,
                           plan: map<Stratum, nat>)
    requires PoolOk(size, cs) && Within(plan, size) && target <= Planned(size, cs)
    requires UnknownPart(plan) <= target && (UnknownPart(plan) <= budget || UnknownPart(plan) <= taken)
    requires GridSum(plan, Classified(cs), ALL) ==
             Capped(target - UnknownPart(plan), GridSum(size, Classified(cs), ALL))
    requires UnknownPart(plan) < budget ==>
               UnknownPart(plan) == UnknownPart(size)
               || UnknownPart(plan) + GridSum(plan, Classified(cs), ALL) == target
    ensures Sound(size, cs, target, budget, taken, plan)
  {
    var known := Classified(cs);
    TotalApart(plan, cs, ALL);
    TotalApart(size, cs, ALL);
    RowWithin(plan, size, UNKNOWN, ALL);
    if Planned(plan, cs) < target {
      ClassifiedFacts(cs);
      GridWithin(plan, size, known, ALL);
      FullClassified(plan, size, cs);
    }
  }

  lemma {:induction false} GridWithin(m: map<Stratum, nat>, n: map<Stratum, nat>, cs: seq<string>, ss: seq<Severity>)
    requires Within(m, n)
    ensures GridSum(m, cs, ss) <= GridSum(n, cs, ss)
    ensures GridSum(m, cs, ss) == GridSum(n, cs, ss) ==> forall c <- cs :: RowSum(m, c, ss) == RowSum(n, c, ss)
  {
    if cs != [] {
      GridWithin(m, n, cs[..|cs| - 1], ss);
      RowWithin(m, n, cs[|cs| - 1], ss);
      assert cs == cs[..|cs| - 1] + [cs[|cs| - 1]];
    }
  }

  lemma {:induction false} SumOverApart(cs: seq<string>, m: map<string, nat>)
    requires NoRepeats(cs)
    ensures SumOver(cs, m) == SumOver(Classified(cs), m) + if UNKNOWN in cs then Get(m, UNKNOWN) else 0
  {
    if cs != [] {
      var front, last := cs[..|cs| - 1], cs[|cs| - 1];
      SumOverApart(front, m);
      assert cs == front + [last] && last !in front;
      if last != UNKNOWN {
        assert Classified(cs)[..|Classified(front)|] == Classified(front);
      } else {
        assert Classified(cs) == Classified(front);
      }
      assert UNKNOWN in cs <==> UNKNOWN in front || last == UNKNOWN;
    }
  }

  /** The proportional share of `unknown` leaves the classified rows enough for the rest. */
  lemma ProportionalShares(size: map<Stratum, nat>, cs: seq<string>, share: map<string, nat>, target: nat)
    requires PoolOk(size, cs) && target <= Planned(size, cs) && share.Keys == Elements(cs)
    requires SumOver(cs, share) == target && forall c <- cs :: share[c] <= RowSum(size, c, ALL)
    ensures Get(share, UNKNOWN) <= target && Get(share, UNKNOWN) <= UnknownPart(size)
    ensures target - Get(share, UNKNOWN) <= GridSum(size, Classified(cs), ALL)
  {
    RowSumsAddUp(size, Classified(cs), Classified(cs), ALL);
    var known := Classified(cs);
    ClassifiedFacts(cs);
    SumOverApart(cs, share);
    forall c | c in known ensures Get(share, c) <= Get(RowSums(size, known, ALL), c) {
      assert c in cs && Get(share, c) == share[c];
    }
    SumOverTight(known, share, RowSums(size, known, ALL));
  }

  method SplitKnown(size: map<Stratum, nat>, start: map<Stratum, nat>, cs: seq<string>, alloc: map<string, nat>,
                    ss: seq<Severity>) returns (plan: map<Stratum, nat>)
    requires PoolOk(size, cs) && Within(start, size) && NoRepeats(ss)
    requires forall c <- Classified(cs) :: c in alloc && alloc[c] <= RowSum(size, c, ss)
    ensures Within(plan, size)
    ensures forall c <- Classified(cs) ::
              RowSum(plan, c, ss) == alloc[c] && Shared(Present(size, c, ss), alloc[c], plan)
    ensures forall k <- plan :: k.0 == UNKNOWN || k.1 !in ss ==> plan[k] == start[k]
    ensures RowSum(plan, UNKNOWN, ALL) == RowSum(start, UNKNOWN, ALL)
  {
    ClassifiedFacts(cs);
    plan := SplitAll(size, start, Classified(cs), alloc, ss);
    forall c | c in Classified(cs)
      ensures RowSum(plan, c, ss) == alloc[c] && Shared(Present(size, c, ss), alloc[c], plan)
    {
      assert SharedOut(size, plan, c, ss, alloc[c]);
    }
    RowSumSame(plan, start, UNKNOWN, ALL);
  }

  /** The classified categories share `k` of their `open` strata and are raised to the floors of `r`. */
  method ShareKnown(size: map<Stratum, nat>, start: map<Stratum, nat>, cs: seq<string>, r: Rules, open: seq<Severity>,
                    k: int)
      returns (plan: map<Stratum, nat>, notes: seq<Note>, ghost shares: map<string, nat>)
    requires PoolOk(size, cs) && Within(start, size) && NoRepeats(open)
    requires forall c <- Classified(cs) :: Get(r.fixed, c) + RowSum(size, c, open) == Get(r.pool, c)
    ensures Within(plan, size) && SharedAndSplit(size, cs, plan, r, open, k, shares)
    ensures forall s <- plan :: s.0 == UNKNOWN || s.1 !in open ==> plan[s] == start[s]
    ensures notes == Floors(Unlifted(r, Classified(cs), RowSums(plan, Classified(cs), open)))
  {
    var known := Classified(cs);
    ClassifiedFacts(cs);
    var alloc, stuck;
    alloc, stuck, shares := AllocateAndLift(known, RowSums(size, known, open), r, k);
    notes := Floors(stuck);
    plan := SplitKnown(size, start, cs, alloc, open);
    SplitAsAllotted(size, cs, plan, r, open, k, shares, alloc);
  }

  lemma NothingFixed(size: map<Stratum, nat>, cs: seq<string>, floor: int)
    ensures var r := Rules(Zeros(Classified(cs)), RowSums(size, Classified(cs), ALL), floor);
            && (forall plan :: RulesOf(size, cs, plan, [], floor) == r)
            && forall c <- Classified(cs) :: Get(r.fixed, c) + RowSum(size, c, ALL) == Get(r.pool, c)
  {
    forall plan ensures RowSums(plan, Classified(cs), []) == Zeros(Classified(cs)) { }
  }

  /** The classified rows share `k` and are raised to their floors. */
  method PlanKnown(size: map<Stratum, nat>, start: map<Stratum, nat>, cs: seq<string>, k: int, floor: int)
      returns (plan: map<Stratum, nat>, notes: seq<Note>, ghost shares: map<string, nat>)
    requires PoolOk(size, cs) && Within(start, size)
    ensures Within(plan, size) && KnownShare(size, cs, plan, [], ALL, floor, k, shares)
    ensures RowSum(plan, UNKNOWN, ALL) == RowSum(start, UNKNOWN, ALL)
    ensures notes == FloorNotes(size, cs, plan, [], ALL, floor)
  {
    var known := Classified(cs);
    var r := Rules(Zeros(known), RowSums(size, known, ALL), floor);
    NothingFixed(size, cs, floor);
    plan, notes, shares := ShareKnown(size, start, cs, r, ALL, k);
    assert RulesOf(size, cs, plan, [], floor) == r;
    RowSumSame(plan, start, UNKNOWN, ALL);
  }

  /** The unknown row gets `k`; the other rows stay. */
  method PlanUnknown(size: map<Stratum, nat>, start: map<Stratum, nat>, k: int, ss: seq<Severity>)
      returns (plan: map<Stratum, nat>)
    requires Within(start, size) && NoRepeats(ss)
    ensures Within(plan, size) && SharedOut(size, plan, UNKNOWN, ss, k)
    ensures SameKnown(start, plan)
  {
    plan := SplitCategory(size, start, UNKNOWN, k, ss);
  }

  method UnknownShare(size: map<Stratum, nat>, cs: seq<string>, target: nat, budget: nat)
      returns (share: nat, unknown: nat, ghost all: map<string, nat>)
    requires PoolOk(size, cs) && target <= Planned(size, cs)
    ensures Shared(Pairs(cs, RowSums(size, cs, ALL)), target, all) && all.Keys == Elements(cs)
    ensures share == Get(all, UNKNOWN) && unknown == Min(share, budget)
    ensures share <= target && share <= UnknownPart(size) && target - share <= GridSum(size, Classified(cs), ALL)
  {
    RowSumsAddUp(size, cs, cs, ALL);
    var proportional := AllocateOver(cs, RowSums(size, cs, ALL), target);
    all := proportional;
    ProportionalShares(size, cs, proportional, target);
    share := Get(proportional, UNKNOWN);
    unknown := Min(share, budget);
  }

  method KnownThenUnknown(size: map<Stratum, nat>, start: map<Stratum, nat>, cs: seq<string>, k: int, unknown: nat,
                          floor: int)
      returns (plan: map<Stratum, nat>, notes: seq<Note>, ghost shares: map<string, nat>)
    requires PoolOk(size, cs) && Within(start, size)
    ensures Within(plan, size) && SharedOut(size, plan, UNKNOWN, ALL, unknown)
    ensures KnownShare(size, cs, plan, [], ALL, floor, k, shares)
    ensures notes == FloorNotes(size, cs, plan, [], ALL, floor)
  {
    var known;
    known, notes, shares := PlanKnown(size, start, cs, k, floor);
    plan := PlanUnknown(size, known, unknown, ALL);
    KnownStays(size, cs, known, plan, [], ALL, floor, k, shares);
  }

  /** Everything in proportion, `unknown` cut to its budget and the rest given to the classified. */
  ghost predicate Proportional(size: map<Stratum, nat>, cs: seq<string>, target: nat, budget: nat, floor: int,
                               plan: map<Stratum, nat>, notes: seq<Note>, all: map<string, nat>,
                               shares: map<string, nat>)
  {
    var share := Get(all, UNKNOWN);
    var unknown := Min(share, budget);
    && all.Keys == Elements(cs) && Shared(Pairs(cs, RowSums(size, cs, ALL)), target, all)
    && SharedOut(size, plan, UNKNOWN, ALL, unknown)
    && KnownShare(size, cs, plan, [], ALL, floor, Rest(target, unknown), shares)
    && notes == (if unknown < share then [UnknownCapBinds(unknown, share, budget)] else [])
                + FloorNotes(size, cs, plan, [], ALL, floor)
  }

  function CapNotes(unknown: nat, share: nat, budget: nat): seq<Note> {
    if unknown < share then [UnknownCapBinds(unknown, share, budget)] else []
  }

  method PlanProportional(size: map<Stratum, nat>, start: map<Stratum, nat>, cs: seq<string>, target: nat, budget: nat,
                          floor: int)
      returns (plan: map<Stratum, nat>, notes: seq<Note>, ghost all: map<string, nat>, ghost shares: map<string, nat>)
    requires PoolOk(size, cs) && Within(start, size) && target <= Planned(size, cs)
    ensures Sound(size, cs, target, budget, 0, plan)
    ensures Proportional(size, cs, target, budget, floor, plan, notes, all, shares)
  {
    var share, unknown;
    share, unknown, all := UnknownShare(size, cs, target, budget);
    plan, notes, shares := KnownThenUnknown(size, start, cs, Rest(target, unknown), unknown, floor);
    notes := CapNotes(unknown, share, budget) + notes;
    ProportionalIsSound(size, cs, target, budget, share, unknown, plan, floor, shares);
  }

  lemma ProportionalIsSound(size: map<Stratum, nat>, cs: seq<string>, target: nat, budget: nat, share: nat,
                            unknown: nat, plan: map<Stratum, nat>, floor: int, shares: map<string, nat>)
    requires PoolOk(size, cs) && Within(plan, size) && target <= Planned(size, cs)
    requires unknown == Min(share, budget) && share <= target && share <= UnknownPart(size)
    requires UnknownPart(plan) == Capped(unknown, UnknownPart(size))
    requires target - share <= GridSum(size, Classified(cs), ALL)
    requires KnownShare(size, cs, plan, [], ALL, floor, Rest(target, unknown), shares)
    ensures Sound(size, cs, target, budget, 0, plan)
  {
    KnownShareSum(size, cs, plan, [], ALL, floor, Rest(target, unknown), shares);
    SettledPlanIsSound(size, cs, target, budget, 0, plan);
  }

  /** Too many classified rows: they share the target and `unknown` draws nothing. */
  ghost predicate OnlyKnown(size: map<Stratum, nat>, cs: seq<string>, target: nat, floor: int,
                            plan: map<Stratum, nat>, notes: seq<Note>, shares: map<string, nat>)
  {
    && UnknownPart(plan) == 0
    && KnownShare(size, cs, plan, [], ALL, floor, target, shares)
    && notes == FloorNotes(size, cs, plan, [], ALL, floor)
  }

  method PlanOnlyKnown(size: map<Stratum, nat>, start: map<Stratum, nat>, cs: seq<string>, target: nat, budget: nat,
                       floor: int)
      returns (plan: map<Stratum, nat>, notes: seq<Note>, ghost shares: map<string, nat>)
    requires PoolOk(size, cs) && Within(start, size) && RowSum(start, UNKNOWN, ALL) == 0
    requires target <= GridSum(size, Classified(cs), ALL)
    ensures Sound(size, cs, target, budget, 0, plan)
    ensures OnlyKnown(size, cs, target, floor, plan, notes, shares)
  {
    plan, notes, shares := PlanKnown(size, start, cs, target, floor);
    KnownShareSum(size, cs, plan, [], ALL, floor, target, shares);
    TotalApart(size, cs, ALL);
    SettledPlanIsSound(size, cs, target, budget, 0, plan);
  }

  /** Room for all classified rows: they are all taken and `unknown` fills up within its budget. */
  ghost predicate AllKnown(size: map<Stratum, nat>, cs: seq<string>, target: nat, budget: nat,
                           plan: map<Stratum, nat>)
    requires GridSum(size, Classified(cs), ALL) <= target
  {
    var room := target - GridSum(size, Classified(cs), ALL);
    && (forall k <- plan :: k.0 != UNKNOWN ==> k in size && plan[k] == size[k])
    && SharedOut(size, plan, UNKNOWN, ALL, Min(room, budget))
  }

  method PlanAllKnown(size: map<Stratum, nat>, start: map<Stratum, nat>, cs: seq<string>, target: nat, budget: nat)
      returns (plan: map<Stratum, nat>)
    requires PoolOk(size, cs) && Within(start, size)
    requires GridSum(size, Classified(cs), ALL) <= target <= Planned(size, cs)
    ensures Sound(size, cs, target, budget, 0, plan)
    ensures AllKnown(size, cs, target, budget, plan)
  {
    var room := target - GridSum(size, Classified(cs), ALL);
    var known := TakeAll(size, start, set k <- size | k.0 != UNKNOWN);
    plan := PlanUnknown(size, known, Min(room, budget), ALL);
    AllKnownSums(size, plan, cs);
    TotalApart(size, cs, ALL);
    SettledPlanIsSound(size, cs, target, budget, 0, plan);
  }

  lemma AllKnownSums(size: map<Stratum, nat>, plan: map<Stratum, nat>, cs: seq<string>)
    requires PoolOk(size, cs) && Within(plan, size) && forall k <- plan :: k.0 != UNKNOWN ==> plan[k] == size[k]
    ensures GridSum(plan, Classified(cs), ALL) == GridSum(size, Classified(cs), ALL)
  {
    ClassifiedFacts(cs);
    forall c | c in Classified(cs) ensures RowSum(plan, c, ALL) == RowSum(size, c, ALL) {
      RowSumSame(plan, size, c, ALL);
    }
    GridSumSame(plan, size, Classified(cs), ALL);
  }

  // ---- taking all critical and high ---------------------------------------------------------------------

  /** All critical and high strata, and nothing else yet. */
  ghost predicate TookCritHigh(size: map<Stratum, nat>, plan: map<Stratum, nat>) {
    && Within(plan, size)
    && forall k <- plan :: k.1 in CRIT_HIGH ==> plan[k] == size[k]
  }

  lemma CritHighRow(size: map<Stratum, nat>, plan: map<Stratum, nat>, c: string)
    requires TookCritHigh(size, plan)
    ensures RowSum(plan, c, CRIT_HIGH) == RowSum(size, c, CRIT_HIGH)
    ensures RowSum(plan, c, ALL) == RowSum(size, c, CRIT_HIGH) + RowSum(plan, c, MEDIUM_LOW)
  {
    forall s | s in CRIT_HIGH ensures At(plan, c, s) == At(size, c, s) {
      if (c, s) in plan { assert plan[(c, s)] == size[(c, s)]; }
    }
    RowSumSame(plan, size, c, CRIT_HIGH);
    RowOfAll(plan, c);
  }

  lemma CritHighGrid(size: map<Stratum, nat>, plan: map<Stratum, nat>, cs: seq<string>)
    requires TookCritHigh(size, plan)
    ensures GridSum(plan, cs, ALL) == GridSum(size, cs, CRIT_HIGH) + GridSum(plan, cs, MEDIUM_LOW)
  {
    forall c | c in cs ensures RowSum(plan, c, CRIT_HIGH) == RowSum(size, c, CRIT_HIGH) { CritHighRow(size, plan, c); }
    GridSumSame(plan, size, cs, CRIT_HIGH);
    GridOfAll(plan, cs);
  }

  /** The arithmetic of the branch: what `unknown` got, what the classified got beyond the rule, and
      what was left to give. */
  lemma TakeAllIsSound(size: map<Stratum, nat>, cs: seq<string>, target: nat, budget: nat, plan: map<Stratum, nat>,
                       floor: int, shares: map<string, nat>)
    requires PoolOk(size, cs) && TookCritHigh(size, plan) && target <= Planned(size, cs)
    requires GridSum(size, cs, CRIT_HIGH) <= target
    requires SharedOut(size, plan, UNKNOWN, MEDIUM_LOW, UnknownRoom(size, cs, target, budget))
    requires KnownShare(size, cs, plan, CRIT_HIGH, MEDIUM_LOW, floor, Rest(target, RuleDrawn(size, cs, plan)), shares)
    ensures Sound(size, cs, target, budget, RowSum(size, UNKNOWN, CRIT_HIGH), plan)
  {
    TakeAllSums(size, cs, plan);
    KnownShareSum(size, cs, plan, CRIT_HIGH, MEDIUM_LOW, floor, Rest(target, RuleDrawn(size, cs, plan)), shares);
    SettledPlanIsSound(size, cs, target, budget, RowSum(size, UNKNOWN, CRIT_HIGH), plan);
  }

  /** The sums of a plan that took all critical and high, in the terms of the pool. */
  lemma TakeAllSums(size: map<Stratum, nat>, cs: seq<string>, plan: map<Stratum, nat>)
    requires PoolOk(size, cs) && TookCritHigh(size, plan)
    ensures var known := Classified(cs);
            && GridSum(plan, known, ALL) == GridSum(size, known, CRIT_HIGH) + GridSum(plan, known, MEDIUM_LOW)
            && GridSum(size, known, ALL) == GridSum(size, known, CRIT_HIGH) + GridSum(size, known, MEDIUM_LOW)
            && GridSum(size, cs, CRIT_HIGH) == GridSum(size, known, CRIT_HIGH) + RowSum(size, UNKNOWN, CRIT_HIGH)
            && UnknownPart(plan) == RowSum(size, UNKNOWN, CRIT_HIGH) + RowSum(plan, UNKNOWN, MEDIUM_LOW)
            && UnknownPart(size) == RowSum(size, UNKNOWN, CRIT_HIGH) + RowSum(size, UNKNOWN, MEDIUM_LOW)
  {
    CritHighGrid(size, plan, Classified(cs));
    GridOfAll(size, Classified(cs));
    TotalApart(size, cs, CRIT_HIGH);
    CritHighRow(size, plan, UNKNOWN);
    RowOfAll(size, UNKNOWN);
  }

  /** What `unknown` may still draw after the rule: its budget, within the room left. */
  function UnknownRoom(size: map<Stratum, nat>, cs: seq<string>, target: nat, budget: nat): nat
    requires GridSum(size, cs, CRIT_HIGH) <= target
  {
    var taken := RowSum(size, UNKNOWN, CRIT_HIGH);
    var within := if taken <= budget then budget - taken else 0;
    var room := target - GridSum(size, cs, CRIT_HIGH);
    Min(within, room)
  }

  lemma {:induction false} NothingYet(m: map<Stratum, nat>, cs: seq<string>, ss: seq<Severity>)
    requires forall k <- m :: k.0 in cs && k.1 in ss ==> m[k] == 0
    ensures GridSum(m, cs, ss) == 0
  {
    if cs != [] {
      var c := cs[|cs| - 1];
      NothingYet(m, cs[..|cs| - 1], ss);
      assert c in cs;
      EmptyRow(m, c, ss);
    }
  }

  lemma {:induction false} EmptyRow(m: map<Stratum, nat>, c: string, ss: seq<Severity>)
    requires forall k <- m :: k.0 == c && k.1 in ss ==> m[k] == 0
    ensures RowSum(m, c, ss) == 0
  {
    if ss != [] {
      EmptyRow(m, c, ss[..|ss| - 1]);
      assert ss[|ss| - 1] in ss;
    }
  }

  /** All critical and high, then `unknown` within its room. */
  method TakeThenUnknown(size: map<Stratum, nat>, start: map<Stratum, nat>, cs: seq<string>, u: nat)
      returns (plan: map<Stratum, nat>)
    requires PoolOk(size, cs) && Within(start, size) && forall k <- start :: start[k] == 0
    ensures TookCritHigh(size, plan) && SharedOut(size, plan, UNKNOWN, MEDIUM_LOW, u)
    ensures Planned(plan, cs) == GridSum(size, cs, CRIT_HIGH) + RowSum(plan, UNKNOWN, MEDIUM_LOW)
  {
    plan := TakeAll(size, start, set k <- size | k.1 in CRIT_HIGH);
    plan := SplitCategory(size, plan, UNKNOWN, u, MEDIUM_LOW);
    OnlyUnknownYet(size, plan, cs);
  }

  lemma OnlyUnknownYet(size: map<Stratum, nat>, plan: map<Stratum, nat>, cs: seq<string>)
    requires PoolOk(size, cs) && TookCritHigh(size, plan)
    requires forall k <- plan :: k.0 != UNKNOWN && k.1 in MEDIUM_LOW ==> plan[k] == 0
    ensures Planned(plan, cs) == GridSum(size, cs, CRIT_HIGH) + RowSum(plan, UNKNOWN, MEDIUM_LOW)
  {
    CritHighGrid(size, plan, cs);
    TotalApart(plan, cs, MEDIUM_LOW);
    ClassifiedFacts(cs);
    NothingYet(plan, Classified(cs), MEDIUM_LOW);
  }

  lemma FixedAndSpare(size: map<Stratum, nat>, plan: map<Stratum, nat>, cs: seq<string>)
    requires TookCritHigh(size, plan)
    ensures forall c <- cs ::
              RowSums(plan, cs, CRIT_HIGH)[c] + RowSums(size, cs, MEDIUM_LOW)[c] == RowSums(size, cs, ALL)[c]
  {
    forall c | c in cs
      ensures RowSums(plan, cs, CRIT_HIGH)[c] + RowSums(size, cs, MEDIUM_LOW)[c] == RowSums(size, cs, ALL)[c]
    {
      CritHighRow(size, plan, c);
      RowOfAll(size, c);
    }
  }

  lemma RuleFixesCritHigh(size: map<Stratum, nat>, cs: seq<string>, a: map<Stratum, nat>, b: map<Stratum, nat>)
    requires TookCritHigh(size, a) && TookCritHigh(size, b)
    ensures RowSums(a, cs, CRIT_HIGH) == RowSums(b, cs, CRIT_HIGH)
  {
    forall c | c in cs ensures RowSum(a, c, CRIT_HIGH) == RowSum(b, c, CRIT_HIGH) {
      CritHighRow(size, a, c);
      CritHighRow(size, b, c);
    }
  }

  /** The classified rows share what remains of medium and low, and are raised to their floors. */
  method KnownAfterRule(size: map<Stratum, nat>, start: map<Stratum, nat>, cs: seq<string>, remaining: int, floor: int)
      returns (plan: map<Stratum, nat>, notes: seq<Note>, ghost shares: map<string, nat>)
    requires PoolOk(size, cs) && TookCritHigh(size, start)
    ensures TookCritHigh(size, plan)
    ensures KnownShare(size, cs, plan, CRIT_HIGH, MEDIUM_LOW, floor, remaining, shares)
    ensures forall s :: At(plan, UNKNOWN, s) == At(start, UNKNOWN, s)
    ensures notes == FloorNotes(size, cs, plan, CRIT_HIGH, MEDIUM_LOW, floor)
  {
    var known := Classified(cs);
    var r := Rules(RowSums(start, known, CRIT_HIGH), RowSums(size, known, ALL), floor);
    FixedAndSpare(size, start, known);
    plan, notes, shares := ShareKnown(size, start, cs, r, MEDIUM_LOW, remaining);
    RuleStays(size, start, plan);
    RuleFixesCritHigh(size, known, start, plan);
  }

  lemma RuleStays(size: map<Stratum, nat>, start: map<Stratum, nat>, plan: map<Stratum, nat>)
    requires TookCritHigh(size, start) && Within(plan, size)
    requires forall k <- plan :: k.0 == UNKNOWN || k.1 !in MEDIUM_LOW ==> plan[k] == start[k]
    ensures TookCritHigh(size, plan) && forall s :: At(plan, UNKNOWN, s) == At(start, UNKNOWN, s)
  {
  }

  /** What the rule and `unknown` have drawn before the classified share. */
  function RuleDrawn(size: map<Stratum, nat>, cs: seq<string>, plan: map<Stratum, nat>): nat {
    GridSum(size, cs, CRIT_HIGH) + RowSum(plan, UNKNOWN, MEDIUM_LOW)
  }

  /** All critical and high are taken, `unknown` draws within its room, and the classified categories share
      what is left. */
  ghost predicate TookAll(size: map<Stratum, nat>, cs: seq<string>, target: nat, budget: nat, floor: int,
                          plan: map<Stratum, nat>, notes: seq<Note>, shares: map<string, nat>)
    requires GridSum(size, cs, CRIT_HIGH) <= target
  {
    var taken := RowSum(size, UNKNOWN, CRIT_HIGH);
    && TookCritHigh(size, plan)
    && SharedOut(size, plan, UNKNOWN, MEDIUM_LOW, UnknownRoom(size, cs, target, budget))
    && KnownShare(size, cs, plan, CRIT_HIGH, MEDIUM_LOW, floor, Rest(target, RuleDrawn(size, cs, plan)), shares)
    && notes == (if taken > budget then [UnknownCapExceeded(taken, budget)] else [])
                + FloorNotes(size, cs, plan, CRIT_HIGH, MEDIUM_LOW, floor)
  }

  method PlanTakeAll(size: map<Stratum, nat>, start: map<Stratum, nat>, cs: seq<string>, target: nat, budget: nat,
                     floor: int)
      returns (plan: map<Stratum, nat>, notes: seq<Note>, ghost shares: map<string, nat>)
    requires PoolOk(size, cs) && Within(start, size) && forall k <- start :: start[k] == 0
    requires GridSum(size, cs, CRIT_HIGH) <= target <= Planned(size, cs)
    ensures Sound(size, cs, target, budget, RowSum(size, UNKNOWN, CRIT_HIGH), plan)
    ensures TookAll(size, cs, target, budget, floor, plan, notes, shares)
  {
    var taken := RowSum(size, UNKNOWN, CRIT_HIGH);
    notes := if taken > budget then [UnknownCapExceeded(taken, budget)] else [];
    var room := UnknownRoom(size, cs, target, budget);
    var settled := TakeThenUnknown(size, start, cs, room);
    var more;
    plan, more, shares := KnownAfterRule(size, settled, cs, Rest(target, Planned(settled, cs)), floor);
    notes := notes + more;
    SharedOutSame(size, settled, plan, UNKNOWN, MEDIUM_LOW, room);
    RowSumSame(settled, plan, UNKNOWN, MEDIUM_LOW);
    assert Planned(settled, cs) == RuleDrawn(size, cs, plan);
    TakeAllIsSound(size, cs, target, budget, plan, floor, shares);
  }

  function AtLeastNothing(n: int): nat {
    if n < 0 then 0 else n
  }

  /** In the take-all branch `unknown` gets what the rule took of it, and beyond that as much as there is, the
      budget allows and the target leaves room for. */
  lemma UnknownIsFilled(size: map<Stratum, nat>, cs: seq<string>, target: nat, budget: nat, floor: int,
                        plan: map<Stratum, nat>, notes: seq<Note>, shares: map<string, nat>)
    requires GridSum(size, cs, CRIT_HIGH) <= target && TookAll(size, cs, target, budget, floor, plan, notes, shares)
    ensures var taken, more := RowSum(size, UNKNOWN, CRIT_HIGH), RowSum(plan, UNKNOWN, MEDIUM_LOW);
            && UnknownPart(plan) == taken + more
            && more <= RowSum(size, UNKNOWN, MEDIUM_LOW)
            && more <= AtLeastNothing(budget - taken) && more <= target - GridSum(size, cs, CRIT_HIGH)
            && (|| more == RowSum(size, UNKNOWN, MEDIUM_LOW) || more == AtLeastNothing(budget - taken)
                || more == target - GridSum(size, cs, CRIT_HIGH))
  {
    CritHighRow(size, plan, UNKNOWN);
  }

  // ---- floors --------------------------------------------------------------------------------------------

  /** What a category's floor asks for, within what there is of it. */
  function Wanted(size: map<Stratum, nat>, c: string, floor: int): int {
    if floor < RowSum(size, c, ALL) then floor else RowSum(size, c, ALL)
  }

  /** The plan gives each classified category its floor, or notes how far it falls short when no category
      can spare a row without missing its own floor; and nobody is taken below both its floor and its
      proportional share. */
  lemma FloorsAreMetOrNoted(size: map<Stratum, nat>, cs: seq<string>, plan: map<Stratum, nat>, fixed: seq<Severity>,
                            open: seq<Severity>, floor: int, k: int, shares: map<string, nat>, c: string)
    requires (fixed == [] && open == ALL) || (fixed == CRIT_HIGH && open == MEDIUM_LOW)
    requires KnownShare(size, cs, plan, fixed, open, floor, k, shares) && c in Classified(cs)
    ensures var planned, note := RowSum(plan, c, ALL), Floor(Stuck(c, RowSum(plan, c, ALL), Wanted(size, c, floor)));
            && (planned >= Wanted(size, c, floor) <==> note !in FloorNotes(size, cs, plan, fixed, open, floor))
            && (planned >= Wanted(size, c, floor) || planned >= RowSum(plan, c, fixed) + shares[c])
            && (planned < Wanted(size, c, floor) ==> forall d <- Classified(cs) ::
                  RowSum(plan, d, open) == 0 || RowSum(plan, d, ALL) <= Wanted(size, d, floor))
  {
    var known, r := Classified(cs), RulesOf(size, cs, plan, fixed, floor);
    var alloc := RowSums(plan, known, open);
    var s := Stuck(c, RowSum(plan, c, ALL), Wanted(size, c, floor));
    RulesCount(size, cs, plan, fixed, open, floor);
    UnliftedExactly(r, known, alloc, s);
    FloorIsNoted(Unlifted(r, known, alloc), s);
    if RowSum(plan, c, ALL) < Wanted(size, c, floor) {
      NothingToSpare(size, cs, plan, fixed, open, floor);
    }
  }

  lemma RulesCount(size: map<Stratum, nat>, cs: seq<string>, plan: map<Stratum, nat>, fixed: seq<Severity>,
                   open: seq<Severity>, floor: int)
    requires (fixed == [] && open == ALL) || (fixed == CRIT_HIGH && open == MEDIUM_LOW)
    ensures var r, alloc := RulesOf(size, cs, plan, fixed, floor), RowSums(plan, Classified(cs), open);
            forall d <- Classified(cs) ::
              r.Total(alloc, d) == RowSum(plan, d, ALL) && r.Wanted(d) == Wanted(size, d, floor)
  {
    forall d: string ensures RowSum(plan, d, fixed) + RowSum(plan, d, open) == RowSum(plan, d, ALL) {
      RowOfAll(plan, d);
    }
  }

  lemma NothingToSpare(size: map<Stratum, nat>, cs: seq<string>, plan: map<Stratum, nat>, fixed: seq<Severity>,
                       open: seq<Severity>, floor: int)
    requires (fixed == [] && open == ALL) || (fixed == CRIT_HIGH && open == MEDIUM_LOW)
    requires NothingToGive(RulesOf(size, cs, plan, fixed, floor), Classified(cs), RowSums(plan, Classified(cs), open))
    ensures forall d <- Classified(cs) :: RowSum(plan, d, open) == 0 || RowSum(plan, d, ALL) <= Wanted(size, d, floor)
  {
    var r, alloc := RulesOf(size, cs, plan, fixed, floor), RowSums(plan, Classified(cs), open);
    RulesCount(size, cs, plan, fixed, open, floor);
    forall d | d in Classified(cs)
      ensures RowSum(plan, d, open) == 0 || RowSum(plan, d, ALL) <= Wanted(size, d, floor)
    {
      assert r.Surplus(alloc, d) <= 0;
    }
  }

  lemma FloorIsNoted(stuck: seq<Stuck>, s: Stuck)
    ensures Floor(s) in Floors(stuck) <==> s in stuck
  {
    if s in stuck {
      var i :| 0 <= i < |stuck| && stuck[i] == s;
      assert Floors(stuck)[i] == Floor(s);
    }
  }

  // ---- the whole plan ------------------------------------------------------------------------------------

  function CountOf(pool: seq<Row>, c: string, s: Severity): nat {
    if pool == [] then 0
    else
      var last := pool[|pool| - 1];
      CountOf(pool[..|pool| - 1], c, s) + if last.category == c && last.severity == s then 1 else 0
  }

  method CountStrata(pool: seq<Row>) returns (size: map<Stratum, nat>)
    ensures forall c, s :: At(size, c, s) == CountOf(pool, c, s)
    ensures forall k <- size :: size[k] > 0
    ensures forall k :: k in size <==> exists i :: 0 <= i < |pool| && k == (pool[i].category, pool[i].severity)
  {
    size := map[];
    for i := 0 to |pool|
      invariant forall c, s :: At(size, c, s) == CountOf(pool[..i], c, s)
      invariant forall k <- size :: size[k] > 0
      invariant forall k :: k in size <==> exists j :: 0 <= j < i && k == (pool[j].category, pool[j].severity)
    {
      assert pool[..i + 1][..i] == pool[..i];
      var k := (pool[i].category, pool[i].severity);
      size := size[k := At(size, k.0, k.1) + 1];
    }
    assert pool[..|pool|] == pool;
  }

  lemma {:induction false} GridSumUpdate(m: map<Stratum, nat>, k: Stratum, v: nat, cs: seq<string>)
    requires NoRepeats(cs) && k.0 in cs
    ensures GridSum(m[k := v], cs, ALL) == GridSum(m, cs, ALL) - At(m, k.0, k.1) + v
  {
    var front, last := cs[..|cs| - 1], cs[|cs| - 1];
    var n := m[k := v];
    assert cs == front + [last];
    if last == k.0 {
      assert last !in front;
      forall c | c in front ensures RowSum(m, c, ALL) == RowSum(n, c, ALL) { RowSumSame(m, n, c, ALL); }
      GridSumSame(m, n, front, ALL);
      RowOfAll(m, last);
      RowOfAll(n, last);
      assert At(n, last, Critical) + At(n, last, High) + At(n, last, Medium) + At(n, last, Low)
          == At(m, last, Critical) + At(m, last, High) + At(m, last, Medium) + At(m, last, Low)
             - At(m, k.0, k.1) + v by {
        match k.1 case Critical => case High => case Medium => case Low =>
      }
    } else {
      GridSumUpdate(m, k, v, front);
      RowSumSame(m, n, last, ALL);
    }
  }

  /** A row is in exactly one stratum, so the strata count the pool. */
  lemma {:induction false} StrataCountThePool(pool: seq<Row>, size: map<Stratum, nat>, cs: seq<string>)
    requires NoRepeats(cs) && forall i :: 0 <= i < |pool| ==> pool[i].category in cs
    requires forall c, s :: At(size, c, s) == CountOf(pool, c, s)
    ensures Planned(size, cs) == |pool|
  {
    if pool == [] {
      forall c | c in cs ensures RowSum(size, c, ALL) == RowSum(map[], c, ALL) { RowSumSame(size, map[], c, ALL); }
      GridSumSame(size, map[], cs, ALL);
      NothingYet(map[], cs, ALL);
    } else {
      var k := (pool[|pool| - 1].category, pool[|pool| - 1].severity);
      var fewer := size[k := At(size, k.0, k.1) - 1];
      forall c, s ensures At(fewer, c, s) == CountOf(pool[..|pool| - 1], c, s) {
        assert At(size, c, s) == CountOf(pool, c, s);
      }
      StrataCountThePool(pool[..|pool| - 1], fewer, cs);
      GridSumUpdate(size, k, At(size, k.0, k.1) - 1, cs);
    }
  }

  /** What the take-all rule takes of `unknown`, where it applies. */
  function TakenUnknown(size: map<Stratum, nat>, cs: seq<string>, target: nat, takeAllCritHigh: bool): nat {
    if takeAllCritHigh && GridSum(size, cs, CRIT_HIGH) <= target then RowSum(size, UNKNOWN, CRIT_HIGH) else 0
  }

  /** What the branch taken says, and the notes of its own. */
  ghost predicate Branch(size: map<Stratum, nat>, cs: seq<string>, target: nat, budget: nat, takeAllCritHigh: bool,
                         floor: int, plan: map<Stratum, nat>, notes: seq<Note>, all: map<string, nat>,
                         shares: map<string, nat>)
  {
    if takeAllCritHigh then
      if GridSum(size, cs, CRIT_HIGH) > target then
        Proportional(size, cs, target, budget, floor, plan, notes, all, shares)
      else TookAll(size, cs, target, budget, floor, plan, notes, shares)
    else if GridSum(size, Classified(cs), ALL) <= target then
      AllKnown(size, cs, target, budget, plan) && notes == []
    else OnlyKnown(size, cs, target, floor, plan, notes, shares)
  }

  function Heading(size: map<Stratum, nat>, cs: seq<string>, target: nat, takeAllCritHigh: bool): seq<Note> {
    var critHigh, known := GridSum(size, cs, CRIT_HIGH), GridSum(size, Classified(cs), ALL);
    if takeAllCritHigh && critHigh > target then [TakeAllExceeds(critHigh, target)]
    else if !takeAllCritHigh && known > target then [ClassifiedExceed(known, target)]
    else []
  }

  function Shortfall(planned: nat, target: nat, budget: nat): seq<Note> {
    if planned < target then [Short(planned, target, budget)] else []
  }

  method PlanBranch(size: map<Stratum, nat>, cs: seq<string>, target: nat, budget: nat, takeAllCritHigh: bool,
                    floor: int)
      returns (plan: map<Stratum, nat>, notes: seq<Note>, ghost all: map<string, nat>, ghost shares: map<string, nat>)
    requires PoolOk(size, cs) && target <= Planned(size, cs)
    ensures Sound(size, cs, target, budget, TakenUnknown(size, cs, target, takeAllCritHigh), plan)
    ensures Branch(size, cs, target, budget, takeAllCritHigh, floor, plan, notes, all, shares)
  {
    var start := map k | k in size :: 0;
    all, shares := map[], map[];
    if takeAllCritHigh && GridSum(size, cs, CRIT_HIGH) > target {
      plan, notes, all, shares := PlanProportional(size, start, cs, target, budget, floor);
    } else if takeAllCritHigh {
      plan, notes, shares := PlanTakeAll(size, start, cs, target, budget, floor);
    } else if GridSum(size, Classified(cs), ALL) <= target {
      plan := PlanAllKnown(size, start, cs, target, budget);
      notes := [];
    } else {
      EmptyRow(start, UNKNOWN, ALL);
      plan, notes, shares := PlanOnlyKnown(size, start, cs, target, budget, floor);
    }
  }

  /** The plan for a pool, whose categories are listed in rank order: whichever branch is taken. */
  method Plan(pool: seq<Row>, cs: seq<string>, target: nat, budget: nat, takeAllCritHigh: bool, floor: int)
      returns (size: map<Stratum, nat>, plan: map<Stratum, nat>, notes: seq<Note>, effective: nat,
               ghost own: seq<Note>, ghost all: map<string, nat>, ghost shares: map<string, nat>)
    requires NoRepeats(cs) && forall c :: c in cs <==> exists i :: 0 <= i < |pool| && pool[i].category == c
    ensures forall c, s :: At(size, c, s) == CountOf(pool, c, s)
    ensures effective == Min(target, |pool|)
    ensures Sound(size, cs, effective, budget, TakenUnknown(size, cs, effective, takeAllCritHigh), plan)
    ensures Branch(size, cs, effective, budget, takeAllCritHigh, floor, plan, own, all, shares)
    ensures var critHigh, known := GridSum(size, cs, CRIT_HIGH), GridSum(size, Classified(cs), ALL);
            notes == (if takeAllCritHigh && critHigh > effective then [TakeAllExceeds(critHigh, effective)]
                      else if !takeAllCritHigh && known > effective then [ClassifiedExceed(known, effective)] else [])
                     + own
                     + (if Planned(plan, cs) < effective then [Short(Planned(plan, cs), effective, budget)] else [])
  {
    size := CountStrata(pool);
    StrataCountThePool(pool, size, cs);
    effective := Min(target, |pool|);
    plan, notes, all, shares := PlanBranch(size, cs, effective, budget, takeAllCritHigh, floor);
    own := notes;
    notes := Heading(size, cs, effective, takeAllCritHigh) + notes
             + Shortfall(Planned(plan, cs), effective, budget);
  }
}
