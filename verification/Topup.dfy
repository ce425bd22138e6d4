/** Raising categories to their floor by moving units from the best supplied ones. */
module Topup {
  import opened Common

  function Get(m: map<string, nat>, c: string): nat {
    if c in m then m[c] else 0
  }

  function SumOver(cs: seq<string>, m: map<string, nat>): nat {
    if cs == [] then 0 else SumOver(cs[..|cs| - 1], m) + Get(m, cs[|cs| - 1])
  }

  lemma {:induction false} SumOverSame(cs: seq<string>, m: map<string, nat>, n: map<string, nat>)
    requires forall c <- cs :: Get(m, c) == Get(n, c)
    ensures SumOver(cs, m) == SumOver(cs, n)
  {
    if cs != [] { SumOverSame(cs[..|cs| - 1], m, n); }
  }

  lemma {:induction false} SumOverUpdate(cs: seq<string>, m: map<string, nat>, c: string, v: nat)
    requires NoRepeats(cs) && c in cs
    ensures SumOver(cs, m[c := v]) == SumOver(cs, m) - Get(m, c) + v
  {
    var front, last := cs[..|cs| - 1], cs[|cs| - 1];
    if c == last {
      assert c !in front;
      SumOverSame(front, m, m[c := v]);
    } else {
      assert c in front;
      SumOverUpdate(front, m, c, v);
    }
  }

  /** Two allocations, one nowhere above the other: equal sums make them equal. */
  lemma {:induction false} SumOverTight(cs: seq<string>, m: map<string, nat>, n: map<string, nat>)
    requires forall c <- cs :: Get(m, c) <= Get(n, c)
    ensures SumOver(cs, m) <= SumOver(cs, n)
    ensures SumOver(cs, m) == SumOver(cs, n) ==> forall c <- cs :: Get(m, c) == Get(n, c)
  {
    if cs != [] {
      SumOverTight(cs[..|cs| - 1], m, n);
      assert cs == cs[..|cs| - 1] + [cs[|cs| - 1]];
    }
  }

  /** What a category must reach, has, can give and still lacks. */
  datatype Rules = Rules(fixed: map<string, nat>, pool: map<string, nat>, floor: int)
  {
    function Wanted(c: string): int {
      if floor < Get(pool, c) then floor else Get(pool, c)
    }

    function Total(alloc: map<string, nat>, c: string): nat {
      Get(fixed, c) + Get(alloc, c)
    }

    predicate Below(alloc: map<string, nat>, c: string) {
      Total(alloc, c) < Wanted(c)
    }

    function Surplus(alloc: map<string, nat>, c: string): int {
      var over := Total(alloc, c) - Wanted(c);
      if Get(alloc, c) < over then Get(alloc, c) else over
    }

    function Deficit(alloc: map<string, nat>, c: string): nat {
      if Total(alloc, c) < Wanted(c) then Wanted(c) - Total(alloc, c) else 0
    }

    function Deficits(cs: seq<string>, alloc: map<string, nat>): nat {
      if cs == [] then 0 else Deficits(cs[..|cs| - 1], alloc) + Deficit(alloc, cs[|cs| - 1])
    }
  }

  lemma {:induction false} DeficitsFall(r: Rules, cs: seq<string>, a: map<string, nat>, b: map<string, nat>, at: string)
    requires forall c <- cs :: r.Deficit(b, c) <= r.Deficit(a, c)
    ensures r.Deficits(cs, b) <= r.Deficits(cs, a)
    ensures at in cs && r.Deficit(b, at) < r.Deficit(a, at) ==> r.Deficits(cs, b) < r.Deficits(cs, a)
  {
    if cs != [] {
      DeficitsFall(r, cs[..|cs| - 1], a, b, at);
      assert cs == cs[..|cs| - 1] + [cs[|cs| - 1]];
    }
  }

  /** A category reported rather than forced. */
  datatype Stuck = Stuck(category: string, at: nat, wanted: int)

  function Moved(alloc: map<string, nat>, donor: string, recipient: string, give: nat): map<string, nat>
    requires give <= Get(alloc, donor)
  {
    alloc[donor := Get(alloc, donor) - give][recipient := Get(alloc, recipient) + give]
  }

  lemma MoveKeepsSum(cs: seq<string>, alloc: map<string, nat>, donor: string, recipient: string, give: nat)
    requires NoRepeats(cs) && donor in cs && recipient in cs && donor != recipient && give <= Get(alloc, donor)
    ensures SumOver(cs, Moved(alloc, donor, recipient, give)) == SumOver(cs, alloc)
  {
    SumOverUpdate(cs, alloc, donor, Get(alloc, donor) - give);
    SumOverUpdate(cs, alloc[donor := Get(alloc, donor) - give], recipient, Get(alloc, recipient) + give);
  }

  /** First in falling order of allocation among those with a surplus; equal allocations in category
      order. */
  ghost predicate IsBestDonor(r: Rules, cs: seq<string>, alloc: map<string, nat>, recipient: string, i: nat)
    requires i < |cs|
  {
    && cs[i] != recipient && r.Surplus(alloc, cs[i]) > 0
    && (forall j :: 0 <= j < |cs| && cs[j] != recipient && r.Surplus(alloc, cs[j]) > 0 ==>
          Get(alloc, cs[j]) <= Get(alloc, cs[i]))
    && (forall j :: 0 <= j < i && cs[j] != recipient && r.Surplus(alloc, cs[j]) > 0 ==>
          Get(alloc, cs[j]) < Get(alloc, cs[i]))
  }

  method BestDonor(r: Rules, cs: seq<string>, alloc: map<string, nat>, recipient: string) returns (donor: Option<nat>)
    ensures donor.None? <==> forall c <- cs :: c != recipient ==> r.Surplus(alloc, c) <= 0
    ensures donor.Some? ==> donor.value < |cs| && IsBestDonor(r, cs, alloc, recipient, donor.value)
  {
    donor := None;
    for i := 0 to |cs|
      invariant donor.None? <==> forall j :: 0 <= j < i && cs[j] != recipient ==> r.Surplus(alloc, cs[j]) <= 0
      invariant donor.Some? ==> donor.value < i && IsBestDonor(r, cs[..i], alloc, recipient, donor.value)
    {
      if cs[i] != recipient && r.Surplus(alloc, cs[i]) > 0
         && (donor.None? || Get(alloc, cs[i]) > Get(alloc, cs[donor.value])) {
        donor := Some(i);
      }
    }
    assert cs[..|cs|] == cs;
  }

  /** The first category below its floor that is not stuck, or the number of categories. */
  method FirstBelow(r: Rules, cs: seq<string>, alloc: map<string, nat>, stuck: set<string>) returns (first: nat)
    ensures first <= |cs| && (first < |cs| ==> cs[first] !in stuck && r.Below(alloc, cs[first]))
    ensures forall i :: 0 <= i < first ==> cs[i] in stuck || !r.Below(alloc, cs[i])
  {
    first := 0;
    while first < |cs| && (cs[first] in stuck || !r.Below(alloc, cs[first]))
      invariant first <= |cs|
      invariant forall i :: 0 <= i < first ==> cs[i] in stuck || !r.Below(alloc, cs[i])
    {
      first := first + 1;
    }
  }

  /** What the loop keeps of the allocation it began with. */
  ghost predicate Kept(r: Rules, cs: seq<string>, start: map<string, nat>, alloc: map<string, nat>) {
    && alloc.Keys == start.Keys
    && SumOver(cs, alloc) == SumOver(cs, start)
    && (forall c <- cs :: Get(alloc, c) < Get(start, c) ==> r.Total(alloc, c) >= r.Wanted(c))
    && (forall c <- cs :: Get(alloc, c) > Get(start, c) ==> r.Total(alloc, c) <= r.Wanted(c))
  }

  /** Nothing can be moved any more. */
  ghost predicate NothingToGive(r: Rules, cs: seq<string>, alloc: map<string, nat>) {
    forall c <- cs :: r.Surplus(alloc, c) <= 0
  }

  lemma MoveIsKept(r: Rules, cs: seq<string>, start: map<string, nat>, alloc: map<string, nat>, donor: string,
                   recipient: string, give: nat)
    requires NoRepeats(cs) && Kept(r, cs, start, alloc) && donor in cs && recipient in cs && donor != recipient
    requires forall c <- cs :: c in start
    requires 0 < give <= r.Surplus(alloc, donor) && give <= r.Wanted(recipient) - r.Total(alloc, recipient)
    ensures Kept(r, cs, start, Moved(alloc, donor, recipient, give))
    ensures r.Deficits(cs, Moved(alloc, donor, recipient, give)) < r.Deficits(cs, alloc)
  {
    var after := Moved(alloc, donor, recipient, give);
    MoveKeepsSum(cs, alloc, donor, recipient, give);
    assert forall c :: c != donor && c != recipient ==> Get(after, c) == Get(alloc, c);
    DeficitsFall(r, cs, alloc, after, recipient);
  }

  /** The categories below their floor, in order. */
  function Unlifted(r: Rules, cs: seq<string>, alloc: map<string, nat>): seq<Stuck> {
    if cs == [] then []
    else
      var c := cs[|cs| - 1];
      Unlifted(r, cs[..|cs| - 1], alloc) + if r.Below(alloc, c) then [Stuck(c, r.Total(alloc, c), r.Wanted(c))] else []
  }

  lemma {:induction false} UnliftedSkips(r: Rules, cs: seq<string>, alloc: map<string, nat>, i: nat)
    requires i <= |cs| && forall j :: i <= j < |cs| ==> !r.Below(alloc, cs[j])
    ensures Unlifted(r, cs, alloc) == Unlifted(r, cs[..i], alloc)
  {
    if i < |cs| {
      UnliftedSkips(r, cs[..|cs| - 1], alloc, i);
      assert cs[..|cs| - 1][..i] == cs[..i];
    } else {
      assert cs[..i] == cs;
    }
  }

  lemma UnliftedMore(r: Rules, cs: seq<string>, alloc: map<string, nat>, i: nat, j: nat)
    requires i <= j < |cs| && r.Below(alloc, cs[j]) && forall k :: i <= k < j ==> !r.Below(alloc, cs[k])
    ensures Unlifted(r, cs[..j + 1], alloc) ==
            Unlifted(r, cs[..i], alloc) + [Stuck(cs[j], r.Total(alloc, cs[j]), r.Wanted(cs[j]))]
  {
    UnliftedSkips(r, cs[..j], alloc, i);
    assert cs[..j][..i] == cs[..i] && cs[..j + 1][..j] == cs[..j];
  }

  lemma {:induction false} UnliftedExactly(r: Rules, cs: seq<string>, alloc: map<string, nat>, n: Stuck)
    ensures n in Unlifted(r, cs, alloc) <==>
            n.category in cs && n.at == r.Total(alloc, n.category) < r.Wanted(n.category) == n.wanted
  {
    if cs != [] {
      UnliftedExactly(r, cs[..|cs| - 1], alloc, n);
      assert cs == cs[..|cs| - 1] + [cs[|cs| - 1]];
    }
  }

  lemma OneFewer(all: set<string>, stuck: set<string>, c: string)
    requires c in all && c !in stuck
    ensures |all - (stuck + {c})| < |all - stuck|
  {
    assert all - (stuck + {c}) == (all - stuck) - {c};
  }

  /** As much as the donor can spare and the recipient needs. */
  function Gift(r: Rules, alloc: map<string, nat>, donor: string, recipient: string): (give: nat)
    requires r.Surplus(alloc, donor) > 0 && r.Total(alloc, recipient) < r.Wanted(recipient)
    ensures give <= Get(alloc, donor)
  {
    var surplus, need := r.Surplus(alloc, donor), r.Wanted(recipient) - r.Total(alloc, recipient);
    if surplus < need then surplus else need
  }

  /** Lift one category below its floor, as far as the best donor can. */
  method Lift(start: map<string, nat>, before: map<string, nat>, r: Rules, cs: seq<string>, recipient: string)
      returns (alloc: map<string, nat>, moved: bool)
    requires NoRepeats(cs) && (forall c <- cs :: c in start) && Kept(r, cs, start, before)
    requires recipient in cs && r.Total(before, recipient) < r.Wanted(recipient)
    ensures Kept(r, cs, start, alloc)
    ensures moved ==> r.Deficits(cs, alloc) < r.Deficits(cs, before)
    ensures moved <==> !NothingToGive(r, cs, before)
    ensures !moved ==> alloc == before
    ensures moved ==> exists i :: 0 <= i < |cs| && IsBestDonor(r, cs, before, recipient, i)
                                  && alloc == Moved(before, cs[i], recipient, Gift(r, before, cs[i], recipient))
                                  && (r.Surplus(alloc, cs[i]) == 0 || r.Total(alloc, recipient) == r.Wanted(recipient))
  {
    alloc := before;
    var donor := BestDonor(r, cs, before, recipient);
    moved := donor.Some?;
    if moved {
      var giver := cs[donor.value];
      var give := Gift(r, before, giver, recipient);
      MoveIsKept(r, cs, start, before, giver, recipient, give);
      alloc := Moved(before, giver, recipient, give);
    }
  }

  /** Among the first `done` categories, those below their floor are stuck and noted; once one is stuck
      nothing moves any more. */
  ghost predicate Marked(r: Rules, cs: seq<string>, alloc: map<string, nat>, stuck: set<string>, notes: seq<Stuck>,
                         done: nat)
  {
    && done <= |cs| && notes == Unlifted(r, cs[..done], alloc)
    && (forall i :: done <= i < |cs| ==> cs[i] !in stuck)
    && (forall i :: 0 <= i < done ==> cs[i] in stuck || !r.Below(alloc, cs[i]))
    && (stuck == {} ==> done == 0)
    && (stuck != {} ==> NothingToGive(r, cs, alloc))
  }

  lemma NothingIsMarkedYet(r: Rules, cs: seq<string>, alloc: map<string, nat>)
    ensures Marked(r, cs, alloc, {}, [], 0)
  {
    assert cs[..0] == [];
  }

  /** As long as something can move, nothing is marked. */
  lemma MoveMarksNothing(r: Rules, cs: seq<string>, before: map<string, nat>, after: map<string, nat>,
                         stuck: set<string>, notes: seq<Stuck>, done: nat)
    requires Marked(r, cs, before, stuck, notes, done) && !NothingToGive(r, cs, before)
    ensures Marked(r, cs, after, stuck, notes, done)
  {
    assert cs[..0] == [];
  }

  lemma MarkedToTheEnd(r: Rules, cs: seq<string>, alloc: map<string, nat>, stuck: set<string>, notes: seq<Stuck>,
                       done: nat)
    requires NoRepeats(cs) && Marked(r, cs, alloc, stuck, notes, done)
    requires forall i :: 0 <= i < |cs| ==> cs[i] in stuck || !r.Below(alloc, cs[i])
    ensures notes == Unlifted(r, cs, alloc) && (notes != [] ==> NothingToGive(r, cs, alloc))
  {
    UnliftedSkips(r, cs, alloc, done);
  }

  lemma MarkOneMore(r: Rules, cs: seq<string>, alloc: map<string, nat>, stuck: set<string>, notes: seq<Stuck>,
                    done: nat, at: nat)
    requires NoRepeats(cs) && Marked(r, cs, alloc, stuck, notes, done)
    requires at < |cs| && cs[at] !in stuck && r.Below(alloc, cs[at]) && NothingToGive(r, cs, alloc)
    requires forall i :: 0 <= i < at ==> cs[i] in stuck || !r.Below(alloc, cs[i])
    ensures Marked(r, cs, alloc, stuck + {cs[at]}, notes + [Stuck(cs[at], r.Total(alloc, cs[at]), r.Wanted(cs[at]))],
                   at + 1)
    ensures |Elements(cs) - (stuck + {cs[at]})| < |Elements(cs) - stuck|
  {
    assert done <= at;
    UnliftedMore(r, cs, alloc, done, at);
    OneFewer(Elements(cs), stuck, cs[at]);
    forall i | at + 1 <= i < |cs| ensures cs[i] !in stuck + {cs[at]} { assert cs[i] != cs[at]; }
    assert cs[at] in Elements(cs);
  }

  /** One round: the first category below its floor is lifted, or marked and noted. */
  method Round(start: map<string, nat>, before: map<string, nat>, r: Rules, cs: seq<string>, marked: set<string>,
               noted: seq<Stuck>, ghost done: nat)
      returns (over: bool, alloc: map<string, nat>, stuck: set<string>, notes: seq<Stuck>, ghost upTo: nat)
    requires NoRepeats(cs) && (forall c <- cs :: c in start) && Kept(r, cs, start, before)
    requires Marked(r, cs, before, marked, noted, done)
    ensures Kept(r, cs, start, alloc) && Marked(r, cs, alloc, stuck, notes, upTo)
    ensures over ==> notes == Unlifted(r, cs, alloc) && (notes != [] ==> NothingToGive(r, cs, alloc))
    ensures !over ==> r.Deficits(cs, alloc) < r.Deficits(cs, before)
                      || (alloc == before && |Elements(cs) - stuck| < |Elements(cs) - marked|)
  {
    over, alloc, stuck, notes, upTo := false, before, marked, noted, done;
    var first := FirstBelow(r, cs, before, marked);
    if first == |cs| {
      MarkedToTheEnd(r, cs, before, marked, noted, done);
      over := true;
      return;
    }
    var recipient := cs[first];
    var moved;
    alloc, moved := Lift(start, before, r, cs, recipient);
    if moved {
      MoveMarksNothing(r, cs, before, alloc, marked, noted, done);
    } else {
      MarkOneMore(r, cs, before, marked, noted, done, first);
      stuck := marked + {recipient};
      notes := noted + [Stuck(recipient, r.Total(before, recipient), r.Wanted(recipient))];
      upTo := first + 1;
    }
  }

  /** The loop ends: each round lowers the total deficit, or marks one more category stuck. No donor goes
      below its own floor, and at the end every category has its floor, or those that have not are
      reported in order and nothing can be given. */
  method FloorTopup(start: map<string, nat>, r: Rules, cs: seq<string>)
      returns (alloc: map<string, nat>, notes: seq<Stuck>)
    requires NoRepeats(cs) && forall c <- cs :: c in start
    ensures Kept(r, cs, start, alloc)
    ensures notes == Unlifted(r, cs, alloc)
    ensures notes != [] ==> NothingToGive(r, cs, alloc)
  {
    alloc, notes := start, [];
    var stuck: set<string>, over := {}, false;
    ghost var done := 0;
    NothingIsMarkedYet(r, cs, alloc);
    while !over
      invariant Kept(r, cs, start, alloc) && Marked(r, cs, alloc, stuck, notes, done)
      invariant over ==> notes == Unlifted(r, cs, alloc) && (notes != [] ==> NothingToGive(r, cs, alloc))
      decreases !over, r.Deficits(cs, alloc), |Elements(cs) - stuck|
    {
      over, alloc, stuck, notes, done := Round(start, alloc, r, cs, stuck, notes, done);
    }
  }
}
