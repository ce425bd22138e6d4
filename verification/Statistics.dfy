/** The evaluation's exact statistics: McNemar's test and Cohen's kappa, in integers. */
module Statistics {
  // ---- binomials ------------------------------------------------------------------------------------

  function Choose(n: nat, k: nat): nat {
    if k == 0 then 1 else if n == 0 then 0 else Choose(n - 1, k - 1) + Choose(n - 1, k)
  }

  function Power2(n: nat): nat {
    if n == 0 then 1 else 2 * Power2(n - 1)
  }

  /** `sum(comb(n, k) for k in range(m))`. */
  function Tail(n: nat, m: nat): nat {
    if m == 0 then 0 else Tail(n, m - 1) + Choose(n, m - 1)
  }

  lemma {:induction false} ChooseBeyond(n: nat, k: nat)
    requires k > n
    ensures Choose(n, k) == 0
  {
    if n > 0 {
      ChooseBeyond(n - 1, k - 1);
      ChooseBeyond(n - 1, k);
    }
  }

  lemma {:induction false} ChooseIsPositive(n: nat, k: nat)
    requires k <= n
    ensures Choose(n, k) > 0
  {
    if k > 0 { ChooseIsPositive(n - 1, k - 1); }
  }

  lemma {:induction false} ChooseAll(n: nat)
    ensures Choose(n, n) == 1
  {
    if n > 0 {
      ChooseAll(n - 1);
      ChooseBeyond(n - 1, n);
    }
  }

  lemma {:induction false} ChooseIsSymmetric(n: nat, k: nat)
    requires k <= n
    ensures Choose(n, k) == Choose(n, n - k)
  {
    if k == 0 || k == n {
      ChooseAll(n);
    } else {
      ChooseIsSymmetric(n - 1, k - 1);
      ChooseIsSymmetric(n - 1, k);
    }
  }

  lemma {:induction false} TailByPascal(n: nat, m: nat)
    requires n > 0 && m > 0
    ensures Tail(n, m) == Tail(n - 1, m - 1) + Tail(n - 1, m)
  {
    if m > 1 { TailByPascal(n, m - 1); }
  }

  lemma {:induction false} WholeTail(n: nat)
    ensures Tail(n, n + 1) == Power2(n)
  {
    if n > 0 {
      WholeTail(n - 1);
      TailByPascal(n, n + 1);
      ChooseBeyond(n - 1, n);
    } else {
      assert Tail(0, 1) == Tail(0, 0) + Choose(0, 0);
    }
  }

  /** The lower and the upper tail make up the whole. */
  lemma {:induction false} TailsAreComplementary(n: nat, m: nat)
    requires m <= n + 1
    ensures Tail(n, m) + Tail(n, n + 1 - m) == Power2(n)
  {
    if m == 0 {
      WholeTail(n);
    } else {
      TailsAreComplementary(n, m - 1);
      ChooseIsSymmetric(n, m - 1);
      assert Tail(n, n + 2 - m) == Tail(n, n + 1 - m) + Choose(n, n + 1 - m);
    }
  }

  lemma {:induction false} TailGrows(n: nat, m: nat, k: nat)
    requires m <= k
    ensures Tail(n, m) <= Tail(n, k)
    decreases k
  {
    if m < k { TailGrows(n, m, k - 1); }
  }

  // ---- McNemar --------------------------------------------------------------------------------------

  function Smaller(a: nat, b: nat): nat {
    if a < b then a else b
  }

  /** Twice the lower tail of the discordant pairs. */
  function Twice(a: nat, b: nat): nat {
    2 * Tail(a + b, Smaller(a, b) + 1)
  }

  /** The p-value's numerator over `2^(a + b)`. */
  function PNumerator(a: nat, b: nat): nat {
    if a + b == 0 then 1 else if Twice(a, b) < Power2(a + b) then Twice(a, b) else Power2(a + b)
  }

  /** The clamp to one acts exactly on ties. */
  lemma ClampActsOnTiesOnly(a: nat, b: nat)
    requires a + b > 0
    ensures Twice(a, b) > Power2(a + b) <==> a == b
  {
    var n, m := a + b, Smaller(a, b);
    TailsAreComplementary(n, m + 1);
    if a == b {
      ChooseIsPositive(n, m);
      assert Tail(n, m + 1) == Tail(n, m) + Choose(n, m);
    } else {
      TailGrows(n, m + 1, n - m);
    }
  }

  /** The p-value is twice the lower tail, or one where that is more; and one where no pair is discordant. */
  lemma PIsTheSmaller(a: nat, b: nat)
    ensures PNumerator(a, b) <= Power2(a + b)
    ensures a != b ==> PNumerator(a, b) == Twice(a, b) <= Power2(a + b)
    ensures a == b ==> PNumerator(a, b) == Power2(a + b)
  {
    if a + b > 0 { ClampActsOnTiesOnly(a, b); }
  }

  function Factorial(n: nat): nat {
    if n == 0 then 1 else n * Factorial(n - 1)
  }

  lemma PascalOfFactorials(n: nat, k: nat, x: nat, y: nat, f: nat, g: nat, h: nat)
    requires 0 < k < n
    requires x * (f * ((n - k) * g)) == h && y * ((k * f) * g) == h
    ensures (x + y) * ((k * f) * ((n - k) * g)) == n * h
  {
    assert x * ((k * f) * ((n - k) * g)) == k * (x * (f * ((n - k) * g)));
    assert y * ((k * f) * ((n - k) * g)) == (n - k) * (y * ((k * f) * g));
    assert k * h + (n - k) * h == n * h;
  }

  /** The binomials are the ones: `n!` over `k!` and `(n - k)!`. */
  lemma {:induction false} ChooseByFactorials(n: nat, k: nat)
    requires k <= n
    ensures Choose(n, k) * (Factorial(k) * Factorial(n - k)) == Factorial(n)
  {
    if 0 < k < n {
      ChooseByFactorials(n - 1, k - 1);
      ChooseByFactorials(n - 1, k);
      PascalOfFactorials(n, k, Choose(n - 1, k - 1), Choose(n - 1, k), Factorial(k - 1), Factorial(n - k - 1),
                         Factorial(n - 1));
    } else if k == n {
      ChooseAll(n);
    }
  }

  /** For a fixed number of discordant pairs, a more lopsided split is no less significant. */
  lemma PFallsWithLopsidedness(a: nat, b: nat, c: nat, d: nat)
    requires a + b == c + d && Smaller(a, b) <= Smaller(c, d)
    ensures PNumerator(a, b) <= PNumerator(c, d)
  {
    TailGrows(a + b, Smaller(a, b) + 1, Smaller(c, d) + 1);
  }

  function AOnly(pairs: seq<(bool, bool)>): nat {
    if pairs == [] then 0
    else AOnly(pairs[..|pairs| - 1]) + if pairs[|pairs| - 1].0 && !pairs[|pairs| - 1].1 then 1 else 0
  }

  function BOnly(pairs: seq<(bool, bool)>): nat {
    if pairs == [] then 0
    else BOnly(pairs[..|pairs| - 1]) + if pairs[|pairs| - 1].1 && !pairs[|pairs| - 1].0 then 1 else 0
  }

  /** The p-value of two aligned runs, as numerator and denominator. */
  function PValue(pairs: seq<(bool, bool)>): (nat, nat) {
    (PNumerator(AOnly(pairs), BOnly(pairs)), Power2(AOnly(pairs) + BOnly(pairs)))
  }

  function Swapped<T>(pairs: seq<(T, T)>): seq<(T, T)> {
    seq(|pairs|, i requires 0 <= i < |pairs| => (pairs[i].1, pairs[i].0))
  }

  lemma {:induction false} SwappedRuns(pairs: seq<(bool, bool)>)
    ensures AOnly(Swapped(pairs)) == BOnly(pairs) && BOnly(Swapped(pairs)) == AOnly(pairs)
  {
    if pairs != [] {
      SwappedRuns(pairs[..|pairs| - 1]);
      assert Swapped(pairs)[..|pairs| - 1] == Swapped(pairs[..|pairs| - 1]);
    }
  }

  /** The test does not care which run comes first. */
  lemma PIsSymmetric(pairs: seq<(bool, bool)>)
    ensures PValue(Swapped(pairs)) == PValue(pairs)
  {
    SwappedRuns(pairs);
    assert AOnly(pairs) + BOnly(pairs) == BOnly(pairs) + AOnly(pairs);
  }

  method SumTail(n: nat, m: nat) returns (tail: nat)
    ensures tail == Tail(n, m)
  {
    tail := 0;
    for k := 0 to m
      invariant tail == Tail(n, k)
    {
      tail := tail + Choose(n, k);
    }
  }

  /** Aligned predictions, right or wrong in each run. */
  method McNemar(pairs: seq<(bool, bool)>) returns (aOnly: nat, bOnly: nat, numerator: nat, denominator: nat)
    ensures aOnly == AOnly(pairs) && bOnly == BOnly(pairs)
    ensures (numerator, denominator) == PValue(pairs) && numerator <= denominator
  {
    aOnly, bOnly := 0, 0;
    for i := 0 to |pairs|
      invariant aOnly == AOnly(pairs[..i]) && bOnly == BOnly(pairs[..i])
    {
      assert pairs[..i + 1][..i] == pairs[..i];
      if pairs[i].0 && !pairs[i].1 {
        aOnly := aOnly + 1;
      } else if pairs[i].1 && !pairs[i].0 {
        bOnly := bOnly + 1;
      }
    }
    assert pairs[..|pairs|] == pairs;
    var n := aOnly + bOnly;
    denominator := Power2(n);
    if n == 0 {
      numerator := 1;
    } else {
      var tail := SumTail(n, Smaller(aOnly, bOnly) + 1);
      numerator := if 2 * tail < denominator then 2 * tail else denominator;
    }
  }

  // ---- kappa -----------------------------------------------------------------------------------------

  /** The three labels. */
  datatype Label = FalsePositive | Benign | Escalate

  function Cell(pairs: seq<(Label, Label)>, a: Label, b: Label): nat {
    if pairs == [] then 0 else Cell(pairs[..|pairs| - 1], a, b) + if pairs[|pairs| - 1] == (a, b) then 1 else 0
  }

  /** How many pairs have this first label, and this second one. */
  function Row(pairs: seq<(Label, Label)>, a: Label): nat {
    if pairs == [] then 0 else Row(pairs[..|pairs| - 1], a) + if pairs[|pairs| - 1].0 == a then 1 else 0
  }

  function Column(pairs: seq<(Label, Label)>, b: Label): nat {
    if pairs == [] then 0 else Column(pairs[..|pairs| - 1], b) + if pairs[|pairs| - 1].1 == b then 1 else 0
  }

  function Agreed(pairs: seq<(Label, Label)>): nat {
    Cell(pairs, FalsePositive, FalsePositive) + Cell(pairs, Benign, Benign) + Cell(pairs, Escalate, Escalate)
  }

  /** A product, as repeated addition: it keeps the marginals' products out of linear reasoning. */
  function Times(a: nat, b: nat): nat {
    if a == 0 then 0 else Times(a - 1, b) + b
  }

  lemma {:induction false} TimesIsProduct(a: nat, b: nat)
    ensures Times(a, b) == a * b
  {
    if a > 0 {
      TimesIsProduct(a - 1, b);
      assert a * b == (a - 1) * b + b;
    }
  }

  /** Agreement by chance, over `n * n`. */
  function Chance(pairs: seq<(Label, Label)>): nat {
    Times(Row(pairs, FalsePositive), Column(pairs, FalsePositive)) + Times(Row(pairs, Benign), Column(pairs, Benign))
    + Times(Row(pairs, Escalate), Column(pairs, Escalate))
  }

  /** Every pair is this one label, twice. */
  predicate OnlyLabel(pairs: seq<(Label, Label)>, k: Label) {
    forall i :: 0 <= i < |pairs| ==> pairs[i] == (k, k)
  }

  /** Undefined without pairs and at chance one; else a fraction. */
  datatype Kappa = NoPairs | ChanceIsOne | Kappa(numerator: int, denominator: int)

  function KappaOf(pairs: seq<(Label, Label)>): Kappa {
    var n := |pairs|;
    if n == 0 then NoPairs
    else if Chance(pairs) == n * n then ChanceIsOne
    else Kappa(n * Agreed(pairs) - Chance(pairs), n * n - Chance(pairs))
  }

  lemma {:induction false} MarginalsCount(pairs: seq<(Label, Label)>)
    ensures Row(pairs, FalsePositive) + Row(pairs, Benign) + Row(pairs, Escalate) == |pairs|
    ensures Column(pairs, FalsePositive) + Column(pairs, Benign) + Column(pairs, Escalate) == |pairs|
  {
    if pairs != [] {
      MarginalsCount(pairs[..|pairs| - 1]);
      var (a, b) := pairs[|pairs| - 1];
      assert a == FalsePositive || a == Benign || a == Escalate;
      assert b == FalsePositive || b == Benign || b == Escalate;
    }
  }

  /** The marginals of the table. */
  lemma {:induction false} MarginalsOfCells(pairs: seq<(Label, Label)>, k: Label)
    ensures Row(pairs, k) == Cell(pairs, k, FalsePositive) + Cell(pairs, k, Benign) + Cell(pairs, k, Escalate)
    ensures Column(pairs, k) == Cell(pairs, FalsePositive, k) + Cell(pairs, Benign, k) + Cell(pairs, Escalate, k)
  {
    if pairs != [] {
      MarginalsOfCells(pairs[..|pairs| - 1], k);
      var (a, b) := pairs[|pairs| - 1];
      assert a == FalsePositive || a == Benign || a == Escalate;
      assert b == FalsePositive || b == Benign || b == Escalate;
    }
  }

  /** A label's row and column overlap in its agreed cell. */
  lemma {:induction false} RowMeetsColumn(pairs: seq<(Label, Label)>, k: Label)
    ensures Row(pairs, k) + Column(pairs, k) <= |pairs| + Cell(pairs, k, k)
    ensures Cell(pairs, k, k) <= Row(pairs, k) <= |pairs| && Cell(pairs, k, k) <= Column(pairs, k) <= |pairs|
  {
    if pairs != [] { RowMeetsColumn(pairs[..|pairs| - 1], k); }
  }

  lemma {:induction false} AllInOneCell(pairs: seq<(Label, Label)>, a: Label, b: Label)
    ensures Cell(pairs, a, b) <= |pairs|
    ensures Cell(pairs, a, b) == |pairs| <==> forall i :: 0 <= i < |pairs| ==> pairs[i] == (a, b)
  {
    if pairs != [] {
      var front := pairs[..|pairs| - 1];
      AllInOneCell(front, a, b);
      assert pairs == front + [pairs[|pairs| - 1]];
    }
  }

  lemma {:induction false} AllAgree(pairs: seq<(Label, Label)>)
    ensures Agreed(pairs) <= |pairs|
    ensures Agreed(pairs) == |pairs| <==> forall i :: 0 <= i < |pairs| ==> pairs[i].0 == pairs[i].1
  {
    if pairs != [] {
      AllAgree(pairs[..|pairs| - 1]);
      assert pairs == pairs[..|pairs| - 1] + [pairs[|pairs| - 1]];
      var (a, b) := pairs[|pairs| - 1];
      match a case FalsePositive => case Benign => case Escalate =>
    }
  }

  // Three rows and columns that sum to n, as plain numbers.

  lemma Product(r: nat, c: nat, n: nat)
    requires c <= n
    ensures r * c <= r * n
    ensures r * c == r * n <==> r == 0 || c == n
  {
    if c < n { assert r * n == r * c + r * (n - c); }
  }

  lemma ShareOfRow(r: nat, c: nat, n: nat)
    requires c <= n
    ensures Times(r, c) <= Times(n, r)
    ensures Times(r, c) == Times(n, r) <==> r == 0 || c == n
  {
    TimesIsProduct(r, c);
    TimesIsProduct(n, r);
    Product(r, c, n);
  }

  lemma {:induction false} TimesDistributes(n: nat, a: nat, b: nat)
    ensures Times(n, a + b) == Times(n, a) + Times(n, b)
  {
    if n > 0 { TimesDistributes(n - 1, a, b); }
  }

  lemma MeanSquare(r: nat, c: nat)
    ensures 4 * (r * c) <= (r + c) * (r + c)
  {
    assert (r + c) * (r + c) - 4 * (r * c) == (r - c) * (r - c);
    assert (r - c) * (r - c) >= 0;
  }

  lemma Scale(a: nat, b: nat, c: nat)
    requires a <= b
    ensures a * c <= b * c && c * a <= c * b
  {
  }

  lemma OneLabel(r: nat, c: nat, d: nat, n: nat)
    requires r + c <= n + d && r + c <= 2 * n
    ensures 4 * (r * c) <= n * (r + c) + 2 * (n * d)
  {
    var s := r + c;
    MeanSquare(r, c);
    Scale(s, n + d, s);
    assert s * (n + d) == n * s + s * d;
    Scale(s, 2 * n, d);
    assert (2 * n) * d == 2 * (n * d);
  }

  lemma LabelShare(r: nat, c: nat, d: nat, n: nat)
    requires r + c <= n + d && r + c <= 2 * n
    ensures 4 * Times(r, c) <= Times(n, r + c) + 2 * Times(n, d)
  {
    TimesIsProduct(r, c);
    TimesIsProduct(n, r + c);
    TimesIsProduct(n, d);
    OneLabel(r, c, d, n);
  }

  /** Twice the chance agreement is at most all pairs and the agreed ones: kappa is at least -1. */
  lemma ThreeLabels(n: nat, r1: nat, r2: nat, r3: nat, c1: nat, c2: nat, c3: nat, d1: nat, d2: nat, d3: nat)
    requires r1 + r2 + r3 == n && c1 + c2 + c3 == n
    requires r1 + c1 <= n + d1 && r2 + c2 <= n + d2 && r3 + c3 <= n + d3
    ensures 2 * (Times(r1, c1) + Times(r2, c2) + Times(r3, c3)) <= Times(n, n) + Times(n, d1 + d2 + d3)
  {
    LabelShare(r1, c1, d1, n);
    LabelShare(r2, c2, d2, n);
    LabelShare(r3, c3, d3, n);
    TimesDistributes(n, r1 + c1, r2 + c2);
    TimesDistributes(n, r1 + c1 + (r2 + c2), r3 + c3);
    assert r1 + c1 + (r2 + c2) + (r3 + c3) == n + n;
    TimesDistributes(n, n, n);
    TimesDistributes(n, d1, d2);
    TimesDistributes(n, d1 + d2, d3);
  }

  lemma RowsMakeAll(n: nat, r1: nat, r2: nat, r3: nat)
    requires r1 + r2 + r3 == n
    ensures Times(n, r1) + Times(n, r2) + Times(n, r3) == Times(n, n)
  {
    TimesDistributes(n, r1, r2);
    TimesDistributes(n, r1 + r2, r3);
  }

  lemma AtMostAll(n: nat, r1: nat, r2: nat, r3: nat, c1: nat, c2: nat, c3: nat)
    requires r1 + r2 + r3 == n && c1 <= n && c2 <= n && c3 <= n
    ensures Times(r1, c1) + Times(r2, c2) + Times(r3, c3) <= Times(n, n)
    ensures Times(r1, c1) + Times(r2, c2) + Times(r3, c3) == Times(n, n) <==>
            (r1 == 0 || c1 == n) && (r2 == 0 || c2 == n) && (r3 == 0 || c3 == n)
  {
    ShareOfRow(r1, c1, n);
    ShareOfRow(r2, c2, n);
    ShareOfRow(r3, c3, n);
    RowsMakeAll(n, r1, r2, r3);
  }

  /** Chance agreement is everything exactly when one label has a whole row and a whole column. */
  lemma AllExactly(n: nat, r1: nat, r2: nat, r3: nat, c1: nat, c2: nat, c3: nat)
    requires n > 0 && r1 + r2 + r3 == n && c1 + c2 + c3 == n
    ensures Times(r1, c1) + Times(r2, c2) + Times(r3, c3) <= Times(n, n)
    ensures Times(r1, c1) + Times(r2, c2) + Times(r3, c3) == Times(n, n) <==>
            (r1 == n && c1 == n) || (r2 == n && c2 == n) || (r3 == n && c3 == n)
  {
    AtMostAll(n, r1, r2, r3, c1, c2, c3);
  }

  lemma LargestKappa(n: nat, d: nat)
    requires n > 0 && d <= n
    ensures n * d <= n * n && (n * d == n * n <==> d == n)
  {
    Product(n, d, n);
  }

  lemma ChanceIsBounded(pairs: seq<(Label, Label)>)
    ensures 2 * Chance(pairs) <= |pairs| * |pairs| + |pairs| * Agreed(pairs)
  {
    MarginalsCount(pairs);
    RowMeetsColumn(pairs, FalsePositive);
    RowMeetsColumn(pairs, Benign);
    RowMeetsColumn(pairs, Escalate);
    ThreeLabels(|pairs|, Row(pairs, FalsePositive), Row(pairs, Benign), Row(pairs, Escalate),
                Column(pairs, FalsePositive), Column(pairs, Benign), Column(pairs, Escalate),
                Cell(pairs, FalsePositive, FalsePositive), Cell(pairs, Benign, Benign),
                Cell(pairs, Escalate, Escalate));
    TimesIsProduct(|pairs|, |pairs|);
    TimesIsProduct(|pairs|, Agreed(pairs));
  }

  lemma ChanceIsAllExactly(pairs: seq<(Label, Label)>)
    requires pairs != []
    ensures Chance(pairs) <= |pairs| * |pairs|
    ensures Chance(pairs) == |pairs| * |pairs| <==>
            Full(pairs, FalsePositive) || Full(pairs, Benign) || Full(pairs, Escalate)
  {
    MarginalsCount(pairs);
    AllExactly(|pairs|, Row(pairs, FalsePositive), Row(pairs, Benign), Row(pairs, Escalate),
               Column(pairs, FalsePositive), Column(pairs, Benign), Column(pairs, Escalate));
    TimesIsProduct(|pairs|, |pairs|);
  }

  /** Kappa is undefined exactly when all pairs are one identical label; otherwise it lies between -1
      and 1, and is 1 exactly when all pairs agree. */
  lemma KappaIsBounded(pairs: seq<(Label, Label)>)
    requires pairs != []
    ensures KappaOf(pairs).ChanceIsOne? <==> exists k :: OnlyLabel(pairs, k)
    ensures KappaOf(pairs).Kappa? ==>
              var k := KappaOf(pairs);
              && k.denominator > 0 && -k.denominator <= k.numerator <= k.denominator
              && (k.numerator == k.denominator <==> forall i :: 0 <= i < |pairs| ==> pairs[i].0 == pairs[i].1)
  {
    ChanceIsAllExactly(pairs);
    ChanceIsBounded(pairs);
    OneLabelOnly(pairs);
    AllAgree(pairs);
    LargestKappa(|pairs|, Agreed(pairs));
  }

  predicate Full(pairs: seq<(Label, Label)>, k: Label) {
    Row(pairs, k) == |pairs| && Column(pairs, k) == |pairs|
  }

  lemma FullIsOnly(pairs: seq<(Label, Label)>, k: Label)
    ensures Full(pairs, k) <==> OnlyLabel(pairs, k)
  {
    RowMeetsColumn(pairs, k);
    AllInOneCell(pairs, k, k);
  }

  lemma OneLabelOnly(pairs: seq<(Label, Label)>)
    ensures (exists k :: OnlyLabel(pairs, k)) <==>
            Full(pairs, FalsePositive) || Full(pairs, Benign) || Full(pairs, Escalate)
  {
    forall k: Label ensures Full(pairs, k) <==> OnlyLabel(pairs, k) { FullIsOnly(pairs, k); }
    if k :| OnlyLabel(pairs, k) {
      assert Full(pairs, k);
      match k case FalsePositive => case Benign => case Escalate =>
    }
  }

  lemma {:induction false} SwappedCells(pairs: seq<(Label, Label)>, a: Label, b: Label)
    ensures Cell(Swapped(pairs), a, b) == Cell(pairs, b, a)
  {
    if pairs != [] {
      SwappedCells(pairs[..|pairs| - 1], a, b);
      assert Swapped(pairs)[..|pairs| - 1] == Swapped(pairs[..|pairs| - 1]);
    }
  }

  lemma {:induction false} SwappedMarginals(pairs: seq<(Label, Label)>, k: Label)
    ensures Row(Swapped(pairs), k) == Column(pairs, k) && Column(Swapped(pairs), k) == Row(pairs, k)
  {
    if pairs != [] {
      SwappedMarginals(pairs[..|pairs| - 1], k);
      assert Swapped(pairs)[..|pairs| - 1] == Swapped(pairs[..|pairs| - 1]);
    }
  }

  lemma Commutes(r: nat, c: nat)
    ensures Times(r, c) == Times(c, r)
  {
    TimesIsProduct(r, c);
    TimesIsProduct(c, r);
  }

  lemma ChanceIsSymmetric(pairs: seq<(Label, Label)>)
    ensures Chance(Swapped(pairs)) == Chance(pairs)
  {
    SwappedMarginals(pairs, FalsePositive);
    SwappedMarginals(pairs, Benign);
    SwappedMarginals(pairs, Escalate);
    Commutes(Row(pairs, FalsePositive), Column(pairs, FalsePositive));
    Commutes(Row(pairs, Benign), Column(pairs, Benign));
    Commutes(Row(pairs, Escalate), Column(pairs, Escalate));
  }

  /** Swapping the two labellers leaves kappa as it is. */
  lemma KappaIsSymmetric(pairs: seq<(Label, Label)>)
    ensures KappaOf(Swapped(pairs)) == KappaOf(pairs)
  {
    ChanceIsSymmetric(pairs);
    forall k: Label ensures Cell(Swapped(pairs), k, k) == Cell(pairs, k, k) { SwappedCells(pairs, k, k); }
  }

  /** The table is filled pair by pair. */
  method Confusion(pairs: seq<(Label, Label)>) returns (table: map<(Label, Label), nat>)
    ensures forall a: Label, b: Label :: (a, b) in table && table[(a, b)] == Cell(pairs, a, b)
  {
    table := map a: Label, b: Label | true :: (a, b) := 0;
    for i := 0 to |pairs|
      invariant forall a: Label, b: Label :: (a, b) in table && table[(a, b)] == Cell(pairs[..i], a, b)
    {
      assert pairs[..i + 1][..i] == pairs[..i];
      var p := pairs[i];
      assert (p.0, p.1) in table;
      table := table[p := table[p] + 1];
    }
    assert pairs[..|pairs|] == pairs;
  }

  const LABELS := [FalsePositive, Benign, Escalate]

  function ChanceUpTo(pairs: seq<(Label, Label)>, n: nat): nat
    requires n <= |LABELS|
  {
    if n == 0 then 0 else ChanceUpTo(pairs, n - 1) + Times(Row(pairs, LABELS[n - 1]), Column(pairs, LABELS[n - 1]))
  }

  lemma ChanceOfAll(pairs: seq<(Label, Label)>)
    ensures ChanceUpTo(pairs, 3) == Chance(pairs)
  {
    assert ChanceUpTo(pairs, 1) == Times(Row(pairs, LABELS[0]), Column(pairs, LABELS[0]));
    assert ChanceUpTo(pairs, 2) == ChanceUpTo(pairs, 1) + Times(Row(pairs, LABELS[1]), Column(pairs, LABELS[1]));
  }

  function Entry(table: map<(Label, Label), nat>, a: Label, b: Label): nat {
    if (a, b) in table then table[(a, b)] else 0
  }

  /** The table, the observed agreement over `n`, the chance agreement over `n * n`, and kappa. */
  method CohenKappa(pairs: seq<(Label, Label)>)
      returns (table: map<(Label, Label), nat>, agreed: nat, chance: nat, kappa: Kappa)
    ensures forall a: Label, b: Label :: (a, b) in table && table[(a, b)] == Cell(pairs, a, b)
    ensures agreed == Agreed(pairs) && chance == Chance(pairs) && kappa == KappaOf(pairs)
  {
    table := Confusion(pairs);
    var n := |pairs|;
    if n == 0 {
      assert Row(pairs, FalsePositive) == Row(pairs, Benign) == Row(pairs, Escalate) == 0;
      return table, 0, 0, NoPairs;
    }
    agreed := Entry(table, FalsePositive, FalsePositive) + Entry(table, Benign, Benign)
                  + Entry(table, Escalate, Escalate);
    chance := 0;
    for i := 0 to |LABELS|
      invariant chance == ChanceUpTo(pairs, i)
    {
      var k := LABELS[i];
      MarginalsOfCells(pairs, k);
      var row := Entry(table, k, FalsePositive) + Entry(table, k, Benign) + Entry(table, k, Escalate);
      var column := Entry(table, FalsePositive, k) + Entry(table, Benign, k) + Entry(table, Escalate, k);
      TimesIsProduct(row, column);
      chance := chance + row * column;
    }
    ChanceOfAll(pairs);
    kappa := if chance == n * n then ChanceIsOne else Kappa(n * agreed - chance, n * n - chance);
  }
}
