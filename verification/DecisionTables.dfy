/** Decision tables: which rules hold at a fact point, and when a finite check speaks for all points. */
module DecisionTables {
  import opened Common

  datatype Action = FalsePositive | NeedsReview | Escalate
  datatype Field = Severity | IocReputation | AssetCriticality | IdentityPrivileged
  datatype Measure = RuleLevel | OccurrenceCount

  /** One key of a rule's condition. */
  datatype Clause = OneOf(field: Field, values: seq<string>)
                  | Below(measure: Measure, bound: int)
                  | AtLeast(measure: Measure, bound: int)

  datatype Rule = Rule(id: string, condition: seq<Clause>, action: Action)
  datatype Table = Table(reviewed: bool, rules: seq<Rule>)

  /** A mapping of facts; any of them may be absent. */
  datatype Facts = Facts(text: map<Field, string>, number: map<Measure, int>)

  /** The closed vocabularies, severity apart. */
  datatype Vocab = Vocab(iocs: seq<string>, assets: seq<string>, identities: seq<string>)

  const VOCAB := Vocab(["malicious", "suspicious", "clean", "not_found", "skipped"],
                       ["high", "medium", "low", "unknown"],
                       ["true", "false", "unknown"])
  const GRID_RULE_LEVELS := [0, 3, 5, 8, 12, 15]
  const GRID_OCCURRENCE_COUNTS := [1, 10, 49, 50, 100, 999, 1000]

  function SeverityFor(level: int): string {
    if level >= 12 then "critical" else if level >= 8 then "high" else if level >= 5 then "medium" else "low"
  }

  // ---- rules ------------------------------------------------------------------------------------

  predicate ClauseHolds(c: Clause, f: Facts) {
    match c
    case OneOf(field, values) => field in f.text && f.text[field] in values
    case Below(m, bound) => m in f.number && f.number[m] < bound
    case AtLeast(m, bound) => m in f.number && f.number[m] >= bound
  }

  predicate Holds(r: Rule, f: Facts) {
    forall i :: 0 <= i < |r.condition| ==> ClauseHolds(r.condition[i], f)
  }

  /** Key by key, giving up at the first that fails. */
  method RuleMatches(r: Rule, f: Facts) returns (b: bool)
    ensures b == Holds(r, f)
  {
    for i := 0 to |r.condition|
      invariant forall k :: 0 <= k < i ==> ClauseHolds(r.condition[k], f)
    {
      match r.condition[i]
      case OneOf(field, values) =>
        if field !in f.text || f.text[field] !in values {
          return false;
        }
      case Below(m, bound) =>
        if m !in f.number {
          return false;
        }
        if !(f.number[m] < bound) {
          return false;
        }
      case AtLeast(m, bound) =>
        if m !in f.number || !(f.number[m] >= bound) {
          return false;
        }
    }
    b := true;
  }

  /** The first rule that holds, in file order. */
  function FirstHolding(rules: seq<Rule>, f: Facts): Option<Rule> {
    if rules == [] then None else if Holds(rules[0], f) then Some(rules[0]) else FirstHolding(rules[1..], f)
  }

  function ApplyTable(t: Table, f: Facts): Option<(Action, string)> {
    var r := FirstHolding(t.rules, f);
    if r.None? then None else Some((r.value.action, r.value.id))
  }

  function Named(rules: seq<Rule>, id: string): Option<Rule> {
    if rules == [] then None else if rules[0].id == id then Some(rules[0]) else Named(rules[1..], id)
  }

  function RuleHolds(t: Table, id: string, f: Facts): Option<bool> {
    var r := Named(t.rules, id);
    if r.None? then None else Some(Holds(r.value, f))
  }

  /** The rules that hold at `f` share one action. */
  ghost predicate AgreeAt(rules: seq<Rule>, f: Facts) {
    forall a, b :: a in rules && b in rules && Holds(a, f) && Holds(b, f) ==> a.action == b.action
  }

  lemma {:induction false} FirstHoldingFacts(rules: seq<Rule>, f: Facts)
    ensures FirstHolding(rules, f).Some? <==> exists i :: 0 <= i < |rules| && Holds(rules[i], f)
    ensures FirstHolding(rules, f).Some? ==>
              FirstHolding(rules, f).value in rules && Holds(FirstHolding(rules, f).value, f)
  {
    if rules != [] && !Holds(rules[0], f) {
      FirstHoldingFacts(rules[1..], f);
      if i :| 0 <= i < |rules| && Holds(rules[i], f) { assert rules[i] == rules[1..][i - 1]; }
    }
  }

  /** The table answers with the first rule, in file order, that holds: none before it does. */
  lemma {:induction false} TableAnswersFirst(t: Table, f: Facts) returns (i: nat)
    ensures i <= |t.rules| && forall j :: 0 <= j < i ==> !Holds(t.rules[j], f)
    ensures if i < |t.rules| then Holds(t.rules[i], f) && ApplyTable(t, f) == Some((t.rules[i].action, t.rules[i].id))
            else ApplyTable(t, f) == None
    decreases |t.rules|
  {
    if t.rules == [] || Holds(t.rules[0], f) {
      i := 0;
    } else {
      var rest := t.(rules := t.rules[1..]);
      var j := TableAnswersFirst(rest, f);
      i := j + 1;
      forall k | 0 <= k < i ensures !Holds(t.rules[k], f) {
        if k > 0 { assert t.rules[k] == rest.rules[k - 1]; }
      }
    }
  }

  /** A rule is found by name as the first of that name. */
  lemma {:induction false} NamedIsFirst(rules: seq<Rule>, id: string) returns (i: nat)
    ensures i <= |rules| && forall j :: 0 <= j < i ==> rules[j].id != id
    ensures if i < |rules| then rules[i].id == id && Named(rules, id) == Some(rules[i]) else Named(rules, id) == None
  {
    i := 0;
    if rules != [] && rules[0].id != id {
      var j := NamedIsFirst(rules[1..], id);
      i := j + 1;
      forall k | 0 <= k < i ensures rules[k].id != id {
        if k > 0 { assert rules[k] == rules[1..][k - 1]; }
      }
    }
  }

  /** Severity never falls as the level rises, and rises at 5, 8 and 12 only. */
  lemma SeverityRises(low: int, high: int)
    requires low <= high
    ensures SeverityRank(SeverityFor(low)) <= SeverityRank(SeverityFor(high)) <= 3
    ensures SeverityFor(low) == SeverityFor(high) <==>
            (low < 5 <==> high < 5) && (low < 8 <==> high < 8) && (low < 12 <==> high < 12)
  {
  }

  /** Where a severity stands among the four. */
  function SeverityRank(s: string): nat {
    if s == "low" then 0 else if s == "medium" then 1 else if s == "high" then 2 else if s == "critical" then 3 else 4
  }

  /** Where the rules agree, any rule that holds has the table's answer. */
  lemma HoldingRuleGivesTheAnswer(t: Table, f: Facts, r: Rule)
    requires AgreeAt(t.rules, f) && r in t.rules && Holds(r, f)
    ensures ApplyTable(t, f).Some? && ApplyTable(t, f).value.0 == r.action
  {
    FirstHoldingFacts(t.rules, f);
  }

  /** Where the rules agree, their order does not matter. */
  lemma OrderDoesNotMatter(a: Table, b: Table, f: Facts)
    requires AgreeAt(a.rules, f) && multiset(a.rules) == multiset(b.rules)
    ensures ApplyTable(a, f).Some? <==> ApplyTable(b, f).Some?
    ensures ApplyTable(a, f).Some? ==> ApplyTable(a, f).value.0 == ApplyTable(b, f).value.0
  {
    FirstHoldingFacts(a.rules, f);
    FirstHoldingFacts(b.rules, f);
    assert forall r :: r in a.rules <==> r in multiset(a.rules);
    assert forall r :: r in b.rules <==> r in multiset(b.rules);
  }

  lemma {:induction false} NamedFacts(rules: seq<Rule>, id: string)
    ensures Named(rules, id).Some? ==> Named(rules, id).value in rules && Named(rules, id).value.id == id
  {
    if rules != [] && rules[0].id != id { NamedFacts(rules[1..], id); }
  }

  // ---- fact points ---------------------------------------------------------------------------------

  /** What the database can hold: closed vocabularies, a rule level and a count, and a severity that
      follows the level. */
  function Point(level: int, ioc: string, asset: string, identity: string, count: int): Facts {
    Facts(map[Severity := SeverityFor(level), IocReputation := ioc, AssetCriticality := asset,
              IdentityPrivileged := identity],
          map[RuleLevel := level, OccurrenceCount := count])
  }

  ghost predicate IsPoint(f: Facts, v: Vocab, levels: iset<int>, counts: iset<int>) {
    exists level, ioc, asset, identity, count :: PointIn(f, v, level, ioc, asset, identity, count, levels, counts)
  }

  ghost predicate PointIn(f: Facts, v: Vocab, level: int, ioc: string, asset: string, identity: string, count: int,
                          levels: iset<int>, counts: iset<int>) {
    && f == Point(level, ioc, asset, identity, count) && level in levels && count in counts
    && ioc in v.iocs && asset in v.assets && identity in v.identities
  }

  ghost const ALL_LEVELS: iset<int> := iset n: int | n >= 0
  ghost const ALL_COUNTS: iset<int> := iset n: int | n >= 1
  ghost function Among(values: seq<int>): iset<int> {
    iset n: int | n in values
  }

  ghost predicate IsFactPoint(f: Facts, v: Vocab) {
    IsPoint(f, v, ALL_LEVELS, ALL_COUNTS)
  }

  // ---- the small model -----------------------------------------------------------------------------

  /** The bounds of a measure are cuts, unless every value is on the same side of them anyway. */
  ghost predicate Separates(cuts: iset<int>, m: Measure, least: int, rules: seq<Rule>) {
    forall i, k {:trigger rules[i].condition[k]} :: 0 <= i < |rules| && 0 <= k < |rules[i].condition| ==>
      CutBy(cuts, m, least, rules[i].condition[k])
  }

  ghost predicate CutBy(cuts: iset<int>, m: Measure, least: int, c: Clause) {
    c.OneOf? || c.measure != m || c.bound <= least || c.bound in cuts
  }

  /** Nothing in `cuts` lies above `low` and up to `x`. */
  ghost predicate NoCutBetween(cuts: iset<int>, low: int, x: int) {
    low <= x && forall c :: c in cuts && c <= x ==> c <= low
  }

  lemma {:induction false} GreatestCut(cuts: iset<int>, least: int, x: int) returns (low: int)
    requires least in cuts && least <= x
    ensures low in cuts && least <= low && NoCutBetween(cuts, low, x)
    decreases x - least
  {
    if c :| c in cuts && least < c <= x {
      low := GreatestCut(cuts, c, x);
    } else {
      low := least;
    }
  }

  lemma SameTruth(r: Rule, level: int, low: int, ioc: string, asset: string, identity: string, count: int, few: int,
                  levels: iset<int>, counts: iset<int>)
    requires 0 <= low && 1 <= few
    requires NoCutBetween(levels, low, level) && NoCutBetween(counts, few, count)
    requires Separates(levels, RuleLevel, 0, [r]) && Separates(counts, OccurrenceCount, 1, [r])
    requires 5 in levels && 8 in levels && 12 in levels
    ensures Holds(r, Point(level, ioc, asset, identity, count)) <==> Holds(r, Point(low, ioc, asset, identity, few))
  {
    var f, g := Point(level, ioc, asset, identity, count), Point(low, ioc, asset, identity, few);
    forall k | 0 <= k < |r.condition| ensures ClauseHolds(r.condition[k], f) <==> ClauseHolds(r.condition[k], g) {
      assert [r][0].condition[k] == r.condition[k];
    }
  }

  /** Every point looks to the rules like the point of the cuts below it. */
  lemma PointBelow(rules: seq<Rule>, f: Facts, v: Vocab, levels: iset<int>, counts: iset<int>) returns (g: Facts)
    requires IsFactPoint(f, v)
    requires 0 in levels && 5 in levels && 8 in levels && 12 in levels && 1 in counts
    requires Separates(levels, RuleLevel, 0, rules) && Separates(counts, OccurrenceCount, 1, rules)
    ensures IsPoint(g, v, levels, counts) && IsFactPoint(g, v)
    ensures forall i :: 0 <= i < |rules| ==> (Holds(rules[i], f) <==> Holds(rules[i], g))
  {
    var level, ioc, asset, identity, count :|
      PointIn(f, v, level, ioc, asset, identity, count, ALL_LEVELS, ALL_COUNTS);
    var low := GreatestCut(levels, 0, level);
    var few := GreatestCut(counts, 1, count);
    g := Point(low, ioc, asset, identity, few);
    assert PointIn(g, v, low, ioc, asset, identity, few, levels, counts);
    assert PointIn(g, v, low, ioc, asset, identity, few, ALL_LEVELS, ALL_COUNTS);
    forall i | 0 <= i < |rules| ensures Holds(rules[i], f) <==> Holds(rules[i], g) {
      assert Separates(levels, RuleLevel, 0, [rules[i]]) && Separates(counts, OccurrenceCount, 1, [rules[i]]);
      SameTruth(rules[i], level, low, ioc, asset, identity, count, few, levels, counts);
    }
  }

  /** Small model: rules agree at every fact point exactly when they agree where all thresholds, the
      severity bands and the least values meet. */
  lemma AgreementIsDecidedByTheCuts(rules: seq<Rule>, v: Vocab, levels: iset<int>, counts: iset<int>)
    requires 0 in levels && 5 in levels && 8 in levels && 12 in levels && 1 in counts
    requires levels <= ALL_LEVELS && counts <= ALL_COUNTS
    requires Separates(levels, RuleLevel, 0, rules) && Separates(counts, OccurrenceCount, 1, rules)
    ensures (forall f :: IsFactPoint(f, v) ==> AgreeAt(rules, f)) <==>
            (forall g :: IsPoint(g, v, levels, counts) ==> AgreeAt(rules, g))
  {
    if forall g :: IsPoint(g, v, levels, counts) ==> AgreeAt(rules, g) {
      forall f | IsFactPoint(f, v) ensures AgreeAt(rules, f) {
        var g := PointBelow(rules, f, v, levels, counts);
        forall a, b | a in rules && b in rules && Holds(a, f) && Holds(b, f) ensures a.action == b.action {
          var i :| 0 <= i < |rules| && rules[i] == a;
          var j :| 0 <= j < |rules| && rules[j] == b;
          assert Holds(a, g) && Holds(b, g);
        }
      }
    }
    if forall f :: IsFactPoint(f, v) ==> AgreeAt(rules, f) {
      forall g | IsPoint(g, v, levels, counts) ensures AgreeAt(rules, g) {
        var level, ioc, asset, identity, count :| PointIn(g, v, level, ioc, asset, identity, count, levels, counts);
        assert PointIn(g, v, level, ioc, asset, identity, count, ALL_LEVELS, ALL_COUNTS);
      }
    }
  }

  /** A table whose thresholds are all among some levels and counts, the severity bands and the least
      values among them, is decided by those. */
  lemma ListedPointsDecide(rules: seq<Rule>, v: Vocab, levels: seq<int>, counts: seq<int>)
    requires 0 in levels && 5 in levels && 8 in levels && 12 in levels && 1 in counts
    requires (forall n <- levels :: n >= 0) && (forall n <- counts :: n >= 1)
    requires Separates(Among(levels), RuleLevel, 0, rules) && Separates(Among(counts), OccurrenceCount, 1, rules)
    ensures (forall f :: IsFactPoint(f, v) ==> AgreeAt(rules, f)) <==>
            (forall f <- FactGrid(v, levels, counts) :: AgreeAt(rules, f))
  {
    AgreementIsDecidedByTheCuts(rules, v, Among(levels), Among(counts));
    forall f ensures f in FactGrid(v, levels, counts) <==> IsPoint(f, v, Among(levels), Among(counts)) {
      GridMembers(f, v, levels, counts);
    }
  }

  /** A table's own bounds of a measure. */
  ghost function Bounds(rules: seq<Rule>, m: Measure): iset<int> {
    iset i, k | 0 <= i < |rules| && 0 <= k < |rules[i].condition| && !rules[i].condition[k].OneOf?
                && rules[i].condition[k].measure == m :: rules[i].condition[k].bound
  }

  /** For every table, whatever its thresholds: adding them to the grid makes the check exact. */
  lemma RefinedGridDecidesEveryTable(rules: seq<Rule>, v: Vocab)
    ensures var levels := iset n | n >= 0 && (n in GRID_RULE_LEVELS || n in Bounds(rules, RuleLevel));
            var counts := iset n | n >= 1 && (n in GRID_OCCURRENCE_COUNTS || n in Bounds(rules, OccurrenceCount));
            (forall f :: IsFactPoint(f, v) ==> AgreeAt(rules, f)) <==>
            (forall g :: IsPoint(g, v, levels, counts) ==> AgreeAt(rules, g))
  {
    var levels := iset n | n >= 0 && (n in GRID_RULE_LEVELS || n in Bounds(rules, RuleLevel));
    var counts := iset n | n >= 1 && (n in GRID_OCCURRENCE_COUNTS || n in Bounds(rules, OccurrenceCount));
    assert 0 in levels && 5 in levels && 8 in levels && 12 in levels && 1 in counts;
    AgreementIsDecidedByTheCuts(rules, v, levels, counts);
  }

  // ---- the check ---------------------------------------------------------------------------------------

  function ConcatMap<A>(xs: seq<A>, f: A -> seq<Facts>): seq<Facts> {
    if xs == [] then [] else f(xs[0]) + ConcatMap(xs[1..], f)
  }

  lemma {:induction false} ConcatMapMembers<A>(xs: seq<A>, f: A -> seq<Facts>, p: Facts)
    ensures p in ConcatMap(xs, f) <==> exists x :: x in xs && p in f(x)
  {
    if xs != [] {
      ConcatMapMembers(xs[1..], f, p);
      assert forall x :: x in xs <==> x == xs[0] || x in xs[1..];
    }
  }

  lemma {:induction false} ConcatMapSize<A>(xs: seq<A>, f: A -> seq<Facts>, n: nat)
    requires forall x <- xs :: |f(x)| == n
    ensures |ConcatMap(xs, f)| == |xs| * n
  {
    if xs != [] {
      assert forall x :: x in xs[1..] ==> x in xs;
      ConcatMapSize(xs[1..], f, n);
      assert |f(xs[0])| == n;
      assert |xs| * n == n + (|xs| - 1) * n;
    }
  }

  function ByCount(counts: seq<int>, level: int, ioc: string, asset: string, identity: string): seq<Facts> {
    ConcatMap(counts, count => [Point(level, ioc, asset, identity, count)])
  }

  function ByIdentity(v: Vocab, counts: seq<int>, level: int, ioc: string, asset: string): seq<Facts> {
    ConcatMap(v.identities, identity => ByCount(counts, level, ioc, asset, identity))
  }

  function ByAsset(v: Vocab, counts: seq<int>, level: int, ioc: string): seq<Facts> {
    ConcatMap(v.assets, asset => ByIdentity(v, counts, level, ioc, asset))
  }

  function ByIoc(v: Vocab, counts: seq<int>, level: int): seq<Facts> {
    ConcatMap(v.iocs, ioc => ByAsset(v, counts, level, ioc))
  }

  /** Every combination, severity following the level. */
  function FactGrid(v: Vocab, levels: seq<int>, counts: seq<int>): seq<Facts> {
    ConcatMap(levels, level => ByIoc(v, counts, level))
  }

  lemma GridSizeOf(v: Vocab, levels: seq<int>, counts: seq<int>, a: nat, b: nat, c: nat)
    requires a == |v.identities| * |counts| && b == |v.assets| * a && c == |v.iocs| * b
    ensures |FactGrid(v, levels, counts)| == |levels| * c
  {
    forall level ensures |ByIoc(v, counts, level)| == c {
      forall ioc ensures |ByAsset(v, counts, level, ioc)| == b {
        forall asset ensures |ByIdentity(v, counts, level, ioc, asset)| == a {
          forall identity ensures |ByCount(counts, level, ioc, asset, identity)| == |counts| {
            ConcatMapSize(counts, count => [Point(level, ioc, asset, identity, count)], 1);
          }
          ConcatMapSize(v.identities, identity => ByCount(counts, level, ioc, asset, identity), |counts|);
        }
        ConcatMapSize(v.assets, asset => ByIdentity(v, counts, level, ioc, asset), a);
      }
      ConcatMapSize(v.iocs, ioc => ByAsset(v, counts, level, ioc), b);
    }
    ConcatMapSize(levels, level => ByIoc(v, counts, level), c);
  }

  /** The grid of the check has 2,520 points. */
  lemma GridSize()
    ensures |FactGrid(VOCAB, GRID_RULE_LEVELS, GRID_OCCURRENCE_COUNTS)| == 2520
  {
    GridSizeOf(VOCAB, GRID_RULE_LEVELS, GRID_OCCURRENCE_COUNTS, 21, 84, 420);
  }

  lemma CountMembers(f: Facts, counts: seq<int>, level: int, ioc: string, asset: string, identity: string)
    ensures f in ByCount(counts, level, ioc, asset, identity) <==>
            exists count :: count in counts && f == Point(level, ioc, asset, identity, count)
  {
    ConcatMapMembers(counts, count => [Point(level, ioc, asset, identity, count)], f);
  }

  lemma IocMembers(f: Facts, v: Vocab, counts: seq<int>, level: int)
    ensures f in ByIoc(v, counts, level) <==>
            exists ioc, asset, identity ::
              && ioc in v.iocs && asset in v.assets && identity in v.identities
              && f in ByCount(counts, level, ioc, asset, identity)
  {
    ConcatMapMembers(v.iocs, ioc => ByAsset(v, counts, level, ioc), f);
    forall ioc
      ensures f in ByAsset(v, counts, level, ioc) <==>
              exists asset :: asset in v.assets && f in ByIdentity(v, counts, level, ioc, asset)
    {
      ConcatMapMembers(v.assets, asset => ByIdentity(v, counts, level, ioc, asset), f);
    }
    forall ioc, asset
      ensures f in ByIdentity(v, counts, level, ioc, asset) <==>
              exists identity :: identity in v.identities && f in ByCount(counts, level, ioc, asset, identity)
    {
      ConcatMapMembers(v.identities, identity => ByCount(counts, level, ioc, asset, identity), f);
    }
  }

  lemma GridMembers(f: Facts, v: Vocab, levels: seq<int>, counts: seq<int>)
    ensures f in FactGrid(v, levels, counts) <==> IsPoint(f, v, Among(levels), Among(counts))
  {
    ConcatMapMembers(levels, level => ByIoc(v, counts, level), f);
    forall level { IocMembers(f, v, counts, level); }
    if IsPoint(f, v, Among(levels), Among(counts)) {
      var level, ioc, asset, identity, count :|
        PointIn(f, v, level, ioc, asset, identity, count, Among(levels), Among(counts));
      CountMembers(f, counts, level, ioc, asset, identity);
      assert f in ByIoc(v, counts, level);
    }
    if f in FactGrid(v, levels, counts) {
      var level :| level in levels && f in ByIoc(v, counts, level);
      var ioc, asset, identity :| ioc in v.iocs && asset in v.assets && identity in v.identities
                                  && f in ByCount(counts, level, ioc, asset, identity);
      CountMembers(f, counts, level, ioc, asset, identity);
      var count :| count in counts && f == Point(level, ioc, asset, identity, count);
      assert PointIn(f, v, level, ioc, asset, identity, count, Among(levels), Among(counts));
    }
  }

  datatype Problem = Problem(a: Rule, b: Rule, point: Facts)

  function Holding(rules: seq<Rule>, f: Facts): seq<Rule> {
    if rules == [] then []
    else Holding(rules[..|rules| - 1], f) + if Holds(rules[|rules| - 1], f) then [rules[|rules| - 1]] else []
  }

  function ClashesWith(a: Rule, others: seq<Rule>, f: Facts): seq<Problem> {
    if others == [] then []
    else (if a.action != others[0].action then [Problem(a, others[0], f)] else []) + ClashesWith(a, others[1..], f)
  }

  function Clashes(holding: seq<Rule>, f: Facts): seq<Problem> {
    if holding == [] then [] else ClashesWith(holding[0], holding[1..], f) + Clashes(holding[1..], f)
  }

  function Problems(rules: seq<Rule>, points: seq<Facts>): seq<Problem> {
    if points == [] then [] else Clashes(Holding(rules, points[0]), points[0]) + Problems(rules, points[1..])
  }

  lemma {:induction false} HoldingMembers(rules: seq<Rule>, f: Facts, r: Rule)
    ensures r in Holding(rules, f) <==> r in rules && Holds(r, f)
  {
    if rules != [] {
      HoldingMembers(rules[..|rules| - 1], f, r);
      assert rules == rules[..|rules| - 1] + [rules[|rules| - 1]];
    }
  }

  lemma {:induction false} NoClashWith(a: Rule, others: seq<Rule>, f: Facts)
    ensures ClashesWith(a, others, f) == [] <==> forall r <- others :: r.action == a.action
  {
    if others != [] {
      NoClashWith(a, others[1..], f);
      assert forall r :: r in others <==> r == others[0] || r in others[1..];
    }
  }

  lemma {:induction false} NoClashes(holding: seq<Rule>, f: Facts)
    ensures Clashes(holding, f) == [] <==> forall a, b :: a in holding && b in holding ==> a.action == b.action
  {
    if holding != [] {
      NoClashWith(holding[0], holding[1..], f);
      NoClashes(holding[1..], f);
      assert forall r :: r in holding <==> r == holding[0] || r in holding[1..];
    }
  }

  lemma NoClashAt(rules: seq<Rule>, f: Facts)
    ensures Clashes(Holding(rules, f), f) == [] <==> AgreeAt(rules, f)
  {
    NoClashes(Holding(rules, f), f);
    forall r ensures r in Holding(rules, f) <==> r in rules && Holds(r, f) { HoldingMembers(rules, f, r); }
  }

  lemma {:induction false} NoProblemsExactly(rules: seq<Rule>, points: seq<Facts>)
    ensures Problems(rules, points) == [] <==> forall f <- points :: AgreeAt(rules, f)
  {
    if points != [] {
      NoProblemsExactly(rules, points[1..]);
      NoClashAt(rules, points[0]);
      assert forall p :: p in points <==> p == points[0] || p in points[1..];
      assert Problems(rules, points) == [] <==>
             Clashes(Holding(rules, points[0]), points[0]) == [] && Problems(rules, points[1..]) == [];
    }
  }

  /** Nothing found, exactly when the rules agree at every fact point: for tables whose thresholds are
      grid values. */
  lemma ConsistencyCheckIsExact(rules: seq<Rule>)
    requires Separates(Among(GRID_RULE_LEVELS), RuleLevel, 0, rules)
    requires Separates(Among(GRID_OCCURRENCE_COUNTS), OccurrenceCount, 1, rules)
    ensures Problems(rules, FactGrid(VOCAB, GRID_RULE_LEVELS, GRID_OCCURRENCE_COUNTS)) == [] <==>
            forall f :: IsFactPoint(f, VOCAB) ==> AgreeAt(rules, f)
  {
    ListedCheckIsExact(rules, VOCAB, GRID_RULE_LEVELS, GRID_OCCURRENCE_COUNTS);
  }

  lemma ListedCheckIsExact(rules: seq<Rule>, v: Vocab, levels: seq<int>, counts: seq<int>)
    requires 0 in levels && 5 in levels && 8 in levels && 12 in levels && 1 in counts
    requires (forall n <- levels :: n >= 0) && (forall n <- counts :: n >= 1)
    requires Separates(Among(levels), RuleLevel, 0, rules) && Separates(Among(counts), OccurrenceCount, 1, rules)
    ensures Problems(rules, FactGrid(v, levels, counts)) == [] <==>
            forall f :: IsFactPoint(f, v) ==> AgreeAt(rules, f)
  {
    NoProblemsExactly(rules, FactGrid(v, levels, counts));
    ListedPointsDecide(rules, v, levels, counts);
  }

  /** Two rules that clash only at levels 13 and 14. */
  function OffGridRules(): seq<Rule> {
    [Rule("a-1", [AtLeast(RuleLevel, 13), Below(RuleLevel, 15)], FalsePositive),
     Rule("a-2", [AtLeast(RuleLevel, 12)], Action.Escalate)]
  }

  lemma OffGridRulesClashOnlyBetween(f: Facts, level: int)
    requires RuleLevel in f.number && f.number[RuleLevel] == level
    ensures AgreeAt(OffGridRules(), f) <==> !(13 <= level < 15)
  {
    var rules := OffGridRules();
    var a, b := rules[0], rules[1];
    assert a in rules && b in rules;
    assert Holds(a, f) <==> ClauseHolds(a.condition[0], f) && ClauseHolds(a.condition[1], f);
    assert Holds(b, f) <==> ClauseHolds(b.condition[0], f);
  }

  /** With a threshold off the grid the check can be fooled. */
  lemma OffGridThresholdFoolsTheCheck(v: Vocab, levels: seq<int>, counts: seq<int>)
    requires levels == GRID_RULE_LEVELS && "clean" in v.iocs && "low" in v.assets && "false" in v.identities
    ensures Problems(OffGridRules(), FactGrid(v, levels, counts)) == []
    ensures exists f :: IsFactPoint(f, v) && !AgreeAt(OffGridRules(), f)
  {
    NoProblemsExactly(OffGridRules(), FactGrid(v, levels, counts));
    forall f | f in FactGrid(v, levels, counts) ensures AgreeAt(OffGridRules(), f) {
      GridMembers(f, v, levels, counts);
      var level, ioc, asset, identity, count :|
        PointIn(f, v, level, ioc, asset, identity, count, Among(levels), Among(counts));
      OffGridRulesClashOnlyBetween(f, level);
    }
    var f := Point(13, "clean", "low", "false", 1);
    assert PointIn(f, v, 13, "clean", "low", "false", 1, ALL_LEVELS, ALL_COUNTS);
    OffGridRulesClashOnlyBetween(f, 13);
  }

  method HoldingRules(rules: seq<Rule>, f: Facts) returns (holding: seq<Rule>)
    ensures holding == Holding(rules, f)
  {
    holding := [];
    for i := 0 to |rules|
      invariant holding == Holding(rules[..i], f)
    {
      assert rules[..i + 1][..i] == rules[..i];
      var b := RuleMatches(rules[i], f);
      if b {
        holding := holding + [rules[i]];
      }
    }
    assert rules[..|rules|] == rules;
  }

  method ClashesOfOne(a: Rule, others: seq<Rule>, f: Facts) returns (problems: seq<Problem>)
    ensures problems == ClashesWith(a, others, f)
  {
    problems := [];
    for j := 0 to |others|
      invariant problems + ClashesWith(a, others[j..], f) == ClashesWith(a, others, f)
    {
      assert others[j..][1..] == others[j + 1..];
      if a.action != others[j].action {
        problems := problems + [Problem(a, others[j], f)];
      }
    }
  }

  method ClashesAmong(holding: seq<Rule>, f: Facts) returns (problems: seq<Problem>)
    ensures problems == Clashes(holding, f)
  {
    problems := [];
    for i := 0 to |holding|
      invariant problems + Clashes(holding[i..], f) == Clashes(holding, f)
    {
      assert holding[i..][1..] == holding[i + 1..];
      var some := ClashesOfOne(holding[i], holding[i + 1..], f);
      problems := problems + some;
    }
  }

  method CheckPoints(rules: seq<Rule>, points: seq<Facts>) returns (problems: seq<Problem>)
    ensures problems == Problems(rules, points)
  {
    problems := [];
    for i := 0 to |points|
      invariant problems + Problems(rules, points[i..]) == Problems(rules, points)
    {
      assert points[i..][1..] == points[i + 1..];
      var holding := HoldingRules(rules, points[i]);
      var some := ClashesAmong(holding, points[i]);
      problems := problems + some;
    }
  }

  method CheckConsistency(t: Table) returns (problems: seq<Problem>)
    ensures problems == Problems(t.rules, FactGrid(VOCAB, GRID_RULE_LEVELS, GRID_OCCURRENCE_COUNTS))
  {
    problems := CheckPoints(t.rules, FactGrid(VOCAB, GRID_RULE_LEVELS, GRID_OCCURRENCE_COUNTS));
  }
}
