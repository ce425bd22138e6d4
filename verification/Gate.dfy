/** The seven-step gate between a model's proposal and a triage verdict. */
module Gate {
  import opened Common
  import opened Text
  import opened Wrap
  import opened Lint
  import opened Prompt
  import opened DecisionTables
  import Quotes

  datatype Basis = Basis(text: map<Field, string>, count: int, rule: Option<string>)
  datatype Reason = Reason(source: string, quote: string)
  datatype Proposal = Proposal(action: Action, reasons: seq<Reason>, basis: Basis)
  datatype Verification = Verification(agree: bool, verdict: Action)
  datatype Why = UnknownSource | EmptyQuote | NotSubstring
  datatype Dropped = Dropped(index: nat, why: Why)

  /** The fields step 2 indexes, in its order. */
  const STRING_FIELDS := [Severity, IocReputation, AssetCriticality, IdentityPrivileged]

  function Name(f: Field): string {
    match f
    case Severity => "severity"
    case IocReputation => "ioc_reputation"
    case AssetCriticality => "asset_criticality"
    case IdentityPrivileged => "identity_privileged"
  }

  /** The gate reads these facts by index; the facts of an alert carry them all. */
  predicate Complete(f: Facts) {
    (forall x: Field :: x in f.text) && OccurrenceCount in f.number
  }

  predicate CompleteBasis(b: Basis) {
    forall x: Field :: x in b.text
  }

  // ---- step 2 -------------------------------------------------------------------------------------

  function MismatchedFields(fields: seq<Field>, b: Basis, f: Facts): seq<string>
    requires Complete(f) && CompleteBasis(b)
  {
    if fields == [] then []
    else
      MismatchedFields(fields[..|fields| - 1], b, f)
      + var x := fields[|fields| - 1]; if Lower(b.text[x]) != Lower(f.text[x]) then [Name(x)] else []
  }

  function Mismatched(b: Basis, f: Facts): seq<string>
    requires Complete(f) && CompleteBasis(b)
  {
    MismatchedFields(STRING_FIELDS, b, f)
    + if b.count != f.number[OccurrenceCount] then ["occurrence_count"] else []
  }

  /** All five basis fields say what the stored facts say. */
  predicate SameBasis(b: Basis, f: Facts)
    requires Complete(f) && CompleteBasis(b)
  {
    (forall x: Field :: Lower(b.text[x]) == Lower(f.text[x])) && b.count == f.number[OccurrenceCount]
  }

  lemma {:induction false} NoFieldMismatched(fields: seq<Field>, b: Basis, f: Facts)
    requires Complete(f) && CompleteBasis(b)
    ensures MismatchedFields(fields, b, f) == [] <==> forall x <- fields :: Lower(b.text[x]) == Lower(f.text[x])
  {
    if fields != [] {
      NoFieldMismatched(fields[..|fields| - 1], b, f);
      assert fields == fields[..|fields| - 1] + [fields[|fields| - 1]];
    }
  }

  lemma NothingMismatchedExactly(b: Basis, f: Facts)
    requires Complete(f) && CompleteBasis(b)
    ensures Mismatched(b, f) == [] <==> SameBasis(b, f)
  {
    NoFieldMismatched(STRING_FIELDS, b, f);
    forall x: Field ensures x in STRING_FIELDS {
      assert x == STRING_FIELDS[0] || x == STRING_FIELDS[1] || x == STRING_FIELDS[2] || x == STRING_FIELDS[3];
    }
  }

  /** One field more is listed, under its name, where it differs. */
  lemma MismatchStep(fields: seq<Field>, x: Field, b: Basis, f: Facts)
    requires Complete(f) && CompleteBasis(b)
    ensures MismatchedFields(fields + [x], b, f) ==
            MismatchedFields(fields, b, f) + if Lower(b.text[x]) != Lower(f.text[x]) then [Name(x)] else []
  {
    assert (fields + [x])[..|fields|] == fields;
  }

  /** The field differs and has this name. */
  ghost predicate Differs(b: Basis, f: Facts, x: Field, name: string)
    requires Complete(f) && CompleteBasis(b)
  {
    Lower(b.text[x]) != Lower(f.text[x]) && name == Name(x)
  }

  lemma {:induction false} MismatchesAreNamed(fields: seq<Field>, b: Basis, f: Facts, name: string)
    requires Complete(f) && CompleteBasis(b)
    ensures name in MismatchedFields(fields, b, f) <==> exists x :: x in fields && Differs(b, f, x, name)
  {
    if fields != [] {
      var front, last := fields[..|fields| - 1], fields[|fields| - 1];
      MismatchesAreNamed(front, b, f, name);
      MismatchStep(front, last, b, f);
      assert fields == front + [last];
      assert name in MismatchedFields(fields, b, f) <==>
          name in MismatchedFields(front, b, f) || Differs(b, f, last, name);
      OneMoreDiffers(front, last, b, f, name);
    }
  }

  lemma OneMoreDiffers(front: seq<Field>, last: Field, b: Basis, f: Facts, name: string)
    requires Complete(f) && CompleteBasis(b)
    ensures (exists x :: x in front + [last] && Differs(b, f, x, name)) <==>
            (exists x :: x in front && Differs(b, f, x, name)) || Differs(b, f, last, name)
  {
    assert last in front + [last];
  }

  /** The names the facts have in the alert's record. */
  lemma NamesAreTheKeys(x: Field)
    ensures Name(x) == "severity" <==> x == Severity
    ensures Name(x) == "ioc_reputation" <==> x == IocReputation
    ensures Name(x) == "asset_criticality" <==> x == AssetCriticality
    ensures Name(x) == "identity_privileged" <==> x == IdentityPrivileged
  {
    assert |"severity"| == 8 && |"ioc_reputation"| == 14;
    assert |"asset_criticality"| == 17 && |"identity_privileged"| == 19;
  }

  // ---- step 3 -------------------------------------------------------------------------------------

  /** Unicode folding is `fold`; then runs of white space become one blank. */
  function Norm(fold: string -> string, text: string): string {
    Join(" ", Words(fold(text), ""))
  }

  function Fault(fold: string -> string, r: Reason, blocks: map<string, Block>): Option<Why> {
    if r.source !in blocks then Some(UnknownSource)
    else
      var quote := Norm(fold, r.quote);
      if quote == "" then Some(EmptyQuote)
      else if Found(Norm(fold, blocks[r.source].plain), quote, 0)
           || Found(Norm(fold, blocks[r.source].escaped), quote, 0) then None
      else Some(NotSubstring)
  }

  /** Its words, single blanks between them, and nothing else. */
  lemma NormIsItsWords(fold: string -> string, text: string)
    ensures Words(Norm(fold, text), "") == Words(fold(text), "") && Quotes.SingleSpaced(Norm(fold, text))
    ensures Norm(fold, text) == "" <==> Words(fold(text), "") == []
  {
    Quotes.WordsHaveNoSpace(fold(text), "");
    Quotes.WordsOfJoined(Words(fold(text), ""));
    Quotes.JoinedIsSingleSpaced(Words(fold(text), ""));
  }

  /** Texts normalise alike exactly when they have the same words. */
  lemma NormsAgreeExactly(fold: string -> string, a: string, b: string)
    ensures Norm(fold, a) == Norm(fold, b) <==> Words(fold(a), "") == Words(fold(b), "")
  {
    NormIsItsWords(fold, a);
    NormIsItsWords(fold, b);
  }

  /** The quote has words, and they stand in the block it names, as shown or as escaped: the inner ones whole,
      the first ending a word of the block and the last beginning one. */
  ghost predicate Supported(fold: string -> string, r: Reason, blocks: map<string, Block>) {
    && r.source in blocks && Words(fold(r.quote), "") != []
    && (|| Quotes.StandsIn(Words(fold(r.quote), ""), Words(fold(blocks[r.source].plain), ""))
        || Quotes.StandsIn(Words(fold(r.quote), ""), Words(fold(blocks[r.source].escaped), "")))
  }

  lemma QuoteIsFoundExactly(fold: string -> string, quote: string, text: string)
    requires Words(fold(quote), "") != []
    ensures Found(Norm(fold, text), Norm(fold, quote), 0) <==>
            Quotes.StandsIn(Words(fold(quote), ""), Words(fold(text), ""))
  {
    FoundIsContains(Norm(fold, text), Norm(fold, quote));
    Quotes.WordsHaveNoSpace(fold(quote), "");
    Quotes.WordsHaveNoSpace(fold(text), "");
    Quotes.QuoteStandsExactly(Words(fold(quote), ""), Words(fold(text), ""));
  }

  lemma FaultlessIsSupported(fold: string -> string, r: Reason, blocks: map<string, Block>)
    ensures Fault(fold, r, blocks).None? <==> Supported(fold, r, blocks)
  {
    NormIsItsWords(fold, r.quote);
    if r.source in blocks && Words(fold(r.quote), "") != [] {
      QuoteIsFoundExactly(fold, r.quote, blocks[r.source].plain);
      QuoteIsFoundExactly(fold, r.quote, blocks[r.source].escaped);
    }
  }

  /** Why a reason goes: its block is none of the message's, it quotes nothing, or its words do not stand there. */
  lemma FaultSaysWhy(fold: string -> string, r: Reason, blocks: map<string, Block>)
    ensures Fault(fold, r, blocks) == Some(UnknownSource) <==> r.source !in blocks
    ensures Fault(fold, r, blocks) == Some(EmptyQuote) <==> r.source in blocks && Words(fold(r.quote), "") == []
    ensures Fault(fold, r, blocks) == Some(NotSubstring) <==>
            r.source in blocks && Words(fold(r.quote), "") != [] && !Supported(fold, r, blocks)
  {
    NormIsItsWords(fold, r.quote);
    FaultlessIsSupported(fold, r, blocks);
  }

  function Survivors(fold: string -> string, rs: seq<Reason>, blocks: map<string, Block>): seq<Reason> {
    if rs == [] then []
    else
      Survivors(fold, rs[..|rs| - 1], blocks)
      + if Fault(fold, rs[|rs| - 1], blocks).None? then [rs[|rs| - 1]] else []
  }

  function Drops(fold: string -> string, rs: seq<Reason>, blocks: map<string, Block>): seq<Dropped> {
    if rs == [] then []
    else
      var why := Fault(fold, rs[|rs| - 1], blocks);
      Drops(fold, rs[..|rs| - 1], blocks) + if why.Some? then [Dropped(|rs| - 1, why.value)] else []
  }

  lemma {:induction false} SurvivorsAreSupported(fold: string -> string, rs: seq<Reason>, blocks: map<string, Block>)
    ensures forall r :: r in Survivors(fold, rs, blocks) <==> r in rs && Supported(fold, r, blocks)
    ensures |Survivors(fold, rs, blocks)| + |Drops(fold, rs, blocks)| == |rs|
  {
    if rs != [] {
      var last := rs[|rs| - 1];
      SurvivorsAreSupported(fold, rs[..|rs| - 1], blocks);
      FaultlessIsSupported(fold, last, blocks);
      assert rs == rs[..|rs| - 1] + [last];
    }
  }

  // ---- step 4 -------------------------------------------------------------------------------------

  /** Six reasons to refuse the cited rule, in order. */
  function RuleCheck(t: Option<Table>, f: Facts, id: Option<string>): (bool, Option<string>) {
    if id.None? then (false, Some("no_rule_cited"))
    else if t.None? then (false, Some("no_table"))
    else if !t.value.reviewed then (false, Some("table_unreviewed"))
    else
      var holds := RuleHolds(t.value, id.value, f);
      if holds.None? then (false, Some("unknown_rule"))
      else if !holds.value then (false, Some("rule_does_not_hold"))
      else if Named(t.value.rules, id.value).value.action != FalsePositive then
        (false, Some("rule_is_not_false_positive"))
      else (true, None)
  }

  /** A reviewed table's rule of that name holds and says false positive. */
  ghost predicate RuleBacks(t: Option<Table>, f: Facts, id: Option<string>) {
    && id.Some? && t.Some? && t.value.reviewed
    && var r := Named(t.value.rules, id.value);
       r.Some? && Holds(r.value, f) && r.value.action == FalsePositive
  }

  lemma RuleCheckExactly(t: Option<Table>, f: Facts, id: Option<string>)
    ensures RuleCheck(t, f, id).0 <==> RuleBacks(t, f, id)
    ensures RuleCheck(t, f, id).1.Some? <==> !RuleBacks(t, f, id)
  {
  }

  /** Why the cited rule does not back the verdict, where it does not. */
  function RuleWarning(t: Option<Table>, f: Facts, id: Option<string>): seq<string> {
    var whyNot := RuleCheck(t, f, id).1;
    if whyNot.Some? then [whyNot.value] else []
  }

  function PolicyGaps(f: Facts): seq<string>
    requires Complete(f)
  {
    (if Lower(f.text[Severity]) == "critical" then ["severity"] else [])
    + (if Lower(f.text[IocReputation]) in {"malicious", "suspicious"} then ["ioc_reputation"] else [])
    + (if Lower(f.text[AssetCriticality]) in {"high", "unknown"} then ["asset_criticality"] else [])
    + (if Lower(f.text[IdentityPrivileged]) == "true" then ["identity_privileged"] else [])
  }

  /** Each fact that stands in the way is named, and no other. */
  lemma GapsNameTheFacts(f: Facts)
    requires Complete(f)
    ensures var gaps := PolicyGaps(f);
            && ("severity" in gaps <==> Lower(f.text[Severity]) == "critical")
            && ("ioc_reputation" in gaps <==> Lower(f.text[IocReputation]) in {"malicious", "suspicious"})
            && ("asset_criticality" in gaps <==> Lower(f.text[AssetCriticality]) in {"high", "unknown"})
            && ("identity_privileged" in gaps <==> Lower(f.text[IdentityPrivileged]) == "true")
            && (gaps == [] <==> FpPolicy(f))
  {
  }

  /** The reason given is the first thing in the way: no rule cited, no table, a table nobody reviewed, no rule of
      that name, a rule that does not hold, or one that says something else. */
  lemma RuleCheckNamesTheFirst(t: Option<Table>, f: Facts, id: Option<string>)
    ensures var why := RuleCheck(t, f, id).1;
            && (why == Some("no_rule_cited") <==> id.None?)
            && (why == Some("no_table") <==> id.Some? && t.None?)
            && (why == Some("table_unreviewed") <==> id.Some? && t.Some? && !t.value.reviewed)
            && (why == Some("unknown_rule") <==>
                  id.Some? && t.Some? && t.value.reviewed && Named(t.value.rules, id.value).None?)
            && (why == Some("rule_does_not_hold") <==>
                  id.Some? && t.Some? && t.value.reviewed && Named(t.value.rules, id.value).Some?
                  && !Holds(Named(t.value.rules, id.value).value, f))
  {
  }

  /** What the facts must not say for an alert to be called a false positive. */
  predicate FpPolicy(f: Facts)
    requires Complete(f)
  {
    && Lower(f.text[Severity]) != "critical"
    && Lower(f.text[IocReputation]) !in {"malicious", "suspicious"}
    && Lower(f.text[AssetCriticality]) !in {"high", "unknown"}
    && Lower(f.text[IdentityPrivileged]) != "true"
  }

  // ---- the state ----------------------------------------------------------------------------------

  class GateState {
    const proposal: Proposal
    const facts: Facts
    const blocks: map<string, Block>
    var verdict: Action
    var reasons: seq<Reason>
    var steps: map<string, string>
    var forcedBy: seq<string>
    var missing: seq<string>
    var mismatchedFields: seq<string>
    var dropped: seq<Dropped>
    var hallucination: bool
    var warnings: seq<string>
    var findings: seq<string>
    var verifierVerdict: Option<Action>

    /** The state after step 1 has passed. */
    constructor (p: Proposal, f: Facts, bs: map<string, Block>, repaired: bool)
      ensures proposal == p && facts == f && blocks == bs
      ensures verdict == p.action && reasons == p.reasons
      ensures steps == map["1" := if repaired then "repaired" else "ok"]
      ensures forcedBy == [] && missing == [] && mismatchedFields == [] && dropped == [] && !hallucination
      ensures warnings == [] && findings == [] && verifierVerdict == None
    {
      proposal, facts, blocks := p, f, bs;
      verdict, reasons := p.action, p.reasons;
      steps := map["1" := if repaired then "repaired" else "ok"];
      forcedBy, missing, mismatchedFields, dropped, hallucination := [], [], [], [], false;
      warnings, findings, verifierVerdict := [], [], None;
    }

    method ForceNeedsReview(step: string)
      modifies this`verdict, this`forcedBy
      ensures verdict == NeedsReview && forcedBy == old(forcedBy) + [step]
    {
      verdict := NeedsReview;
      forcedBy := forcedBy + [step];
    }

    method Step2Basis()
      requires Complete(facts) && CompleteBasis(proposal.basis)
      modifies this`verdict, this`forcedBy, this`hallucination, this`mismatchedFields, this`steps
      ensures var same := SameBasis(proposal.basis, facts);
              && verdict == (if same then old(verdict) else NeedsReview)
              && forcedBy == (if same then old(forcedBy) else old(forcedBy) + ["step2"])
              && hallucination == (old(hallucination) || !same)
              && mismatchedFields == (if same then old(mismatchedFields) else Mismatched(proposal.basis, facts))
              && steps == old(steps)["2" := if same then "ok" else "mismatch"]
    {
      var mismatched := [];
      for i := 0 to |STRING_FIELDS|
        invariant mismatched == MismatchedFields(STRING_FIELDS[..i], proposal.basis, facts)
      {
        var field := STRING_FIELDS[i];
        assert STRING_FIELDS[..i + 1][..i] == STRING_FIELDS[..i];
        if Lower(proposal.basis.text[field]) != Lower(facts.text[field]) {
          mismatched := mismatched + [Name(field)];
        }
      }
      assert STRING_FIELDS[..|STRING_FIELDS|] == STRING_FIELDS;
      if proposal.basis.count != facts.number[OccurrenceCount] {
        mismatched := mismatched + ["occurrence_count"];
      }
      NothingMismatchedExactly(proposal.basis, facts);
      if mismatched != [] {
        hallucination := true;
        mismatchedFields := mismatched;
        ForceNeedsReview("step2");
        steps := steps["2" := "mismatch"];
      } else {
        steps := steps["2" := "ok"];
      }
    }

    method Step3Quotes(fold: string -> string)
      modifies this`verdict, this`forcedBy, this`reasons, this`dropped, this`steps
      ensures reasons == Survivors(fold, old(reasons), blocks)
      ensures dropped == Drops(fold, old(reasons), blocks)
      ensures verdict == if reasons == [] then NeedsReview else old(verdict)
      ensures forcedBy == if reasons == [] then old(forcedBy) + ["step3"] else old(forcedBy)
      ensures steps == old(steps)["3" := "dropped:" + Decimal(|dropped|)]
    {
      var survivors, drops := [], [];
      for i := 0 to |reasons|
        invariant survivors == Survivors(fold, reasons[..i], blocks)
        invariant drops == Drops(fold, reasons[..i], blocks)
      {
        assert reasons[..i + 1][..i] == reasons[..i];
        var why := Fault(fold, reasons[i], blocks);
        if why.Some? {
          drops := drops + [Dropped(i, why.value)];
        } else {
          survivors := survivors + [reasons[i]];
        }
      }
      assert reasons[..|reasons|] == reasons;
      reasons := survivors;
      dropped := drops;
      steps := steps["3" := "dropped:" + Decimal(|drops|)];
      if survivors == [] {
        ForceNeedsReview("step3");
      }
    }

    /** Applies to a verdict that is still false positive. */
    method Step4FpPolicy(t: Option<Table>)
      requires Complete(facts)
      modifies this`verdict, this`forcedBy, this`missing, this`warnings, this`steps
      ensures var backed := RuleBacks(t, facts, proposal.basis.rule);
              var pass := FpPolicy(facts) && backed;
              if old(verdict) != FalsePositive then
                && verdict == old(verdict) && forcedBy == old(forcedBy) && missing == old(missing)
                && warnings == old(warnings) && steps == old(steps)["4" := "n/a"]
              else
                && verdict == (if pass then FalsePositive else NeedsReview)
                && forcedBy == (if pass then old(forcedBy) else old(forcedBy) + ["step4"])
                && missing == (if pass then old(missing)
                               else PolicyGaps(facts) + if backed then [] else ["playbook_rule"])
                && warnings == old(warnings) + RuleWarning(t, facts, proposal.basis.rule)
                && steps == old(steps)["4" := if pass then "ok" else "missing"]
    {
      if verdict != FalsePositive {
        steps := steps["4" := "n/a"];
        return;
      }
      var gaps := PolicyGaps(facts);
      var (holds, whyNot) := RuleCheck(t, facts, proposal.basis.rule);
      RuleCheckExactly(t, facts, proposal.basis.rule);
      if !holds {
        gaps := gaps + ["playbook_rule"];
        if whyNot.Some? {
          warnings := warnings + [whyNot.value];
        }
      }
      if gaps != [] {
        missing := gaps;
        ForceNeedsReview("step4");
        steps := steps["4" := "missing"];
      } else {
        steps := steps["4" := "ok"];
      }
    }

    /** The detector records and never decides: its findings are arbitrary. */
    method Step5Detector(found: seq<string>)
      modifies this`findings, this`steps
      ensures findings == found && steps == old(steps)["5" := "findings:" + Decimal(|found|)]
    {
      findings := found;
      steps := steps["5" := "findings:" + Decimal(|found|)];
    }

    /** Compared with the verdict after step 4, which is what the verifier was shown. */
    method Step6Verifier(v: Option<Verification>)
      modifies this`verdict, this`forcedBy, this`verifierVerdict, this`steps
      ensures var confirmed := v.Some? && v.value.agree && v.value.verdict == old(verdict);
              && verdict == (if confirmed then old(verdict) else NeedsReview)
              && forcedBy == (if confirmed then old(forcedBy) else old(forcedBy) + ["step6"])
              && verifierVerdict == (if v.Some? then Some(v.value.verdict) else old(verifierVerdict))
              && steps == old(steps)["6" := if v.None? then "invalid" else if confirmed then "agree" else "disagree"]
    {
      if v.None? {
        ForceNeedsReview("step6");
        steps := steps["6" := "invalid"];
        return;
      }
      verifierVerdict := Some(v.value.verdict);
      if !v.value.agree || verifierVerdict != Some(verdict) {
        ForceNeedsReview("step6");
        steps := steps["6" := "disagree"];
      } else {
        steps := steps["6" := "agree"];
      }
    }
  }

  // ---- a whole run ------------------------------------------------------------------------------------

  ghost predicate AnySupported(fold: string -> string, rs: seq<Reason>, blocks: map<string, Block>) {
    exists r :: r in rs && Supported(fold, r, blocks)
  }

  /** What steps 2 to 4 ask of a proposal. */
  ghost predicate Grounded(p: Proposal, f: Facts, blocks: map<string, Block>, fold: string -> string,
                           t: Option<Table>)
    requires Complete(f) && CompleteBasis(p.basis)
  {
    && SameBasis(p.basis, f)
    && AnySupported(fold, p.reasons, blocks)
    && (p.action == FalsePositive ==> FpPolicy(f) && RuleBacks(t, f, p.basis.rule))
  }

  /** Everything a verdict other than needs_review takes. */
  ghost predicate Earned(p: Proposal, f: Facts, blocks: map<string, Block>, fold: string -> string, t: Option<Table>,
                         v: Option<Verification>)
    requires Complete(f) && CompleteBasis(p.basis)
  {
    Grounded(p, f, blocks, fold, t) && v.Some? && v.value.agree && v.value.verdict == p.action
  }

  lemma NoSurvivorsExactly(fold: string -> string, rs: seq<Reason>, blocks: map<string, Block>)
    ensures Survivors(fold, rs, blocks) == [] <==> !AnySupported(fold, rs, blocks)
    ensures forall r :: r in Survivors(fold, rs, blocks) <==> r in rs && Supported(fold, r, blocks)
  {
    SurvivorsAreSupported(fold, rs, blocks);
    if Survivors(fold, rs, blocks) != [] { assert Survivors(fold, rs, blocks)[0] in Survivors(fold, rs, blocks); }
  }

  method RunSteps1To3(p: Proposal, f: Facts, blocks: map<string, Block>, fold: string -> string, repaired: bool)
      returns (state: GateState)
    requires Complete(f) && CompleteBasis(p.basis)
    ensures fresh(state) && state.proposal == p && state.facts == f && state.blocks == blocks
    ensures state.verdict ==
            if SameBasis(p.basis, f) && AnySupported(fold, p.reasons, blocks) then p.action else NeedsReview
    ensures state.reasons == Survivors(fold, p.reasons, blocks)
    ensures state.forcedBy == (if SameBasis(p.basis, f) then [] else ["step2"])
                              + (if AnySupported(fold, p.reasons, blocks) then [] else ["step3"])
  {
    state := new GateState(p, f, blocks, repaired);
    state.Step2Basis();
    state.Step3Quotes(fold);
    NoSurvivorsExactly(fold, p.reasons, blocks);
  }

  /** The steps before the verifier that force needs_review, in order. */
  ghost function ForcedBefore6(p: Proposal, f: Facts, blocks: map<string, Block>, fold: string -> string,
                               t: Option<Table>): seq<string>
    requires Complete(f) && CompleteBasis(p.basis)
  {
    (if SameBasis(p.basis, f) then [] else ["step2"])
    + (if AnySupported(fold, p.reasons, blocks) then [] else ["step3"])
    + (if p.action == FalsePositive && SameBasis(p.basis, f) && AnySupported(fold, p.reasons, blocks)
          && !Grounded(p, f, blocks, fold, t)
       then ["step4"] else [])
  }

  /** The steps before the verifier: the verdict falls to needs_review or stays as proposed, and the
      steps that forced it are named. */
  method RunSteps1To5(p: Proposal, f: Facts, blocks: map<string, Block>, fold: string -> string, repaired: bool,
                      t: Option<Table>, found: seq<string>) returns (state: GateState)
    requires Complete(f) && CompleteBasis(p.basis)
    ensures fresh(state) && state.proposal == p && state.facts == f && state.blocks == blocks
    ensures state.verdict == if Grounded(p, f, blocks, fold, t) then p.action else NeedsReview
    ensures state.reasons == Survivors(fold, p.reasons, blocks)
    ensures state.forcedBy == ForcedBefore6(p, f, blocks, fold, t)
    ensures state.findings == found
  {
    state := RunSteps1To3(p, f, blocks, fold, repaired);
    state.Step4FpPolicy(t);
    state.Step5Detector(found);
  }

  /** All the steps. The final verdict is the proposed one exactly when that was earned, and
      needs_review in every other case; what is left of the reasons are the supported ones. */
  method RunGate(p: Proposal, f: Facts, blocks: map<string, Block>, fold: string -> string, repaired: bool,
                 t: Option<Table>, found: seq<string>, v: Option<Verification>) returns (state: GateState)
    requires Complete(f) && CompleteBasis(p.basis)
    ensures state.verdict == if Earned(p, f, blocks, fold, t, v) then p.action else NeedsReview
    ensures forall r :: r in state.reasons <==> r in p.reasons && Supported(fold, r, blocks)
    ensures var shown := if Grounded(p, f, blocks, fold, t) then p.action else NeedsReview;
            state.forcedBy == ForcedBefore6(p, f, blocks, fold, t)
                              + if v.Some? && v.value.agree && v.value.verdict == shown then [] else ["step6"]
    ensures state.findings == found
  {
    state := RunSteps1To5(p, f, blocks, fold, repaired, t, found);
    NoSurvivorsExactly(fold, p.reasons, blocks);
    state.Step6Verifier(v);
  }

  /** A verdict of false positive on a table that agrees with itself is the table's own verdict. */
  lemma EarnedFalsePositiveIsTheTables(p: Proposal, f: Facts, blocks: map<string, Block>, fold: string -> string,
                                       t: Option<Table>, v: Option<Verification>)
    requires Complete(f) && CompleteBasis(p.basis) && p.action == FalsePositive
    requires Earned(p, f, blocks, fold, t, v)
    requires t.Some? ==> AgreeAt(t.value.rules, f)
    ensures ApplyTable(t.value, f).Some? && ApplyTable(t.value, f).value.0 == FalsePositive
  {
    NamedFacts(t.value.rules, p.basis.rule.value);
    HoldingRuleGivesTheAnswer(t.value, f, Named(t.value.rules, p.basis.rule.value).value);
  }

  /** So with a table the consistency check passed, thresholds on its grid: no false positive leaves
      the gate that the table alone would not have answered at the same facts. */
  lemma CheckedTableGivesTheVerdict(p: Proposal, f: Facts, blocks: map<string, Block>, fold: string -> string,
                                    t: Table, v: Option<Verification>)
    requires Complete(f) && CompleteBasis(p.basis) && p.action == FalsePositive && IsFactPoint(f, VOCAB)
    requires Separates(Among(GRID_RULE_LEVELS), RuleLevel, 0, t.rules)
    requires Separates(Among(GRID_OCCURRENCE_COUNTS), OccurrenceCount, 1, t.rules)
    requires Problems(t.rules, FactGrid(VOCAB, GRID_RULE_LEVELS, GRID_OCCURRENCE_COUNTS)) == []
    ensures Earned(p, f, blocks, fold, Some(t), v) ==>
              ApplyTable(t, f).Some? && ApplyTable(t, f).value.0 == FalsePositive
  {
    ConsistencyCheckIsExact(t.rules);
    if Earned(p, f, blocks, fold, Some(t), v) { EarnedFalsePositiveIsTheTables(p, f, blocks, fold, Some(t), v); }
  }
}
