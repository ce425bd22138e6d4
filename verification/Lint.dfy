/** The second half of the linter: template constants out, then every token of every line judged. */
module Lint {
  import opened Common
  import opened Text
  import opened Linter
  import opened Values

  datatype Violation = UnbalancedBlock(line: nat) | FreeText(token: string, line: nat, count: nat)

  // ---- words and lines ----------------------------------------------------------------------------

  /** `str.isspace` of one character. */
  predicate IsSpace(c: char) {
    || '\t' <= c <= '\r' || '\U{1C}' <= c <= ' ' || c in {'\U{85}', '\U{A0}', '\U{1680}'}
    || '\U{2000}' <= c <= '\U{200A}' || c in {'\U{2028}', '\U{2029}', '\U{202F}', '\U{205F}', '\U{3000}'}
  }

  function Flush(cur: string): seq<string> {
    if cur == "" then [] else [cur]
  }

  /** `text.split()`, with `cur` already read. */
  function Words(text: string, cur: string): seq<string> {
    if text == "" then Flush(cur)
    else if IsSpace(text[0]) then Flush(cur) + Words(text[1..], "")
    else Words(text[1..], cur + [text[0]])
  }

  /** `text.split("\n")`, with `cur` already read. */
  function Lines(text: string, cur: string): seq<string> {
    if text == "" then [cur]
    else if text[0] == '\n' then [cur] + Lines(text[1..], "")
    else Lines(text[1..], cur + [text[0]])
  }

  const EDGE_CHARS: set<char> := {'·', '-', ':', ',', '.', '(', ')', '[', ']', '#', '→', '∈', '∧', '≠'}

  function TrimLeft(token: string): string {
    if token != "" && token[0] in EDGE_CHARS then TrimLeft(token[1..]) else token
  }

  function TrimRight(token: string): string {
    if token != "" && token[|token| - 1] in EDGE_CHARS then TrimRight(token[..|token| - 1]) else token
  }

  function Trim(token: string): string {
    TrimRight(TrimLeft(token))
  }

  predicate Passes(raw: string, enums: set<string>) {
    Trim(raw) == "" || AllowedToken(Trim(raw), enums)
  }

  // ---- violations -------------------------------------------------------------------------------------

  /** The trimmed tokens of a line that are not allowed. */
  function Bad(words: seq<string>, enums: set<string>): seq<string> {
    if words == [] then []
    else (if Passes(words[0], enums) then [] else [Trim(words[0])]) + Bad(words[1..], enums)
  }

  function Cut(token: string): string {
    if |token| <= 40 then token else token[..40]
  }

  function LineViolation(line: string, no: nat, enums: set<string>): Option<Violation> {
    var bad := Bad(Words(line, ""), enums);
    if bad == [] then None else Some(FreeText(Cut(bad[0]), no, |bad|))
  }

  function LineViolations(lines: seq<string>, no: nat, enums: set<string>): seq<Violation> {
    if lines == [] then []
    else
      var v := LineViolation(lines[0], no, enums);
      (if v.Some? then [v.value] else []) + LineViolations(lines[1..], no + 1, enums)
  }

  function BlockViolations(text: string, positions: seq<nat>): seq<Violation>
    requires forall i :: 0 <= i < |positions| ==> positions[i] <= |text|
  {
    if positions == [] then []
    else [UnbalancedBlock(LineAt(text, positions[0]))] + BlockViolations(text, positions[1..])
  }

  predicate NoEmpty(order: seq<string>) {
    forall i :: 0 <= i < |order| ==> order[i] != ""
  }

  /** Constants removed one after another. */
  function Remove(text: string, order: seq<string>): string
    requires NoEmpty(order)
    decreases |order|
  {
    if order == [] then text else Remove(Replace(text, order[0], ""), order[1..])
  }

  /** Every constant of more than one character, longer ones first. */
  ghost predicate LongestFirst(order: seq<string>, constants: set<string>) {
    && (forall c :: c in order <==> c in constants && |c| > 1)
    && (forall i, j :: 0 <= i < j < |order| ==> |order[i]| >= |order[j]|)
  }

  lemma {:induction false} PairInRange(tags: seq<Tag>, pending: Option<nat>, size: nat)
    requires forall i :: 0 <= i < |tags| ==> tags[i].start <= size
    requires pending.Some? ==> pending.value <= size
    ensures forall i :: 0 <= i < |Pair(tags, pending).unbalanced| ==> Pair(tags, pending).unbalanced[i] <= size
  {
    if tags != [] {
      PairInRange(tags[1..], if tags[0].open then Some(tags[0].start) else None, size);
    }
  }

  lemma {:induction false} TagsInRange(text: string, b: Boundary, i: nat)
    requires Distinct(b)
    ensures forall k :: 0 <= k < |Tags(text, b, i)| ==> Tags(text, b, i)[k].start <= |text|
    decreases |text| - i
  {
    if i < |text| {
      var t := TagAt(text, b, i);
      TagsInRange(text, b, if t.Some? then t.value.end else i + 1);
    }
  }

  lemma UnbalancedInRange(text: string, b: Boundary)
    requires Distinct(b)
    ensures forall i :: 0 <= i < |Unbalanced(text, b)| ==> Unbalanced(text, b)[i] <= |text|
  {
    TagsInRange(text, b, 0);
    PairInRange(Tags(text, b, 0), None, |text|);
  }

  /** All violations of a message, for one order of removing the constants. */
  function Violations(text: string, nonce: string, order: seq<string>, enums: set<string>): seq<Violation>
    requires NoEmpty(order)
  {
    var b := BoundaryOf(nonce);
    BoundariesAreDistinct(nonce);
    UnbalancedInRange(text, b);
    BlockViolations(text, Unbalanced(text, b))
    + LineViolations(Lines(Remove(Residual(text, Spans(text, b), 0), order), ""), 1, enums)
  }

  // ---- the loops -----------------------------------------------------------------------------------------

  method Longest(remaining: set<string>) returns (c: string)
    requires remaining != {}
    ensures c in remaining && forall d <- remaining :: |d| <= |c|
  {
    c :| c in remaining;
    var unseen := remaining - {c};
    while unseen != {}
      invariant unseen <= remaining && c in remaining
      invariant forall d <- remaining :: d in unseen || |d| <= |c|
      decreases |unseen|
    {
      var d :| d in unseen;
      if |d| > |c| {
        c := d;
      }
      unseen := unseen - {d};
    }
  }

  /** The removals so far, when these constants are still to come. */
  ghost predicate SoFar(order: seq<string>, constants: set<string>, remaining: set<string>) {
    && remaining <= constants && (forall c <- remaining :: |c| > 1)
    && (forall c :: c in order <==> c in constants && |c| > 1 && c !in remaining)
    && (forall i, j :: 0 <= i < j < |order| ==> |order[i]| >= |order[j]|)
    && (forall i, d :: 0 <= i < |order| && d in remaining ==> |order[i]| >= |d|)
  }

  lemma OneMoreSoFar(order: seq<string>, constants: set<string>, remaining: set<string>, c: string)
    requires SoFar(order, constants, remaining) && c in remaining && forall d <- remaining :: |d| <= |c|
    ensures SoFar(order + [c], constants, remaining - {c})
  {
    assert forall d :: d in order + [c] <==> d in order || d == c;
  }

  lemma SoFarHasNoEmpty(order: seq<string>, constants: set<string>, remaining: set<string>)
    requires SoFar(order, constants, remaining)
    ensures NoEmpty(order)
  {
    assert forall i :: 0 <= i < |order| ==> order[i] in order;
  }

  method StripConstants(text: string, constants: set<string>) returns (residual: string, ghost order: seq<string>)
    ensures LongestFirst(order, constants) && NoEmpty(order)
    ensures residual == Remove(text, order)
  {
    var remaining := set c <- constants | |c| > 1;
    residual, order := text, [];
    while remaining != {}
      invariant SoFar(order, constants, remaining) && NoEmpty(order)
      invariant residual == Remove(text, order)
      decreases |remaining|
    {
      var c := Longest(remaining);
      OneMoreSoFar(order, constants, remaining, c);
      RemoveOneMore(text, order, c);
      residual := Replace(residual, c, "");
      order := order + [c];
      remaining := remaining - {c};
      SoFarHasNoEmpty(order, constants, remaining);
    }
  }

  lemma {:induction false} RemoveOneMore(text: string, order: seq<string>, c: string)
    requires c != "" && NoEmpty(order)
    ensures Remove(text, order + [c]) == Replace(Remove(text, order), c, "")
    decreases |order|
  {
    if order == [] {
      assert Remove(text, [c]) == Remove(Replace(text, c, ""), []);
    } else {
      RemoveOneMore(Replace(text, order[0], ""), order[1..], c);
      assert (order + [c])[1..] == order[1..] + [c];
    }
  }

  lemma {:induction false} BadOneMore(words: seq<string>, w: string, enums: set<string>)
    ensures Bad(words + [w], enums) == Bad(words, enums) + if Passes(w, enums) then [] else [Trim(w)]
  {
    if words == [] {
      assert words + [w] == [w];
    } else {
      BadOneMore(words[1..], w, enums);
      assert (words + [w])[1..] == words[1..] + [w];
    }
  }

  method JudgeLine(line: string, no: nat, enums: set<string>) returns (v: Option<Violation>)
    ensures v == LineViolation(line, no, enums)
  {
    var words := Words(line, "");
    var first: Option<string> := None;
    var count := 0;
    for k := 0 to |words|
      invariant count == |Bad(words[..k], enums)|
      invariant first == if count == 0 then None else Some(Cut(Bad(words[..k], enums)[0]))
    {
      BadOneMore(words[..k], words[k], enums);
      assert words[..k + 1] == words[..k] + [words[k]];
      var core := Trim(words[k]);
      if core != "" && !AllowedToken(core, enums) {
        count := count + 1;
        if first.None? {
          first := Some(Cut(core));
        }
      }
    }
    assert words[..|words|] == words;
    v := if count == 0 then None else Some(FreeText(first.value, no, count));
  }

  method JudgeLines(lines: seq<string>, enums: set<string>) returns (violations: seq<Violation>)
    ensures violations == LineViolations(lines, 1, enums)
  {
    violations := [];
    for i := 0 to |lines|
      invariant violations + LineViolations(lines[i..], i + 1, enums) == LineViolations(lines, 1, enums)
    {
      NextLine(lines, i, enums);
      var v := JudgeLine(lines[i], i + 1, enums);
      var more := if v.Some? then [v.value] else [];
      Associates(violations, more, LineViolations(lines[i + 1..], i + 2, enums));
      violations := violations + more;
    }
  }

  lemma NextLine(lines: seq<string>, i: nat, enums: set<string>)
    requires i < |lines|
    ensures var v := LineViolation(lines[i], i + 1, enums);
            LineViolations(lines[i..], i + 1, enums) ==
            (if v.Some? then [v.value] else []) + LineViolations(lines[i + 1..], i + 2, enums)
  {
    assert lines[i..][1..] == lines[i + 1..];
  }

  /** The linter. The constants go out longest first, equal lengths in any order. */
  method LintMessage(text: string, nonce: string, constants: set<string>, enums: set<string>)
      returns (violations: seq<Violation>, ghost order: seq<string>)
    ensures LongestFirst(order, constants) && NoEmpty(order)
    ensures violations == Violations(text, nonce, order, enums)
  {
    var residual, unbalanced := StripBlocks(text, nonce);
    UnbalancedInRange(text, BoundaryOf(nonce));
    residual, order := StripConstants(residual, constants);
    var free := JudgeLines(Lines(residual, ""), enums);
    violations := BlockViolations(text, unbalanced) + free;
  }

  // ---- a clean message, word by word ------------------------------------------------------------------------

  predicate AllPass(words: seq<string>, enums: set<string>) {
    forall w <- words :: Passes(w, enums)
  }

  lemma {:induction false} NoBadWords(words: seq<string>, enums: set<string>)
    ensures Bad(words, enums) == [] <==> AllPass(words, enums)
  {
    if words != [] {
      NoBadWords(words[1..], enums);
      assert forall w :: w in words <==> w == words[0] || w in words[1..];
    }
  }

  lemma {:induction false} WordsApart(a: string, c: char, b: string, cur: string)
    requires IsSpace(c)
    ensures Words(a + [c] + b, cur) == Words(a, cur) + Words(b, "")
  {
    var t := a + [c] + b;
    if a == "" {
      assert t[1..] == b;
    } else {
      assert t[1..] == a[1..] + [c] + b;
      if IsSpace(a[0]) { WordsApart(a[1..], c, b, ""); } else { WordsApart(a[1..], c, b, cur + [a[0]]); }
    }
  }

  /** Line by line or all at once, the same words are judged. */
  lemma {:induction false} LinesAreCleanExactly(text: string, cur: string, no: nat, enums: set<string>)
    requires forall i :: 0 <= i < |cur| ==> cur[i] != '\n'
    ensures LineViolations(Lines(text, cur), no, enums) == [] <==> AllPass(Words(cur + text, ""), enums)
  {
    if text == "" {
      assert cur + text == cur;
      NoBadWords(Words(cur, ""), enums);
    } else if text[0] == '\n' {
      var rest := text[1..];
      assert cur + text == cur + "\n" + rest;
      assert "" + rest == rest;
      WordsApart(cur, '\n', rest, "");
      NoBadWords(Words(cur, ""), enums);
      LinesAreCleanExactly(rest, "", no + 1, enums);
      var lines := [cur] + Lines(rest, "");
      assert lines[1..] == Lines(rest, "");
    } else {
      assert cur + text == cur + [text[0]] + text[1..];
      LinesAreCleanExactly(text[1..], cur + [text[0]], no, enums);
    }
  }
}
