/** What the linter finds: every line outside the blocks is judged by itself, under its own number, and free
    text among the builder's sections is reported. */
module Findings {
  import opened Common
  import opened Text
  import opened Wrap
  import opened Linter
  import opened RoundTrip
  import opened Values
  import opened Vocabulary
  import opened Lint
  import opened CleanText
  import opened Prompt
  import opened Tokens

  // ---- constants do not reach over a line break -------------------------------------------------------

  lemma {:induction false} ReplaceAcrossBreak(a: string, b: string, c: string)
    requires c != "" && '\n' !in c
    ensures Replace(a + "\n" + b, c, "") == Replace(a, c, "") + "\n" + Replace(b, c, "")
  {
    var t := a + "\n" + b;
    FitsBeforeBreak(a, b, c);
    if a == "" {
      assert t[1..] == b;
    } else if At(a, 0, c) {
      ReplaceAcrossBreak(a[|c|..], b, c);
      assert t[|c|..] == a[|c|..] + "\n" + b;
    } else {
      ReplaceAcrossBreak(a[1..], b, c);
      assert t[1..] == a[1..] + "\n" + b;
      Associates([a[0]], Replace(a[1..], c, "") + "\n", Replace(b, c, ""));
      Associates([a[0]], Replace(a[1..], c, ""), "\n");
    }
  }

  lemma FitsBeforeBreak(a: string, b: string, c: string)
    requires c != "" && '\n' !in c
    ensures At(a + "\n" + b, 0, c) <==> At(a, 0, c)
  {
    var t := a + "\n" + b;
    assert t == a + ("\n" + b) && t[|a|] == '\n';
    if |c| <= |a| {
      AtFront(a, "\n" + b, 0, c);
    }
  }

  predicate NoBreaks(order: seq<string>) {
    forall i :: 0 <= i < |order| ==> '\n' !in order[i]
  }

  lemma {:induction false} RemoveAcrossBreak(a: string, b: string, order: seq<string>)
    requires NoEmpty(order) && NoBreaks(order)
    ensures Remove(a + "\n" + b, order) == Remove(a, order) + "\n" + Remove(b, order)
    decreases |order|
  {
    if order != [] {
      assert order[0] != "" && '\n' !in order[0];
      ReplaceAcrossBreak(a, b, order[0]);
      RemoveAcrossBreak(Replace(a, order[0], ""), Replace(b, order[0], ""), order[1..]);
    }
  }

  // ---- lines ------------------------------------------------------------------------------------------

  lemma {:induction false} LinesApart(a: string, b: string, cur: string)
    ensures Lines(a + "\n" + b, cur) == Lines(a, cur) + Lines(b, "")
  {
    var t := a + "\n" + b;
    if a == "" {
      assert t[1..] == b;
    } else {
      assert t[1..] == a[1..] + "\n" + b;
      if a[0] == '\n' { LinesApart(a[1..], b, ""); } else { LinesApart(a[1..], b, cur + [a[0]]); }
    }
  }

  /** A text is its lines, put together again with line breaks; no line has one. */
  lemma {:induction false} LinesAreTheText(text: string, cur: string)
    requires '\n' !in cur
    ensures Lines(text, cur) != [] && Join("\n", Lines(text, cur)) == cur + text
    ensures forall l <- Lines(text, cur) :: '\n' !in l
  {
    if text == "" {
      assert cur + text == cur;
    } else if text[0] == '\n' {
      LinesAreTheText(text[1..], "");
      var rest := Lines(text[1..], "");
      assert ([cur] + rest)[1..] == rest;
      assert "" + text[1..] == text[1..];
      assert cur + text == cur + "\n" + text[1..];
    } else {
      LinesAreTheText(text[1..], cur + [text[0]]);
      assert cur + [text[0]] + text[1..] == cur + text;
    }
  }

  lemma {:induction false} LinesCount(text: string, cur: string)
    ensures |Lines(text, cur)| == 1 + Newlines(text)
  {
    if text != "" {
      LinesCount(text[1..], if text[0] == '\n' then "" else cur + [text[0]]);
      NewlinesConcat([text[0]], text[1..]);
      assert text == [text[0]] + text[1..];
      assert Newlines([text[0]]) == if text[0] == '\n' then 1 else 0 by { assert [text[0]][..0] == ""; }
    }
  }

  lemma {:induction false} OneLine(line: string, cur: string)
    requires '\n' !in line
    ensures Lines(line, cur) == [cur + line]
  {
    if line == "" {
      assert cur + line == cur;
    } else {
      OneLine(line[1..], cur + [line[0]]);
      assert cur + [line[0]] + line[1..] == cur + line;
    }
  }

  lemma {:induction false} ReplaceKeepsBreaks(text: string, c: string)
    requires c != "" && '\n' !in c
    ensures Newlines(Replace(text, c, "")) == Newlines(text)
  {
    if text != "" {
      if At(text, 0, c) {
        ReplaceKeepsBreaks(text[|c|..], c);
        assert text == c + text[|c|..];
        assert "" + Replace(text[|c|..], c, "") == Replace(text[|c|..], c, "");
        NewlinesConcat(c, text[|c|..]);
        NoNewlines(c);
      } else {
        ReplaceKeepsBreaks(text[1..], c);
        assert text == [text[0]] + text[1..];
        NewlinesConcat([text[0]], text[1..]);
        NewlinesConcat([text[0]], Replace(text[1..], c, ""));
      }
    }
  }

  lemma {:induction false} NoNewlines(c: string)
    requires '\n' !in c
    ensures Newlines(c) == 0
  {
    if c != "" { NoNewlines(c[..|c| - 1]); }
  }

  lemma {:induction false} RemoveKeepsBreaks(text: string, order: seq<string>)
    requires NoEmpty(order) && NoBreaks(order)
    ensures Newlines(Remove(text, order)) == Newlines(text)
    decreases |order|
  {
    if order != [] {
      assert order[0] != "" && '\n' !in order[0];
      ReplaceKeepsBreaks(text, order[0]);
      RemoveKeepsBreaks(Replace(text, order[0], ""), order[1..]);
    }
  }

  lemma {:induction false} LineViolationsConcat(xs: seq<string>, ys: seq<string>, no: nat, next: nat,
                                                enums: set<string>)
    requires next == no + |xs|
    ensures LineViolations(xs + ys, no, enums) == LineViolations(xs, no, enums) + LineViolations(ys, next, enums)
  {
    if xs == [] {
      assert xs + ys == ys && next == no;
    } else {
      LineViolationsConcat(xs[1..], ys, no + 1, next, enums);
      OneLineMore(xs, ys, no, next, enums);
    }
  }

  lemma OneLineMore(xs: seq<string>, ys: seq<string>, no: nat, next: nat, enums: set<string>)
    requires xs != []
    requires LineViolations(xs[1..] + ys, no + 1, enums) ==
             LineViolations(xs[1..], no + 1, enums) + LineViolations(ys, next, enums)
    ensures LineViolations(xs + ys, no, enums) == LineViolations(xs, no, enums) + LineViolations(ys, next, enums)
  {
    var v := LineViolation(xs[0], no, enums);
    assert (xs + ys)[1..] == xs[1..] + ys;
    Associates(if v.Some? then [v.value] else [], LineViolations(xs[1..], no + 1, enums),
               LineViolations(ys, next, enums));
  }

  // ---- one line among others ----------------------------------------------------------------------------

  /** What is reported of the text once its constants are out. */
  function Reported(text: string, order: seq<string>, no: nat, enums: set<string>): seq<Violation>
    requires NoEmpty(order)
  {
    LineViolations(Lines(Remove(text, order), ""), no, enums)
  }

  /** Two texts with a line break between them are judged apart; the second's lines are numbered on. */
  lemma ReportedApart(a: string, b: string, order: seq<string>, no: nat, next: nat, enums: set<string>)
    requires NoEmpty(order) && NoBreaks(order) && next == no + 1 + Newlines(a)
    ensures Reported(a + "\n" + b, order, no, enums) ==
            Reported(a, order, no, enums) + Reported(b, order, next, enums)
  {
    RemoveAcrossBreak(a, b, order);
    var x, y := Remove(a, order), Remove(b, order);
    LinesApart(x, y, "");
    LinesCount(x, "");
    RemoveKeepsBreaks(a, order);
    LineViolationsConcat(Lines(x, ""), Lines(y, ""), no, next, enums);
  }

  /** A line is judged as it stands, its constants out, under its own number. */
  lemma LineIsJudged(line: string, order: seq<string>, no: nat, enums: set<string>)
    requires NoEmpty(order) && NoBreaks(order) && '\n' !in line
    ensures Reported(line, order, no, enums) ==
            var v := LineViolation(Remove(line, order), no, enums); if v.Some? then [v.value] else []
  {
    RemoveKeepsLine(line, order);
    var left := Remove(line, order);
    OneLine(left, "");
    assert "" + left == left;
    assert [left][1..] == [];
    assert LineViolations([], no + 1, enums) == [];
  }

  lemma {:induction false} NewlinesCountThem(text: string)
    ensures Newlines(text) == 0 <==> '\n' !in text
  {
    if text != "" {
      NewlinesCountThem(text[..|text| - 1]);
      assert text == text[..|text| - 1] + [text[|text| - 1]];
    }
  }

  lemma RemoveKeepsLine(line: string, order: seq<string>)
    requires NoEmpty(order) && NoBreaks(order) && '\n' !in line
    ensures '\n' !in Remove(line, order)
  {
    NewlinesCountThem(line);
    RemoveKeepsBreaks(line, order);
    NewlinesCountThem(Remove(line, order));
  }

  lemma {:induction false} RemoveFindsNothing(line: string, order: seq<string>)
    requires NoEmpty(order) && forall i :: 0 <= i < |order| ==> !Contains(line, order[i])
    ensures Remove(line, order) == line
    decreases |order|
  {
    if order != [] {
      assert order[0] != "" && !Contains(line, order[0]);
      ReplaceNothing(line, order[0], "");
      forall i | 0 <= i < |order| - 1 ensures !Contains(line, order[1..][i]) { assert order[1..][i] == order[i + 1]; }
      RemoveFindsNothing(line, order[1..]);
    }
  }

  // ---- the first word that does not pass --------------------------------------------------------------

  lemma {:induction false} BadAfterGood(good: seq<string>, rest: seq<string>, enums: set<string>)
    requires AllPass(good, enums)
    ensures Bad(good + rest, enums) == Bad(rest, enums)
  {
    if good == [] {
      assert good + rest == rest;
    } else {
      assert good[0] in good;
      assert forall w <- good[1..] :: w in good;
      BadAfterGood(good[1..], rest, enums);
      assert (good + rest)[1..] == good[1..] + rest;
    }
  }

  /** A line whose words pass up to a free word is reported with that word. */
  lemma FreeWordIsNamed(line: string, before: seq<string>, w: string, after: seq<string>, no: nat, enums: set<string>)
    requires Words(line, "") == before + ([w] + after) && AllPass(before, enums) && FreeWord(Trim(w), enums)
    ensures var v, core := LineViolation(line, no, enums), Trim(w);
            && v.Some? && v.value.FreeText?
            && v.value.token == (if |core| <= 40 then core else core[..40])
            && v.value.line == no && v.value.count >= 1
  {
    FreeWordIsRefused(Trim(w), enums);
    BadAfterGood(before, [w] + after, enums);
    assert ([w] + after)[1..] == after;
  }

  // ---- free text among the builder's sections ---------------------------------------------------------

  /** What is left of the sections in front of another, and of those behind it. */
  function Front(ss: seq<Section>): string {
    if ss == [] then "" else LeftOver(ss) + "\n\n"
  }

  function Back(ss: seq<Section>): string {
    if ss == [] then "" else "\n\n" + LeftOver(ss)
  }

  lemma {:induction false} LeftOverAround(ss: seq<Section>, s: Section, rest: seq<Section>)
    requires !s.block
    ensures LeftOver(ss + ([s] + rest)) == Front(ss) + (s.shown + Back(rest))
    decreases |ss|
  {
    var all := ss + ([s] + rest);
    if ss == [] {
      assert all == [s] + rest;
      FirstThenBack(s, rest);
    } else {
      LeftOverAround(ss[1..], s, rest);
      OneMoreInFront(ss, [s] + rest, s.shown + Back(rest));
    }
  }

  lemma OneMoreInFront(ss: seq<Section>, more: seq<Section>, tail: string)
    requires ss != [] && more != [] && LeftOver(ss[1..] + more) == Front(ss[1..]) + tail
    ensures LeftOver(ss + more) == Front(ss) + tail
  {
    assert (ss + more)[1..] == ss[1..] + more;
    LeftOverCons(ss + more);
    FrontStep(ss, tail);
  }

  lemma FirstThenBack(s: Section, rest: seq<Section>)
    requires !s.block
    ensures LeftOver([s] + rest) == s.shown + Back(rest)
  {
    assert ([s] + rest)[1..] == rest;
    if rest == [] { assert [s] + rest == [s]; } else { Associates(s.shown, "\n\n", LeftOver(rest)); }
  }

  lemma LeftOverCons(all: seq<Section>)
    requires |all| > 1
    ensures LeftOver(all) == Left(all[0]) + "\n\n" + LeftOver(all[1..])
  {
  }

  lemma FrontStep(ss: seq<Section>, tail: string)
    requires ss != []
    ensures Front(ss) + tail == Left(ss[0]) + "\n\n" + (Front(ss[1..]) + tail)
  {
    if |ss| > 1 { assert Front(ss) == Left(ss[0]) + "\n\n" + Front(ss[1..]); }
  }

  lemma {:induction false} LeftStartAround(ss: seq<Section>, more: seq<Section>)
    requires more != []
    ensures LeftStartOf(ss + more, |ss|) == |Front(ss)|
    decreases |ss|
  {
    if ss != [] {
      assert (ss + more)[1..] == ss[1..] + more;
      LeftStartAround(ss[1..], more);
      if |ss| > 1 { LeftOverCons(ss); }
    }
  }

  /** The section stands in the message where it is said to start. */
  lemma {:induction false} StandsWhereItStarts(ss: seq<Section>, s: Section, rest: seq<Section>)
    ensures var all := ss + ([s] + rest);
            At(Message(all), StartOf(all, |ss|), s.shown)
    decreases |ss|
  {
    var all := ss + ([s] + rest);
    if ss == [] {
      assert all == [s] + rest;
      assert Message(all)[..|s.shown|] == s.shown;
    } else {
      StandsWhereItStarts(ss[1..], s, rest);
      assert all[1..] == ss[1..] + ([s] + rest);
      ShiftAt(ss[0].shown + "\n\n", Message(all[1..]), StartOf(all[1..], |ss| - 1), s.shown);
    }
  }

  lemma ReportedBefore(line: string, b: string, order: seq<string>, no: nat, enums: set<string>, v: Violation)
    requires NoEmpty(order) && NoBreaks(order) && (b == "" || exists y :: b == "\n" + y)
    requires v in Reported(line, order, no, enums)
    ensures v in Reported(line + b, order, no, enums)
  {
    if b == "" {
      assert line + b == line;
    } else {
      var y :| b == "\n" + y;
      assert line + b == line + "\n" + y;
      ReportedApart(line, y, order, no, no + 1 + Newlines(line), enums);
    }
  }

  lemma ReportedAfter(a: string, rest: string, order: seq<string>, no: nat, enums: set<string>, v: Violation)
    requires NoEmpty(order) && NoBreaks(order) && (a == "" || exists x :: a == x + "\n") && no == 1 + Newlines(a)
    requires v in Reported(rest, order, no, enums)
    ensures v in Reported(a + rest, order, 1, enums)
  {
    if a == "" {
      assert a + rest == rest;
    } else {
      var x :| a == x + "\n";
      OneMoreBreak(x);
      ReportedApart(x, rest, order, 1, no, enums);
    }
  }

  lemma OneMoreBreak(x: string)
    ensures Newlines(x + "\n") == Newlines(x) + 1
  {
    assert (x + "\n")[..|x|] == x;
  }

  /** The line of a section among others is reported as it is judged alone, under its own number. */
  lemma ReportedAround(a: string, line: string, b: string, order: seq<string>, enums: set<string>, v: Violation)
    requires NoEmpty(order) && NoBreaks(order)
    requires a == "" || exists x :: a == x + "\n"
    requires b == "" || exists y :: b == "\n" + y
    requires v in Reported(line, order, 1 + Newlines(a), enums)
    ensures v in Reported(a + (line + b), order, 1, enums)
  {
    ReportedBefore(line, b, order, 1 + Newlines(a), enums, v);
    ReportedAfter(a, line + b, order, 1 + Newlines(a), enums, v);
  }

  lemma OrderHasNoBreaks(t: Terms, order: seq<string>)
    requires Sound(t) && LongestFirst(order, Constants(t))
    ensures NoBreaks(order)
  {
    forall i | 0 <= i < |order| ensures '\n' !in order[i] {
      assert order[i] in order;
      ConstantsByKind(t, order[i]);
      ConstantIsSolid(t, order[i]);
    }
  }

  /** Any builder calls, a line of other text, any builder calls. */
  function Around(t: Terms, xs: seq<Item>, line: string, ys: seq<Item>, nonce: string): seq<Section>
    requires ItemsOk(t, xs, nonce) && ItemsOk(t, ys, nonce)
  {
    Sections(t, xs, nonce) + ([Section(line, false)] + Sections(t, ys, nonce))
  }

  lemma AroundIsTakenApart(t: Terms, xs: seq<Item>, line: string, ys: seq<Item>, nonce: string)
    requires Sound(t) && ItemsOk(t, xs, nonce) && ItemsOk(t, ys, nonce) && RootedOnly(line)
    ensures var b, ss := BoundaryOf(nonce), Around(t, xs, line, ys, nonce);
            && Distinct(b) && Unbalanced(Message(ss), b) == []
            && Residual(Message(ss), Spans(Message(ss), b), 0) == LeftOver(ss)
  {
    var b := BoundaryOf(nonce);
    BoundariesAreDistinct(nonce);
    SectionsAreLegible(t, xs, nonce);
    SectionsAreLegible(t, ys, nonce);
    RootedHasNoTag(line, nonce);
    PlainTextIsLegible(line, b);
    StrippingRecoversTheBlocks(Around(t, xs, line, ys, nonce), b);
  }

  lemma BreaksAround(xs: seq<Section>, ys: seq<Section>)
    ensures Front(xs) == "" || exists x :: Front(xs) == x + "\n"
    ensures Back(ys) == "" || exists y :: Back(ys) == "\n" + y
  {
    if xs != [] { assert Front(xs) == (LeftOver(xs) + "\n") + "\n"; }
    if ys != [] { assert Back(ys) == "\n" + ("\n" + LeftOver(ys)); }
  }

  lemma FreeLineIsReported(xs: seq<Section>, line: string, ys: seq<Section>, order: seq<string>, before: seq<string>,
                           w: string, after: seq<string>, enums: set<string>) returns (v: Violation)
    requires NoEmpty(order) && NoBreaks(order)
    requires '\n' !in line && forall i :: 0 <= i < |order| ==> !Contains(line, order[i])
    requires Words(line, "") == before + ([w] + after) && AllPass(before, enums) && FreeWord(Trim(w), enums)
    ensures v in Reported(Front(xs) + (line + Back(ys)), order, 1, enums) && v.FreeText?
    ensures v.token == (if |Trim(w)| <= 40 then Trim(w) else Trim(w)[..40])
    ensures v.line == 1 + Newlines(Front(xs)) && v.count >= 1
  {
    var no := 1 + Newlines(Front(xs));
    FreeWordIsNamed(line, before, w, after, no, enums);
    v := LineViolation(line, no, enums).value;
    LineIsJudged(line, order, no, enums);
    RemoveFindsNothing(line, order);
    BreaksAround(xs, ys);
    ReportedAround(Front(xs), line, Back(ys), order, enums, v);
  }

  /** A line of text outside every block, with no constant in it, whose words pass up to one that is free text
      between its edge characters: whatever builder calls come before and after it, the linter reports that text
      under that line's number. */
  lemma FreeTextIsReported(t: Terms, xs: seq<Item>, line: string, ys: seq<Item>, nonce: string, order: seq<string>,
                           before: seq<string>, w: string, after: seq<string>) returns (at: nat, v: Violation)
    requires Sound(t) && ItemsOk(t, xs, nonce) && ItemsOk(t, ys, nonce)
    requires LongestFirst(order, Constants(t)) && NoEmpty(order)
    requires '\n' !in line && RootedOnly(line) && forall i :: 0 <= i < |order| ==> !Contains(line, order[i])
    requires Words(line, "") == before + ([w] + after) && AllPass(before, t.enums) && FreeWord(Trim(w), t.enums)
    ensures var text, core := Message(Around(t, xs, line, ys, nonce)), Trim(w);
            && At(text, at, line) && v in Violations(text, nonce, order, t.enums)
            && v.FreeText? && v.token == (if |core| <= 40 then core else core[..40])
            && v.line == LineAt(text, at) && v.count >= 1
  {
    var a, c := Sections(t, xs, nonce), Sections(t, ys, nonce);
    AroundIsTakenApart(t, xs, line, ys, nonce);
    at := LineNumberOf(a, line, c);
    OrderHasNoBreaks(t, order);
    v := FreeLineIsReported(a, line, c, order, before, w, after, t.enums);
    assert v in Reported(LeftOver(Around(t, xs, line, ys, nonce)), order, 1, t.enums);
  }

  lemma LineNumberOf(xs: seq<Section>, line: string, ys: seq<Section>) returns (at: nat)
    ensures var ss := xs + ([Section(line, false)] + ys);
            && LeftOver(ss) == Front(xs) + (line + Back(ys))
            && At(Message(ss), at, line) && LineAt(Message(ss), at) == 1 + Newlines(Front(xs))
  {
    var s := Section(line, false);
    var ss := xs + ([s] + ys);
    StandsWhereItStarts(xs, s, ys);
    SectionsKeepTheirLines(ss, |xs|);
    LeftOverAround(xs, s, ys);
    LeftStartAround(xs, [s] + ys);
    assert (Front(xs) + (line + Back(ys)))[..|Front(xs)|] == Front(xs);
    at := StartOf(ss, |xs|);
  }

  // ---- no boundary tag escapes --------------------------------------------------------------------------

  /** A boundary tag stands at `p`: an opening one up to its bracket, or a closing one. */
  ghost predicate TagStands(text: string, b: Boundary, p: nat) {
    At(text, p, b.close) || (At(text, p, b.open) && exists q :: p + |b.open| <= q < |text| && text[q] == '>')
  }

  lemma {:induction false} SomeGt(text: string, i: nat, q: nat)
    requires i <= q < |text| && text[q] == '>'
    ensures FirstGt(text, i).Some?
    decreases q - i
  {
    if text[i] != '>' { SomeGt(text, i + 1, q); }
  }

  lemma TagIsSeen(text: string, b: Boundary, p: nat)
    requires Distinct(b) && TagStands(text, b, p)
    ensures p < |text| && TagAt(text, b, p).Some?
  {
    if At(text, p, b.open) {
      SecondCharacter(text, p, b.open);
      SecondCharacter(text, p, b.close);
      var q :| p + |b.open| <= q < |text| && text[q] == '>';
      SomeGt(text, p + |b.open|, q);
    }
  }

  /** Every boundary tag is one of the tags read, or inside one. */
  lemma {:induction false} EveryTagIsRead(text: string, b: Boundary, i: nat, p: nat) returns (t: Tag)
    requires Distinct(b) && i <= p && TagStands(text, b, p)
    ensures t in Tags(text, b, i) && t.start <= p < t.end
    decreases |text| - i
  {
    TagIsSeen(text, b, p);
    var here := TagAt(text, b, i);
    if here.Some? && p < here.value.end {
      t := here.value;
    } else {
      t := EveryTagIsRead(text, b, if here.Some? then here.value.end else i + 1, p);
    }
  }

  ghost predicate InSpan(spans: seq<(nat, nat)>, start: nat, end: nat) {
    exists s :: s in spans && s.0 <= start && end <= s.1
  }

  lemma InSpanLater(spans: seq<(nat, nat)>, more: (nat, nat), start: nat, end: nat)
    requires InSpan(spans, start, end)
    ensures InSpan([more] + spans, start, end)
  {
    var s :| s in spans && s.0 <= start && end <= s.1;
    assert s in [more] + spans;
  }

  /** A tag read is in a span or has no partner. */
  lemma {:induction false} PairCovers(tags: seq<Tag>, pending: Option<nat>, from: nat, size: nat, t: Tag)
    requires TagsOk(tags, from, size) && (pending.Some? ==> pending.value <= from) && t in tags
    ensures var p := Pair(tags, pending); t.start in p.unbalanced || InSpan(p.spans, t.start, t.end)
    decreases |tags|
  {
    var first, rest := tags[0], tags[1..];
    if t == first {
      if first.open {
        PendingIsCovered(rest, first.start, first.end, size);
      } else if pending.Some? {
        assert (pending.value, first.end) in Pair(tags, pending).spans;
      }
    } else {
      assert t in rest;
      PairCovers(rest, if first.open then Some(first.start) else None, first.end, size, t);
      if !first.open && pending.Some? && InSpan(Pair(rest, None).spans, t.start, t.end) {
        InSpanLater(Pair(rest, None).spans, (pending.value, first.end), t.start, t.end);
      }
    }
  }

  /** An opening tag waiting for its partner gets it, or has none. */
  lemma PendingIsCovered(tags: seq<Tag>, start: nat, end: nat, size: nat)
    requires TagsOk(tags, end, size) && start <= end
    ensures var p := Pair(tags, Some(start)); start in p.unbalanced || InSpan(p.spans, start, end)
  {
    if tags != [] && !tags[0].open {
      assert (start, tags[0].end) in Pair(tags, Some(start)).spans;
    }
  }

  /** In a message with no unbalanced tag, every boundary tag lies in a block that is cut out. */
  lemma NoTagEscapes(text: string, b: Boundary, p: nat)
    requires Distinct(b) && TagStands(text, b, p) && Unbalanced(text, b) == []
    ensures InSpan(Spans(text, b), p, p + 1)
  {
    var t := EveryTagIsRead(text, b, 0, p);
    TagsInOrder(text, b, 0, 0);
    PairCovers(Tags(text, b, 0), None, 0, |text|, t);
    var s :| s in Spans(text, b) && s.0 <= t.start && t.end <= s.1;
  }

  /** What is cut out begins with the opening tag and ends with the closing one. */
  ghost predicate IsBlock(text: string, b: Boundary, s: (nat, nat)) {
    At(text, s.0, b.open) && |b.close| <= s.1 <= |text| && text[s.1 - |b.close|..s.1] == b.close
  }

  lemma {:induction false} TagsStandThere(text: string, b: Boundary, i: nat)
    requires Distinct(b)
    ensures forall t <- Tags(text, b, i) ::
              if t.open then At(text, t.start, b.open) else t.end == t.start + |b.close| && At(text, t.start, b.close)
    decreases |text| - i
  {
    if i < |text| {
      var t := TagAt(text, b, i);
      TagsStandThere(text, b, if t.Some? then t.value.end else i + 1);
    }
  }

  lemma {:induction false} PairsAreTags(text: string, b: Boundary, tags: seq<Tag>, pending: Option<nat>)
    requires forall t <- tags ::
               if t.open then At(text, t.start, b.open) else t.end == t.start + |b.close| && At(text, t.start, b.close)
    requires pending.Some? ==> At(text, pending.value, b.open)
    ensures forall s <- Pair(tags, pending).spans :: IsBlock(text, b, s)
    decreases |tags|
  {
    if tags != [] {
      assert tags[0] in tags;
      assert forall t <- tags[1..] :: t in tags;
      PairsAreTags(text, b, tags[1..], if tags[0].open then Some(tags[0].start) else None);
      if !tags[0].open && pending.None? { PairsAreTags(text, b, tags[1..], None); }
    }
  }

  lemma CutsAreBlocks(text: string, b: Boundary)
    requires Distinct(b)
    ensures forall s <- Spans(text, b) :: IsBlock(text, b, s)
  {
    TagsStandThere(text, b, 0);
    PairsAreTags(text, b, Tags(text, b, 0), None);
  }
}
