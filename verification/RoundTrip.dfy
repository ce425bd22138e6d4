/** Printing and reading back: the linter recovers the builder's blocks exactly. */
module RoundTrip {
  import opened Common
  import opened Text
  import opened Linter

  /** A section of a user message as it stands in the text: template text or a rendered block. */
  datatype Section = Section(shown: string, block: bool)

  /** The message: sections with a blank line between them. */
  function Message(ss: seq<Section>): string {
    if ss == [] then ""
    else if |ss| == 1 then ss[0].shown
    else ss[0].shown + "\n\n" + Message(ss[1..])
  }

  /** What stripping should leave of a section. */
  function Left(s: Section): string {
    if s.block then Repeat('\n', Newlines(s.shown)) else s.shown
  }

  function LeftOver(ss: seq<Section>): string {
    if ss == [] then ""
    else if |ss| == 1 then Left(ss[0])
    else Left(ss[0]) + "\n\n" + LeftOver(ss[1..])
  }

  // ---- scanning over text without tags ---------------------------------------------------------

  lemma OpenBracketFirst(text: string, b: Boundary, i: nat)
    requires Distinct(b)
    ensures At(text, i, b.open) || At(text, i, b.close) ==> i < |text| && text[i] == '<'
  {
    if At(text, i, b.open) { AtChars(text, i, b.open); }
    if At(text, i, b.close) { AtChars(text, i, b.close); }
  }

  lemma {:induction false} SkipPlain(text: string, b: Boundary, i: nat, j: nat)
    requires Distinct(b) && i <= j <= |text|
    requires forall k: nat :: i <= k < j ==> !At(text, k, b.open) && !At(text, k, b.close)
    ensures Tags(text, b, i) == Tags(text, b, j)
    decreases j - i
  {
    if i < j { SkipPlain(text, b, i + 1, j); }
  }

  lemma SkipFree(text: string, b: Boundary, i: nat, gap: string)
    requires Distinct(b) && At(text, i, gap) && Free(gap, {'<'})
    ensures Tags(text, b, i) == Tags(text, b, i + |gap|)
  {
    AtChars(text, i, gap);
    forall k: nat | i <= k < i + |gap| ensures !At(text, k, b.open) && !At(text, k, b.close) {
      OpenBracketFirst(text, b, k);
    }
    SkipPlain(text, b, i, i + |gap|);
  }

  /** Every opening bracket is followed by a character that begins no tag. */
  ghost predicate TagFree(shown: string, b: Boundary)
    requires Distinct(b)
  {
    forall k :: 0 <= k < |shown| && shown[k] == '<' ==>
                  k + 1 < |shown| && shown[k + 1] != b.open[1] && shown[k + 1] != b.close[1]
  }

  lemma SkipTagFree(text: string, b: Boundary, i: nat, gap: string)
    requires Distinct(b) && At(text, i, gap) && TagFree(gap, b)
    ensures Tags(text, b, i) == Tags(text, b, i + |gap|)
  {
    AtChars(text, i, gap);
    forall k: nat | i <= k < i + |gap| ensures !At(text, k, b.open) && !At(text, k, b.close) {
      OpenBracketFirst(text, b, k);
      SecondCharacter(text, k, b.open);
      SecondCharacter(text, k, b.close);
      if gap[k - i] == '<' { assert text[k + 1] == gap[k - i + 1]; }
    }
    SkipPlain(text, b, i, i + |gap|);
  }

  lemma {:induction false} FirstGtAt(text: string, i: nat, j: nat)
    requires i <= j < |text| && text[j] == '>'
    requires forall k :: i <= k < j ==> text[k] != '>'
    ensures FirstGt(text, i) == Some(j)
    decreases j - i
  {
    if i < j { FirstGtAt(text, i + 1, j); }
  }

  lemma AtParts(text: string, i: nat, a: string, b: string)
    requires At(text, i, a + b)
    ensures At(text, i, a) && At(text, i + |a|, b)
  {
    assert text[i..i + |a|] == (a + b)[..|a|];
    assert text[i + |a|..i + |a| + |b|] == (a + b)[|a|..];
  }

  // ---- one block ----------------------------------------------------------------------------------

  lemma OpenTagRead(text: string, b: Boundary, i: nat, rest: string)
    requires Distinct(b) && Free(rest, {'>'})
    requires At(text, i, b.open) && At(text, i + |b.open|, rest) && At(text, i + |b.open| + |rest|, ">")
    ensures var m := i + |b.open| + |rest| + 1;
            Tags(text, b, i) == [Tag(true, i, m)] + Tags(text, b, m)
  {
    var m := i + |b.open|;
    AtChars(text, m, rest);
    AtChars(text, m + |rest|, ">");
    FirstGtAt(text, m, m + |rest|);
  }

  lemma CloseTagRead(text: string, b: Boundary, i: nat)
    requires Distinct(b) && At(text, i, b.close)
    ensures Tags(text, b, i) == [Tag(false, i, i + |b.close|)] + Tags(text, b, i + |b.close|)
  {
    AtChars(text, i, b.close);
    SecondCharacter(text, i, b.open);
  }

  lemma SecondCharacter(text: string, i: nat, pat: string)
    requires |pat| >= 2
    ensures At(text, i, pat) ==> i + 1 < |text| && text[i + 1] == pat[1]
  {
    if At(text, i, pat) { AtChars(text, i, pat); }
  }

  function Printed(b: Boundary, rest: string, body: string): string {
    b.open + (rest + (">" + (body + b.close)))
  }

  lemma PrintedParts(text: string, b: Boundary, i: nat, rest: string, body: string)
    requires At(text, i, Printed(b, rest, body))
    ensures At(text, i, b.open) && At(text, i + |b.open|, rest) && At(text, i + |b.open| + |rest|, ">")
    ensures var m := i + |b.open| + |rest| + 1; At(text, m, body) && At(text, m + |body|, b.close)
  {
    var c := body + b.close;
    var d := ">" + c;
    AtParts(text, i, b.open, rest + d);
    AtParts(text, i + |b.open|, rest, d);
    AtParts(text, i + |b.open| + |rest|, ">", c);
    AtParts(text, i + |b.open| + |rest| + 1, body, b.close);
  }

  /** An opening tag, bracket-free text and a closing tag are read as those two tags. */
  lemma TwoTags(text: string, b: Boundary, i: nat, m: nat, rest: string, body: string)
    requires Distinct(b) && Free(rest, {'>'}) && Free(body, {'<'})
    requires At(text, i, b.open) && At(text, i + |b.open|, rest) && At(text, i + |b.open| + |rest|, ">")
    requires m == i + |b.open| + |rest| + 1 && At(text, m, body) && At(text, m + |body|, b.close)
    ensures var n := m + |body| + |b.close|;
            Tags(text, b, i) == [Tag(true, i, m)] + ([Tag(false, m + |body|, n)] + Tags(text, b, n))
  {
    OpenTagThenBody(text, b, i, m, rest, body);
    CloseTagRead(text, b, m + |body|);
  }

  lemma OpenTagThenBody(text: string, b: Boundary, i: nat, m: nat, rest: string, body: string)
    requires Distinct(b) && Free(rest, {'>'}) && Free(body, {'<'})
    requires At(text, i, b.open) && At(text, i + |b.open|, rest) && At(text, i + |b.open| + |rest|, ">")
    requires m == i + |b.open| + |rest| + 1 && At(text, m, body)
    ensures Tags(text, b, i) == [Tag(true, i, m)] + Tags(text, b, m + |body|)
  {
    OpenTagRead(text, b, i, rest);
    SkipFree(text, b, m, body);
  }

  lemma PairOneBlock(open: Tag, close: Tag, rest: seq<Tag>)
    requires open.open && !close.open
    ensures Pair([open] + ([close] + rest), None) ==
            Pair(rest, None).(spans := [(open.start, close.end)] + Pair(rest, None).spans)
  {
    assert ([open] + ([close] + rest))[1..] == [close] + rest;
    assert ([close] + rest)[1..] == rest;
  }

  // ---- sections the linter reads as meant ---------------------------------------------------------

  /** Standing at `i`, the section's tags pair up to one span if it is a block, to none if not. */
  ghost predicate ReadAsMeant(s: Section, text: string, b: Boundary, i: nat)
    requires Distinct(b)
  {
    var n := i + |s.shown|;
    var rest := Pair(Tags(text, b, n), None);
    Pair(Tags(text, b, i), None) == rest.(spans := if s.block then [(i, n)] + rest.spans else rest.spans)
  }

  ghost predicate Legible(s: Section, b: Boundary)
    requires Distinct(b)
  {
    forall text, i: nat {:trigger ReadAsMeant(s, text, b, i)} :: At(text, i, s.shown) ==> ReadAsMeant(s, text, b, i)
  }

  lemma PlainTextIsLegible(shown: string, b: Boundary)
    requires Distinct(b) && TagFree(shown, b)
    ensures Legible(Section(shown, false), b)
  {
    forall text, i: nat | At(text, i, shown) ensures ReadAsMeant(Section(shown, false), text, b, i) {
      SkipTagFree(text, b, i, shown);
    }
  }

  lemma BlockIsReadAsMeant(text: string, b: Boundary, i: nat, rest: string, body: string)
    requires Distinct(b) && Free(rest, {'>'}) && Free(body, {'<'})
    requires At(text, i, Printed(b, rest, body))
    ensures ReadAsMeant(Section(Printed(b, rest, body), true), text, b, i)
  {
    var m := i + |b.open| + |rest| + 1;
    var n := m + |body| + |b.close|;
    PrintedParts(text, b, i, rest, body);
    TwoTags(text, b, i, m, rest, body);
    PairOneBlock(Tag(true, i, m), Tag(false, m + |body|, n), Tags(text, b, n));
  }

  lemma BlockIsLegible(b: Boundary, rest: string, body: string)
    requires Distinct(b) && Free(rest, {'>'}) && Free(body, {'<'})
    ensures Legible(Section(Printed(b, rest, body), true), b)
  {
    var s := Section(Printed(b, rest, body), true);
    forall text, i: nat | At(text, i, s.shown) ensures ReadAsMeant(s, text, b, i) {
      BlockIsReadAsMeant(text, b, i, rest, body);
    }
  }

  // ---- a whole message -------------------------------------------------------------------------------

  /** Where the blocks of `ss` lie when their message starts at `i`. */
  function BlockSpans(ss: seq<Section>, i: nat): seq<(nat, nat)> {
    if ss == [] then []
    else
      var rest := BlockSpans(ss[1..], i + |ss[0].shown| + 2);
      if ss[0].block then [(i, i + |ss[0].shown|)] + rest else rest
  }

  ghost predicate Stands(text: string, ss: seq<Section>, i: nat) {
    i <= |text| && text[i..] == Message(ss)
  }

  lemma MessageStep(text: string, ss: seq<Section>, i: nat)
    requires ss != [] && Stands(text, ss, i)
    ensures At(text, i, ss[0].shown)
    ensures var n := i + |ss[0].shown|;
            && (|ss| == 1 ==> n == |text|)
            && (|ss| > 1 ==> At(text, n, "\n\n") && Stands(text, ss[1..], n + 2))
  {
    var first := ss[0].shown;
    var n := i + |first|;
    assert text[i..n] == text[i..][..|first|];
    if |ss| > 1 {
      assert text[n..n + 2] == text[i..][|first|..|first| + 2];
      assert text[n + 2..] == text[i..][|first| + 2..];
    }
  }

  lemma SkipBlankLine(text: string, b: Boundary, n: nat)
    requires Distinct(b) && At(text, n, "\n\n")
    ensures Tags(text, b, n) == Tags(text, b, n + 2)
  {
    SkipFree(text, b, n, "\n\n");
  }

  /** The first section's span, if it is a block, goes before those that follow. */
  lemma OneSectionMore(ss: seq<Section>, i: nat, n: nat, here: Pairs, after: Pairs)
    requires ss != [] && n == i + |ss[0].shown| && after == Pairs(BlockSpans(ss[1..], n + 2), [])
    requires here == after.(spans := if ss[0].block then [(i, n)] + after.spans else after.spans)
    ensures here == Pairs(BlockSpans(ss, i), [])
  {
  }

  lemma NothingFollows(text: string, b: Boundary, i: nat)
    requires Distinct(b)
    ensures Pair(Tags(text, b, |text|), None) == Pairs(BlockSpans([], i), [])
  {
  }

  /** The sections lie one after another from `i` to the end, each read as meant where it lies. */
  ghost predicate Laid(text: string, ss: seq<Section>, b: Boundary, i: nat)
    requires Distinct(b)
    decreases |ss|
  {
    && ss != [] && ReadAsMeant(ss[0], text, b, i)
    && var n := i + |ss[0].shown|;
       if |ss| == 1 then n == |text| else At(text, n, "\n\n") && Laid(text, ss[1..], b, n + 2)
  }

  lemma {:induction false} StandingIsLaid(text: string, ss: seq<Section>, b: Boundary, i: nat)
    requires Distinct(b) && Stands(text, ss, i) && ss != []
    requires forall k {:trigger ss[k]} :: 0 <= k < |ss| ==> Legible(ss[k], b)
    ensures Laid(text, ss, b, i)
    decreases |ss|
  {
    MessageStep(text, ss, i);
    LegibleHere(ss[0], text, b, i);
    if |ss| > 1 {
      forall k {:trigger ss[1..][k]} | 0 <= k < |ss| - 1 ensures Legible(ss[1..][k], b) {
        assert ss[1..][k] == ss[k + 1];
      }
      StandingIsLaid(text, ss[1..], b, i + |ss[0].shown| + 2);
    }
    LaidStep(text, ss, b, i);
  }

  lemma LaidStep(text: string, ss: seq<Section>, b: Boundary, i: nat)
    requires Distinct(b) && ss != [] && ReadAsMeant(ss[0], text, b, i)
    requires var n := i + |ss[0].shown|;
             if |ss| == 1 then n == |text| else At(text, n, "\n\n") && Laid(text, ss[1..], b, n + 2)
    ensures Laid(text, ss, b, i)
  {
  }

  /** From a section on, the linter pairs exactly the blocks that follow, and leaves no tag over. */
  lemma {:induction false} PairsAreBlocks(text: string, ss: seq<Section>, b: Boundary, i: nat)
    requires Distinct(b) && Laid(text, ss, b, i)
    ensures Pair(Tags(text, b, i), None) == Pairs(BlockSpans(ss, i), [])
    decreases |ss|
  {
    var n := i + |ss[0].shown|;
    if |ss| > 1 {
      SkipBlankLine(text, b, n);
      PairsAreBlocks(text, ss[1..], b, n + 2);
    } else {
      NothingFollows(text, b, n + 2);
      assert ss[1..] == [];
    }
    OneSectionMore(ss, i, n, Pair(Tags(text, b, i), None), Pair(Tags(text, b, n), None));
  }

  lemma LegibleHere(s: Section, text: string, b: Boundary, i: nat)
    requires Distinct(b) && Legible(s, b) && At(text, i, s.shown)
    ensures ReadAsMeant(s, text, b, i)
  {
  }

  lemma ResidualFromEarlier(text: string, spans: seq<(nat, nat)>, earlier: nat, from: nat)
    requires SpansOk(spans, from, |text|) && earlier <= from
    ensures SpansOk(spans, earlier, |text|) && from <= |text|
    ensures Residual(text, spans, earlier) == text[earlier..from] + Residual(text, spans, from)
  {
    SpansEnd(spans, from, |text|);
    if spans == [] {
      assert text[earlier..] == text[earlier..from] + text[from..];
    } else {
      assert text[earlier..spans[0].0] == text[earlier..from] + text[from..spans[0].0];
    }
  }

  lemma ResidualOfSpan(text: string, i: nat, n: nat, rest: seq<(nat, nat)>)
    requires i <= n <= |text| && SpansOk(rest, n, |text|)
    ensures SpansOk([(i, n)] + rest, i, |text|)
    ensures Residual(text, [(i, n)] + rest, i) == Repeat('\n', Newlines(text[i..n])) + Residual(text, rest, n)
  {
    assert ([(i, n)] + rest)[1..] == rest;
    assert text[i..i] == "";
  }

  lemma ResidualStep(text: string, s: Section, i: nat, n: nat, rest: seq<(nat, nat)>)
    requires i <= n <= |text| && text[i..n] == s.shown && SpansOk(rest, n, |text|)
    ensures var spans := if s.block then [(i, n)] + rest else rest;
            SpansOk(spans, i, |text|) && Residual(text, spans, i) == Left(s) + Residual(text, rest, n)
  {
    ResidualOfSpan(text, i, n, rest);
    ResidualFromEarlier(text, rest, i, n);
  }

  lemma ResidualBeforeGap(text: string, n: nat, rest: seq<(nat, nat)>)
    requires At(text, n, "\n\n") && SpansOk(rest, n + 2, |text|)
    ensures SpansOk(rest, n, |text|)
    ensures Residual(text, rest, n) == "\n\n" + Residual(text, rest, n + 2)
  {
    ResidualFromEarlier(text, rest, n, n + 2);
  }

  lemma LeftOverStep(ss: seq<Section>, tail: string)
    requires |ss| > 1 && tail == "\n\n" + LeftOver(ss[1..])
    ensures LeftOver(ss) == Left(ss[0]) + tail
  {
    assert Left(ss[0]) + "\n\n" + LeftOver(ss[1..]) == Left(ss[0]) + ("\n\n" + LeftOver(ss[1..]));
  }

  lemma {:induction false} ResidualIsLeftOver(text: string, ss: seq<Section>, i: nat, spans: seq<(nat, nat)>)
    requires ss != [] && Stands(text, ss, i) && spans == BlockSpans(ss, i)
    ensures SpansOk(spans, i, |text|) && Residual(text, spans, i) == LeftOver(ss)
    decreases |ss|
  {
    MessageStep(text, ss, i);
    var n := i + |ss[0].shown|;
    var rest := BlockSpans(ss[1..], n + 2);
    if |ss| == 1 {
      ResidualStep(text, ss[0], i, n, rest);
    } else {
      ResidualIsLeftOver(text, ss[1..], n + 2, rest);
      ResidualBeforeGap(text, n, rest);
      LeftOverStep(ss, Residual(text, rest, n));
      ResidualStep(text, ss[0], i, n, rest);
    }
  }

  /** Print, then parse: for every sequence of legible sections the linter cuts out exactly the
      blocks, finds no tag without a partner, and leaves the rest as it was. */
  lemma StrippingRecoversTheBlocks(ss: seq<Section>, b: Boundary)
    requires Distinct(b)
    requires forall s :: s in ss ==> Legible(s, b)
    ensures var user := Message(ss);
            && Spans(user, b) == BlockSpans(ss, 0)
            && Unbalanced(user, b) == []
            && Residual(user, Spans(user, b), 0) == LeftOver(ss)
  {
    var user := Message(ss);
    assert user[0..] == user;
    if ss != [] {
      StandingIsLaid(user, ss, b, 0);
      PairsAreBlocks(user, ss, b, 0);
      ResidualIsLeftOver(user, ss, 0, BlockSpans(ss, 0));
    }
  }

  /** Where section `k` starts in the message, and in what is left of it. */
  function StartOf(ss: seq<Section>, k: nat): nat
    requires k < |ss|
  {
    if k == 0 then 0 else |ss[0].shown| + 2 + StartOf(ss[1..], k - 1)
  }

  function LeftStartOf(ss: seq<Section>, k: nat): nat
    requires k < |ss|
  {
    if k == 0 then 0 else |Left(ss[0])| + 2 + LeftStartOf(ss[1..], k - 1)
  }

  lemma LinesAdd(a: string, rest: string, x: nat)
    requires x <= |rest|
    ensures LineAt(a + rest, |a| + x) == Newlines(a) + LineAt(rest, x)
  {
    assert (a + rest)[..|a| + x] == a + rest[..x];
    NewlinesConcat(a, rest[..x]);
  }

  lemma SameNewlines(s: Section)
    ensures Newlines(s.shown + "\n\n") == Newlines(Left(s) + "\n\n")
  {
    NewlinesRepeat(Newlines(s.shown));
    NewlinesConcat(s.shown, "\n\n");
    NewlinesConcat(Left(s), "\n\n");
  }

  /** Every section starts on the line it started on, so the linter's line numbers name the lines of
      the message itself. */
  lemma {:induction false} SectionsKeepTheirLines(ss: seq<Section>, k: nat)
    requires k < |ss|
    ensures StartOf(ss, k) <= |Message(ss)| && LeftStartOf(ss, k) <= |LeftOver(ss)|
    ensures LineAt(Message(ss), StartOf(ss, k)) == LineAt(LeftOver(ss), LeftStartOf(ss, k))
  {
    if k > 0 {
      SectionsKeepTheirLines(ss[1..], k - 1);
      SameNewlines(ss[0]);
      LinesAdd(ss[0].shown + "\n\n", Message(ss[1..]), StartOf(ss[1..], k - 1));
      LinesAdd(Left(ss[0]) + "\n\n", LeftOver(ss[1..]), LeftStartOf(ss[1..], k - 1));
    }
  }
}
