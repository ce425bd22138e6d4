/** The linter's own reading of a user message: which spans are blocks, and what is left. */
module Linter {
  import opened Common
  import opened Text
  import opened Wrap

  // ---- tags, as the combined pattern matches them ----------------------------------------------

  /** The two tags of one build: the opening one up to its nonce, and the closing one. */
  datatype Boundary = Boundary(open: string, close: string)

  function BoundaryOf(nonce: string): Boundary {
    Boundary(OpenPrefix(nonce), CloseTag(nonce))
  }

  /** The two tags differ in the character after their bracket. */
  ghost predicate Distinct(b: Boundary) {
    && |b.open| >= 2 && |b.close| >= 2
    && b.open[0] == '<' && b.close[0] == '<' && b.open[1] != b.close[1]
  }

  lemma BoundariesAreDistinct(nonce: string)
    ensures Distinct(BoundaryOf(nonce))
  {
  }

  /** One match: an opening or a closing tag at `[start, end)`. */
  datatype Tag = Tag(open: bool, start: nat, end: nat)

  /** The first `>` at or after `i`. */
  function FirstGt(text: string, i: nat): Option<nat>
    decreases |text| - i
  {
    if i >= |text| then None else if text[i] == '>' then Some(i) else FirstGt(text, i + 1)
  }

  lemma {:induction false} FirstGtBounds(text: string, i: nat)
    ensures FirstGt(text, i).Some? ==> i <= FirstGt(text, i).value < |text|
    decreases |text| - i
  {
    if i < |text| && text[i] != '>' { FirstGtBounds(text, i + 1); }
  }

  function TagAt(text: string, b: Boundary, i: nat): (t: Option<Tag>)
    requires Distinct(b)
    ensures t.Some? ==> t.value.start == i && i < t.value.end <= |text|
  {
    FirstGtBounds(text, i + |b.open|);
    if At(text, i, b.open) then
      var gt := FirstGt(text, i + |b.open|);
      if gt.Some? then Some(Tag(true, i, gt.value + 1)) else None
    else if At(text, i, b.close) then Some(Tag(false, i, i + |b.close|))
    else None
  }

  /** Every match from position `i` on, left to right, none overlapping. */
  function Tags(text: string, b: Boundary, i: nat): seq<Tag>
    requires Distinct(b)
    decreases |text| - i
  {
    if i >= |text| then []
    else
      var t := TagAt(text, b, i);
      if t.Some? then [t.value] + Tags(text, b, t.value.end) else Tags(text, b, i + 1)
  }

  // ---- pairing ------------------------------------------------------------------------------------

  /** Spans of paired tags, and the positions of tags with no partner, in the order found. */
  datatype Pairs = Pairs(spans: seq<(nat, nat)>, unbalanced: seq<nat>)

  function Pair(tags: seq<Tag>, pending: Option<nat>): Pairs {
    if tags == [] then Pairs([], if pending.Some? then [pending.value] else [])
    else
      var t := tags[0];
      if t.open then
        var rest := Pair(tags[1..], Some(t.start));
        rest.(unbalanced := (if pending.Some? then [pending.value] else []) + rest.unbalanced)
      else if pending.None? then
        var rest := Pair(tags[1..], None);
        rest.(unbalanced := [t.start] + rest.unbalanced)
      else
        var rest := Pair(tags[1..], None);
        rest.(spans := [(pending.value, t.end)] + rest.spans)
  }

  ghost predicate SpansOk(spans: seq<(nat, nat)>, from: nat, size: nat) {
    if spans == [] then from <= size
    else from <= spans[0].0 <= spans[0].1 <= size && SpansOk(spans[1..], spans[0].1, size)
  }

  /** The text with every span replaced by its newlines. */
  function Residual(text: string, spans: seq<(nat, nat)>, from: nat): string
    requires SpansOk(spans, from, |text|)
  {
    if spans == [] then text[from..]
    else
      text[from..spans[0].0] + Repeat('\n', Newlines(text[spans[0].0..spans[0].1]))
      + Residual(text, spans[1..], spans[0].1)
  }

  ghost predicate TagsOk(tags: seq<Tag>, from: nat, size: nat) {
    if tags == [] then from <= size
    else from <= tags[0].start < tags[0].end <= size && TagsOk(tags[1..], tags[0].end, size)
  }

  lemma {:induction false} TagsInOrder(text: string, b: Boundary, i: nat, from: nat)
    requires Distinct(b) && from <= i && from <= |text|
    ensures TagsOk(Tags(text, b, i), from, |text|)
    decreases |text| - i
  {
    if i < |text| {
      var t := TagAt(text, b, i);
      if t.Some? { TagsInOrder(text, b, t.value.end, t.value.end); } else { TagsInOrder(text, b, i + 1, from); }
    }
  }

  lemma {:induction false} PairsInOrder(tags: seq<Tag>, pending: Option<nat>, last: nat, from: nat, size: nat)
    requires TagsOk(tags, from, size) && last <= from
    requires pending.Some? ==> last <= pending.value <= from
    ensures SpansOk(Pair(tags, pending).spans, last, size)
  {
    if tags != [] {
      var t := tags[0];
      if t.open {
        PairsInOrder(tags[1..], Some(t.start), last, t.end, size);
      } else if pending.None? {
        PairsInOrder(tags[1..], None, last, t.end, size);
      } else {
        PairsInOrder(tags[1..], None, t.end, t.end, size);
      }
    } else {
      TagsOkSize(tags, from, size);
    }
  }

  lemma TagsOkSize(tags: seq<Tag>, from: nat, size: nat)
    requires TagsOk(tags, from, size) && tags == []
    ensures from <= size
  {
  }

  function LineAt(text: string, pos: nat): nat
    requires pos <= |text|
  {
    Newlines(text[..pos]) + 1
  }

  // ---- the two loops ---------------------------------------------------------------------------------

  /** The loop's variables so far, put before what the rest of the tags will add. */
  ghost predicate Before(spans: seq<(nat, nat)>, unbalanced: seq<nat>, rest: Pairs, all: Pairs) {
    spans + rest.spans == all.spans && unbalanced + rest.unbalanced == all.unbalanced
  }

  lemma BeforeMore(spans: seq<(nat, nat)>, unbalanced: seq<nat>, more: Pairs, rest: Pairs, all: Pairs)
    requires Before(spans, unbalanced, Pairs(more.spans + rest.spans, more.unbalanced + rest.unbalanced), all)
    ensures Before(spans + more.spans, unbalanced + more.unbalanced, rest, all)
  {
    Associates(spans, more.spans, rest.spans);
    Associates(unbalanced, more.unbalanced, rest.unbalanced);
  }

  /** What one tag adds, and the pending opening tag after it. */
  function PairOne(t: Tag, pending: Option<nat>): (Pairs, Option<nat>) {
    if t.open then (Pairs([], if pending.Some? then [pending.value] else []), Some(t.start))
    else if pending.None? then (Pairs([], [t.start]), None)
    else (Pairs([(pending.value, t.end)], []), None)
  }

  lemma PairStep(tags: seq<Tag>, pending: Option<nat>)
    requires tags != []
    ensures var (more, after) := PairOne(tags[0], pending);
            var rest := Pair(tags[1..], after);
            Pair(tags, pending) == Pairs(more.spans + rest.spans, more.unbalanced + rest.unbalanced)
  {
  }

  /** Pair the tags in document order: an opening tag while one is pending, a closing tag while none
      is, and a tag still pending at the end are unbalanced. */
  method PairTags(tags: seq<Tag>) returns (spans: seq<(nat, nat)>, unbalanced: seq<nat>)
    ensures Pairs(spans, unbalanced) == Pair(tags, None)
  {
    spans, unbalanced := [], [];
    var pending: Option<nat> := None;
    for i := 0 to |tags|
      invariant Before(spans, unbalanced, Pair(tags[i..], pending), Pair(tags, None))
    {
      var t := tags[i];
      assert tags[i..][1..] == tags[i + 1..];
      PairStep(tags[i..], pending);
      ghost var (more, after) := PairOne(t, pending);
      BeforeMore(spans, unbalanced, more, Pair(tags[i + 1..], after), Pair(tags, None));
      if t.open {
        if pending.Some? {
          unbalanced := unbalanced + [pending.value];
        }
        pending := Some(t.start);
      } else if pending.None? {
        unbalanced := unbalanced + [t.start];
      } else {
        spans := spans + [(pending.value, t.end)];
        pending := None;
      }
    }
    if pending.Some? {
      unbalanced := unbalanced + [pending.value];
    }
  }

  /** Cut the spans out, keeping the line count. */
  method CutSpans(text: string, spans: seq<(nat, nat)>) returns (residual: string)
    requires SpansOk(spans, 0, |text|)
    ensures residual == Residual(text, spans, 0)
  {
    residual := "";
    var last := 0;
    for i := 0 to |spans|
      invariant last <= |text| && SpansOk(spans[i..], last, |text|)
      invariant residual + Residual(text, spans[i..], last) == Residual(text, spans, 0)
    {
      var (start, end) := spans[i];
      assert spans[i..][1..] == spans[i + 1..];
      residual := residual + text[last..start] + Repeat('\n', Newlines(text[start..end]));
      last := end;
    }
    residual := residual + text[last..];
  }

  function Spans(text: string, b: Boundary): (spans: seq<(nat, nat)>)
    requires Distinct(b)
    ensures SpansOk(spans, 0, |text|)
  {
    TagsInOrder(text, b, 0, 0);
    PairsInOrder(Tags(text, b, 0), None, 0, 0, |text|);
    Pair(Tags(text, b, 0), None).spans
  }

  function Unbalanced(text: string, b: Boundary): seq<nat>
    requires Distinct(b)
  {
    Pair(Tags(text, b, 0), None).unbalanced
  }

  method StripBlocks(text: string, nonce: string) returns (residual: string, unbalanced: seq<nat>)
    ensures Distinct(BoundaryOf(nonce))
    ensures residual == Residual(text, Spans(text, BoundaryOf(nonce)), 0)
    ensures unbalanced == Unbalanced(text, BoundaryOf(nonce))
  {
    BoundariesAreDistinct(nonce);
    var b := BoundaryOf(nonce);
    var spans;
    spans, unbalanced := PairTags(Tags(text, b, 0));
    assert spans == Spans(text, b);
    residual := CutSpans(text, spans);
  }

  // ---- lines -------------------------------------------------------------------------------------------

  lemma CutInThree(text: string, from: nat, start: nat, end: nat)
    requires from <= start <= end <= |text|
    ensures text[from..] == text[from..start] + text[start..end] + text[end..]
  {
  }

  lemma NewlinesOfThree(a: string, b: string, c: string)
    ensures Newlines(a + b + c) == Newlines(a) + Newlines(b) + Newlines(c)
  {
    NewlinesConcat(a, b);
    NewlinesConcat(a + b, c);
  }

  /** Stripping keeps the number of newlines, whatever the text. */
  lemma {:induction false} ResidualKeepsLines(text: string, spans: seq<(nat, nat)>, from: nat)
    requires SpansOk(spans, from, |text|)
    ensures Newlines(Residual(text, spans, from)) == Newlines(text[from..])
  {
    if spans != [] {
      var (start, end) := spans[0];
      SpansEnd(spans[1..], end, |text|);
      var front, body := text[from..start], text[start..end];
      CutInThree(text, from, start, end);
      var rest := Residual(text, spans[1..], end);
      ResidualKeepsLines(text, spans[1..], end);
      NewlinesRepeat(Newlines(body));
      NewlinesOfThree(front, Repeat('\n', Newlines(body)), rest);
      NewlinesOfThree(front, body, text[end..]);
    }
  }

  lemma {:induction false} SpansEnd(spans: seq<(nat, nat)>, from: nat, size: nat)
    requires SpansOk(spans, from, size)
    ensures from <= size
  {
    if spans != [] { SpansEnd(spans[1..], spans[0].1, size); }
  }
}
