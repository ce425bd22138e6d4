/** What the builder can put in a user message, and what the linter makes of it. */
module Prompt {
  import opened Common
  import opened Text
  import opened Wrap
  import opened Linter
  import opened RoundTrip
  import opened Values
  import opened Vocabulary
  import opened Lint
  import opened CleanText

  /** `fact()`: a label and a value. Any other argument than a closed-set value is a `TypeError`. */
  function Fact(t: Terms, name: string, value: Option<Value>): Option<string>
    requires value.Some? ==> ValueOk(value.value, t.enums)
  {
    if name !in t.facts || value.None? then None else Some(name + ": " + Show(value.value))
  }

  /** A part of a line: a constant, or a string only `fact()` makes. */
  datatype Part = Constant(text: string) | Shown(name: string, value: Value)

  ghost predicate PartOk(t: Terms, p: Part) {
    match p
    case Constant(c) => c in Core(t)
    case Shown(name, v) => name in t.facts && ValueOk(v, t.enums)
  }

  function PartText(t: Terms, p: Part): string
    requires PartOk(t, p)
  {
    match p
    case Constant(c) => c
    case Shown(name, v) => Fact(t, name, Some(v)).value
  }

  function Join(sep: string, parts: seq<string>): string {
    if parts == [] then "" else if |parts| == 1 then parts[0] else parts[0] + sep + Join(sep, parts[1..])
  }

  function PartTexts(t: Terms, parts: seq<Part>): seq<string>
    requires forall i :: 0 <= i < |parts| ==> PartOk(t, parts[i])
  {
    if parts == [] then [] else [PartText(t, parts[0])] + PartTexts(t, parts[1..])
  }

  /** What one builder call appends, or what the repair round does: one line for each path and message. */
  datatype Item = Heading(constant: string) | Line(parts: seq<Part>) | Sentence(constants: seq<string>)
                | Quoted(block: Block, attrs: string)
                | Repair(heading: string, sentence: string, bullets: seq<(string, string)>)

  /** A path and a message of the linter's extra constants, with no tag in them. */
  ghost predicate BulletOk(t: Terms, b: (string, string)) {
    b.0 + ":" in t.extras && b.1 in t.extras && RootedOnly(b.0) && RootedOnly(b.1)
  }

  /** An opening bracket stands before an `r` only. */
  ghost predicate RootedOnly(s: string) {
    forall k :: 0 <= k < |s| && s[k] == '<' ==> k + 1 < |s| && s[k + 1] == 'r'
  }

  /** One line for each bullet, each on a new line. */
  function BulletText(bullets: seq<(string, string)>): string {
    if bullets == [] then ""
    else "\n" + ("- " + bullets[0].0 + ": " + bullets[0].1) + BulletText(bullets[1..])
  }

  ghost predicate ItemOk(t: Terms, x: Item, nonce: string) {
    match x
    case Heading(c) => c in Core(t)
    case Line(parts) => forall i :: 0 <= i < |parts| ==> PartOk(t, parts[i])
    case Sentence(cs) => forall i :: 0 <= i < |cs| ==> cs[i] in Core(t)
    case Repair(heading, sentence, bullets) =>
      heading in Core(t) && sentence in Core(t) && forall i :: 0 <= i < |bullets| ==> BulletOk(t, bullets[i])
    case Quoted(b, attrs) =>
      && b.source in SOURCES && Free(attrs, {'>'}) && Free(b.escaped, {'<', '>'})
      && b.rendered == Rendered(nonce, b.source, attrs, b.escaped)
  }

  function ItemText(t: Terms, x: Item, nonce: string): string
    requires ItemOk(t, x, nonce)
  {
    match x
    case Heading(c) => c
    case Line(parts) => Join(SEPARATOR, PartTexts(t, parts))
    case Sentence(cs) => Join(" ", cs)
    case Quoted(b, _) => b.rendered
    case Repair(heading, sentence, bullets) => heading + ("\n" + (sentence + BulletText(bullets)))
  }

  ghost predicate ItemsOk(t: Terms, xs: seq<Item>, nonce: string) {
    forall i :: 0 <= i < |xs| ==> ItemOk(t, xs[i], nonce)
  }

  function Sections(t: Terms, xs: seq<Item>, nonce: string): seq<Section>
    requires ItemsOk(t, xs, nonce)
  {
    if xs == [] then [] else [Section(ItemText(t, xs[0], nonce), xs[0].Quoted?)] + Sections(t, xs[1..], nonce)
  }

  /** Every time shown on a line has an offset of whole minutes. */
  ghost predicate WholeMinuteParts(parts: seq<Part>) {
    forall i :: 0 <= i < |parts| && parts[i].Shown? ==> WholeMinutes(parts[i].value)
  }

  ghost predicate WholeMinuteItems(xs: seq<Item>) {
    forall i :: 0 <= i < |xs| && xs[i].Line? ==> WholeMinuteParts(xs[i].parts)
  }

  // ---- blocks are read as blocks ------------------------------------------------------------------

  lemma SourcesHaveNoBracket(source: string)
    requires source in SOURCES
    ensures Free(source, {'>'})
  {
  }

  lemma {:induction false} AttrTextHasNoBracket(text: string)
    ensures Free(EscapeAttr(text), {'<', '>', '"', '\''})
  {
    if text != "" { AttrTextHasNoBracket(text[1..]); }
  }

  lemma {:induction false} AttrsHaveNoBracket(attrs: seq<(string, string)>)
    requires forall i :: 0 <= i < |attrs| ==> Free(attrs[i].0, {'>'})
    ensures Free(Attrs(attrs), {'>'})
  {
    if attrs != [] {
      AttrTextHasNoBracket(attrs[0].1);
      AttrsHaveNoBracket(attrs[1..]);
    }
  }

  lemma RenderedIsPrinted(nonce: string, source: string, attrs: string, escaped: string)
    ensures Rendered(nonce, source, attrs, escaped) ==
            Printed(BoundaryOf(nonce), " source=\"" + source + "\"" + attrs, "\n" + escaped + "\n")
  {
    var b := BoundaryOf(nonce);
    var rest := " source=\"" + source + "\"" + attrs;
    assert b.open + rest + ">" + "\n" + escaped + "\n" + b.close
        == b.open + (rest + (">" + (("\n" + escaped + "\n") + b.close)));
    assert Rendered(nonce, source, attrs, escaped) == b.open + rest + ">" + "\n" + escaped + "\n" + b.close;
  }

  lemma BlockSectionIsLegible(nonce: string, source: string, attrs: string, escaped: string)
    requires source in SOURCES && Free(attrs, {'>'}) && Free(escaped, {'<', '>'})
    ensures Distinct(BoundaryOf(nonce))
    ensures Legible(Section(Rendered(nonce, source, attrs, escaped), true), BoundaryOf(nonce))
  {
    BoundariesAreDistinct(nonce);
    SourcesHaveNoBracket(source);
    RenderedIsPrinted(nonce, source, attrs, escaped);
    BlockIsLegible(BoundaryOf(nonce), " source=\"" + source + "\"" + attrs, "\n" + escaped + "\n");
  }

  // ---- template text has no bracket ------------------------------------------------------------------

  lemma ConstantHasNoBracket(t: Terms, c: string)
    requires Sound(t) && c in Core(t)
    ensures Free(c, {'<'})
  {
    ConstantsByKind(t, c);
    if |c| > 1 { CoreIsSound(t, c); } else { ShortConstant(t, c); }
  }

  lemma NameIsLabel(t: Terms, name: string)
    requires name in t.facts
    ensures IsLabel(t, name + ":") && name + ":" in Core(t)
  {
    assert (name + ":")[..|name|] == name;
    ConstantsByKind(t, name + ":");
  }

  lemma ValueHasNoBracket(s: string)
    requires Looks(s)
    ensures Free(s, {'<'})
  {
  }

  lemma ColonThenBlank(name: string, value: string)
    ensures name + ": " + value == (name + ":") + " " + value
  {
  }

  lemma FreeConcat(a: string, b: string)
    requires Free(a, {'<'}) && Free(b, {'<'})
    ensures Free(a + " " + b, {'<'})
  {
  }

  lemma PartHasNoBracket(t: Terms, p: Part)
    requires Sound(t) && PartOk(t, p)
    ensures Free(PartText(t, p), {'<'})
  {
    match p
    case Constant(c) => ConstantHasNoBracket(t, c);
    case Shown(name, v) =>
      NameIsLabel(t, name);
      ConstantHasNoBracket(t, name + ":");
      ValueLooks(v, t.enums);
      ValueHasNoBracket(Show(v));
      FreeConcat(name + ":", Show(v));
      ColonThenBlank(name, Show(v));
  }

  lemma {:induction false} JoinHasNoBracket(sep: string, parts: seq<string>)
    requires Free(sep, {'<'}) && forall i :: 0 <= i < |parts| ==> Free(parts[i], {'<'})
    ensures Free(Join(sep, parts), {'<'})
  {
    if parts != [] { JoinHasNoBracket(sep, parts[1..]); }
  }

  lemma {:induction false} PartsHaveNoBracket(t: Terms, parts: seq<Part>)
    requires Sound(t) && forall i :: 0 <= i < |parts| ==> PartOk(t, parts[i])
    ensures forall i :: 0 <= i < |PartTexts(t, parts)| ==> Free(PartTexts(t, parts)[i], {'<'})
  {
    if parts != [] {
      PartHasNoBracket(t, parts[0]);
      PartsHaveNoBracket(t, parts[1..]);
    }
  }

  lemma RootedConcat(a: string, b: string)
    requires RootedOnly(a) && RootedOnly(b)
    ensures RootedOnly(a + b)
  {
    var s := a + b;
    forall k | 0 <= k < |s| && s[k] == '<' ensures k + 1 < |s| && s[k + 1] == 'r' {
      if k < |a| { assert s[k] == a[k] && s[k + 1] == a[k + 1]; } else { assert s[k] == b[k - |a|]; }
    }
  }

  lemma {:induction false} BulletsAreRooted(t: Terms, bullets: seq<(string, string)>)
    requires forall i :: 0 <= i < |bullets| ==> BulletOk(t, bullets[i])
    ensures RootedOnly(BulletText(bullets))
  {
    if bullets != [] {
      var (path, text) := bullets[0];
      assert BulletOk(t, bullets[0]);
      BulletsAreRooted(t, bullets[1..]);
      RootedConcat("- ", path);
      RootedConcat("- " + path, ": ");
      RootedConcat("- " + path + ": ", text);
      RootedConcat("\n", "- " + path + ": " + text);
      RootedConcat("\n" + ("- " + path + ": " + text), BulletText(bullets[1..]));
    }
  }

  lemma RepairHasNoTag(t: Terms, heading: string, sentence: string, bullets: seq<(string, string)>)
    requires Sound(t) && heading in Core(t) && sentence in Core(t)
    requires forall i :: 0 <= i < |bullets| ==> BulletOk(t, bullets[i])
    ensures RootedOnly(heading + ("\n" + (sentence + BulletText(bullets))))
  {
    ConstantHasNoBracket(t, heading);
    ConstantHasNoBracket(t, sentence);
    BulletsAreRooted(t, bullets);
    RootedConcat(sentence, BulletText(bullets));
    RootedConcat("\n", sentence + BulletText(bullets));
    RootedConcat(heading, "\n" + (sentence + BulletText(bullets)));
  }

  lemma TemplateTextIsRooted(t: Terms, x: Item, nonce: string)
    requires Sound(t) && ItemOk(t, x, nonce) && !x.Quoted?
    ensures RootedOnly(ItemText(t, x, nonce))
  {
    match x
    case Heading(c) => ConstantHasNoBracket(t, c);
    case Line(parts) =>
      PartsHaveNoBracket(t, parts);
      JoinHasNoBracket(SEPARATOR, PartTexts(t, parts));
    case Sentence(cs) =>
      forall i | 0 <= i < |cs| ensures Free(cs[i], {'<'}) { ConstantHasNoBracket(t, cs[i]); }
      JoinHasNoBracket(" ", cs);
    case Repair(heading, sentence, bullets) => RepairHasNoTag(t, heading, sentence, bullets);
  }

  lemma RootedHasNoTag(shown: string, nonce: string)
    requires RootedOnly(shown) && Distinct(BoundaryOf(nonce))
    ensures TagFree(shown, BoundaryOf(nonce))
  {
    var b := BoundaryOf(nonce);
    assert b.open[1] == 'u' && b.close[1] == '/';
  }

  lemma ItemIsLegible(t: Terms, x: Item, nonce: string)
    requires Sound(t) && ItemOk(t, x, nonce) && Distinct(BoundaryOf(nonce))
    ensures Legible(Section(ItemText(t, x, nonce), x.Quoted?), BoundaryOf(nonce))
  {
    if x.Quoted? {
      BlockSectionIsLegible(nonce, x.block.source, x.attrs, x.block.escaped);
    } else {
      TemplateTextIsRooted(t, x, nonce);
      RootedHasNoTag(ItemText(t, x, nonce), nonce);
      PlainTextIsLegible(ItemText(t, x, nonce), BoundaryOf(nonce));
    }
  }

  lemma {:induction false} SectionsAreLegible(t: Terms, xs: seq<Item>, nonce: string)
    requires Sound(t) && ItemsOk(t, xs, nonce) && Distinct(BoundaryOf(nonce))
    ensures forall s :: s in Sections(t, xs, nonce) ==> Legible(s, BoundaryOf(nonce))
  {
    if xs != [] {
      ItemIsLegible(t, xs[0], nonce);
      SectionsAreLegible(t, xs[1..], nonce);
    }
  }

  // ---- the message as pieces -----------------------------------------------------------------------------

  function SentencePieces(cs: seq<string>, end: string): seq<Piece> {
    if cs == [] then [Piece("", end)]
    else if |cs| == 1 then [Piece(cs[0], end)]
    else [Piece(cs[0], " ")] + SentencePieces(cs[1..], end)
  }

  function PartPieces(t: Terms, p: Part, end: string): seq<Piece>
    requires PartOk(t, p)
  {
    match p
    case Constant(c) => [Piece(c, end)]
    case Shown(name, v) => [Piece(name + ":", " "), Piece(Show(v), end)]
  }

  function LinePieces(t: Terms, parts: seq<Part>, end: string): seq<Piece>
    requires forall i :: 0 <= i < |parts| ==> PartOk(t, parts[i])
  {
    if parts == [] then [Piece("", end)]
    else if |parts| == 1 then PartPieces(t, parts[0], end)
    else PartPieces(t, parts[0], SEPARATOR) + LinePieces(t, parts[1..], end)
  }

  function ItemPieces(t: Terms, x: Item, nonce: string, end: string): seq<Piece>
    requires ItemOk(t, x, nonce)
  {
    match x
    case Heading(c) => [Piece(c, end)]
    case Line(parts) => LinePieces(t, parts, end)
    case Sentence(cs) => SentencePieces(cs, end)
    case Quoted(b, _) => [Piece("", Repeat('\n', Newlines(b.rendered)) + end)]
    case Repair(heading, sentence, bullets) => [Piece(heading, "\n")] + BulletPieces(sentence, bullets, end)
  }

  /** The line `last` and the bullets' lines after it. */
  function BulletPieces(last: string, bullets: seq<(string, string)>, end: string): seq<Piece>
    decreases |bullets|
  {
    if bullets == [] then [Piece(last, end)]
    else
      [Piece(last, "\n"), Piece("-", " "), Piece(bullets[0].0 + ":", " ")]
      + BulletPieces(bullets[0].1, bullets[1..], end)
  }

  function Pieces(t: Terms, xs: seq<Item>, nonce: string): seq<Piece>
    requires ItemsOk(t, xs, nonce)
  {
    if xs == [] then []
    else if |xs| == 1 then ItemPieces(t, xs[0], nonce, "")
    else ItemPieces(t, xs[0], nonce, "\n\n") + Pieces(t, xs[1..], nonce)
  }

  lemma {:induction false} FlatConcat(ps: seq<Piece>, qs: seq<Piece>)
    ensures Flat(ps + qs) == Flat(ps) + Flat(qs)
  {
    if ps == [] {
      assert ps + qs == qs;
    } else {
      FlatConcat(ps[1..], qs);
      assert (ps + qs)[1..] == ps[1..] + qs;
      Associates(ps[0].gap, Flat(ps[1..]), Flat(qs));
      Associates(ps[0].atom, ps[0].gap + Flat(ps[1..]), Flat(qs));
    }
  }

  lemma FlatOne(atom: string, gap: string)
    ensures Flat([Piece(atom, gap)]) == atom + gap
  {
    assert gap + "" == gap;
  }

  lemma {:induction false} FlatSentence(cs: seq<string>, end: string)
    ensures Flat(SentencePieces(cs, end)) == Join(" ", cs) + end
  {
    if |cs| <= 1 {
      FlatOne(if cs == [] then "" else cs[0], end);
    } else {
      FlatSentence(cs[1..], end);
      assert SentencePieces(cs, end)[1..] == SentencePieces(cs[1..], end);
    }
  }

  lemma FlatPart(t: Terms, p: Part, end: string)
    requires PartOk(t, p)
    ensures Flat(PartPieces(t, p, end)) == PartText(t, p) + end
  {
    match p
    case Constant(c) => FlatOne(c, end);
    case Shown(name, v) =>
      FlatOne(Show(v), end);
      assert PartPieces(t, p, end)[1..] == [Piece(Show(v), end)];
      assert (name + ":") + (" " + (Show(v) + end)) == name + ": " + Show(v) + end;
  }

  lemma {:induction false} FlatLine(t: Terms, parts: seq<Part>, end: string)
    requires forall i :: 0 <= i < |parts| ==> PartOk(t, parts[i])
    ensures Flat(LinePieces(t, parts, end)) == Join(SEPARATOR, PartTexts(t, parts)) + end
  {
    if parts == [] {
      FlatOne("", end);
    } else if |parts| == 1 {
      FlatPart(t, parts[0], end);
    } else {
      FlatPart(t, parts[0], SEPARATOR);
      FlatLine(t, parts[1..], end);
      FlatConcat(PartPieces(t, parts[0], SEPARATOR), LinePieces(t, parts[1..], end));
      assert PartTexts(t, parts)[1..] == PartTexts(t, parts[1..]);
      assert PartText(t, parts[0]) + SEPARATOR + (Join(SEPARATOR, PartTexts(t, parts[1..])) + end)
          == (PartText(t, parts[0]) + SEPARATOR + Join(SEPARATOR, PartTexts(t, parts[1..]))) + end;
    }
  }

  lemma {:induction false} FlatBullets(last: string, bullets: seq<(string, string)>, end: string)
    ensures Flat(BulletPieces(last, bullets, end)) == last + BulletText(bullets) + end
    decreases |bullets|
  {
    if bullets == [] {
      FlatOne(last, end);
      assert last + "" == last;
    } else {
      var (path, text) := bullets[0];
      var rest := BulletPieces(text, bullets[1..], end);
      FlatBullets(text, bullets[1..], end);
      FlatFirst(last, path, rest);
      BulletSpelt(last, path, text, BulletText(bullets[1..]), end);
    }
  }

  lemma BulletSpelt(last: string, path: string, text: string, more: string, end: string)
    ensures last + ("\n" + ("-" + (" " + ((path + ":") + (" " + (text + more + end)))))) ==
            last + ("\n" + ("- " + path + ": " + text) + more) + end
  {
  }

  lemma FlatFirst(last: string, path: string, rest: seq<Piece>)
    ensures Flat([Piece(last, "\n"), Piece("-", " "), Piece(path + ":", " ")] + rest) ==
            last + ("\n" + ("-" + (" " + ((path + ":") + (" " + Flat(rest))))))
  {
    var a, b, c := Piece(last, "\n"), Piece("-", " "), Piece(path + ":", " ");
    FlatConcat([a, b, c], rest);
    FlatConcat([a], [b, c]);
    FlatConcat([b], [c]);
    FlatOne(last, "\n");
    FlatOne("-", " ");
    FlatOne(path + ":", " ");
    assert [a] + [b, c] == [a, b, c] && [b] + [c] == [b, c];
  }

  lemma FlatRepair(heading: string, sentence: string, bullets: seq<(string, string)>, end: string)
    ensures Flat([Piece(heading, "\n")] + BulletPieces(sentence, bullets, end)) ==
            heading + ("\n" + (sentence + BulletText(bullets))) + end
  {
    FlatBullets(sentence, bullets, end);
    FlatConcat([Piece(heading, "\n")], BulletPieces(sentence, bullets, end));
    FlatOne(heading, "\n");
    Associates(heading, "\n" + (sentence + BulletText(bullets)), end);
    Associates("\n", sentence + BulletText(bullets), end);
    Associates(heading, "\n", sentence + BulletText(bullets) + end);
  }

  lemma FlatItem(t: Terms, x: Item, nonce: string, end: string)
    requires ItemOk(t, x, nonce)
    ensures Flat(ItemPieces(t, x, nonce, end)) == Left(Section(ItemText(t, x, nonce), x.Quoted?)) + end
  {
    match x
    case Heading(c) => FlatOne(c, end);
    case Line(parts) => FlatLine(t, parts, end);
    case Sentence(cs) => FlatSentence(cs, end);
    case Quoted(b, _) => FlatOne("", Repeat('\n', Newlines(b.rendered)) + end);
    case Repair(heading, sentence, bullets) => FlatRepair(heading, sentence, bullets, end);
  }

  /** The pieces spell what the linter has left after the blocks. */
  lemma {:induction false} PiecesSpellTheRest(t: Terms, xs: seq<Item>, nonce: string)
    requires ItemsOk(t, xs, nonce)
    ensures Flat(Pieces(t, xs, nonce)) == LeftOver(Sections(t, xs, nonce))
  {
    if xs != [] {
      var s := Section(ItemText(t, xs[0], nonce), xs[0].Quoted?);
      if |xs| == 1 {
        FlatItem(t, xs[0], nonce, "");
        assert Left(s) + "" == Left(s);
      } else {
        FlatItem(t, xs[0], nonce, "\n\n");
        PiecesSpellTheRest(t, xs[1..], nonce);
        FlatConcat(ItemPieces(t, xs[0], nonce, "\n\n"), Pieces(t, xs[1..], nonce));
        assert Sections(t, xs, nonce)[1..] == Sections(t, xs[1..], nonce);
      }
    }
  }

  // ---- the pieces are tidy ----------------------------------------------------------------------------------

  /** Tidy, but for what may follow the last piece. */
  ghost predicate Closed(ps: seq<Piece>, t: Terms, end: string) {
    Tidy(ps, t) && ps != [] && ps[|ps| - 1].gap == end
  }

  lemma {:induction false} TidyConcat(ps: seq<Piece>, qs: seq<Piece>, t: Terms)
    requires Tidy(ps, t) && ps != [] && ps[|ps| - 1].gap != "" && Tidy(qs, t)
    ensures Tidy(ps + qs, t)
  {
    assert (ps + qs)[1..] == ps[1..] + qs;
    if |ps| > 1 {
      TidyConcat(ps[1..], qs, t);
    } else {
      assert ps[1..] + qs == qs;
      assert ps[0].gap[0] == '\n';
    }
  }

  lemma {:induction false} TidySentence(t: Terms, cs: seq<string>, end: string)
    requires Sound(t) && Breaks(end) && forall i :: 0 <= i < |cs| ==> IsCore(t, cs[i])
    ensures Closed(SentencePieces(cs, end), t, end)
  {
    var ps := SentencePieces(cs, end);
    if |cs| > 1 {
      TidySentence(t, cs[1..], end);
      assert ps[1..] == SentencePieces(cs[1..], end);
    } else {
      assert ps[1..] == [];
    }
  }

  lemma TidyCons(x: Piece, rest: seq<Piece>, t: Terms)
    requires GapOk(x.gap) && x.gap != "" && AtomOk(t, x.atom) && rest != [] && Tidy(rest, t)
    requires x.gap == " " ==> Closes(x.atom)
    ensures Tidy([x] + rest, t)
  {
    assert ([x] + rest)[1..] == rest;
  }

  lemma TidyLast(t: Terms, x: Piece)
    requires Breaks(x.gap) && AtomOk(t, x.atom)
    ensures Tidy([x], t)
  {
    assert [x][1..] == [];
  }

  lemma TidyPart(t: Terms, p: Part, end: string)
    requires Sound(t) && PartOk(t, p) && Breaks(end)
    ensures Tidy(PartPieces(t, p, end), t)
  {
    PartAtomsAreOk(t, p);
    match p
    case Constant(c) => TidyLast(t, Piece(c, end));
    case Shown(name, v) =>
      TidyLast(t, Piece(Show(v), end));
      TidyCons(Piece(name + ":", " "), [Piece(Show(v), end)], t);
      assert PartPieces(t, p, end) == [Piece(name + ":", " ")] + [Piece(Show(v), end)];
  }

  lemma TidyPartThen(t: Terms, p: Part, rest: seq<Piece>)
    requires Sound(t) && PartOk(t, p) && Tidy(rest, t) && rest != []
    ensures Tidy(PartPieces(t, p, SEPARATOR) + rest, t)
  {
    PartAtomsAreOk(t, p);
    match p
    case Constant(c) => TidyCons(Piece(c, SEPARATOR), rest, t);
    case Shown(name, v) =>
      var value := Piece(Show(v), SEPARATOR);
      TidyCons(value, rest, t);
      TidyCons(Piece(name + ":", " "), [value] + rest, t);
      assert PartPieces(t, p, SEPARATOR) + rest == [Piece(name + ":", " ")] + ([value] + rest);
  }

  lemma {:induction false} TidyLine(t: Terms, parts: seq<Part>, end: string)
    requires Sound(t) && Breaks(end) && forall i :: 0 <= i < |parts| ==> PartOk(t, parts[i])
    ensures Closed(LinePieces(t, parts, end), t, end)
  {
    if parts == [] {
      TidyLast(t, Piece("", end));
    } else if |parts| == 1 {
      TidyPart(t, parts[0], end);
    } else {
      TidyLine(t, parts[1..], end);
      TidyPartThen(t, parts[0], LinePieces(t, parts[1..], end));
    }
  }

  lemma PartAtomsAreOk(t: Terms, p: Part)
    requires Sound(t) && PartOk(t, p)
    ensures p.Constant? ==> IsCore(t, p.text)
    ensures p.Shown? ==> IsLabel(t, p.name + ":") && IsShown(t, Show(p.value))
  {
    match p
    case Constant(c) => ConstantsByKind(t, c);
    case Shown(name, v) =>
      NameIsLabel(t, name);
      ValueLooks(v, t.enums);
  }

  lemma {:induction false} TidyBullets(t: Terms, last: string, bullets: seq<(string, string)>, end: string)
    requires IsConstant(t, last) && Breaks(end) && forall i :: 0 <= i < |bullets| ==> BulletOk(t, bullets[i])
    ensures Closed(BulletPieces(last, bullets, end), t, end)
    decreases |bullets|
  {
    if bullets == [] {
      TidyLast(t, Piece(last, end));
    } else {
      var (path, text) := bullets[0];
      var rest := BulletPieces(text, bullets[1..], end);
      var a, b, c := Piece(last, "\n"), Piece("-", " "), Piece(path + ":", " ");
      assert BulletOk(t, bullets[0]);
      TidyBullets(t, text, bullets[1..], end);
      TidyBullet(t, last, path, rest);
      assert [a, b, c] + rest == [a] + ([b] + ([c] + rest));
    }
  }

  lemma TidyBullet(t: Terms, last: string, path: string, rest: seq<Piece>)
    requires IsConstant(t, last) && path + ":" in t.extras && rest != [] && Tidy(rest, t)
    ensures Tidy([Piece(last, "\n")] + ([Piece("-", " ")] + ([Piece(path + ":", " ")] + rest)), t)
  {
    var c := Piece(path + ":", " ");
    TidyCons(c, rest, t);
    TidyCons(Piece("-", " "), [c] + rest, t);
    TidyCons(Piece(last, "\n"), [Piece("-", " ")] + ([c] + rest), t);
  }

  lemma TidyRepair(t: Terms, heading: string, sentence: string, bullets: seq<(string, string)>, end: string)
    requires IsCore(t, heading) && IsCore(t, sentence) && Breaks(end)
    requires forall i :: 0 <= i < |bullets| ==> BulletOk(t, bullets[i])
    ensures var ps := [Piece(heading, "\n")] + BulletPieces(sentence, bullets, end);
            Tidy(ps, t) && ps != [] && ps[|ps| - 1].gap == end
  {
    TidyBullets(t, sentence, bullets, end);
    TidyCons(Piece(heading, "\n"), BulletPieces(sentence, bullets, end), t);
  }

  lemma TidyItem(t: Terms, x: Item, nonce: string, end: string)
    requires Sound(t) && ItemOk(t, x, nonce) && Breaks(end)
    ensures var ps := ItemPieces(t, x, nonce, end); Tidy(ps, t) && ps != []
    ensures end != "" ==> var ps := ItemPieces(t, x, nonce, end); ps[|ps| - 1].gap != ""
  {
    match x
    case Heading(c) => ConstantsByKind(t, c);
    case Line(parts) => TidyLine(t, parts, end);
    case Sentence(cs) =>
      forall i | 0 <= i < |cs| ensures IsCore(t, cs[i]) { ConstantsByKind(t, cs[i]); }
      TidySentence(t, cs, end);
    case Quoted(b, _) => assert Breaks(Repeat('\n', Newlines(b.rendered)) + end);
    case Repair(heading, sentence, bullets) =>
      ConstantsByKind(t, heading);
      ConstantsByKind(t, sentence);
      TidyRepair(t, heading, sentence, bullets, end);
  }

  lemma {:induction false} PiecesAreTidy(t: Terms, xs: seq<Item>, nonce: string)
    requires Sound(t) && ItemsOk(t, xs, nonce)
    ensures Tidy(Pieces(t, xs, nonce), t)
  {
    if xs != [] {
      if |xs| == 1 {
        TidyItem(t, xs[0], nonce, "");
      } else {
        TidyItem(t, xs[0], nonce, "\n\n");
        PiecesAreTidy(t, xs[1..], nonce);
        TidyConcat(ItemPieces(t, xs[0], nonce, "\n\n"), Pieces(t, xs[1..], nonce), t);
      }
    }
  }

  // ---- which messages are clean -------------------------------------------------------------------------------

  lemma ValuesPassConcat(t: Terms, ps: seq<Piece>, qs: seq<Piece>)
    ensures ValuesPass(ps + qs, t) <==> ValuesPass(ps, t) && ValuesPass(qs, t)
  {
    var all := ps + qs;
    if ValuesPass(all, t) {
      assert forall i :: 0 <= i < |ps| ==> all[i] == ps[i];
      assert forall i :: 0 <= i < |qs| ==> all[|ps| + i] == qs[i];
    }
  }

  lemma ValuePasses(t: Terms, v: Value)
    requires Sound(t) && ValueOk(v, t.enums)
    ensures IsShown(t, Show(v)) && (Passes(Show(v), t.enums) <==> WholeMinutes(v))
  {
    ValueLooks(v, t.enums);
    TrimOfValue(Show(v));
    ValueIsAllowedExactly(v, t.enums);
  }

  lemma PartPassesExactly(t: Terms, p: Part, end: string)
    requires Sound(t) && PartOk(t, p)
    ensures ValuesPass(PartPieces(t, p, end), t) <==> (p.Shown? ==> WholeMinutes(p.value))
  {
    PartAtomsAreOk(t, p);
    match p
    case Constant(c) => ConstantLooksLikeNoValue(t, c);
    case Shown(name, v) =>
      ConstantLooksLikeNoValue(t, name + ":");
      ValuePasses(t, v);
      var ps := PartPieces(t, p, end);
      assert ps[0].atom == name + ":" && ps[1].atom == Show(v);
  }

  lemma {:induction false} LinePassesExactly(t: Terms, parts: seq<Part>, end: string)
    requires Sound(t) && forall i :: 0 <= i < |parts| ==> PartOk(t, parts[i])
    ensures ValuesPass(LinePieces(t, parts, end), t) <==> WholeMinuteParts(parts)
  {
    if |parts| == 1 {
      PartPassesExactly(t, parts[0], end);
    } else if |parts| > 1 {
      PartPassesExactly(t, parts[0], SEPARATOR);
      LinePassesExactly(t, parts[1..], end);
      ValuesPassConcat(t, PartPieces(t, parts[0], SEPARATOR), LinePieces(t, parts[1..], end));
      FirstPartThenRest(parts);
    }
  }

  lemma FirstPartThenRest(parts: seq<Part>)
    requires parts != []
    ensures WholeMinuteParts(parts) <==>
            (parts[0].Shown? ==> WholeMinutes(parts[0].value)) && WholeMinuteParts(parts[1..])
  {
    assert parts == [parts[0]] + parts[1..];
  }

  lemma {:induction false} SentencePasses(t: Terms, cs: seq<string>, end: string)
    requires Sound(t) && forall i :: 0 <= i < |cs| ==> IsConstant(t, cs[i])
    ensures ValuesPass(SentencePieces(cs, end), t)
  {
    if cs != [] {
      ConstantLooksLikeNoValue(t, cs[0]);
      SentencePasses(t, cs[1..], end);
      if |cs| > 1 { ValuesPassConcat(t, [Piece(cs[0], " ")], SentencePieces(cs[1..], end)); }
    }
  }

  lemma {:induction false} BulletsPass(t: Terms, last: string, bullets: seq<(string, string)>, end: string)
    requires Sound(t) && IsConstant(t, last) && forall i :: 0 <= i < |bullets| ==> BulletOk(t, bullets[i])
    ensures ValuesPass(BulletPieces(last, bullets, end), t)
    decreases |bullets|
  {
    ConstantLooksLikeNoValue(t, last);
    if bullets != [] {
      var (path, text) := bullets[0];
      assert BulletOk(t, bullets[0]);
      BulletsPass(t, text, bullets[1..], end);
      ConstantLooksLikeNoValue(t, "-");
      ConstantLooksLikeNoValue(t, path + ":");
      ValuesPassConcat(t, [Piece(last, "\n"), Piece("-", " "), Piece(path + ":", " ")],
                       BulletPieces(text, bullets[1..], end));
    }
  }

  lemma ItemPassesExactly(t: Terms, x: Item, nonce: string, end: string)
    requires Sound(t) && ItemOk(t, x, nonce)
    ensures ValuesPass(ItemPieces(t, x, nonce, end), t) <==> (x.Line? ==> WholeMinuteParts(x.parts))
  {
    match x
    case Heading(c) =>
      ConstantsByKind(t, c);
      ConstantLooksLikeNoValue(t, c);
    case Line(parts) => LinePassesExactly(t, parts, end);
    case Sentence(cs) =>
      forall i | 0 <= i < |cs| ensures IsConstant(t, cs[i]) { ConstantsByKind(t, cs[i]); }
      SentencePasses(t, cs, end);
    case Quoted(_, _) =>
    case Repair(heading, sentence, bullets) =>
      ConstantsByKind(t, heading);
      ConstantsByKind(t, sentence);
      BulletsPass(t, sentence, bullets, end);
      ConstantLooksLikeNoValue(t, heading);
      ValuesPassConcat(t, [Piece(heading, "\n")], BulletPieces(sentence, bullets, end));
  }

  lemma {:induction false} PiecesPassExactly(t: Terms, xs: seq<Item>, nonce: string)
    requires Sound(t) && ItemsOk(t, xs, nonce)
    ensures ValuesPass(Pieces(t, xs, nonce), t) <==> WholeMinuteItems(xs)
  {
    if |xs| == 1 {
      ItemPassesExactly(t, xs[0], nonce, "");
    } else if |xs| > 1 {
      ItemPassesExactly(t, xs[0], nonce, "\n\n");
      PiecesPassExactly(t, xs[1..], nonce);
      ValuesPassConcat(t, ItemPieces(t, xs[0], nonce, "\n\n"), Pieces(t, xs[1..], nonce));
      FirstThenRest(xs);
    }
  }

  lemma FirstThenRest(xs: seq<Item>)
    requires xs != []
    ensures WholeMinuteItems(xs) <==> (xs[0].Line? ==> WholeMinuteParts(xs[0].parts)) && WholeMinuteItems(xs[1..])
  {
    assert xs == [xs[0]] + xs[1..];
  }

  /** The linter takes a built message apart as it was put together. */
  lemma BuiltMessageIsTakenApart(t: Terms, xs: seq<Item>, nonce: string)
    requires Sound(t) && ItemsOk(t, xs, nonce)
    ensures var b := BoundaryOf(nonce);
            var ss := Sections(t, xs, nonce);
            && Distinct(b)
            && Spans(Message(ss), b) == BlockSpans(ss, 0)
            && Unbalanced(Message(ss), b) == []
            && Residual(Message(ss), Spans(Message(ss), b), 0) == LeftOver(ss)
  {
    BoundariesAreDistinct(nonce);
    SectionsAreLegible(t, xs, nonce);
    StrippingRecoversTheBlocks(Sections(t, xs, nonce), BoundaryOf(nonce));
  }

  /** Outside the blocks, the words pass exactly when every time has an offset of whole minutes. */
  lemma RestPassesExactly(t: Terms, xs: seq<Item>, nonce: string, order: seq<string>)
    requires Sound(t) && ItemsOk(t, xs, nonce) && LongestFirst(order, Constants(t)) && NoEmpty(order)
    ensures var left := Remove(LeftOver(Sections(t, xs, nonce)), order);
            LineViolations(Lines(left, ""), 1, t.enums) == [] <==> WholeMinuteItems(xs)
  {
    PiecesSpellTheRest(t, xs, nonce);
    PiecesAreTidy(t, xs, nonce);
    TidyTextIsCleanExactly(Pieces(t, xs, nonce), t, order);
    PiecesPassExactly(t, xs, nonce);
    var left := Remove(LeftOver(Sections(t, xs, nonce)), order);
    LinesAreCleanExactly(left, "", 1, t.enums);
    assert "" + left == left;
  }

  /** The linter finds nothing in a built message, exactly when every time shown on a line has an
      offset of whole minutes: whatever the untrusted texts and whatever the order of the calls. */
  lemma BuiltMessageIsCleanExactly(t: Terms, xs: seq<Item>, nonce: string, order: seq<string>)
    requires Sound(t) && ItemsOk(t, xs, nonce) && LongestFirst(order, Constants(t)) && NoEmpty(order)
    ensures Violations(Message(Sections(t, xs, nonce)), nonce, order, t.enums) == [] <==> WholeMinuteItems(xs)
  {
    BuiltMessageIsTakenApart(t, xs, nonce);
    RestPassesExactly(t, xs, nonce, order);
  }
}
