/** The repair round's message: the user message, and after it the value-free lines. The linter reads it with
    the schemas' paths and messages among its constants. */
module RepairPrompt {
  import opened Common
  import opened Text
  import opened Values
  import opened Vocabulary
  import opened Lint
  import opened RoundTrip
  import opened CleanText
  import opened Prompt
  import S = Schemas
  import R = RepairLines
  import B = Builder

  const ROOT := "<root>"

  /** What the repair round adds to the template's constants. */
  function Extras(paths: set<string>, texts: set<string>): set<string> {
    (set p <- paths :: p + ":") + {ROOT + ":"} + texts
  }

  function RepairTerms(paths: set<string>, texts: set<string>): Terms {
    TEMPLATE.(extras := Extras(paths, texts))
  }

  // ---- no shown value holds `missing` --------------------------------------------------------------

  predicate NoSin(s: string) {
    forall i {:trigger s[i]} :: 0 <= i && i + 2 < |s| ==> !(s[i] == 's' && s[i + 1] == 'i' && s[i + 2] == 'n')
  }

  lemma LabelsHaveNoSin(w: string)
    requires w in LABELS
    ensures NoSin(w)
  {
  }

  lemma CategoriesHaveNoSin(w: string)
    requires w in CATEGORIES
    ensures NoSin(w)
  {
  }

  lemma StatusesHaveNoSin(w: string)
    requires w in STATUSES
    ensures NoSin(w)
  {
  }

  lemma MissingAt(s: string, k: nat)
    requires At(s, k, "missing")
    ensures k + 7 <= |s| && s[k + 3] == 's' && s[k + 4] == 'i' && s[k + 5] == 'n' && s[k + 6] == 'g'
  {
    AtChars(s, k, "missing");
  }

  lemma NoSinHidesMissing(s: string)
    requires NoSin(s)
    ensures !Contains(s, "missing")
  {
    forall k: nat ensures !At(s, k, "missing") {
      if At(s, k, "missing") { MissingAt(s, k); }
    }
  }

  lemma WordIsNotMissing(w: string)
    requires w in ENUM_VALUES
    ensures !Contains(w, "missing")
  {
    if w in LABELS {
      LabelsHaveNoSin(w);
    } else if w in CATEGORIES {
      CategoriesHaveNoSin(w);
    } else {
      StatusesHaveNoSin(w);
    }
    NoSinHidesMissing(w);
  }

  lemma TimeHasNoLetters(t: Moment)
    requires t.Valid()
    ensures forall i :: 0 <= i < |Iso(t)| ==> !IsLower(Iso(t)[i])
  {
    IsoParts(t);
    ZoneLooks(t);
    forall i | 19 <= i < |Iso(t)| ensures !IsLower(Iso(t)[i]) { assert Iso(t)[i] == Zone(t)[i - 19]; }
  }

  lemma IdentHasFewLetters(kind: Kind, s: string)
    requires Matches(kind, s)
    ensures forall i :: 0 <= i < |s| ==> !IsLower(s[i]) || (kind == RuleRef && i < 6)
  {
    match kind
    case AlertId =>
      var dot :| 0 <= dot < |s| && Dotted(s, dot);
      forall i | 0 <= i < |s| && i != dot ensures IsDigit(s[i]) { DottedIsDigits(s, dot, i); }
    case RuleRef =>
      var dash :| 0 <= dash < |s| && Hyphened(s, dash);
      forall i | dash < i < |s| ensures IsDigit(s[i]) { assert s[i] == s[dash + 1..][i - dash - 1]; }
    case Mitre =>
      forall i | 1 <= i < 5 ensures IsDigit(s[i]) { assert s[i] == s[1..5][i - 1]; }
      forall i | 6 <= i < |s| ensures IsDigit(s[i]) { assert s[i] == s[6..][i - 6]; }
    case RuleId =>
    case AgentId =>
  }

  lemma MissingIsUnshown()
    ensures Unshown("missing", ENUM_VALUES)
  {
    forall v {:trigger ValueOk(v, ENUM_VALUES)} | ValueOk(v, ENUM_VALUES) ensures !Contains(Show(v), "missing") {
      match v
      case Word(w) => WordIsNotMissing(w);
      case Number(n) => NumberIsNotMissing(n);
      case Time(t) =>
        TimeHasNoLetters(t);
        NoLettersHideMissing(Iso(t));
      case Ident(kind, s) =>
        IdentHasFewLetters(kind, s);
        NoLettersHideMissing(s);
    }
  }

  lemma NoLettersHideMissing(s: string)
    requires forall i :: 6 <= i < |s| ==> !IsLower(s[i])
    ensures !Contains(s, "missing")
  {
    forall k: nat ensures !At(s, k, "missing") {
      if At(s, k, "missing") { MissingAt(s, k); }
    }
  }

  lemma NumberIsNotMissing(n: int)
    ensures !Contains(Show(Number(n)), "missing")
  {
    DecimalIsDigits(if n < 0 then -n else n);
    NoLettersHideMissing(Show(Number(n)));
  }

  lemma ForeignIsUnshown(c: string)
    requires Foreign(c)
    ensures Unshown(c, ENUM_VALUES)
  {
    EnumsAreWords();
    forall v {:trigger ValueOk(v, ENUM_VALUES)} | ValueOk(v, ENUM_VALUES) ensures !Contains(Show(v), c) {
      ValueLooks(v, ENUM_VALUES);
      LooksHoldsNothingForeign(Show(v), c);
    }
  }

  // ---- what the extra constants look like ------------------------------------------------------------

  /** Small letters, underscores, dots and brackets. */
  predicate PathLike(p: string) {
    p != "" && forall i :: 0 <= i < |p| ==> IsLower(p[i]) || p[i] in {'_', '.', '[', ']'}
  }

  predicate SmallText(s: string) {
    forall i :: 0 <= i < |s| ==> IsLower(s[i]) || s[i] in {'_', '|'}
  }

  ghost predicate MessageLike(m: string) {
    Solid(m) && Unended(m) && RootedOnly(m) && (Foreign(m) || m == "missing")
  }

  lemma PathConstantIsSound(p: string)
    requires PathLike(p)
    ensures Solid(p + ":") && Unended(p + ":") && Foreign(p + ":") && RootedOnly(p)
  {
    var c := p + ":";
    assert forall i :: 0 <= i < |p| ==> c[i] == p[i];
    assert c[|p|] == ':' && !IsDigit(c[|p| - 1]);
  }

  lemma RootConstantIsSound()
    ensures Solid(ROOT + ":") && Unended(ROOT + ":") && Foreign(ROOT + ":") && RootedOnly(ROOT)
  {
    var c := ROOT + ":";
    assert c == "<root>:";
    assert c[0] == '<' && !ValueChar(c[0]);
  }

  lemma {:induction false} PathsAreLikeThat(node: S.Node, prefix: string)
    requires R.Tame(node) && (if prefix == "" then node.ObjectNode? else PathLike(prefix))
    ensures forall p <- R.Paths(node, prefix) :: PathLike(p)
    decreases node, 0
  {
    match node
    case ObjectNode(fields) => FieldPathsAreLikeThat(fields, prefix);
    case ArrayNode(item) => PathsAreLikeThat(item, prefix + "[]");
    case _ =>
  }

  lemma {:induction false} FieldPathsAreLikeThat(fields: S.Fields, prefix: string)
    requires R.TameFields(fields) && (prefix == "" || PathLike(prefix))
    ensures forall p <- R.FieldPaths(fields, prefix) :: PathLike(p)
    decreases fields, 1
  {
    if fields.Field? {
      PathsAreLikeThat(fields.node, S.Dotted(prefix, fields.key));
      FieldPathsAreLikeThat(fields.rest, prefix);
    }
  }

  lemma {:induction false} BarsAreSmall(words: seq<string>)
    requires words != [] && forall i :: 0 <= i < |words| ==> S.IsEnumToken(words[i])
    ensures S.Bars(words) != "" && SmallText(S.Bars(words))
  {
    assert S.IsEnumToken(words[0]);
    if |words| > 1 { BarsAreSmall(words[1..]); }
  }

  /** The first alternative begins as the notation does. */
  lemma {:induction false} FirstAlternative(spec: string, cur: string)
    ensures S.Alternatives(spec, cur) != [] && cur <= S.Alternatives(spec, cur)[0]
  {
    if spec != "" && spec[0] != '|' {
      FirstAlternative(spec[1..], cur + [spec[0]]);
      var first := S.Alternatives(spec[1..], cur + [spec[0]])[0];
      assert first[..|cur| + 1] == cur + [spec[0]];
      assert first[..|cur|] == cur;
    }
  }

  lemma SomethingNotNull(spec: string)
    requires spec != "" && spec[0] !in {'n', '|'}
    ensures S.NotNull(S.Alternatives(spec, "")) != []
  {
    FirstAlternative(spec[1..], "" + [spec[0]]);
    var words := S.Alternatives(spec, "");
    assert words == S.Alternatives(spec[1..], "" + [spec[0]]);
    assert words[0][0] == spec[0];
  }

  lemma OneOfIsMessageLike(values: string)
    requires values != "" && SmallText(values)
    ensures MessageLike("expected one of " + values)
  {
    var front := "expected one of ";
    var m := front + values;
    assert forall i :: 0 <= i < |values| ==> m[16 + i] == values[i];
    assert m[8] == ' ' && !ValueChar(m[8]);
    assert forall i :: 0 <= i < 16 ==> m[i] == front[i];
  }

  lemma {:induction false} VocabulariesAreMessageLike(node: S.Node)
    requires R.Tame(node)
    ensures forall m <- R.Vocabularies(node) :: MessageLike(m)
    decreases node, 0
  {
    match node
    case ObjectNode(fields) => FieldVocabulariesAreMessageLike(fields);
    case ArrayNode(item) => VocabulariesAreMessageLike(item);
    case Leaf(spec) =>
      var values := S.NotNull(S.Alternatives(spec, ""));
      SomethingNotNull(spec);
      if forall i :: 0 <= i < |values| ==> S.IsEnumToken(values[i]) {
        BarsAreSmall(values);
        OneOfIsMessageLike(S.Bars(values));
      }
    case _ =>
  }

  lemma {:induction false} FieldVocabulariesAreMessageLike(fields: S.Fields)
    requires R.TameFields(fields)
    ensures forall m <- R.FieldVocabularies(fields) :: MessageLike(m)
    decreases fields, 1
  {
    if fields.Field? {
      VocabulariesAreMessageLike(fields.node);
      FieldVocabulariesAreMessageLike(fields.rest);
    }
  }

  /** Single blanks, none at either end, and none where a constant of the builder might end. */
  predicate Spaced(m: string) {
    && m != "" && m[0] != ' ' && m[|m| - 1] != ' ' && Unended(m)
    && (forall i :: 0 <= i < |m| ==> m[i] !in {'\n', '·', '<', ':'})
    && (forall i {:trigger m[i]} :: 0 < i < |m| && m[i] == ' ' ==> m[i - 1] != ' ')
  }

  lemma WordIsSpaced(w: string)
    requires w != "" && forall i :: 0 <= i < |w| ==> w[i] !in {'\n', '·', '<', ':', ' '}
    ensures Spaced(w)
  {
  }

  lemma SpacedMore(m: string, w: string)
    requires Spaced(m) && |m| >= 2 && m[|m| - 1] != '-' && !EndPair(m[|m| - 2], m[|m| - 1])
    requires w != "" && forall i :: 0 <= i < |w| ==> w[i] !in {'\n', '·', '<', ':', ' '}
    ensures Spaced(m + " " + w) && MessageLike(m + " " + w)
  {
    var c := m + " " + w;
    assert forall i :: 0 <= i < |m| ==> c[i] == m[i];
    assert c[|m|] == ' ' && !ValueChar(c[|m|]);
    assert forall i :: |m| < i < |c| ==> c[i] == w[i - |m| - 1];
  }

  lemma ExpectedIsMessageLike(w: string)
    requires w != "" && forall i :: 0 <= i < |w| ==> w[i] !in {'\n', '·', '<', ':', ' '}
    ensures Spaced("expected " + w) && MessageLike("expected " + w)
  {
    var m := "expected";
    WordIsSpaced(m);
    SpacedMore(m, w);
    assert m + " " + w == "expected " + w;
  }

  lemma MissingIsMessageLike()
    ensures MessageLike("missing")
  {
    WordIsSpaced("missing");
  }

  lemma UnexpectedIsMessageLike()
    ensures MessageLike("unexpected key")
  {
    WordIsSpaced("unexpected");
    SpacedMore("unexpected", "key");
    assert "unexpected" + " " + "key" == "unexpected key";
  }

  lemma NonEmptyIsMessageLike()
    ensures MessageLike("expected non-empty array")
  {
    assert !ValueChar("expected non-empty array"[8]);
  }

  lemma NullableIsMessageLike()
    ensures MessageLike("expected string or null")
  {
    assert !ValueChar("expected string or null"[8]);
  }

  lemma NoObjectIsMessageLike()
    ensures MessageLike("expected a JSON object")
  {
    assert !ValueChar("expected a JSON object"[8]);
  }

  lemma BracketedIsMessageLike()
    ensures MessageLike("expected object") && MessageLike("expected array")
  {
    ExpectedIsMessageLike("object");
    ExpectedIsMessageLike("array");
    assert "expected " + "object" == "expected object" && "expected " + "array" == "expected array";
  }

  lemma ScalarIsMessageLike()
    ensures MessageLike("expected boolean") && MessageLike("expected integer")
  {
    ExpectedIsMessageLike("boolean");
    ExpectedIsMessageLike("integer");
    assert "expected " + "boolean" == "expected boolean" && "expected " + "integer" == "expected integer";
  }

  lemma StringIsMessageLike()
    ensures MessageLike("expected string")
  {
    ExpectedIsMessageLike("string");
    assert "expected " + "string" == "expected string";
  }

  lemma MessageIsMessageLike(m: string)
    requires m in R.MESSAGES
    ensures MessageLike(m)
  {
    if m == "missing" {
      MissingIsMessageLike();
    } else if m == "unexpected key" {
      UnexpectedIsMessageLike();
    } else if m == "expected object" || m == "expected array" {
      BracketedIsMessageLike();
    } else if m == "expected boolean" || m == "expected integer" {
      ScalarIsMessageLike();
    } else if m == "expected string" {
      StringIsMessageLike();
    } else if m == "expected non-empty array" {
      NonEmptyIsMessageLike();
    } else if m == "expected string or null" {
      NullableIsMessageLike();
    } else {
      NoObjectIsMessageLike();
    }
  }

  // ---- the extended vocabulary can be taken back out --------------------------------------------------

  lemma ExtraIsSound(paths: set<string>, texts: set<string>, c: string)
    requires (forall p <- paths :: PathLike(p)) && (forall m <- texts :: MessageLike(m)) && c in Extras(paths, texts)
    ensures Solid(c) && Unended(c) && Unshown(c, ENUM_VALUES)
  {
    if c in texts {
      if c == "missing" { MissingIsUnshown(); } else { ForeignIsUnshown(c); }
    } else if c == ROOT + ":" {
      RootConstantIsSound();
      ForeignIsUnshown(c);
    } else {
      var p :| p in paths && c == p + ":";
      PathConstantIsSound(p);
      ForeignIsUnshown(c);
    }
  }

  lemma ExtrasAreSound(paths: set<string>, texts: set<string>)
    requires (forall p <- paths :: PathLike(p)) && (forall m <- texts :: MessageLike(m))
    ensures Sound(RepairTerms(paths, texts))
  {
    TemplateIsSound();
    forall c | c in Extras(paths, texts) ensures Solid(c) && Unended(c) && Unshown(c, ENUM_VALUES) {
      ExtraIsSound(paths, texts, c);
    }
  }

  /** The repair round's constants, of both schemas. */
  function RepairVocabulary(): Terms {
    RepairTerms(R.RepairPaths().Keys, R.RepairTexts())
  }

  lemma RepairPartsAreSound()
    ensures (forall p <- R.RepairPaths() :: PathLike(p)) && (forall m <- R.RepairTexts() :: MessageLike(m))
  {
    R.ShippedSchemasAreTame();
    PathsAreLikeThat(S.ObjectNode(R.TRIAGE_FIELDS), "");
    PathsAreLikeThat(S.ObjectNode(R.VERIFIER_FIELDS), "");
    VocabulariesAreMessageLike(S.ObjectNode(R.TRIAGE_FIELDS));
    VocabulariesAreMessageLike(S.ObjectNode(R.VERIFIER_FIELDS));
    forall m | m in R.MESSAGES ensures MessageLike(m) { MessageIsMessageLike(m); }
  }

  lemma RepairVocabularyIsSound()
    ensures Sound(RepairVocabulary())
  {
    RepairPartsAreSound();
    ExtrasAreSound(R.RepairPaths().Keys, R.RepairTexts());
  }

  // ---- the message --------------------------------------------------------------------------------------

  /** The message of the first round, and the repair section behind it. */
  function RepairUser(user: string, heading: string, sentence: string, lines: seq<string>): string {
    user + "\n\n" + Join("\n", [heading] + ([sentence] + lines))
  }

  lemma {:induction false} JoinIsBulletText(first: string, lines: seq<string>, bullets: seq<(string, string)>)
    requires |lines| == |bullets|
    requires forall i :: 0 <= i < |lines| ==> lines[i] == "- " + bullets[i].0 + ": " + bullets[i].1
    ensures Join("\n", [first] + lines) == first + BulletText(bullets)
    decreases |lines|
  {
    if lines == [] {
      assert [first] + lines == [first];
      assert first + "" == first;
    } else {
      JoinIsBulletText(lines[0], lines[1..], bullets[1..]);
      assert ([first] + lines)[1..] == lines == [lines[0]] + lines[1..];
      Associates("\n", lines[0], BulletText(bullets[1..]));
      Associates(first, "\n", lines[0] + BulletText(bullets[1..]));
    }
  }

  lemma {:induction false} MessageMore(ss: seq<Section>, s: Section)
    requires ss != []
    ensures Message(ss + [s]) == Message(ss) + "\n\n" + s.shown
  {
    if |ss| > 1 {
      MessageMore(ss[1..], s);
      assert (ss + [s])[1..] == ss[1..] + [s];
      Associates(ss[0].shown + "\n\n", Message(ss[1..]) + "\n\n", s.shown);
      Associates(ss[0].shown + "\n\n", Message(ss[1..]), "\n\n");
    } else {
      assert (ss + [s])[1..] == [s] && ss + [s] != [];
    }
  }

  /** A message of built items and a repair section is as clean as the built items are. */
  lemma RepairedIsCleanExactly(t: Terms, xs: seq<Item>, nonce: string, order: seq<string>, x: Item)
    requires Sound(t) && ItemsOk(t, xs, nonce) && x.Repair? && ItemOk(t, x, nonce)
    requires LongestFirst(order, Constants(t)) && NoEmpty(order)
    ensures var user := Message(Sections(t, xs, nonce)) + "\n\n" + ItemText(t, x, nonce);
            Violations(user, nonce, order, t.enums) == [] <==> WholeMinuteItems(xs)
  {
    if xs == [] {
      EmptySentence(t, nonce);
      RepairedSomething(t, [Sentence([])], nonce, order, x);
    } else {
      RepairedSomething(t, xs, nonce, order, x);
    }
  }

  /** An empty message is one empty sentence. */
  lemma EmptySentence(t: Terms, nonce: string)
    ensures ItemsOk(t, [Sentence([])], nonce) && WholeMinuteItems([Sentence([])])
    ensures Message(Sections(t, [Sentence([])], nonce)) == "" == Message(Sections(t, [], nonce))
  {
    assert ItemText(t, Sentence([]), nonce) == "";
    assert Sections(t, [Sentence([])], nonce) == [Section("", false)];
  }

  lemma RepairSaysNoTime(xs: seq<Item>, x: Item)
    requires x.Repair?
    ensures WholeMinuteItems(xs + [x]) <==> WholeMinuteItems(xs)
  {
    var all := xs + [x];
    assert all[|xs|] == x && forall i :: 0 <= i < |xs| ==> all[i] == xs[i];
  }

  lemma RepairedMessage(t: Terms, xs: seq<Item>, nonce: string, x: Item)
    requires ItemsOk(t, xs, nonce) && x.Repair? && ItemOk(t, x, nonce) && xs != []
    ensures ItemsOk(t, xs + [x], nonce)
    ensures Message(Sections(t, xs + [x], nonce)) ==
            Message(Sections(t, xs, nonce)) + "\n\n" + ItemText(t, x, nonce)
  {
    B.SectionsMore(t, xs, x, nonce);
    MessageMore(Sections(t, xs, nonce), Section(ItemText(t, x, nonce), false));
  }

  lemma RepairedSomething(t: Terms, xs: seq<Item>, nonce: string, order: seq<string>, x: Item)
    requires Sound(t) && ItemsOk(t, xs, nonce) && x.Repair? && ItemOk(t, x, nonce) && xs != []
    requires LongestFirst(order, Constants(t)) && NoEmpty(order)
    ensures var user := Message(Sections(t, xs, nonce)) + "\n\n" + ItemText(t, x, nonce);
            Violations(user, nonce, order, t.enums) == [] <==> WholeMinuteItems(xs)
  {
    RepairedMessage(t, xs, nonce, x);
    BuiltMessageIsCleanExactly(t, xs + [x], nonce, order);
    RepairSaysNoTime(xs, x);
  }

  // ---- the lines as bullets -----------------------------------------------------------------------------

  ghost predicate IsBullet(line: string, b: (string, string)) {
    line == "- " + b.0 + ": " + b.1
  }

  ghost predicate HasBullet(line: string, t: Terms) {
    exists b :: IsBullet(line, b) && BulletOk(t, b)
  }

  lemma {:induction false} LinesAreBullets(lines: seq<string>, t: Terms) returns (bullets: seq<(string, string)>)
    requires forall line <- lines :: HasBullet(line, t)
    ensures |bullets| == |lines|
    ensures forall i :: 0 <= i < |lines| ==> IsBullet(lines[i], bullets[i]) && BulletOk(t, bullets[i])
  {
    bullets := [];
    if lines != [] {
      assert HasBullet(lines[0], t);
      var b :| IsBullet(lines[0], b) && BulletOk(t, b);
      var rest := LinesAreBullets(lines[1..], t);
      bullets := [b] + rest;
    }
  }

  lemma LineIsBullet(line: string, known: map<string, R.PathKind>, texts: set<string>)
    requires R.ValueFree(line, known, texts)
    requires (forall p <- known :: PathLike(p)) && (forall m <- texts :: MessageLike(m))
    ensures HasBullet(line, RepairTerms(known.Keys, texts))
  {
    var path, text :| (path in known || path == "<root>") && text in texts && line == "- " + path + ": " + text;
    if path in known { PathConstantIsSound(path); } else { RootConstantIsSound(); }
    assert IsBullet(line, (path, text)) && BulletOk(RepairTerms(known.Keys, texts), (path, text));
  }

  /** The repair section, line by line. */
  lemma JoinIsRepairText(heading: string, sentence: string, lines: seq<string>, bullets: seq<(string, string)>)
    requires |lines| == |bullets| && forall i :: 0 <= i < |lines| ==> IsBullet(lines[i], bullets[i])
    ensures Join("\n", [heading] + ([sentence] + lines)) == heading + ("\n" + (sentence + BulletText(bullets)))
  {
    var rest := [sentence] + lines;
    assert forall i :: 0 <= i < |lines| ==> IsBullet(lines[i], bullets[i]);
    JoinIsBulletText(sentence, lines, bullets);
    assert ([heading] + rest)[1..] == rest;
    Associates(heading, "\n", sentence + BulletText(bullets));
  }

  /** The builder's items mean the same under more constants for the linter. */
  lemma {:induction false} SameSections(t: Terms, extras: set<string>, xs: seq<Item>, nonce: string)
    requires ItemsOk(t, xs, nonce) && t.extras <= extras
    ensures var u := t.(extras := extras); ItemsOk(u, xs, nonce) && Sections(u, xs, nonce) == Sections(t, xs, nonce)
  {
    if xs != [] {
      SameItem(t, extras, xs[0], nonce);
      SameSections(t, extras, xs[1..], nonce);
      assert xs == [xs[0]] + xs[1..];
    }
  }

  lemma SameItem(t: Terms, extras: set<string>, x: Item, nonce: string)
    requires ItemOk(t, x, nonce) && t.extras <= extras
    ensures var u := t.(extras := extras); ItemOk(u, x, nonce) && ItemText(u, x, nonce) == ItemText(t, x, nonce)
  {
    if x.Line? { SameParts(t, extras, x.parts); }
    if x.Repair? {
      forall i | 0 <= i < |x.bullets| ensures BulletOk(t.(extras := extras), x.bullets[i]) {
        assert BulletOk(t, x.bullets[i]);
      }
    }
  }

  lemma {:induction false} SameParts(t: Terms, extras: set<string>, parts: seq<Part>)
    requires forall i :: 0 <= i < |parts| ==> PartOk(t, parts[i])
    ensures var u := t.(extras := extras);
            && (forall i :: 0 <= i < |parts| ==> PartOk(u, parts[i]))
            && PartTexts(u, parts) == PartTexts(t, parts)
  {
    if parts != [] { SameParts(t, extras, parts[1..]); }
  }

  // ---- the repair round passes its own linter -------------------------------------------------------------

  /** Any value-free lines: the repaired message is clean exactly when the first message was. */
  lemma ValueFreeLinesPassExactly(xs: seq<Item>, nonce: string, order: seq<string>, heading: string, sentence: string,
                                  lines: seq<string>, known: map<string, R.PathKind>, texts: set<string>)
    requires ItemsOk(TEMPLATE, xs, nonce) && heading in Core(TEMPLATE) && sentence in Core(TEMPLATE)
    requires (forall p <- known :: PathLike(p)) && (forall m <- texts :: MessageLike(m))
    requires forall line <- lines :: R.ValueFree(line, known, texts)
    requires LongestFirst(order, Constants(RepairTerms(known.Keys, texts))) && NoEmpty(order)
    ensures var user := RepairUser(Message(Sections(TEMPLATE, xs, nonce)), heading, sentence, lines);
            Violations(user, nonce, order, ENUM_VALUES) == [] <==> WholeMinuteItems(xs)
  {
    var t := RepairTerms(known.Keys, texts);
    ExtrasAreSound(known.Keys, texts);
    forall line | line in lines ensures HasBullet(line, t) { LineIsBullet(line, known, texts); }
    var bullets := LinesAreBullets(lines, t);
    var x := Repair(heading, sentence, bullets);
    SameSections(TEMPLATE, t.extras, xs, nonce);
    JoinIsRepairText(heading, sentence, lines, bullets);
    RepairedIsCleanExactly(t, xs, nonce, order, x);
  }

  /** What the parser of a model's answer reports: no JSON object at all, or the validator's messages. */
  function AnswerErrors(node: S.Node, parsed: Option<S.Json>): seq<string> {
    if parsed.None? || !parsed.value.Object? then [S.Error(ROOT, "expected a JSON object")]
    else S.Validate("", node, parsed.value)
  }

  lemma AnswerLinesAreValueFree(node: S.Node, parsed: Option<S.Json>)
    requires R.IsRepairSchema(node) && (parsed.Some? ==> R.StrayKeysHide(node, parsed.value))
    ensures forall line <- R.RepairLines(R.RepairPaths(), AnswerErrors(node, parsed)) ::
              R.ValueFree(line, R.RepairPaths(), R.RepairTexts())
  {
    if parsed.None? || !parsed.value.Object? {
      RootErrorLine(R.RepairPaths(), R.RepairTexts());
    } else {
      R.RepairRoundIsValueFreeExactly(node, parsed.value);
    }
  }

  lemma RootErrorLine(known: map<string, R.PathKind>, texts: set<string>)
    requires "expected a JSON object" in texts
    ensures R.ValueFree(R.RepairLine(known, S.Error(ROOT, "expected a JSON object")), known, texts)
  {
    var message := "expected a JSON object";
    R.ColonFreeHides(ROOT);
    R.ErrorSplits(ROOT, message);
    R.PlainIsWhole(ROOT);
    assert R.RepairLine(known, S.Error(ROOT, message)) == "- " + ROOT + ": " + message;
  }

  /** The repair round, for any answer of the model no undeclared key of which has a colon and a blank: the
      repaired message never fails its linter where the first message did not. */
  lemma RepairPromptPassesExactly(xs: seq<Item>, nonce: string, order: seq<string>, node: S.Node,
                                  parsed: Option<S.Json>)
    requires ItemsOk(TEMPLATE, xs, nonce) && R.IsRepairSchema(node)
    requires parsed.Some? ==> R.StrayKeysHide(node, parsed.value)
    requires LongestFirst(order, Constants(RepairVocabulary())) && NoEmpty(order)
    ensures var lines := R.RepairLines(R.RepairPaths(), AnswerErrors(node, parsed));
            var first := Message(Sections(TEMPLATE, xs, nonce));
            var user := RepairUser(first, Phrase(HEADING_REPAIR), Phrase(SENTENCE_REPAIR), lines);
            Violations(user, nonce, order, ENUM_VALUES) == [] <==> WholeMinuteItems(xs)
  {
    RepairPartsAreSound();
    AnswerLinesAreValueFree(node, parsed);
    assert HEADING_REPAIR in TEMPLATE.phrases && SENTENCE_REPAIR in TEMPLATE.phrases;
    ValueFreeLinesPassExactly(xs, nonce, order, Phrase(HEADING_REPAIR), Phrase(SENTENCE_REPAIR),
                              R.RepairLines(R.RepairPaths(), AnswerErrors(node, parsed)), R.RepairPaths(),
                              R.RepairTexts());
  }
}
