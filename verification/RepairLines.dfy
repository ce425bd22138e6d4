/** The repair prompt's bullets: a schema path and a fixed message, and nothing of the model's. */
module RepairLines {
  import opened Common
  import opened Text
  import opened Schemas

  const MESSAGES: set<string> := {
    "missing", "unexpected key", "expected object", "expected array", "expected non-empty array", "expected boolean",
    "expected integer", "expected string", "expected string or null", "expected a JSON object"
  }

  datatype PathKind = ObjectPath | ArrayPath | LeafPath

  // ---- the schema's own paths ---------------------------------------------------------------------

  function Paths(node: Node, prefix: string): map<string, PathKind>
    decreases node
  {
    match node
    case ObjectNode(fields) => (if prefix == "" then map[] else map[prefix := ObjectPath]) + FieldPaths(fields, prefix)
    case ArrayNode(item) => map[prefix := ArrayPath] + Paths(item, prefix + "[]")
    case _ => map[prefix := LeafPath]
  }

  function FieldPaths(fields: Fields, prefix: string): map<string, PathKind>
    decreases fields
  {
    match fields
    case End => map[]
    case Field(key, node, rest) => Paths(node, Dotted(prefix, key)) + FieldPaths(rest, prefix)
  }

  /** Every enum leaf's own message. */
  function Vocabularies(node: Node): set<string>
    decreases node
  {
    match node
    case ObjectNode(fields) => FieldVocabularies(fields)
    case ArrayNode(item) => Vocabularies(item)
    case Leaf(spec) =>
      var words := Alternatives(spec, "");
      var values := NotNull(words);
      if "string" !in words && forall i :: 0 <= i < |values| ==> IsEnumToken(values[i])
      then {"expected one of " + Bars(values)} else {}
    case _ => {}
  }

  function FieldVocabularies(fields: Fields): set<string>
    decreases fields
  {
    match fields
    case End => {}
    case Field(_, node, rest) => Vocabularies(node) + FieldVocabularies(rest)
  }

  // ---- one line -----------------------------------------------------------------------------------

  /** `text.partition(": ")` from position `i` on: before and after, or all and nothing. */
  function Partition(text: string, i: nat): (string, string)
    requires i <= |text|
    decreases |text| - i
  {
    if i == |text| then (text, "")
    else if At(text, i, ": ") then (text[..i], text[i + 2..])
    else Partition(text, i + 1)
  }

  function DigitRun(text: string): nat {
    if text != "" && IsDigit(text[0]) then 1 + DigitRun(text[1..]) else 0
  }

  lemma {:induction false} DigitRunBound(text: string)
    ensures DigitRun(text) <= |text|
  {
    if text != "" { DigitRunBound(text[1..]); }
  }

  /** The length of `\[\d+\]` at the front, or zero. */
  function IndexHere(text: string): (n: nat)
    ensures n <= |text| && (n > 0 ==> text[0] == '[')
  {
    if text == "" || text[0] != '[' then 0
    else
      var d := DigitRun(text[1..]);
      DigitRunBound(text[1..]);
      if d > 0 && d + 1 < |text| && text[d + 1] == ']' then d + 2 else 0
  }

  /** Array indices in the schema's `[]` form. */
  function Normalised(text: string): string {
    if text == "" then ""
    else if IndexHere(text) > 0 then "[]" + Normalised(text[IndexHere(text)..])
    else [text[0]] + Normalised(text[1..])
  }

  /** `path.rsplit(".", 1)[0]`, or nothing when there is no dot. */
  function UpToLastDot(path: string): (front: string)
    ensures path != "" ==> |front| < |path|
  {
    if path == "" then "" else if path[|path| - 1] == '.' then path[..|path| - 1] else UpToLastDot(path[..|path| - 1])
  }

  function ObjectPrefix(known: map<string, PathKind>, path: string): string
    decreases |path|
  {
    if path != "" && !(path in known && known[path].ObjectPath?) then ObjectPrefix(known, UpToLastDot(path)) else path
  }

  method FindObjectPrefix(known: map<string, PathKind>, start: string) returns (path: string)
    ensures path == ObjectPrefix(known, start)
    ensures path == "" || (path in known && known[path].ObjectPath?)
  {
    path := start;
    while path != "" && !(path in known && known[path].ObjectPath?)
      invariant ObjectPrefix(known, path) == ObjectPrefix(known, start)
      decreases |path|
    {
      path := UpToLastDot(path);
    }
  }

  function RepairLine(known: map<string, PathKind>, error: string): string {
    var (raw, message) := Partition(error, 0);
    var path := Normalised(raw);
    var shown := if message == "unexpected key" then ObjectPrefix(known, path) else path;
    "- " + (if shown == "" then "<root>" else shown) + ": " + message
  }

  // ---- splitting an error ---------------------------------------------------------------------------

  lemma {:induction false} SplitsAt(text: string, i: nat, at: nat)
    requires i <= at <= |text| && At(text, at, ": ")
    requires forall k: nat :: i <= k < at ==> !At(text, k, ": ")
    ensures Partition(text, i) == (text[..at], text[at + 2..])
    decreases at - i
  {
    if i < at { SplitsAt(text, i + 1, at); }
  }

  /** A path without a colon and a blank is found whole again. */
  lemma ErrorSplits(path: string, message: string)
    requires !Contains(path, ": ")
    ensures Partition(Error(path, message), 0) == (path, message)
  {
    var text := Error(path, message);
    assert text == path + (": " + message);
    assert text[|path|..|path| + 2] == ": ";
    forall k: nat | k < |path| ensures !At(text, k, ": ") {
      if k + 2 <= |path| {
        AtFront(path, ": " + message, k, ": ");
      } else {
        assert text[k + 1] == ':';
        SecondOf(text, k);
      }
    }
    SplitsAt(text, 0, |path|);
    assert text[..|path|] == path && text[|path| + 2..] == message;
  }

  lemma SecondOf(text: string, k: nat)
    ensures At(text, k, ": ") ==> text[k + 1] == ' '
  {
    if At(text, k, ": ") { AtChars(text, k, ": "); }
  }

  // ---- normalising a path ---------------------------------------------------------------------------

  predicate Apart(a: string, b: string) {
    Normalised(a + b) == Normalised(a) + Normalised(b)
  }

  /** No index begins in `a` and runs over its end. */
  ghost predicate Whole(a: string) {
    forall b: string :: Apart(a, b)
  }

  lemma ApartInSteps(a: string, b: string, c: string)
    requires Apart(a, b) && Apart(b, c) && Apart(a, b + c)
    ensures Apart(a + b, c)
  {
    Associates(a, b, c);
    Associates(Normalised(a), Normalised(b), Normalised(c));
  }

  lemma WholeParts(a: string, b: string)
    requires Whole(a) && Whole(b)
    ensures Whole(a + b) && Normalised(a + b) == Normalised(a) + Normalised(b)
  {
    assert Apart(a, b);
    forall c: string ensures Apart(a + b, c) {
      assert Apart(b, c) && Apart(a, b + c);
      ApartInSteps(a, b, c);
    }
  }

  lemma {:induction false} PlainIsWhole(key: string)
    requires '[' !in key
    ensures Whole(key) && Normalised(key) == key
  {
    CopiesPlain(key, "");
    assert key + "" == key;
    forall b: string ensures Apart(key, b) { CopiesPlain(key, b); }
  }

  lemma {:induction false} CopiesPlain(key: string, b: string)
    requires '[' !in key
    ensures Normalised(key + b) == key + Normalised(b)
  {
    if key == "" {
      assert key + b == b;
    } else {
      assert key[0] in key;
      CopiesPlain(key[1..], b);
      assert (key + b)[1..] == key[1..] + b;
    }
  }

  lemma {:induction false} DigitRunOf(d: string, b: string)
    requires (forall i :: 0 <= i < |d| ==> IsDigit(d[i])) && b != "" && !IsDigit(b[0])
    ensures DigitRun(d + b) == |d|
  {
    if d == "" {
      assert d + b == b;
    } else {
      assert (d + b)[1..] == d[1..] + b;
      DigitRunOf(d[1..], b);
    }
  }

  lemma IndexIsWhole(i: nat)
    ensures Whole("[" + Decimal(i) + "]") && Normalised("[" + Decimal(i) + "]") == "[]"
  {
    var index := "[" + Decimal(i) + "]";
    IndexGoes(i, "");
    assert index + "" == index;
    forall b: string ensures Apart(index, b) { IndexGoes(i, b); }
  }

  lemma DigitsGo(d: string, b: string)
    requires d != "" && forall i :: 0 <= i < |d| ==> IsDigit(d[i])
    ensures Normalised("[" + d + "]" + b) == "[]" + Normalised(b)
  {
    var text := "[" + d + "]" + b;
    DigitRunOf(d, "]" + b);
    assert text[1..] == d + ("]" + b);
    assert text[|d| + 1] == ']';
    assert IndexHere(text) == |d| + 2;
    assert text[|d| + 2..] == b;
  }

  lemma IndexGoes(i: nat, b: string)
    ensures Normalised("[" + Decimal(i) + "]" + b) == "[]" + Normalised(b)
  {
    DecimalIsDigits(i);
    DigitsGo(Decimal(i), b);
  }

  lemma NormalisedOfSome(text: string)
    requires text != ""
    ensures Normalised(text) != ""
  {
  }

  // ---- where the validator is ---------------------------------------------------------------------------

  /** A schema key: no dot would matter, but no bracket and no colon. */
  predicate PlainKey(key: string) {
    key != "" && forall i :: 0 <= i < |key| ==> key[i] !in {'[', ':'}
  }

  predicate PlainKeys(node: Node)
    decreases node
  {
    match node
    case ObjectNode(fields) => PlainFields(fields)
    case ArrayNode(item) => PlainKeys(item)
    case _ => true
  }

  predicate PlainFields(fields: Fields)
    decreases fields
  {
    match fields
    case End => true
    case Field(key, node, rest) => PlainKey(key) && PlainKeys(node) && PlainFields(rest)
  }

  /** No key the validator will report has a colon followed by a blank: the members an object's node does
      not declare, at every place the schema reaches. Keys below an undeclared key are never looked at. */
  ghost predicate StrayKeysHide(node: Node, v: Json)
    decreases node, 0
  {
    match node
    case ObjectNode(fields) =>
      v.Object? ==> HiddenBut(KeysOf(fields), v.members) && FieldsHide(fields, v.members)
    case ArrayNode(item) => v.Array? ==> ItemsHide(item, v.items, |v.items|)
    case _ => true
  }

  ghost predicate ItemsHide(item: Node, items: seq<Json>, n: nat)
    requires n <= |items|
    decreases item, n + 1
  {
    n == 0 || (ItemsHide(item, items, n - 1) && StrayKeysHide(item, items[n - 1]))
  }

  ghost predicate FieldsHide(fields: Fields, members: seq<(string, Json)>)
    decreases fields, 1
  {
    match fields
    case End => true
    case Field(key, node, rest) =>
      (Member(members, key).Some? ==> StrayKeysHide(node, Member(members, key).value)) && FieldsHide(rest, members)
  }

  ghost predicate HiddenBut(known: set<string>, members: seq<(string, Json)>) {
    forall i :: 0 <= i < |members| && members[i].0 !in known ==> !Contains(members[i].0, ": ")
  }

  /** `path` is where the validator is, `prefix` the schema path it normalises to. */
  ghost predicate Stands(path: string, prefix: string) {
    Whole(path) && Normalised(path) == prefix && ':' !in path
  }

  lemma StandsAtField(path: string, prefix: string, key: string)
    requires Stands(path, prefix) && PlainKey(key)
    ensures Stands(Dotted(path, key), Dotted(prefix, key))
  {
    PlainIsWhole(key);
    if path != "" {
      NormalisedOfSome(path);
      PlainIsWhole(".");
      WholeParts(path, ".");
      WholeParts(path + ".", key);
    }
  }

  lemma StandsAtItem(path: string, prefix: string, i: nat)
    requires Stands(path, prefix)
    ensures Stands(Indexed(path, i), prefix + "[]")
  {
    IndexIsWhole(i);
    DecimalIsDigits(i);
    WholeParts(path, "[" + Decimal(i) + "]");
    assert ':' !in "[" + Decimal(i) + "]";
  }

  lemma ColonFreeHides(path: string)
    requires ':' !in path
    ensures !Contains(path, ": ")
  {
    forall k: nat ensures !At(path, k, ": ") {
      FirstOf(path, k);
      if k < |path| { assert path[k] in path; }
    }
  }

  lemma UnexpectedPathHidesExactly(path: string, key: string)
    requires ':' !in path
    ensures Contains(Dotted(path, key), ": ") <==> Contains(key, ": ")
  {
    if path != "" {
      var front := path + ".";
      forall k: nat | k <= |path| ensures !At(front + key, k, ": ") { FirstOf(front + key, k); }
      forall k: nat ensures At(front + key, |front| + k, ": ") <==> At(key, k, ": ") { ShiftAt(front, key, k, ": "); }
      if Contains(front + key, ": ") {
        var k: nat :| At(front + key, k, ": ");
        assert At(key, k - |front|, ": ");
      }
    }
  }

  lemma FirstOf(text: string, k: nat)
    ensures At(text, k, ": ") ==> text[k] == ':'
  {
    if At(text, k, ": ") { AtChars(text, k, ": "); }
  }

  // ---- every message -------------------------------------------------------------------------------------

  /** A message the repair line can place: at a known path with a fixed text, or about a key the model
      made up, wherever that is. */
  ghost predicate Placed(e: string, known: map<string, PathKind>, texts: set<string>) {
    exists path, text :: PlacedAt(e, path, text, known, texts)
  }

  ghost predicate PlacedAt(e: string, path: string, text: string, known: map<string, PathKind>, texts: set<string>) {
    && e == Error(path, text) && !Contains(path, ": ")
    && (|| text == "unexpected key"
        || ((Normalised(path) == "" || Normalised(path) in known) && text in texts))
  }

  ghost predicate AllPlaced(es: seq<string>, known: map<string, PathKind>, texts: set<string>) {
    forall i :: 0 <= i < |es| ==> Placed(es[i], known, texts)
  }

  /** A message about a made-up key that will be split inside the key. */
  ghost predicate Cut(e: string) {
    exists path :: CutAt(e, path)
  }

  ghost predicate CutAt(e: string, path: string) {
    e == Error(path, "unexpected key") && Contains(path, ": ")
  }

  ghost predicate SomeCut(es: seq<string>) {
    exists i :: 0 <= i < |es| && Cut(es[i])
  }

  lemma PlacedHere(path: string, prefix: string, text: string, known: map<string, PathKind>, texts: set<string>)
    requires Stands(path, prefix) && (prefix == "" || prefix in known) && text in texts
    ensures AllPlaced([Error(path, text)], known, texts)
  {
    ColonFreeHides(path);
    assert PlacedAt(Error(path, text), path, text, known, texts);
  }

  /** A node's own prefix is among its paths. */
  lemma OwnPath(node: Node, prefix: string)
    ensures prefix == "" || prefix in Paths(node, prefix)
  {
  }

  lemma {:induction false} UnexpectedArePlacedExactly(path: string, known: set<string>, members: seq<(string, Json)>,
                                                      paths: map<string, PathKind>, texts: set<string>)
    requires ':' !in path
    ensures PlacedOrCut(Unexpected(path, known, members), paths, texts, HiddenBut(known, members))
  {
    if members != [] {
      var key, rest := members[0].0, members[1..];
      UnexpectedArePlacedExactly(path, known, rest, paths, texts);
      assert members == [members[0]] + rest;
      assert HiddenBut(known, members) <==> (key in known || !Contains(key, ": ")) && HiddenBut(known, rest);
      UnexpectedPathHidesExactly(path, key);
      var e := Error(Dotted(path, key), "unexpected key");
      if key !in known {
        SomeCutOfTwo([e], Unexpected(path, known, rest));
        if Contains(key, ": ") {
          assert CutAt(e, Dotted(path, key));
          assert Cut(Unexpected(path, known, members)[0]);
        } else {
          assert PlacedAt(e, Dotted(path, key), "unexpected key", paths, texts);
        }
      }
    }
  }

  /** Either every message can be placed, or one is cut inside a made-up key: and which it is, the keys
      the schema does not declare decide. */
  lemma {:induction false} MessagesArePlacedExactly(path: string, prefix: string, node: Node, v: Json,
                                                    known: map<string, PathKind>, texts: set<string>)
    requires Stands(path, prefix) && PlainKeys(node)
    requires Paths(node, prefix).Keys <= known.Keys && Vocabularies(node) <= texts && MESSAGES <= texts
    ensures PlacedOrCut(Validate(path, node, v), known, texts, StrayKeysHide(node, v))
    decreases node, 0
  {
    OwnPath(node, prefix);
    match node
    case ObjectNode(fields) =>
      if v.Object? {
        FieldMessagesArePlacedExactly(path, prefix, fields, v.members, known, texts);
        UnexpectedArePlacedExactly(path, KeysOf(fields), v.members, known, texts);
        BothPlacedOrCut(ValidateFields(path, fields, v.members), Unexpected(path, KeysOf(fields), v.members),
                        known, texts, FieldsHide(fields, v.members), HiddenBut(KeysOf(fields), v.members));
      } else {
        PlacedHere(path, prefix, "expected object", known, texts);
      }
    case ArrayNode(item) =>
      PlacedHere(path, prefix, "expected array", known, texts);
      PlacedHere(path, prefix, "expected non-empty array", known, texts);
      if v.Array? {
        ItemMessagesArePlacedExactly(path, prefix, item, v.items, |v.items|, known, texts);
        BothPlacedOrCut(
          if NonEmptyWanted(item) && v.items == [] then [Error(path, "expected non-empty array")] else [],
          ValidateItems(path, item, v.items, |v.items|), known, texts, true, ItemsHide(item, v.items, |v.items|));
      }
    case BoolNode => PlacedHere(path, prefix, "expected boolean", known, texts);
    case IntNode => PlacedHere(path, prefix, "expected integer", known, texts);
    case Leaf(spec) =>
      LeafTextIsFixed(spec);
      PlacedHere(path, prefix, LeafText(Classify(spec)), known, texts);
  }

  ghost predicate PlacedOrCut(es: seq<string>, known: map<string, PathKind>, texts: set<string>, hidden: bool) {
    if hidden then AllPlaced(es, known, texts) else SomeCut(es)
  }

  lemma BothPlacedOrCut(a: seq<string>, b: seq<string>, known: map<string, PathKind>, texts: set<string>, p: bool,
                        q: bool)
    requires PlacedOrCut(a, known, texts, p) && PlacedOrCut(b, known, texts, q)
    ensures PlacedOrCut(a + b, known, texts, p && q)
  {
    SomeCutOfTwo(a, b);
  }

  lemma SomeCutOfTwo(a: seq<string>, b: seq<string>)
    ensures SomeCut(a + b) <==> SomeCut(a) || SomeCut(b)
  {
    if SomeCut(a) {
      var i :| 0 <= i < |a| && Cut(a[i]);
      assert Cut((a + b)[i]);
    }
    if SomeCut(b) {
      var i :| 0 <= i < |b| && Cut(b[i]);
      assert Cut((a + b)[|a| + i]);
    }
  }

  lemma {:induction false} TokensNotNull(words: seq<string>)
    requires forall i :: 0 <= i < |words| ==> IsEnumToken(words[i])
    ensures forall i :: 0 <= i < |NotNull(words)| ==> IsEnumToken(NotNull(words)[i])
  {
    if words != [] { TokensNotNull(words[1..]); }
  }

  lemma LeafTextIsFixed(spec: string)
    ensures LeafText(Classify(spec)) in MESSAGES + Vocabularies(Leaf(spec))
  {
    var words := Alternatives(spec, "");
    if forall i :: 0 <= i < |words| ==> IsEnumToken(words[i]) { TokensNotNull(words); }
  }

  lemma {:induction false} FieldMessagesArePlacedExactly(path: string, prefix: string, fields: Fields,
                                                         members: seq<(string, Json)>, known: map<string, PathKind>,
                                                         texts: set<string>)
    requires Stands(path, prefix) && PlainFields(fields)
    requires FieldPaths(fields, prefix).Keys <= known.Keys && FieldVocabularies(fields) <= texts && MESSAGES <= texts
    ensures PlacedOrCut(ValidateFields(path, fields, members), known, texts, FieldsHide(fields, members))
    decreases fields, 1
  {
    if fields.Field? {
      var at, below := Dotted(path, fields.key), Dotted(prefix, fields.key);
      var found := Member(members, fields.key);
      StandsAtField(path, prefix, fields.key);
      OwnPath(fields.node, below);
      PlacedHere(at, below, "missing", known, texts);
      if found.Some? { MessagesArePlacedExactly(at, below, fields.node, found.value, known, texts); }
      FieldMessagesArePlacedExactly(path, prefix, fields.rest, members, known, texts);
      BothPlacedOrCut(if found.None? then [Error(at, "missing")] else Validate(at, fields.node, found.value),
                      ValidateFields(path, fields.rest, members), known, texts,
                      found.Some? ==> StrayKeysHide(fields.node, found.value), FieldsHide(fields.rest, members));
    }
  }

  lemma {:induction false} ItemMessagesArePlacedExactly(path: string, prefix: string, item: Node, items: seq<Json>,
                                                        n: nat, known: map<string, PathKind>, texts: set<string>)
    requires n <= |items| && Stands(path, prefix) && PlainKeys(item)
    requires Paths(item, prefix + "[]").Keys <= known.Keys && Vocabularies(item) <= texts && MESSAGES <= texts
    ensures PlacedOrCut(ValidateItems(path, item, items, n), known, texts, ItemsHide(item, items, n))
    decreases item, n + 1
  {
    if n > 0 {
      ItemMessagesArePlacedExactly(path, prefix, item, items, n - 1, known, texts);
      StandsAtItem(path, prefix, n - 1);
      MessagesArePlacedExactly(Indexed(path, n - 1), prefix + "[]", item, items[n - 1], known, texts);
      var before, last := ItemsHide(item, items, n - 1), StrayKeysHide(item, items[n - 1]);
      BothPlacedOrCut(ValidateItems(path, item, items, n - 1), Validate(Indexed(path, n - 1), item, items[n - 1]),
                      known, texts, before, last);
    }
  }

  // ---- the lines --------------------------------------------------------------------------------------------

  /** A bullet of a schema path, or the root, and a fixed text. */
  ghost predicate ValueFree(line: string, known: map<string, PathKind>, texts: set<string>) {
    exists path, text :: (path in known || path == "<root>") && text in texts && line == "- " + path + ": " + text
  }

  lemma {:induction false} ObjectPrefixIsKnown(known: map<string, PathKind>, path: string)
    ensures var p := ObjectPrefix(known, path); p == "" || (p in known && known[p].ObjectPath?)
    decreases |path|
  {
    if path != "" && !(path in known && known[path].ObjectPath?) { ObjectPrefixIsKnown(known, UpToLastDot(path)); }
  }

  lemma PlacedIsValueFree(e: string, known: map<string, PathKind>, texts: set<string>)
    requires Placed(e, known, texts) && "unexpected key" in texts
    ensures ValueFree(RepairLine(known, e), known, texts)
  {
    var path, text :| PlacedAt(e, path, text, known, texts);
    ErrorSplits(path, text);
    ObjectPrefixIsKnown(known, Normalised(path));
    var p := if text == "unexpected key" then ObjectPrefix(known, Normalised(path)) else Normalised(path);
    var shown := if p == "" then "<root>" else p;
    assert RepairLine(known, e) == "- " + shown + ": " + text;
  }

  /** The colon comes only after the path. */
  ghost predicate ColonFree(known: map<string, PathKind>, texts: set<string>) {
    (forall p <- known :: ':' !in p) && (forall m <- texts :: ':' !in m)
  }

  /** A value-free bullet has one colon followed by a blank. */
  lemma ValueFreeSplitsOnce(line: string, known: map<string, PathKind>, texts: set<string>, i: nat, j: nat)
    requires ValueFree(line, known, texts) && ColonFree(known, texts)
    requires At(line, i, ": ") && At(line, j, ": ")
    ensures i == j
  {
    var path, text :| (path in known || path == "<root>") && text in texts && line == "- " + path + ": " + text;
    FirstOf(line, i);
    FirstOf(line, j);
    BulletChars(path, text);
  }

  lemma BulletChars(path: string, text: string)
    ensures var line := "- " + path + ": " + text;
            forall k :: 0 <= k < |line| ==>
                          k == 2 + |path| || line[k] in {'-', ' '} || line[k] in path || line[k] in text
  {
    var line := "- " + path + ": " + text;
    forall k | 0 <= k < |line| && k != 2 + |path| ensures line[k] in {'-', ' '} || line[k] in path || line[k] in text {
      if 2 <= k < 2 + |path| {
        assert line[k] == path[k - 2];
      } else if k >= 4 + |path| {
        assert line[k] == text[k - 4 - |path|];
      }
    }
  }

  /** The first colon and blank of a text. */
  lemma {:induction false} FirstSplit(text: string, i: nat) returns (at: nat)
    requires exists k: nat :: i <= k && At(text, k, ": ")
    ensures i <= at && At(text, at, ": ") && forall k: nat :: i <= k < at ==> !At(text, k, ": ")
    decreases |text| - i
  {
    if At(text, i, ": ") {
      at := i;
    } else {
      var k: nat :| i <= k && At(text, k, ": ");
      assert i + 1 <= k;
      at := FirstSplit(text, i + 1);
    }
  }

  lemma SplitPath(path: string) returns (a: string, b: string)
    requires Contains(path, ": ")
    ensures path == a + ": " + b && !Contains(a, ": ")
  {
    var at := FirstSplit(path, 0);
    a, b := path[..at], path[at + 2..];
    assert path == a + (": " + b) by { assert path[at..at + 2] == ": "; }
    forall k: nat ensures !At(a, k, ": ") {
      if k + 2 <= |a| { AtFront(a, ": " + b, k, ": "); }
    }
  }

  /** A message cut inside a made-up key carries the rest of the key: no value-free bullet. */
  lemma CutIsNotValueFree(e: string, known: map<string, PathKind>, texts: set<string>)
    requires Cut(e) && ColonFree(known, texts)
    ensures !ValueFree(RepairLine(known, e), known, texts)
  {
    var path :| CutAt(e, path);
    var a, b := SplitPath(path);
    KeyIsCut(known, a, b);
    assert e == Error(a + ": " + b, "unexpected key");
    var shown := if Normalised(a) == "" then "<root>" else Normalised(a);
    SplitsTwice(shown, b);
    if ValueFree(RepairLine(known, e), known, texts) {
      ValueFreeSplitsOnce(RepairLine(known, e), known, texts, 2 + |shown|, 4 + |shown| + |b|);
    }
  }

  lemma SplitsTwice(shown: string, b: string)
    ensures var line := "- " + shown + ": " + (b + ": unexpected key");
            At(line, 2 + |shown|, ": ") && At(line, 4 + |shown| + |b|, ": ")
  {
    var line := "- " + shown + ": " + (b + ": unexpected key");
    var i, j := 2 + |shown|, 4 + |shown| + |b|;
    assert line[i..i + 2] == ": ";
    var front, rest := "- " + shown + ": " + b, ": unexpected key";
    assert line == front + rest;
    assert |front| == j && rest[0] == ':' && rest[1] == ' ';
    assert line[j..j + 2] == ": ";
  }

  /** A made-up key with a colon and a blank is cut there, and the line carries what follows. */
  lemma KeyIsCut(known: map<string, PathKind>, a: string, b: string)
    requires !Contains(a, ": ")
    ensures RepairLine(known, Error(a + ": " + b, "unexpected key")) ==
            "- " + (if Normalised(a) == "" then "<root>" else Normalised(a)) + ": " + (b + ": unexpected key")
  {
    ErrorSplits(a, b + ": unexpected key");
    assert Error(a + ": " + b, "unexpected key") == Error(a, b + ": unexpected key");
    var message := b + ": unexpected key";
    assert message != "unexpected key" by { assert |message| > |"unexpected key"|; }
  }

  /** The lines the repair prompt makes of a value's messages. */
  function RepairLines(known: map<string, PathKind>, es: seq<string>): (lines: seq<string>)
    ensures |lines| == |es| && forall i :: 0 <= i < |es| ==> lines[i] == RepairLine(known, es[i])
  {
    seq(|es|, i requires 0 <= i < |es| => RepairLine(known, es[i]))
  }

  // ---- which path a line names ----------------------------------------------------------------------------

  function Shown(path: string): string {
    if path == "" then "<root>" else path
  }

  /** A message about a place of the schema is shown under that place's own path. */
  lemma LineNamesThePlace(path: string, prefix: string, text: string, known: map<string, PathKind>)
    requires Stands(path, prefix) && text != "unexpected key"
    ensures RepairLine(known, Error(path, text)) == "- " + Shown(prefix) + ": " + text
  {
    ColonFreeHides(path);
    ErrorSplits(path, text);
  }

  /** A dotted front of a path: the whole, or up to one of its dots. */
  predicate DottedFront(q: string, path: string) {
    q == "" || (q <= path && (|q| == |path| || path[|q|] == '.'))
  }

  predicate KnownObject(known: map<string, PathKind>, q: string) {
    q != "" && q in known && known[q].ObjectPath?
  }

  /** A last character that is no dot leaves the shorter dotted fronts as they are. */
  lemma DotlessEnd(path: string, q: string)
    requires path != "" && path[|path| - 1] != '.'
    ensures var front := path[..|path| - 1];
            && (|q| < |front| || q == "" ==> (DottedFront(q, path) <==> DottedFront(q, front)))
            && (DottedFront(q, path) && |q| < |path| ==> |q| < |front| || q == "")
  {
  }

  lemma {:induction false} LastDotFront(path: string, q: string)
    ensures path != "" ==> DottedFront(UpToLastDot(path), path)
    ensures DottedFront(q, path) && |q| < |path| ==> |q| <= |UpToLastDot(path)| && DottedFront(q, UpToLastDot(path))
    decreases |path|
  {
    if path != "" {
      var front := path[..|path| - 1];
      if path[|path| - 1] != '.' {
        LastDotFront(front, q);
        DotlessEnd(path, UpToLastDot(front));
        DotlessEnd(path, q);
      }
    }
  }

  lemma FrontOfFront(a: string, b: string, c: string)
    requires DottedFront(a, b) && DottedFront(b, c)
    ensures DottedFront(a, c)
  {
  }

  /** An unexpected key is shown under the longest dotted front of its path that is a known object, whatever
      dots the key has; under the root if there is none. */
  lemma {:induction false} ObjectPrefixIsLongest(known: map<string, PathKind>, path: string, q: string)
    ensures var p := ObjectPrefix(known, path);
            && (p == "" || KnownObject(known, p)) && DottedFront(p, path)
            && (DottedFront(q, path) && KnownObject(known, q) ==> |q| <= |p|)
    decreases |path|
  {
    if path != "" && !KnownObject(known, path) {
      ObjectPrefixIsLongest(known, UpToLastDot(path), q);
      LastDotFront(path, q);
      FrontOfFront(ObjectPrefix(known, UpToLastDot(path)), UpToLastDot(path), path);
      if DottedFront(q, path) && |q| == |path| { assert q == path; }
    } else {
      assert ObjectPrefix(known, path) == path;
      if DottedFront(q, path) { assert |q| <= |path|; }
    }
  }

  lemma ObjectIsFront(path: string, prefix: string, key: string)
    requires Stands(path, prefix)
    ensures DottedFront(prefix, Normalised(Dotted(path, key)))
  {
    if path != "" {
      assert Apart(path, "." + key);
      assert path + "." + key == path + ("." + key);
      assert Normalised("." + key)[0] == '.';
    }
  }

  lemma SameBullet(p: string, q: string)
    requires p != "<root>" && q != "<root>"
    ensures "- " + Shown(p) + ": unexpected key" == "- " + Shown(q) + ": unexpected key" <==> p == q
  {
    var a, b := "- " + Shown(p) + ": unexpected key", "- " + Shown(q) + ": unexpected key";
    if a == b {
      assert |Shown(p)| == |Shown(q)|;
      assert Shown(p) == a[2..2 + |Shown(p)|] == b[2..2 + |Shown(q)|] == Shown(q);
    }
  }

  lemma KeyLine(known: map<string, PathKind>, raw: string)
    requires !Contains(raw, ": ")
    ensures RepairLine(known, Error(raw, "unexpected key")) ==
            "- " + Shown(ObjectPrefix(known, Normalised(raw))) + ": unexpected key"
  {
    ErrorSplits(raw, "unexpected key");
    var shown := Shown(ObjectPrefix(known, Normalised(raw)));
    assert "- " + shown + ": " + "unexpected key" == "- " + shown + ": unexpected key";
  }

  /** So the object that has the key is named, exactly when no known object's path lies further along the key's
      own path. */
  lemma KeyNamesItsObjectExactly(path: string, prefix: string, key: string, known: map<string, PathKind>)
    requires Stands(path, prefix) && !Contains(key, ": ") && (prefix == "" || KnownObject(known, prefix))
    requires "<root>" !in known
    ensures var place := Normalised(Dotted(path, key));
            RepairLine(known, Error(Dotted(path, key), "unexpected key")) ==
            "- " + Shown(prefix) + ": unexpected key" <==>
            forall q :: DottedFront(q, place) && KnownObject(known, q) ==> |q| <= |prefix|
  {
    var place := Normalised(Dotted(path, key));
    var p := ObjectPrefix(known, place);
    UnexpectedPathHidesExactly(path, key);
    KeyLine(known, Dotted(path, key));
    ObjectIsFront(path, prefix, key);
    LongestIsThisExactly(known, place, prefix);
    SameBullet(p, prefix);
  }

  lemma LongestIsThisExactly(known: map<string, PathKind>, place: string, prefix: string)
    requires DottedFront(prefix, place) && (prefix == "" || KnownObject(known, prefix))
    ensures var p := ObjectPrefix(known, place);
            && (p == "" || p in known)
            && (p == prefix <==> forall q :: DottedFront(q, place) && KnownObject(known, q) ==> |q| <= |prefix|)
  {
    var p := ObjectPrefix(known, place);
    ObjectPrefixIsLongest(known, place, prefix);
    forall q | DottedFront(q, place) && KnownObject(known, q) ensures |q| <= |p| {
      ObjectPrefixIsLongest(known, place, q);
    }
    if |p| == |prefix| { assert p == place[..|p|] == place[..|prefix|] == prefix; }
  }

  /** For every schema tree with plain keys and every value: each message becomes a known path and a fixed
      text, exactly when no key the schema does not declare has a colon and a blank. `known` may hold other
      schemas' paths too. */
  lemma RepairLinesAreValueFreeExactly(node: Node, v: Json, known: map<string, PathKind>, texts: set<string>)
    requires PlainKeys(node) && ColonFree(known, texts)
    requires Paths(node, "").Keys <= known.Keys && Vocabularies(node) <= texts && MESSAGES <= texts
    ensures (forall line <- RepairLines(known, Validate("", node, v)) :: ValueFree(line, known, texts)) <==>
            StrayKeysHide(node, v)
  {
    forall b: string ensures Apart("", b) { assert "" + b == b; }
    assert Stands("", "");
    MessagesArePlacedExactly("", "", node, v, known, texts);
    var es := Validate("", node, v);
    var lines := RepairLines(known, es);
    if StrayKeysHide(node, v) {
      forall i | 0 <= i < |es| ensures ValueFree(lines[i], known, texts) { PlacedIsValueFree(es[i], known, texts); }
    } else {
      var i :| 0 <= i < |es| && Cut(es[i]);
      CutIsNotValueFree(es[i], known, texts);
      assert lines[i] in lines;
    }
  }

  /** A key of the root that begins like another object's path is shown under a known object that lies at least
      as far along it, not under the root that has it. */
  lemma KeyCanNameAnotherObject(key: string, q: string, known: map<string, PathKind>) returns (p: string)
    requires KnownObject(known, q) && DottedFront(q, key)
    requires '[' !in key && !Contains(key, ": ")
    ensures KnownObject(known, p) && DottedFront(p, key) && |p| >= |q|
    ensures RepairLine(known, Error(key, "unexpected key")) == "- " + p + ": unexpected key"
  {
    p := ObjectPrefix(known, key);
    PlainIsWhole(key);
    KeyLine(known, key);
    ObjectPrefixIsLongest(known, key, q);
  }

  // ---- schema paths and enum messages have no colon ---------------------------------------------------

  lemma {:induction false} PathsHaveNoColon(node: Node, prefix: string)
    requires PlainKeys(node) && ':' !in prefix
    ensures forall p <- Paths(node, prefix) :: ':' !in p
    decreases node, 0
  {
    match node
    case ObjectNode(fields) => FieldPathsHaveNoColon(fields, prefix);
    case ArrayNode(item) => PathsHaveNoColon(item, prefix + "[]");
    case _ =>
  }

  lemma {:induction false} FieldPathsHaveNoColon(fields: Fields, prefix: string)
    requires PlainFields(fields) && ':' !in prefix
    ensures forall p <- FieldPaths(fields, prefix) :: ':' !in p
    decreases fields, 1
  {
    if fields.Field? {
      PathsHaveNoColon(fields.node, Dotted(prefix, fields.key));
      FieldPathsHaveNoColon(fields.rest, prefix);
    }
  }

  lemma {:induction false} BarsHaveNoColon(words: seq<string>)
    requires forall i :: 0 <= i < |words| ==> IsEnumToken(words[i])
    ensures ':' !in Bars(words)
  {
    if words != [] {
      assert IsEnumToken(words[0]);
      BarsHaveNoColon(words[1..]);
    }
  }

  lemma {:induction false} VocabulariesHaveNoColon(node: Node)
    ensures forall m <- Vocabularies(node) :: ':' !in m
    decreases node, 0
  {
    match node
    case ObjectNode(fields) => FieldVocabulariesHaveNoColon(fields);
    case ArrayNode(item) => VocabulariesHaveNoColon(item);
    case Leaf(spec) =>
      var values := NotNull(Alternatives(spec, ""));
      if forall i :: 0 <= i < |values| ==> IsEnumToken(values[i]) { BarsHaveNoColon(values); }
    case _ =>
  }

  lemma {:induction false} FieldVocabulariesHaveNoColon(fields: Fields)
    ensures forall m <- FieldVocabularies(fields) :: ':' !in m
    decreases fields, 1
  {
    if fields.Field? {
      VocabulariesHaveNoColon(fields.node);
      FieldVocabulariesHaveNoColon(fields.rest);
    }
  }

  lemma MessagesHaveNoColon()
    ensures forall m <- MESSAGES :: ':' !in m
  {
  }

  // ---- the two schemas of the repair round ----------------------------------------------------------

  const LAST_BASIS_FIELDS :=
    Field("identity_privileged", Leaf("true|false|unknown"),
    Field("occurrence_count", IntNode,
    Field("playbook_rule_applied", Leaf("string|null"), End)))

  const BASIS_FIELDS :=
    Field("severity", Leaf("critical|high|medium|low"),
    Field("ioc_reputation", Leaf("malicious|suspicious|clean|not_found|skipped"),
    Field("asset_criticality", Leaf("high|medium|low|unknown"), LAST_BASIS_FIELDS)))

  const QUOTED_SOURCES := "wazuh_raw_log" + "|rule_description" + "|correlation_samples" + "|kb_playbook" + "|context"

  const REASON_FIELDS :=
    Field("claim", Leaf("string"),
    Field("quote", Leaf("verbatim substring of one block"),
    Field("source", Leaf(QUOTED_SOURCES), End)))

  const TRIAGE_FIELDS :=
    Field("suggested_action", Leaf("false_positive|needs_review|escalate"),
    Field("confidence", Leaf("low|medium|high"),
    Field("structured_basis", ObjectNode(BASIS_FIELDS),
    Field("reasons", ArrayNode(ObjectNode(REASON_FIELDS)),
    Field("playbook_used", Leaf("string|null"), End)))))

  const VERIFIER_FIELDS :=
    Field("agree", BoolNode,
    Field("structured_only_verdict", Leaf("false_positive|needs_review|escalate"),
    Field("reason", Leaf("string"), End)))

  /** Keys are names in small letters, and no leaf's notation begins with `null`. */
  predicate Tame(node: Node)
    decreases node
  {
    match node
    case ObjectNode(fields) => TameFields(fields)
    case ArrayNode(item) => Tame(item)
    case Leaf(spec) => spec != "" && spec[0] !in {'n', '|'}
    case _ => true
  }

  predicate TameFields(fields: Fields)
    decreases fields
  {
    match fields
    case End => true
    case Field(key, node, rest) => IsEnumToken(key) && Tame(node) && TameFields(rest)
  }

  lemma {:induction false} TameIsPlain(node: Node)
    requires Tame(node)
    ensures PlainKeys(node)
    decreases node, 0
  {
    match node
    case ObjectNode(fields) => TameFieldsArePlain(fields);
    case ArrayNode(item) => TameIsPlain(item);
    case _ =>
  }

  lemma {:induction false} TameFieldsArePlain(fields: Fields)
    requires TameFields(fields)
    ensures PlainFields(fields)
    decreases fields, 1
  {
    if fields.Field? {
      TameIsPlain(fields.node);
      TameFieldsArePlain(fields.rest);
    }
  }

  lemma TameField(key: string, node: Node, rest: Fields)
    requires IsEnumToken(key) && Tame(node) && TameFields(rest)
    ensures TameFields(Field(key, node, rest))
  {
  }

  lemma LastBasisFieldsAreTame()
    ensures TameFields(LAST_BASIS_FIELDS)
  {
    var last := Field("playbook_rule_applied", Leaf("string|null"), End);
    TameField("playbook_rule_applied", Leaf("string|null"), End);
    TameField("occurrence_count", IntNode, last);
    TameField("identity_privileged", Leaf("true|false|unknown"), Field("occurrence_count", IntNode, last));
  }

  lemma BasisFieldsAreTame(rest: Fields)
    requires TameFields(rest)
    ensures TameFields(Field("severity", Leaf("critical|high|medium|low"),
                       Field("ioc_reputation", Leaf("malicious|suspicious|clean|not_found|skipped"),
                       Field("asset_criticality", Leaf("high|medium|low|unknown"), rest))))
  {
    var third := Field("asset_criticality", Leaf("high|medium|low|unknown"), rest);
    var second := Field("ioc_reputation", Leaf("malicious|suspicious|clean|not_found|skipped"), third);
    TameField("asset_criticality", Leaf("high|medium|low|unknown"), rest);
    TameField("ioc_reputation", Leaf("malicious|suspicious|clean|not_found|skipped"), third);
    TameField("severity", Leaf("critical|high|medium|low"), second);
  }

  lemma ReasonFieldsAreTame()
    ensures TameFields(REASON_FIELDS)
  {
    var last := Field("source", Leaf(QUOTED_SOURCES), End);
    TameField("source", Leaf(QUOTED_SOURCES), End);
    TameField("quote", Leaf("verbatim substring of one block"), last);
    TameField("claim", Leaf("string"), Field("quote", Leaf("verbatim substring of one block"), last));
  }

  lemma TriageFieldsAreTame(basis: Fields, reason: Fields)
    requires TameFields(basis) && TameFields(reason)
    ensures TameFields(Field("suggested_action", Leaf("false_positive|needs_review|escalate"),
                       Field("confidence", Leaf("low|medium|high"),
                       Field("structured_basis", ObjectNode(basis),
                       Field("reasons", ArrayNode(ObjectNode(reason)),
                       Field("playbook_used", Leaf("string|null"), End))))))
  {
    var fifth := Field("playbook_used", Leaf("string|null"), End);
    var fourth := Field("reasons", ArrayNode(ObjectNode(reason)), fifth);
    var third := Field("structured_basis", ObjectNode(basis), fourth);
    var second := Field("confidence", Leaf("low|medium|high"), third);
    TameField("playbook_used", Leaf("string|null"), End);
    TameField("reasons", ArrayNode(ObjectNode(reason)), fifth);
    TameField("structured_basis", ObjectNode(basis), fourth);
    TameField("confidence", Leaf("low|medium|high"), third);
    TameField("suggested_action", Leaf("false_positive|needs_review|escalate"), second);
  }

  lemma VerifierFieldsAreTame()
    ensures TameFields(VERIFIER_FIELDS)
  {
    var last := Field("reason", Leaf("string"), End);
    var verdict := Leaf("false_positive|needs_review|escalate");
    TameField("reason", Leaf("string"), End);
    TameField("structured_only_verdict", verdict, last);
    TameField("agree", BoolNode, Field("structured_only_verdict", verdict, last));
  }

  lemma ShippedSchemasAreTame()
    ensures Tame(ObjectNode(TRIAGE_FIELDS)) && Tame(ObjectNode(VERIFIER_FIELDS))
  {
    LastBasisFieldsAreTame();
    BasisFieldsAreTame(LAST_BASIS_FIELDS);
    ReasonFieldsAreTame();
    TriageFieldsAreTame(BASIS_FIELDS, REASON_FIELDS);
    VerifierFieldsAreTame();
    ObjectIsTame(TRIAGE_FIELDS);
    ObjectIsTame(VERIFIER_FIELDS);
  }

  lemma ObjectIsTame(fields: Fields)
    requires TameFields(fields)
    ensures Tame(ObjectNode(fields))
  {
  }

  lemma ShippedSchemasArePlain()
    ensures PlainKeys(ObjectNode(TRIAGE_FIELDS)) && PlainKeys(ObjectNode(VERIFIER_FIELDS))
  {
    ShippedSchemasAreTame();
    TameIsPlain(ObjectNode(TRIAGE_FIELDS));
    TameIsPlain(ObjectNode(VERIFIER_FIELDS));
  }

  /** The paths and the fixed texts of both schemas, as the repair prompt's constants hold them. */
  function RepairPaths(): map<string, PathKind> {
    Paths(ObjectNode(TRIAGE_FIELDS), "") + Paths(ObjectNode(VERIFIER_FIELDS), "")
  }

  function RepairTexts(): set<string> {
    MESSAGES + Vocabularies(ObjectNode(TRIAGE_FIELDS)) + Vocabularies(ObjectNode(VERIFIER_FIELDS))
  }

  lemma {:induction false} PathsBegin(node: Node, prefix: string)
    ensures forall p <- Paths(node, prefix) :: prefix <= p
    decreases node, 0
  {
    match node
    case ObjectNode(fields) => FieldPathsBegin(fields, prefix);
    case ArrayNode(item) =>
      PathsBegin(item, prefix + "[]");
      forall p | p in Paths(item, prefix + "[]") ensures prefix <= p {
        assert p[..|prefix|] == (prefix + "[]")[..|prefix|];
      }
    case _ =>
  }

  lemma {:induction false} FieldPathsBegin(fields: Fields, prefix: string)
    ensures forall p <- FieldPaths(fields, prefix) ::
              prefix <= p && exists key <- KeysOf(fields) :: Dotted(prefix, key) <= p
    decreases fields, 1
  {
    if fields.Field? {
      var at := Dotted(prefix, fields.key);
      PathsBegin(fields.node, at);
      FieldPathsBegin(fields.rest, prefix);
      forall p | p in Paths(fields.node, at)
        ensures prefix <= p && exists key <- KeysOf(fields) :: Dotted(prefix, key) <= p
      {
        assert fields.key in KeysOf(fields);
        assert p[..|prefix|] == at[..|prefix|];
      }
    }
  }

  /** An object among the fields is known under its own path, when no later key begins it. */
  lemma {:induction false} ObjectFieldIsKnown(fields: Fields, key: string, inner: Fields)
    requires FieldAt(fields, key, inner) && key != "" && PlainFields(inner)
    ensures key in FieldPaths(fields, "") && FieldPaths(fields, "")[key].ObjectPath?
  {
    FieldPathsBegin(fields.rest, "");
    if fields.key == key {
      FieldPathsBegin(inner, key);
      assert forall k <- KeysOf(inner) :: |Dotted(key, k)| > |key|;
      assert key !in FieldPaths(inner, key);
      assert Paths(fields.node, key)[key].ObjectPath?;
    } else {
      ObjectFieldIsKnown(fields.rest, key, inner);
    }
  }

  /** The field of this key is an object, and no key behind it begins this one. */
  predicate FieldAt(fields: Fields, key: string, inner: Fields) {
    && fields.Field?
    && if fields.key == key
       then fields.node == ObjectNode(inner) && forall k <- KeysOf(fields.rest) :: !(k <= key)
       else FieldAt(fields.rest, key, inner)
  }

  lemma StructuredBasisIsKnown()
    ensures KnownObject(RepairPaths(), "structured_basis")
  {
    var key := "structured_basis";
    ShippedSchemasArePlain();
    BasisIsAField(BASIS_FIELDS, REASON_FIELDS);
    BasisIsPlain();
    ObjectFieldIsKnown(TRIAGE_FIELDS, key, BASIS_FIELDS);
    VerifierKeys(key);
    FieldPathsBegin(VERIFIER_FIELDS, "");
    assert key !in FieldPaths(VERIFIER_FIELDS, "");
  }

  lemma BasisIsAField(basis: Fields, reason: Fields)
    ensures FieldAt(Field("suggested_action", Leaf("false_positive|needs_review|escalate"),
                    Field("confidence", Leaf("low|medium|high"),
                    Field("structured_basis", ObjectNode(basis),
                    Field("reasons", ArrayNode(ObjectNode(reason)),
                    Field("playbook_used", Leaf("string|null"), End))))), "structured_basis", basis)
  {
    var key := "structured_basis";
    var fifth := Field("playbook_used", Leaf("string|null"), End);
    var fourth := Field("reasons", ArrayNode(ObjectNode(reason)), fifth);
    var third := Field("structured_basis", ObjectNode(basis), fourth);
    assert "playbook_used"[0] == 'p' && "reasons"[0] == 'r' && key[0] == 's';
    assert KeysOf(fourth) == {"reasons", "playbook_used"};
    assert FieldAt(third, key, basis);
    assert |"confidence"| != |key|;
    assert FieldAt(Field("confidence", Leaf("low|medium|high"), third), key, basis);
    assert "suggested_action"[1] == 'u' && key[1] == 't';
  }

  lemma BasisIsPlain()
    ensures PlainFields(BASIS_FIELDS)
  {
    LastBasisFieldsAreTame();
    BasisFieldsAreTame(LAST_BASIS_FIELDS);
    TameFieldsArePlain(BASIS_FIELDS);
  }

  lemma VerifierKeys(key: string)
    requires key == "structured_basis"
    ensures forall k <- KeysOf(VERIFIER_FIELDS) :: !(k <= key)
  {
    assert key[0] == 's' && "agree"[0] == 'a' && "reason"[0] == 'r';
    assert |"structured_only_verdict"| > |key|;
  }

  lemma RepairVocabularyHasNoColon()
    ensures ColonFree(RepairPaths(), RepairTexts())
  {
    ShippedSchemasArePlain();
    PathsHaveNoColon(ObjectNode(TRIAGE_FIELDS), "");
    PathsHaveNoColon(ObjectNode(VERIFIER_FIELDS), "");
    VocabulariesHaveNoColon(ObjectNode(TRIAGE_FIELDS));
    VocabulariesHaveNoColon(ObjectNode(VERIFIER_FIELDS));
    MessagesHaveNoColon();
  }

  predicate IsRepairSchema(node: Node) {
    node == ObjectNode(TRIAGE_FIELDS) || node == ObjectNode(VERIFIER_FIELDS)
  }

  /** The repair round's own lines, for a value checked against either schema. */
  lemma RepairRoundIsValueFreeExactly(node: Node, v: Json)
    requires IsRepairSchema(node)
    ensures (forall line <- RepairLines(RepairPaths(), Validate("", node, v)) ::
               ValueFree(line, RepairPaths(), RepairTexts())) <==> StrayKeysHide(node, v)
  {
    ShippedSchemasArePlain();
    RepairVocabularyHasNoColon();
    RepairLinesAreValueFreeExactly(node, v, RepairPaths(), RepairTexts());
  }

  lemma {:induction false} LastIsUnexpected(path: string, known: set<string>, members: seq<(string, Json)>)
    requires members != [] && members[|members| - 1].0 !in known
    ensures var es := Unexpected(path, known, members);
            es != [] && es[|es| - 1] == Error(Dotted(path, members[|members| - 1].0), "unexpected key")
  {
    if |members| > 1 { LastIsUnexpected(path, known, members[1..]); }
  }

  lemma {:induction false} DeclaredKeysArePlain(fields: Fields, key: string)
    requires PlainFields(fields) && key in KeysOf(fields)
    ensures PlainKey(key)
  {
    if key != fields.key { DeclaredKeysArePlain(fields.rest, key); }
  }

  lemma LastKeyLeaks(fields: Fields, members: seq<(string, Json)>, a: string, b: string, x: Json,
                     known: map<string, PathKind>, texts: set<string>)
    requires PlainFields(fields) && !Contains(a, ": ") && ColonFree(known, texts)
    ensures var es := Validate("", ObjectNode(fields), Object(members + [(a + ": " + b, x)]));
            && es != [] && es[|es| - 1] == Error(a + ": " + b, "unexpected key")
            && !ValueFree(RepairLine(known, es[|es| - 1]), known, texts)
  {
    var key := a + ": " + b;
    assert key[|a|] == ':';
    if key in KeysOf(fields) { DeclaredKeysArePlain(fields, key); }
    LastIsUnexpected("", KeysOf(fields), members + [(key, x)]);
    assert At(key, |a|, ": ") by { assert key[|a|..|a| + 2] == ": "; }
    assert CutAt(Error(key, "unexpected key"), key);
    CutIsNotValueFree(Error(key, "unexpected key"), known, texts);
  }

  /** A triage answer with a made-up key `a: b` at its end: the last line shows `b`. */
  lemma KeyTextAfterColonLeaks(members: seq<(string, Json)>, a: string, b: string, x: Json)
    requires !Contains(a, ": ")
    ensures var v := Object(members + [(a + ": " + b, x)]);
            var lines := RepairLines(RepairPaths(), Validate("", ObjectNode(TRIAGE_FIELDS), v));
            && lines != [] && !ValueFree(lines[|lines| - 1], RepairPaths(), RepairTexts())
            && lines[|lines| - 1] == "- " + (if Normalised(a) == "" then "<root>" else Normalised(a)) + ": "
                                     + (b + ": unexpected key")
  {
    ShippedSchemasArePlain();
    RepairVocabularyHasNoColon();
    LastKeyLeaks(TRIAGE_FIELDS, members, a, b, x, RepairPaths(), RepairTexts());
    KeyIsCut(RepairPaths(), a, b);
  }
}
