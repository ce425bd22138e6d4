/** The validator of model output, and the value-free lines a repair prompt makes of its messages. */
module Schemas {
  import opened Common
  import opened Text

  datatype Json =
    | Null | Bool(b: bool) | Int(n: int) | Fraction | Str(s: string)
    | Array(items: seq<Json>) | Object(members: seq<(string, Json)>)

  /** A schema node in the compact notation; `Leaf` carries its string. */
  datatype Node = ObjectNode(fields: Fields) | ArrayNode(item: Node) | BoolNode | IntNode | Leaf(spec: string)
  datatype Fields = End | Field(key: string, node: Node, rest: Fields)

  // ---- leaf notation ------------------------------------------------------------------------------

  /** `spec.split("|")`, with `cur` already read. */
  function Alternatives(spec: string, cur: string): seq<string> {
    if spec == "" then [cur]
    else if spec[0] == '|' then [cur] + Alternatives(spec[1..], "")
    else Alternatives(spec[1..], cur + [spec[0]])
  }

  predicate IsEnumToken(a: string) {
    a != "" && forall i :: 0 <= i < |a| ==> 'a' <= a[i] <= 'z' || a[i] == '_'
  }

  function NotNull(words: seq<string>): seq<string> {
    if words == [] then [] else (if words[0] == "null" then [] else [words[0]]) + NotNull(words[1..])
  }

  datatype LeafKind = Enum(values: seq<string>, nullable: bool) | Text | NullableText

  function Classify(spec: string): LeafKind {
    var words := Alternatives(spec, "");
    if "string" !in words && (forall i :: 0 <= i < |words| ==> IsEnumToken(words[i])) && NotNull(words) != [] then
      Enum(NotNull(words), "null" in words)
    else if spec == "string|null" then NullableText
    else Text
  }

  predicate NonEmptyWanted(item: Node) {
    item.Leaf? && Found(Lower(item.spec), "(minitems 1)", 0)
  }

  /** An empty array is refused where the item's notation says so, in whatever case. */
  lemma NonEmptyWantedExactly(item: Node)
    ensures NonEmptyWanted(item) <==> item.Leaf? && Contains(Lower(item.spec), "(minitems 1)")
  {
    if item.Leaf? { FoundIsContains(Lower(item.spec), "(minitems 1)"); }
  }

  lemma {:induction false} AlternativesOfWord(w: string, rest: string, cur: string)
    requires '|' !in w
    ensures Alternatives(w + rest, cur) == Alternatives(rest, cur + w)
  {
    if w == "" {
      assert w + rest == rest && cur + w == cur;
    } else {
      AlternativesOfWord(w[1..], rest, cur + [w[0]]);
      assert (w + rest)[1..] == w[1..] + rest && cur + [w[0]] + w[1..] == cur + w;
    }
  }

  /** Words with bars between them are split into those words. */
  lemma {:induction false} AlternativesOfBars(words: seq<string>)
    requires words != [] && forall w <- words :: '|' !in w
    ensures Alternatives(Bars(words), "") == words
  {
    assert words[0] in words;
    if |words| == 1 {
      OneAlternative(words[0], "");
    } else {
      assert forall w <- words[1..] :: w in words;
      AlternativesOfBars(words[1..]);
      OneAlternative(words[0], Bars(words[1..]));
      assert Bars(words) == words[0] + ("|" + Bars(words[1..]));
    }
  }

  lemma OneAlternative(w: string, more: string)
    requires '|' !in w
    ensures Alternatives(w, "") == [w]
    ensures Alternatives(w + ("|" + more), "") == [w] + Alternatives(more, "")
  {
    AlternativesOfWord(w, "", "");
    AlternativesOfWord(w, "|" + more, "");
    assert w + "" == w && "" + w == w;
    assert ("|" + more)[1..] == more;
  }

  lemma {:induction false} NotNullExactly(words: seq<string>)
    ensures forall w :: w in NotNull(words) <==> w in words && w != "null"
    ensures NotNull(words) == [] <==> forall w <- words :: w == "null"
  {
    if words != [] {
      NotNullExactly(words[1..]);
      assert forall w :: w in words <==> w == words[0] || w in words[1..];
      forall w | w in words && w != "null" ensures NotNull(words) != [] { assert w in NotNull(words); }
      if NotNull(words) != [] { assert NotNull(words)[0] in NotNull(words); }
    }
  }

  /** A leaf that lists words accepts those words, and null where that is one of them. */
  lemma ListedWordsExactly(words: seq<string>, v: Json)
    requires words != [] && "string" !in words && (exists w <- words :: w != "null")
    requires forall w <- words :: w != "" && forall i :: 0 <= i < |w| ==> 'a' <= w[i] <= 'z' || w[i] == '_'
    ensures LeafAccepts(Classify(Bars(words)), v) <==>
            (v.Str? && v.s in words && v.s != "null") || (v.Null? && "null" in words)
  {
    forall w | w in words ensures '|' !in w && IsEnumToken(w) { }
    AlternativesOfBars(words);
    NotNullExactly(words);
  }

  /** Every other notation is that of a string: `string` is among its alternatives, or one of them is no word, or
      there is nothing but null. */
  lemma StringLeavesExactly(spec: string, v: Json)
    requires "string" in Alternatives(spec, "") || (exists w <- Alternatives(spec, "") :: !IsEnumToken(w))
             || (forall w <- Alternatives(spec, "") :: w == "null")
    ensures LeafAccepts(Classify(spec), v) <==> v.Str? || (v.Null? && spec == "string|null")
  {
    var words := Alternatives(spec, "");
    NotNullExactly(words);
    if "string" !in words && (exists w <- words :: !IsEnumToken(w)) {
      var w :| w in words && !IsEnumToken(w);
      var i :| 0 <= i < |words| && words[i] == w;
      assert !IsEnumToken(words[i]);
    }
    assert !Classify(spec).Enum?;
  }

  // ---- what conforms ------------------------------------------------------------------------------

  predicate LeafAccepts(kind: LeafKind, v: Json) {
    match kind
    case Enum(values, nullable) => (nullable && v.Null?) || (v.Str? && v.s in values)
    case NullableText => v.Null? || v.Str?
    case Text => v.Str?
  }

  function KeysOf(fields: Fields): set<string> {
    match fields
    case End => {}
    case Field(key, _, rest) => {key} + KeysOf(rest)
  }

  function MemberKeys(members: seq<(string, Json)>): set<string> {
    set i | 0 <= i < |members| :: members[i].0
  }

  function Member(members: seq<(string, Json)>, key: string): Option<Json> {
    if members == [] then None else if members[0].0 == key then Some(members[0].1) else Member(members[1..], key)
  }

  /** The value has the node's shape: exactly the fields of an object, each of its kind. */
  predicate Conforms(node: Node, v: Json)
    decreases node
  {
    match node
    case ObjectNode(fields) => v.Object? && MemberKeys(v.members) == KeysOf(fields) && FieldsConform(fields, v.members)
    case ArrayNode(item) =>
      && v.Array? && (NonEmptyWanted(item) ==> v.items != [])
      && forall i :: 0 <= i < |v.items| ==> Conforms(item, v.items[i])
    case BoolNode => v.Bool?
    case IntNode => v.Int?
    case Leaf(spec) => LeafAccepts(Classify(spec), v)
  }

  predicate FieldsConform(fields: Fields, members: seq<(string, Json)>)
    decreases fields
  {
    match fields
    case End => true
    case Field(key, node, rest) =>
      (Member(members, key).Some? ==> Conforms(node, Member(members, key).value)) && FieldsConform(rest, members)
  }

  // ---- the messages -----------------------------------------------------------------------------------

  function Dotted(path: string, key: string): string {
    if path == "" then key else path + "." + key
  }

  function Indexed(path: string, i: nat): string {
    path + ("[" + Decimal(i) + "]")
  }

  function Error(path: string, text: string): string {
    path + ": " + text
  }

  function Bars(values: seq<string>): string {
    if values == [] then "" else if |values| == 1 then values[0] else values[0] + "|" + Bars(values[1..])
  }

  function LeafText(kind: LeafKind): string {
    match kind
    case Enum(values, _) => "expected one of " + Bars(values)
    case NullableText => "expected string or null"
    case Text => "expected string"
  }

  /** A leaf's message tells what it would have taken. */
  lemma LeafTextSaysWhatIsWanted(spec: string)
    ensures var kind, text := Classify(spec), LeafText(Classify(spec));
            && (text == "expected string" <==> kind.Text?)
            && (text == "expected string or null" <==> kind.NullableText?)
            && (kind.Enum? ==> text == "expected one of " + Bars(kind.values))
  {
    assert "expected one of "[9] == 'o' && "expected string"[9] == 's' && "expected string or null"[9] == 's';
    if Classify(spec).Enum? { assert LeafText(Classify(spec))[9] == 'o'; }
  }

  function Validate(path: string, node: Node, v: Json): seq<string>
    decreases node, 0
  {
    match node
    case ObjectNode(fields) =>
      if !v.Object? then [Error(path, "expected object")]
      else ValidateFields(path, fields, v.members) + Unexpected(path, KeysOf(fields), v.members)
    case ArrayNode(item) =>
      if !v.Array? then [Error(path, "expected array")]
      else
        (if NonEmptyWanted(item) && v.items == [] then [Error(path, "expected non-empty array")] else [])
        + ValidateItems(path, item, v.items, |v.items|)
    case BoolNode => if v.Bool? then [] else [Error(path, "expected boolean")]
    case IntNode => if v.Int? then [] else [Error(path, "expected integer")]
    case Leaf(spec) => if LeafAccepts(Classify(spec), v) then [] else [Error(path, LeafText(Classify(spec)))]
  }

  function ValidateFields(path: string, fields: Fields, members: seq<(string, Json)>): seq<string>
    decreases fields, 1
  {
    match fields
    case End => []
    case Field(key, node, rest) =>
      var at := Dotted(path, key);
      var found := Member(members, key);
      (if found.None? then [Error(at, "missing")] else Validate(at, node, found.value))
      + ValidateFields(path, rest, members)
  }

  function Unexpected(path: string, known: set<string>, members: seq<(string, Json)>): seq<string> {
    if members == [] then []
    else
      var rest := Unexpected(path, known, members[1..]);
      if members[0].0 in known then rest else [Error(Dotted(path, members[0].0), "unexpected key")] + rest
  }

  /** The messages of the first `n` items. */
  function ValidateItems(path: string, item: Node, items: seq<Json>, n: nat): seq<string>
    requires n <= |items|
    decreases item, n + 1
  {
    if n == 0 then [] else ValidateItems(path, item, items, n - 1) + Validate(Indexed(path, n - 1), item, items[n - 1])
  }

  // ---- the validator is exact -------------------------------------------------------------------------

  lemma {:induction false} MemberFacts(members: seq<(string, Json)>, key: string)
    ensures Member(members, key).Some? <==> key in MemberKeys(members)
  {
    if members != [] {
      MemberFacts(members[1..], key);
      assert members == [members[0]] + members[1..];
      assert MemberKeys(members) == {members[0].0} + MemberKeys(members[1..]) by {
        forall k ensures k in MemberKeys(members) <==> k == members[0].0 || k in MemberKeys(members[1..]) {
          if k in MemberKeys(members[1..]) {
            var i :| 0 <= i < |members| - 1 && members[1..][i].0 == k;
            assert members[i + 1].0 == k;
          }
        }
      }
    }
  }

  lemma {:induction false} MemberIsThere(members: seq<(string, Json)>, key: string)
    ensures Member(members, key).Some? ==> (key, Member(members, key).value) in members
  {
    if members != [] { MemberIsThere(members[1..], key); }
  }

  lemma {:induction false} NothingUnexpected(path: string, known: set<string>, members: seq<(string, Json)>)
    ensures Unexpected(path, known, members) == [] <==> MemberKeys(members) <= known
  {
    if members != [] {
      NothingUnexpected(path, known, members[1..]);
      forall k ensures k in MemberKeys(members) <==> k == members[0].0 || k in MemberKeys(members[1..]) {
        if k in MemberKeys(members[1..]) {
          var i :| 0 <= i < |members| - 1 && members[1..][i].0 == k;
          assert members[i + 1].0 == k;
        }
      }
    }
  }

  /** No message exactly when the value conforms: for every schema tree and every value. */
  lemma {:induction false} ValidatorIsExact(path: string, node: Node, v: Json)
    ensures Validate(path, node, v) == [] <==> Conforms(node, v)
    decreases node, 0
  {
    match node
    case ObjectNode(fields) =>
      if v.Object? {
        FieldsAreExact(path, fields, v.members);
        NothingUnexpected(path, KeysOf(fields), v.members);
      }
    case ArrayNode(item) => if v.Array? { ItemsAreExact(path, item, v.items, |v.items|); }
    case _ =>
  }

  lemma {:induction false} FieldsAreExact(path: string, fields: Fields, members: seq<(string, Json)>)
    ensures ValidateFields(path, fields, members) == [] <==>
            KeysOf(fields) <= MemberKeys(members) && FieldsConform(fields, members)
    decreases fields, 1
  {
    if fields.Field? {
      MemberFacts(members, fields.key);
      if fields.key in MemberKeys(members) {
        ValidatorIsExact(Dotted(path, fields.key), fields.node, Member(members, fields.key).value);
      }
      FieldsAreExact(path, fields.rest, members);
    }
  }

  lemma {:induction false} ItemsAreExact(path: string, item: Node, items: seq<Json>, n: nat)
    requires n <= |items|
    ensures ValidateItems(path, item, items, n) == [] <==> forall i :: 0 <= i < n ==> Conforms(item, items[i])
    decreases item, n + 1
  {
    if n > 0 {
      var last := Validate(Indexed(path, n - 1), item, items[n - 1]);
      ItemsAreExact(path, item, items, n - 1);
      ValidatorIsExact(Indexed(path, n - 1), item, items[n - 1]);
      assert ValidateItems(path, item, items, n) == ValidateItems(path, item, items, n - 1) + last;
      assert (forall i :: 0 <= i < n ==> Conforms(item, items[i])) <==>
             (forall i :: 0 <= i < n - 1 ==> Conforms(item, items[i])) && Conforms(item, items[n - 1]);
    }
  }

  // ---- the loops ---------------------------------------------------------------------------------------

  method ValidateNode(path: string, node: Node, v: Json) returns (problems: seq<string>)
    ensures problems == Validate(path, node, v)
    decreases node, 0
  {
    match node
    case ObjectNode(fields) => problems := ValidateObject(path, fields, v);
    case ArrayNode(item) => problems := ValidateArray(path, item, v);
    case BoolNode => problems := if v.Bool? then [] else [Error(path, "expected boolean")];
    case IntNode => problems := if v.Int? then [] else [Error(path, "expected integer")];
    case Leaf(spec) =>
      var kind := Classify(spec);
      problems := if LeafAccepts(kind, v) then [] else [Error(path, LeafText(kind))];
  }

  method EveryField(path: string, fields: Fields, members: seq<(string, Json)>) returns (problems: seq<string>)
    ensures problems == ValidateFields(path, fields, members)
    decreases fields, 1
  {
    problems := [];
    var left := fields;
    while left.Field?
      invariant left == fields || left < fields
      invariant problems + ValidateFields(path, left, members) == ValidateFields(path, fields, members)
      decreases left
    {
      var at := Dotted(path, left.key);
      var found := Member(members, left.key);
      var more := [Error(at, "missing")];
      if found.Some? {
        more := ValidateNode(at, left.node, found.value);
      }
      Associates(problems, more, ValidateFields(path, left.rest, members));
      problems := problems + more;
      left := left.rest;
    }
  }

  method EveryUnexpected(path: string, known: set<string>, members: seq<(string, Json)>) returns (problems: seq<string>)
    ensures problems == Unexpected(path, known, members)
  {
    problems := [];
    for i := 0 to |members|
      invariant problems + Unexpected(path, known, members[i..]) == Unexpected(path, known, members)
    {
      assert members[i..][1..] == members[i + 1..];
      if members[i].0 !in known {
        var problem := [Error(Dotted(path, members[i].0), "unexpected key")];
        Associates(problems, problem, Unexpected(path, known, members[i + 1..]));
        problems := problems + problem;
      }
    }
  }

  method ValidateObject(path: string, fields: Fields, v: Json) returns (problems: seq<string>)
    ensures problems == Validate(path, ObjectNode(fields), v)
    decreases fields, 2
  {
    if !v.Object? {
      return [Error(path, "expected object")];
    }
    var missing := EveryField(path, fields, v.members);
    var extra := EveryUnexpected(path, KeysOf(fields), v.members);
    problems := missing + extra;
  }

  method EveryItem(path: string, item: Node, items: seq<Json>) returns (problems: seq<string>)
    ensures problems == ValidateItems(path, item, items, |items|)
    decreases item, 1
  {
    problems := [];
    for i := 0 to |items|
      invariant problems == ValidateItems(path, item, items, i)
    {
      var more := ValidateNode(Indexed(path, i), item, items[i]);
      problems := problems + more;
    }
  }

  method ValidateArray(path: string, item: Node, v: Json) returns (problems: seq<string>)
    ensures problems == Validate(path, ArrayNode(item), v)
    decreases item, 2
  {
    if !v.Array? {
      return [Error(path, "expected array")];
    }
    var each := EveryItem(path, item, v.items);
    problems := if NonEmptyWanted(item) && v.items == [] then [Error(path, "expected non-empty array")] else [];
    problems := problems + each;
  }
}
