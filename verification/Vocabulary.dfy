/** The template vocabulary, and what about it lets the linter take it back out of a message. */
module Vocabulary {
  import opened Text
  import opened Values

  function Phrase(words: seq<string>): string {
    if words == [] then "" else if |words| == 1 then words[0] else words[0] + " " + Phrase(words[1..])
  }

  const HEADING_ALERT := ["##", "Alert"]
  const HEADING_CONTEXT := ["##", "Ngữ", "cảnh"]
  const HEADING_CORRELATION := ["##", "Tương", "quan", "±2h"]
  const HEADING_PLAYBOOK := ["##", "Playbook"]
  const HEADING_REQUEST := ["##", "Yêu", "cầu"]
  const HEADING_FACTS := ["##", "Facts"]
  const HEADING_TABLE := ["##", "Bảng", "quyết", "định"]
  const HEADING_PROPOSER := ["##", "Đề", "xuất", "của", "proposer"]
  const HEADING_REPAIR := ["##", "Repair"]
  const SENTENCE_ABSENT := ["không", "có", "trong", "cơ", "sở", "dữ", "liệu", "nội", "bộ", "—", "vắng", "mặt",
                            "không", "phải", "bằng", "chứng", "vô", "hại"]
  const SENTENCE_NO_PLAYBOOK := ["không", "tìm", "được", "playbook", "khớp,", "chỉ", "suy", "luận", "từ", "dữ",
                                 "liệu", "alert"]
  const SENTENCE_NO_CORRELATION := ["không", "có", "alert", "tương", "quan", "trong", "±2", "giờ"]
  const SENTENCE_REQUEST_TRIAGE := ["Trả", "về", "DUY", "NHẤT", "một", "đối", "tượng", "JSON", "theo", "schema",
                                    "triage_v2."]
  const SENTENCE_REQUEST_VERIFIER := ["Trả", "về", "DUY", "NHẤT", "một", "đối", "tượng", "JSON", "theo", "schema",
                                      "verifier_v1."]
  const SENTENCE_REPAIR := ["Câu", "trả", "lời", "JSON", "trước", "đó", "không", "đúng", "schema", "tại", "các",
                            "trường", "sau;", "trả", "về", "DUY", "NHẤT", "đối", "tượng", "JSON", "đã", "sửa."]
  const SENTENCE_PROPOSER_IS_DATA := ["Đề", "xuất", "của", "proposer", "là", "dữ", "liệu", "cần", "kiểm,", "không",
                                      "phải", "kết", "luận."]

  const HEADINGS: set<seq<string>> := {
    HEADING_ALERT, HEADING_CONTEXT, HEADING_CORRELATION, HEADING_PLAYBOOK, HEADING_REQUEST, HEADING_FACTS,
    HEADING_TABLE, HEADING_PROPOSER, HEADING_REPAIR
  }
  const SENTENCES: set<seq<string>> := {
    SENTENCE_ABSENT, SENTENCE_NO_PLAYBOOK, SENTENCE_NO_CORRELATION, SENTENCE_REQUEST_TRIAGE,
    SENTENCE_REQUEST_VERIFIER, SENTENCE_REPAIR, SENTENCE_PROPOSER_IS_DATA
  }
  const LABEL_ABSENT: set<string> := {"asset", "identity", "ioc"}
  const ALERT_FACTS: set<string> := {
    "alert_id", "rule_id", "rule_level", "alert_time", "severity", "category", "categories", "occurrence_count",
    "risk_band", "ioc_reputation", "asset_criticality", "identity_privileged"
  }
  const OTHER_FACTS: set<string> := {
    "lookup_asset", "lookup_identity", "lookup_ioc", "mitre", "agent_id", "status", "clusters", "alerts",
    "src_ips", "first_seen", "last_seen", "correlated_clusters", "rule", "then", "occurrence_lt",
    "occurrence_gte", "rule_level_lt", "rule_level_gte"
  }
  const FACT_NAMES: set<string> := ALERT_FACTS + OTHER_FACTS

  const SEPARATOR := " · "
  const WINDOW := "±2h"

  /** What a vocabulary is made of, beside the two glyphs and the time window: phrases, names of facts,
      further labels, and the words of the closed sets; `extras` are constants the linter knows of and the
      builder does not. */
  datatype Terms = Terms(phrases: set<seq<string>>, facts: set<string>, labels: set<string>, enums: set<string>,
                         extras: set<string>)

  const TEMPLATE: Terms := Terms(HEADINGS + SENTENCES, FACT_NAMES, LABEL_ABSENT, ENUM_VALUES, {})

  /** The builder's constants. */
  function Core(t: Terms): set<string> {
    (set ws <- t.phrases :: Phrase(ws)) + (set n <- t.facts + t.labels :: n + ":") + {"·", "-", WINDOW}
  }

  /** The linter's. */
  function Constants(t: Terms): set<string> {
    Core(t) + t.extras
  }

  /** Membership of the builder's vocabulary, by kind. */
  ghost predicate IsCore(t: Terms, c: string) {
    IsPhrase(t, c) || IsLabel(t, c) || c in {"·", "-", WINDOW}
  }

  ghost predicate IsConstant(t: Terms, c: string) {
    IsCore(t, c) || c in t.extras
  }

  ghost predicate IsPhrase(t: Terms, c: string) {
    exists ws: seq<string> :: ws in t.phrases && c == Phrase(ws)
  }

  predicate IsLabel(t: Terms, c: string) {
    c != "" && c[|c| - 1] == ':' && c[..|c| - 1] in t.facts + t.labels
  }

  lemma ConstantsByKind(t: Terms, c: string)
    ensures c in Core(t) <==> IsCore(t, c)
    ensures c in Constants(t) <==> IsConstant(t, c)
  {
    if n :| n in t.facts + t.labels && c == n + ":" { assert c[..|c| - 1] == n; }
    if IsLabel(t, c) { assert c == c[..|c| - 1] + ":"; }
  }

  // ---- what one constant must be like ---------------------------------------------------------------

  predicate Suffix(w: string, d: string) {
    |w| <= |d| && d[|d| - |w|..] == w
  }

  predicate Comparable(a: string, b: string) {
    a <= b || b <= a
  }

  const GAPS: set<char> := {' ', '\n', '·'}

  /** Starts and ends with text, breaks no line, and has its spaces one at a time and never after a
      colon. */
  predicate Solid(c: string) {
    && |c| >= 2 && c[0] !in GAPS && c[|c| - 1] != ' '
    && (forall i :: 0 <= i < |c| ==> c[i] !in {'\n', '·'})
    && (forall i {:trigger c[i]} :: 0 < i < |c| && c[i] == ' ' ==> c[i - 1] !in {' ', ':'})
  }

  /** No shown value can contain it. */
  ghost predicate Foreign(c: string) {
    exists i :: 0 <= i < |c| && (!ValueChar(c[i]) || (i > 0 && c[i] == ':' && !IsDigit(c[i - 1])))
  }

  /** No value of the closed kinds shows it. */
  ghost predicate Unshown(c: string, enums: set<string>) {
    forall v {:trigger ValueOk(v, enums)} :: ValueOk(v, enums) ==> !Contains(Show(v), c)
  }

  /** No front of it up to a blank ends as a constant of the builder ends. */
  predicate Unended(c: string) {
    forall p {:trigger c[p]} :: 0 < p < |c| && c[p] == ' ' ==>
      p >= 2 && c[p - 1] !in {'·', '-', ':'} && !EndPair(c[p - 2], c[p - 1])
  }

  /** It cannot be put together across the blank between `left` and `right`. */
  ghost predicate Unspliced(c: string, left: string, right: string) {
    forall p {:trigger c[p]} :: 0 < p < |c| - 1 && c[p] == ' ' && Suffix(c[..p], left) ==>
      !Comparable(c[p + 1..], right)
  }

  // ---- words ------------------------------------------------------------------------------------------

  /** Every constant's last two characters, labels apart. */
  predicate EndPair(a: char, b: char) {
    || (b == 't' && a == 'r') || (b == 'h' && a in {'n', '2'}) || (b == 'k' && a == 'o') || (b == 'u' && a == 'ầ')
    || (b == 's' && a == 't') || (b == 'r' && a in {'e', 'i'}) || (b == 'i' && a == 'ạ') || (b == 'ờ' && a == 'i')
    || (b == '.' && a in {'2', '1', 'a', 'n'})
  }

  predicate EndsLikeAConstant(w: string) {
    |w| >= 2 && EndPair(w[|w| - 2], w[|w| - 1])
  }

  /** No constant starts with these characters in second or third place. */
  predicate StartsUnlike(w: string) {
    |w| >= 2 && w[0] !in {'·', '-'} && (w[1] in {'ư', 'á', 'à'} || (|w| > 2 && w[2] == 'ớ'))
  }

  predicate StartsAsConstantsDo(d: string) {
    |d| >= 3 && d[1] !in {'ư', 'á', 'à'} && d[2] != 'ớ'
  }

  predicate WordOk(w: string) {
    w != "" && (forall i :: 0 <= i < |w| ==> w[i] !in {' ', '\n', '·', '<', ':'})
    && (|w| > 1 || w[0] == '—')
  }

  predicate Calm(w: string, next: string) {
    !EndsLikeAConstant(w) || StartsUnlike(next)
  }

  predicate WordsOk(ws: seq<string>) {
    forall k :: 0 <= k < |ws| ==> WordOk(ws[k])
  }

  predicate Calms(ws: seq<string>) {
    forall k {:trigger ws[k]} :: 0 < k < |ws| ==> Calm(ws[k - 1], ws[k])
  }

  ghost predicate Ends(ws: seq<string>) {
    && |ws| > 1 && |ws[0]| >= 2 && EndsLikeAConstant(ws[|ws| - 1])
    && ws[0][1] !in {'ư', 'á', 'à'} && (|ws[0]| > 2 ==> ws[0][2] != 'ớ')
    && (exists i :: 0 <= i < |ws[0]| && !ValueChar(ws[0][i]))
  }

  ghost predicate Wording(ws: seq<string>) {
    WordsOk(ws) && Calms(ws) && Ends(ws)
  }

  lemma ShortHeadings(ws: seq<string>)
    requires ws in HEADINGS && |ws| < 4
    ensures Wording(ws)
  {
    assert !ValueChar(ws[0][0]);
  }

  lemma LongHeadings(ws: seq<string>)
    requires ws in HEADINGS && |ws| >= 4
    ensures Wording(ws)
  {
    assert !ValueChar(ws[0][0]);
  }

  lemma AbsentWords()
    ensures WordsOk(SENTENCE_ABSENT) && Ends(SENTENCE_ABSENT)
  {
    assert !ValueChar(SENTENCE_ABSENT[0][2]);
  }

  lemma AbsentCalms()
    ensures Calms(SENTENCE_ABSENT)
  {
    var ws := SENTENCE_ABSENT;
    forall k {:trigger ws[k]} | 0 < k < |ws| ensures Calm(ws[k - 1], ws[k]) {
      if k < 6 { } else if k < 12 { } else { }
    }
  }

  lemma NoPlaybookWords()
    ensures WordsOk(SENTENCE_NO_PLAYBOOK) && Ends(SENTENCE_NO_PLAYBOOK)
  {
    assert !ValueChar(SENTENCE_NO_PLAYBOOK[0][2]);
  }

  lemma NoPlaybookCalms()
    ensures Calms(SENTENCE_NO_PLAYBOOK)
  {
  }

  lemma NoCorrelationIsWorded()
    ensures Wording(SENTENCE_NO_CORRELATION)
  {
    assert !ValueChar(SENTENCE_NO_CORRELATION[0][2]);
  }

  lemma TriageWords()
    ensures WordsOk(SENTENCE_REQUEST_TRIAGE) && Ends(SENTENCE_REQUEST_TRIAGE)
  {
    assert !ValueChar(SENTENCE_REQUEST_TRIAGE[0][2]);
  }

  lemma TriageCalms()
    ensures Calms(SENTENCE_REQUEST_TRIAGE)
  {
    var ws := SENTENCE_REQUEST_TRIAGE;
    forall k {:trigger ws[k]} | 0 < k < |ws| ensures Calm(ws[k - 1], ws[k]) {
      if k < 5 { } else { }
    }
  }

  lemma VerifierWords()
    ensures WordsOk(SENTENCE_REQUEST_VERIFIER) && Ends(SENTENCE_REQUEST_VERIFIER)
  {
    assert !ValueChar(SENTENCE_REQUEST_VERIFIER[0][2]);
  }

  lemma VerifierCalms()
    ensures Calms(SENTENCE_REQUEST_VERIFIER)
  {
  }

  lemma RepairWords()
    ensures WordsOk(SENTENCE_REPAIR) && Ends(SENTENCE_REPAIR)
  {
    assert !ValueChar(SENTENCE_REPAIR[0][1]);
  }

  lemma RepairCalms()
    ensures Calms(SENTENCE_REPAIR)
  {
    var ws := SENTENCE_REPAIR;
    forall k {:trigger ws[k]} | 0 < k < |ws| ensures Calm(ws[k - 1], ws[k]) {
      if k < 6 { } else if k < 12 { } else if k < 17 { } else { }
    }
  }

  lemma ProposerWords()
    ensures WordsOk(SENTENCE_PROPOSER_IS_DATA) && Ends(SENTENCE_PROPOSER_IS_DATA)
  {
    assert !ValueChar(SENTENCE_PROPOSER_IS_DATA[0][0]);
  }

  lemma ProposerCalms()
    ensures Calms(SENTENCE_PROPOSER_IS_DATA)
  {
    var ws := SENTENCE_PROPOSER_IS_DATA;
    forall k {:trigger ws[k]} | 0 < k < |ws| ensures Calm(ws[k - 1], ws[k]) {
      if k < 5 { } else if k < 9 { } else { }
    }
  }

  lemma HeadingsAreWorded(ws: seq<string>)
    requires ws in HEADINGS
    ensures Wording(ws)
  {
    if |ws| < 4 { ShortHeadings(ws); } else { LongHeadings(ws); }
  }

  lemma SentencesAreWorded(ws: seq<string>)
    requires ws in SENTENCES
    ensures Wording(ws)
  {
    if ws == SENTENCE_ABSENT {
      AbsentWords();
      AbsentCalms();
    } else if ws == SENTENCE_NO_PLAYBOOK {
      NoPlaybookWords();
      NoPlaybookCalms();
    } else if ws == SENTENCE_NO_CORRELATION {
      NoCorrelationIsWorded();
    } else if ws == SENTENCE_REQUEST_TRIAGE {
      TriageWords();
      TriageCalms();
    } else if ws == SENTENCE_REQUEST_VERIFIER {
      VerifierWords();
      VerifierCalms();
    } else if ws == SENTENCE_REPAIR {
      RepairWords();
      RepairCalms();
    } else {
      ProposerWords();
      ProposerCalms();
    }
  }

  predicate IsName(n: string) {
    |n| >= 3 && forall i :: 0 <= i < |n| ==> IsLower(n[i]) || n[i] == '_'
  }

  lemma AlertFactsAreNames(n: string)
    requires n in ALERT_FACTS
    ensures IsName(n)
  {
  }

  lemma OtherFactsAreNames(n: string)
    requires n in OTHER_FACTS
    ensures IsName(n)
  {
  }

  /** A vocabulary that can be taken back out of a text. */
  ghost predicate Sound(t: Terms) {
    && (forall ws <- t.phrases :: Wording(ws)) && (forall n <- t.facts + t.labels :: IsName(n)) && AreWords(t.enums)
    && (forall c <- t.extras :: Solid(c) && Unended(c) && Unshown(c, t.enums))
  }

  lemma TemplateIsSound()
    ensures Sound(TEMPLATE)
  {
    forall ws | ws in HEADINGS + SENTENCES ensures Wording(ws) {
      if ws in HEADINGS { HeadingsAreWorded(ws); } else { SentencesAreWorded(ws); }
    }
    EnumsAreWords();
    forall n | n in FACT_NAMES + LABEL_ABSENT ensures IsName(n) { TemplateNamesAreNames(n); }
  }

  lemma TemplateNamesAreNames(n: string)
    requires n in FACT_NAMES + LABEL_ABSENT
    ensures IsName(n)
  {
    if n in ALERT_FACTS { AlertFactsAreNames(n); } else if n in OTHER_FACTS { OtherFactsAreNames(n); }
  }

  // ---- from words to characters -----------------------------------------------------------------------

  lemma {:induction false} PhraseIsSolid(ws: seq<string>)
    requires ws != [] && WordsOk(ws)
    ensures var c := Phrase(ws);
            && c != "" && c[0] !in GAPS && c[|c| - 1] != ' '
            && (forall i :: 0 <= i < |c| ==> c[i] !in {'\n', '·', '<', ':'})
            && (forall i {:trigger c[i]} :: 0 < i < |c| && c[i] == ' ' ==> c[i - 1] !in {' ', ':'})
  {
    assert WordOk(ws[0]);
    if |ws| > 1 {
      assert WordsOk(ws[1..]);
      PhraseIsSolid(ws[1..]);
    }
  }

  lemma BlankFurtherOn(first: string, rest: string, q: nat, w: string)
    requires q < |rest| && Suffix(w, rest[..q])
    ensures var c := first + " " + rest;
            var p := |first| + 1 + q;
            c[p + 1..] == rest[q + 1..] && Suffix(w, c[..p])
  {
    var c := first + " " + rest;
    var p := |first| + 1 + q;
    assert c[..p] == first + " " + rest[..q];
    assert c[..p][p - |w|..] == rest[..q][q - |w|..];
  }

  /** A blank in a phrase stands between two of its words. */
  lemma {:induction false} BlankIsBetweenWords(ws: seq<string>, p: nat) returns (k: nat)
    requires ws != [] && WordsOk(ws) && p < |Phrase(ws)| && Phrase(ws)[p] == ' '
    ensures 0 < k < |ws| && Suffix(ws[k - 1], Phrase(ws)[..p]) && ws[k] <= Phrase(ws)[p + 1..]
  {
    var c := Phrase(ws);
    assert WordOk(ws[0]);
    var rest := Phrase(ws[1..]);
    if p == |ws[0]| {
      k := 1;
      FirstWord(ws[1..]);
      assert c[p + 1..] == rest;
      assert c[..p] == ws[0];
    } else {
      assert WordsOk(ws[1..]);
      var q := p - |ws[0]| - 1;
      assert c[p] == rest[q];
      var j := BlankIsBetweenWords(ws[1..], q);
      k := j + 1;
      BlankFurtherOn(ws[0], rest, q, ws[j]);
    }
  }

  lemma FirstWord(ws: seq<string>)
    requires ws != []
    ensures ws[0] <= Phrase(ws)
  {
  }

  lemma {:induction false} LastWord(ws: seq<string>)
    requires ws != [] && EndsLikeAConstant(ws[|ws| - 1])
    ensures EndsLikeAConstant(Phrase(ws))
  {
    if |ws| > 1 {
      LastWord(ws[1..]);
      var c, rest := Phrase(ws), Phrase(ws[1..]);
      assert c[|c| - 1] == rest[|rest| - 1] && c[|c| - 2] == rest[|rest| - 2];
    }
  }

  lemma EndOfConstant(t: Terms, d: string)
    requires Sound(t) && IsCore(t, d)
    ensures d in {"·", "-"} || IsLabel(t, d) || EndsLikeAConstant(d)
  {
    if d !in {"·", "-", WINDOW} && !IsLabel(t, d) {
      var ws :| ws in t.phrases && d == Phrase(ws);
      LastWord(ws);
    }
  }

  lemma StartOfConstant(t: Terms, d: string)
    requires Sound(t) && IsCore(t, d)
    ensures d in {"·", "-"} || StartsAsConstantsDo(d)
  {
    if IsLabel(t, d) {
      assert forall i :: 0 <= i < |d| - 1 ==> d[i] == d[..|d| - 1][i];
    } else if d !in {"·", "-", WINDOW} {
      var ws :| ws in t.phrases && d == Phrase(ws);
      StartOfPhrase(ws);
    }
  }

  lemma StartOfPhrase(ws: seq<string>)
    requires Wording(ws)
    ensures StartsAsConstantsDo(Phrase(ws))
  {
    assert WordOk(ws[0]);
  }

  /** Every constant of more than one character is solid. */
  lemma ConstantIsSolid(t: Terms, c: string)
    requires Sound(t) && IsConstant(t, c) && |c| > 1
    ensures Solid(c)
  {
    if IsCore(t, c) { CoreIsSound(t, c); }
  }

  /** No shown value contains a constant of the builder, and no such constant has a bracket. */
  lemma CoreIsSound(t: Terms, c: string)
    requires Sound(t) && IsCore(t, c) && |c| > 1
    ensures Solid(c) && Foreign(c) && Free(c, {'<'})
  {
    if IsLabel(t, c) {
      assert forall i :: 0 <= i < |c| - 1 ==> c[i] == c[..|c| - 1][i];
      assert c[|c| - 1] == ':' && !IsDigit(c[|c| - 2]);
    } else if c == WINDOW {
      assert !ValueChar(c[0]);
    } else {
      var ws :| ws in t.phrases && c == Phrase(ws);
      PhraseIsSolid(ws);
      FirstWord(ws);
      var i :| 0 <= i < |ws[0]| && !ValueChar(ws[0][i]);
      assert !ValueChar(c[i]);
    }
  }

  lemma WordEndsConstant(t: Terms, w: string, d: string)
    requires Sound(t) && WordOk(w) && IsCore(t, d) && Suffix(w, d)
    ensures EndsLikeAConstant(w)
  {
    EndOfConstant(t, d);
    assert w[|w| - 1] == d[|d| - 1];
    if |w| > 1 { assert w[|w| - 2] == d[|d| - 2]; }
  }

  lemma WordStartsNoConstant(t: Terms, w: string, d: string)
    requires Sound(t) && StartsUnlike(w) && IsCore(t, d)
    ensures !Comparable(w, d)
  {
    StartOfConstant(t, d);
  }

  /** No constant can be spliced from two constants of the builder with a blank between them. */
  lemma ConstantsDoNotSplice(t: Terms, c: string, left: string, right: string)
    requires Sound(t) && IsConstant(t, c) && |c| > 1 && IsCore(t, left) && IsCore(t, right)
    ensures Unspliced(c, left, right)
  {
    if IsCore(t, c) { CoreDoesNotSplice(t, c, left, right); } else { ExtraDoesNotSplice(t, c, left, right); }
  }

  lemma ExtraDoesNotSplice(t: Terms, c: string, left: string, right: string)
    requires Sound(t) && c in t.extras && IsCore(t, left)
    ensures Unspliced(c, left, right)
  {
    EndOfConstant(t, left);
    UnendedDoesNotSplice(c, left);
  }

  lemma UnendedDoesNotSplice(c: string, left: string)
    requires Unended(c) && left != "" && (left[|left| - 1] in {'·', '-', ':'} || EndsLikeAConstant(left))
    ensures forall p {:trigger c[p]} :: 0 < p < |c| && c[p] == ' ' ==> !Suffix(c[..p], left)
  {
    forall p {:trigger c[p]} | 0 < p < |c| && c[p] == ' ' ensures !Suffix(c[..p], left) {
      if Suffix(c[..p], left) { CutEnds(c, p, left); }
    }
  }

  lemma CutEnds(c: string, p: nat, d: string)
    requires 2 <= p <= |c| && Suffix(c[..p], d)
    ensures c[p - 1] == d[|d| - 1] && c[p - 2] == d[|d| - 2]
  {
    CutEnd(c, p, d);
    assert c[..p][p - 2] == d[|d| - p..][p - 2];
  }

  lemma CoreDoesNotSplice(t: Terms, c: string, left: string, right: string)
    requires Sound(t) && IsCore(t, c) && |c| > 1 && IsCore(t, left) && IsCore(t, right)
    ensures Unspliced(c, left, right)
  {
    forall p {:trigger c[p]} | 0 < p < |c| - 1 && c[p] == ' ' && Suffix(c[..p], left)
      ensures !Comparable(c[p + 1..], right)
    {
      BlankSplitsConstant(t, c, p);
      var ws :| ws in t.phrases && c == Phrase(ws);
      var k := BlankIsBetweenWords(ws, p);
      SuffixOfSuffix(ws[k - 1], c[..p], left);
      assert WordOk(ws[k - 1]) && Calm(ws[k - 1], ws[k]);
      WordEndsConstant(t, ws[k - 1], left);
      WordStartsNoConstant(t, ws[k], right);
      PrefixComparable(ws[k], c[p + 1..], right);
    }
  }

  lemma LabelHasNoBlank(t: Terms, c: string)
    requires Sound(t) && IsLabel(t, c)
    ensures ' ' !in c
  {
    assert forall i :: 0 <= i < |c| - 1 ==> c[i] == c[..|c| - 1][i];
  }

  lemma CutEnd(c: string, p: nat, d: string)
    requires 0 < p <= |c| && Suffix(c[..p], d)
    ensures c[p - 1] == d[|d| - 1]
  {
    assert c[..p][p - 1] == d[|d| - p..][p - 1];
  }

  lemma BlankSplitsConstant(t: Terms, c: string, p: nat)
    requires Sound(t) && IsCore(t, c) && p < |c| && c[p] == ' '
    ensures IsPhrase(t, c)
  {
    if IsLabel(t, c) { LabelHasNoBlank(t, c); }
  }

  lemma SuffixOfSuffix(a: string, b: string, d: string)
    requires Suffix(a, b) && Suffix(b, d)
    ensures Suffix(a, d)
  {
    assert d[|d| - |a|..] == d[|d| - |b|..][|b| - |a|..];
  }

  lemma PrefixComparable(w: string, rest: string, d: string)
    requires w <= rest
    ensures Comparable(rest, d) ==> Comparable(w, d)
  {
    if rest <= d {
      assert w == rest[..|w|] == d[..|w|];
    } else if d <= rest {
      if |w| <= |d| { assert w == rest[..|w|] == d[..|w|]; } else { assert d == rest[..|d|] == w[..|d|]; }
    }
  }

  /** Text after which a blank begins something new: a bullet's dash, or a colon. */
  predicate Closes(left: string) {
    left == "-" || (left != "" && left[|left| - 1] == ':')
  }

  /** Nor from such a text and whatever follows it. */
  lemma ClosedDoesNotSplice(t: Terms, c: string, left: string, right: string)
    requires Sound(t) && IsConstant(t, c) && |c| > 1 && Closes(left)
    ensures Unspliced(c, left, right)
  {
    ConstantIsSolid(t, c);
    forall p {:trigger c[p]} | 0 < p < |c| - 1 && c[p] == ' ' ensures !Suffix(c[..p], left) {
      if Suffix(c[..p], left) {
        CutEnd(c, p, left);
        DashDoesNotStart(t, c, p);
      }
    }
  }

  lemma DashDoesNotStart(t: Terms, c: string, p: nat)
    requires Sound(t) && IsConstant(t, c) && 0 < p < |c| && c[p] == ' '
    ensures p == 1 ==> c[0] != '-'
  {
    if IsCore(t, c) {
      BlankSplitsConstant(t, c, p);
      var ws :| ws in t.phrases && c == Phrase(ws);
      var k := BlankIsBetweenWords(ws, p);
      assert WordOk(ws[k - 1]);
    }
  }
}
