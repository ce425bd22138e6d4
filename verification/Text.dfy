/** Text operations shared by the prompt builder and the linter. */
module Text {

  /** `pat` stands in `text` at position `i`. */
  predicate At(text: string, i: nat, pat: string) {
    i + |pat| <= |text| && text[i..i + |pat|] == pat
  }

  ghost predicate Contains(text: string, pat: string) {
    exists i: nat :: At(text, i, pat)
  }

  function Found(text: string, pat: string, i: nat): bool
    decreases |text| - i
  {
    i + |pat| <= |text| && (At(text, i, pat) || (i < |text| && Found(text, pat, i + 1)))
  }

  lemma {:induction false} FoundFrom(text: string, pat: string, i: nat)
    ensures Found(text, pat, i) <==> exists k: nat :: i <= k && At(text, k, pat)
    decreases |text| - i
  {
    if i < |text| {
      FoundFrom(text, pat, i + 1);
      if k: nat :| i <= k && At(text, k, pat) { assert k == i || i + 1 <= k; }
    } else if i + |pat| <= |text| {
      assert At(text, i, pat);
    }
  }

  lemma FoundIsContains(text: string, pat: string)
    ensures Found(text, pat, 0) <==> Contains(text, pat)
  {
    FoundFrom(text, pat, 0);
    if Contains(text, pat) {
      var k: nat :| At(text, k, pat);
      assert 0 <= k && At(text, k, pat);
    }
  }

  lemma AtChars(text: string, i: nat, pat: string)
    requires At(text, i, pat)
    ensures forall k :: i <= k < i + |pat| ==> text[k] == pat[k - i]
  {
    forall k | i <= k < i + |pat| ensures text[k] == pat[k - i] {
      assert text[k] == text[i..i + |pat|][k - i];
    }
  }

  lemma ShiftAt(front: string, rest: string, i: nat, pat: string)
    ensures At(front + rest, |front| + i, pat) <==> At(rest, i, pat)
  {
    if i + |pat| <= |rest| {
      assert (front + rest)[|front| + i..|front| + i + |pat|] == rest[i..i + |pat|];
    }
  }

  lemma AtFront(front: string, rest: string, i: nat, pat: string)
    requires i + |pat| <= |front|
    ensures At(front + rest, i, pat) <==> At(front, i, pat)
  {
    assert (front + rest)[i..i + |pat|] == front[i..i + |pat|];
  }

  predicate Free(text: string, bad: set<char>) {
    forall i :: 0 <= i < |text| ==> text[i] !in bad
  }

  /** `text.replace(old, new)`: leftmost, non-overlapping. */
  function Replace(text: string, what: string, with: string): string
    requires what != ""
  {
    if text == "" then ""
    else if At(text, 0, what) then with + Replace(text[|what|..], what, with)
    else [text[0]] + Replace(text[1..], what, with)
  }

  lemma TailAt(text: string, k: nat, what: string)
    requires text != ""
    ensures At(text[1..], k, what) <==> At(text, k + 1, what)
  {
    assert text == [text[0]] + text[1..];
    ShiftAt([text[0]], text[1..], k, what);
  }

  lemma CopyOne(text: string, what: string, with: string)
    requires what != "" && text != "" && !At(text, 0, what)
    ensures Replace(text, what, with) == [text[0]] + Replace(text[1..], what, with)
  {
  }

  lemma ReplaceHere(text: string, what: string, with: string, rest: string)
    requires what != "" && At(text, 0, what) && rest == Replace(text[|what|..], what, with)
    ensures Replace(text, what, with) == with + rest
  {
  }

  /** The first occurrence is replaced, and then those in what follows it. */
  lemma {:induction false} ReplaceFirst(text: string, what: string, with: string, i: nat, rest: string)
    requires what != "" && At(text, i, what) && forall k: nat :: k < i ==> !At(text, k, what)
    requires rest == Replace(text[i + |what|..], what, with)
    ensures Replace(text, what, with) == text[..i] + with + rest
  {
    if i > 0 {
      forall k: nat | k < i - 1 ensures !At(text[1..], k, what) { TailAt(text, k, what); }
      TailAt(text, i - 1, what);
      assert text[1..][i - 1 + |what|..] == text[i + |what|..];
      ReplaceFirst(text[1..], what, with, i - 1, rest);
      CopyOne(text, what, with);
      CopiedInFront(text, i, with, rest);
    } else {
      ReplaceHere(text, what, with, rest);
      assert text[..0] + with + rest == with + rest;
    }
  }

  lemma CopiedInFront(text: string, i: nat, with: string, rest: string)
    requires 0 < i <= |text|
    ensures [text[0]] + (text[1..][..i - 1] + with + rest) == text[..i] + with + rest
  {
    assert text[..i] == [text[0]] + text[1..][..i - 1];
  }

  /** Text without an occurrence stays as it is. */
  lemma {:induction false} ReplaceNothing(text: string, what: string, with: string)
    requires what != "" && !Contains(text, what)
    ensures Replace(text, what, with) == text
  {
    if text != "" {
      assert !At(text, 0, what);
      forall k: nat ensures !At(text[1..], k, what) {
        TailAt(text, k, what);
        assert !At(text, k + 1, what);
      }
      ReplaceNothing(text[1..], what, with);
      assert text == [text[0]] + text[1..];
    }
  }

  function Newlines(text: string): nat {
    if text == "" then 0 else Newlines(text[..|text| - 1]) + if text[|text| - 1] == '\n' then 1 else 0
  }

  lemma {:induction false} NewlinesConcat(a: string, b: string)
    ensures Newlines(a + b) == Newlines(a) + Newlines(b)
  {
    if b == "" {
      assert a + b == a;
    } else {
      NewlinesConcat(a, b[..|b| - 1]);
      assert (a + b)[..|a + b| - 1] == a + b[..|b| - 1];
    }
  }

  function Repeat(c: char, n: nat): string {
    seq(n, _ => c)
  }

  lemma {:induction false} NewlinesRepeat(n: nat)
    ensures Newlines(Repeat('\n', n)) == n
  {
    if n > 0 {
      NewlinesRepeat(n - 1);
      assert Repeat('\n', n)[..n - 1] == Repeat('\n', n - 1);
    }
  }

  function Digit(d: nat): char
    requires d < 10
  {
    ['0', '1', '2', '3', '4', '5', '6', '7', '8', '9'][d]
  }

  /** `str(n)` for a non-negative integer. */
  function Decimal(n: nat): string {
    if n < 10 then [Digit(n)] else Decimal(n / 10) + [Digit(n % 10)]
  }

  predicate IsDigit(c: char) {
    '0' <= c <= '9'
  }

  lemma {:induction false} DecimalIsDigits(n: nat)
    ensures Decimal(n) != "" && forall i :: 0 <= i < |Decimal(n)| ==> IsDigit(Decimal(n)[i])
  {
    if n >= 10 { DecimalIsDigits(n / 10); }
  }

  /** What a row of digits is worth. */
  function ValueOf(s: string): nat
    requires forall i :: 0 <= i < |s| ==> IsDigit(s[i])
  {
    if s == "" then 0 else 10 * ValueOf(s[..|s| - 1]) + (assert IsDigit(s[|s| - 1]); s[|s| - 1] as int - '0' as int)
  }

  /** A number is written as the digits that are worth it, with no zero in front. */
  lemma {:induction false} DecimalIsWorth(n: nat)
    ensures (forall i :: 0 <= i < |Decimal(n)| ==> IsDigit(Decimal(n)[i])) && ValueOf(Decimal(n)) == n
    ensures n > 0 ==> Decimal(n) != "" && Decimal(n)[0] != '0'
  {
    DecimalIsDigits(n);
    if n >= 10 {
      DecimalIsWorth(n / 10);
      assert Decimal(n)[..|Decimal(n)| - 1] == Decimal(n / 10);
    } else {
      assert [Digit(n)][..0] == "";
    }
  }

  /** `html.escape`, quotes apart: each character is replaced on its own. */
  function EscapeChar(c: char): string {
    if c == '&' then "&amp;" else if c == '<' then "&lt;" else if c == '>' then "&gt;" else [c]
  }

  function Escape(text: string): string {
    if text == "" then "" else EscapeChar(text[0]) + Escape(text[1..])
  }

  lemma {:induction false} EscapeHasNoBracket(text: string)
    ensures Free(Escape(text), {'<', '>'})
  {
    if text != "" { EscapeHasNoBracket(text[1..]); }
  }

  /** Escaping loses nothing: different texts are escaped differently. */
  lemma {:induction false} EscapeIsInjective(a: string, b: string)
    requires Escape(a) == Escape(b)
    ensures a == b
  {
    if a == "" || b == "" {
      assert a == b;
    } else {
      FirstIsSame(a[0], Escape(a[1..]), b[0], Escape(b[1..]));
      assert Escape(a)[|EscapeChar(a[0])|..] == Escape(a[1..]) && Escape(b)[|EscapeChar(b[0])|..] == Escape(b[1..]);
      EscapeIsInjective(a[1..], b[1..]);
      assert a == [a[0]] + a[1..] && b == [b[0]] + b[1..];
    }
  }

  lemma FirstIsSame(c: char, x: string, d: char, y: string)
    requires EscapeChar(c) + x == EscapeChar(d) + y
    ensures c == d
  {
    var s := EscapeChar(c) + x;
    assert s[0] == EscapeChar(c)[0] == EscapeChar(d)[0];
    if c in {'&', '<', '>'} && d in {'&', '<', '>'} {
      assert s[1] == EscapeChar(c)[1] == EscapeChar(d)[1];
    }
  }

  /** Lower case, for ASCII letters. */
  function LowerChar(c: char): char {
    if 'A' <= c <= 'Z' then c - 'A' + 'a' else c
  }

  function Lower(s: string): string {
    seq(|s|, i requires 0 <= i < |s| => LowerChar(s[i]))
  }

  /** The same character, or an upper and a lower case letter at the same place in the alphabet. */
  predicate SameLetter(c: char, d: char) {
    || c == d
    || ('A' <= c <= 'Z' && 'a' <= d <= 'z' && c as int - 'A' as int == d as int - 'a' as int)
    || ('a' <= c <= 'z' && 'A' <= d <= 'Z' && c as int - 'a' as int == d as int - 'A' as int)
  }

  /** Texts are alike in lower case exactly when they differ in the case of letters only; and lower case has no
      capital. */
  lemma LowerExactly(a: string, b: string)
    ensures Lower(a) == Lower(b) <==> |a| == |b| && forall i :: 0 <= i < |a| ==> SameLetter(a[i], b[i])
    ensures |Lower(a)| == |a|
    ensures forall i :: 0 <= i < |a| ==> !('A' <= Lower(a)[i] <= 'Z') && SameLetter(a[i], Lower(a)[i])
  {
    if Lower(a) == Lower(b) {
      forall i | 0 <= i < |a| ensures SameLetter(a[i], b[i]) { assert Lower(a)[i] == Lower(b)[i]; }
    }
  }
}
