/** Untrusted text: strip the nonce, cut to a byte budget, escape, and put the boundary around it. */
module Wrap {
  import opened Common
  import opened Text

  const NONCE_REMOVED := "[nonce-removed]"
  const SOURCES: set<string> :=
    {"wazuh_raw_log", "rule_description", "correlation_samples", "kb_playbook", "context", "proposer"}

  predicate IsHex(c: char) {
    '0' <= c <= '9' || 'a' <= c <= 'f'
  }

  /** What `secrets.token_hex(8)` yields. */
  predicate IsNonce(nonce: string) {
    |nonce| == 16 && forall i :: 0 <= i < 16 ==> IsHex(nonce[i])
  }

  datatype Block = Block(source: string, plain: string, escaped: string, truncated: bool, droppedBytes: nat,
                         rendered: string)

  // ---- the steps ------------------------------------------------------------------------------

  function StripNonce(text: string, nonce: string): string
    requires nonce != ""
  {
    Replace(text, nonce, NONCE_REMOVED)
  }

  /** Bytes of one character in UTF-8. */
  function Utf8Size(c: char): nat {
    if c < 0x80 as char then 1 else if c < 0x800 as char then 2 else if c < 0x10000 as char then 3 else 4
  }

  /** How many characters an encoding of so many bytes can tell apart: seven bits in one byte, and in more, what
      the first byte has left and six in each of the others. */
  function Capacity(bytes: nat): nat {
    if bytes == 1 then 0x80 else Power(2, 5 * bytes + 1)
  }

  /** The shortest encoding that has room for the character. */
  lemma SizeIsShortest(c: char)
    ensures 1 <= Utf8Size(c) <= 4 && c as int < Capacity(Utf8Size(c))
    ensures forall n :: 1 <= n < Utf8Size(c) ==> c as int >= Capacity(n)
  {
    assert Power(2, 11) == 0x800 && Power(2, 16) == 0x10000 && Power(2, 21) == 0x200000;
    assert Capacity(2) == 0x800 && Capacity(3) == 0x10000 && Capacity(4) == 0x200000;
  }

  function Utf8Length(text: string): nat {
    if text == "" then 0 else Utf8Size(text[0]) + Utf8Length(text[1..])
  }

  /** The longest front of `text` within a byte budget that splits no character. */
  function Head(text: string, limit: nat): (head: string)
    ensures head <= text
  {
    if text == "" || Utf8Size(text[0]) > limit then ""
    else [text[0]] + Head(text[1..], limit - Utf8Size(text[0]))
  }

  lemma {:induction false} HeadIsNoLonger(text: string, limit: nat)
    ensures Utf8Length(Head(text, limit)) <= Utf8Length(text)
  {
    if text != "" && Utf8Size(text[0]) <= limit {
      HeadIsNoLonger(text[1..], limit - Utf8Size(text[0]));
      assert Head(text, limit)[1..] == Head(text[1..], limit - Utf8Size(text[0]));
    }
  }

  function DroppedBytes(text: string, limit: nat): nat {
    HeadIsNoLonger(text, limit);
    if Utf8Length(text) <= limit then 0 else Utf8Length(text) - Utf8Length(Head(text, limit))
  }

  function Marker(dropped: nat): string {
    "\n[truncated] " + Decimal(dropped) + " bytes dropped"
  }

  function Truncate(text: string, limit: nat): (string, bool) {
    var dropped := DroppedBytes(text, limit);
    if dropped == 0 then (text, false) else (Head(text, limit) + Marker(dropped), true)
  }

  function AttrChar(c: char): string {
    if c == '"' then "&quot;" else if c == '\'' then "&#x27;" else EscapeChar(c)
  }

  function EscapeAttr(text: string): string {
    if text == "" then "" else AttrChar(text[0]) + EscapeAttr(text[1..])
  }

  /** Attributes in key order; keys are argument names. */
  function Attrs(attrs: seq<(string, string)>): string {
    if attrs == [] then ""
    else " " + attrs[0].0 + "=\"" + EscapeAttr(attrs[0].1) + "\"" + Attrs(attrs[1..])
  }

  function OpenPrefix(nonce: string): string {
    "<untrusted_data nonce=\"" + nonce + "\""
  }

  function CloseTag(nonce: string): string {
    "</untrusted_data nonce=\"" + nonce + "\">"
  }

  function Rendered(nonce: string, source: string, attrs: string, escaped: string): string {
    OpenPrefix(nonce) + " source=\"" + source + "\"" + attrs + ">" + "\n" + escaped + "\n" + CloseTag(nonce)
  }

  /** `normalised` is the text after Unicode folding; an unknown source is a `ValueError`. */
  function UntrustedBlock(normalised: string, source: string, nonce: string, limit: Option<nat>,
                          attrs: seq<(string, string)>): Option<Block>
    requires nonce != ""
  {
    if source !in SOURCES then None
    else
      var stripped := StripNonce(normalised, nonce);
      var (plain, truncated) := if limit.None? then (stripped, false) else Truncate(stripped, limit.value);
      var dropped := if limit.None? then 0 else DroppedBytes(stripped, limit.value);
      Some(Block(source, plain, Escape(plain), truncated, dropped,
                 Rendered(nonce, source, Attrs(attrs), Escape(plain))))
  }

  // ---- the nonce does not survive --------------------------------------------------------------

  /** No occurrence of hexadecimal text runs over a character that is not hexadecimal. */
  lemma NonHexStaysOutside(text: string, i: nat, nonce: string, p: nat)
    requires IsNonce(nonce) && At(text, i, nonce) && p < |text| && !IsHex(text[p])
    ensures p < i || i + 16 <= p
  {
    AtChars(text, i, nonce);
  }

  lemma SplitAtNonHex(a: string, x: char, b: string, nonce: string)
    requires IsNonce(nonce) && !IsHex(x)
    ensures Contains(a + [x] + b, nonce) <==> Contains(a, nonce) || Contains(b, nonce)
  {
    var t := a + [x] + b;
    assert t == a + ([x] + b);
    if Contains(t, nonce) {
      var i: nat :| At(t, i, nonce);
      NonHexStaysOutside(t, i, nonce, |a|);
      if i + 16 <= |a| {
        AtFront(a, [x] + b, i, nonce);
      } else {
        ShiftAt(a + [x], b, i - |a| - 1, nonce);
      }
    }
    if Contains(a, nonce) {
      var i: nat :| At(a, i, nonce);
      AtFront(a, [x] + b, i, nonce);
    }
    if Contains(b, nonce) {
      var j: nat :| At(b, j, nonce);
      ShiftAt(a + [x], b, j, nonce);
    }
  }

  lemma ShortHasNoNonce(text: string, nonce: string)
    requires IsNonce(nonce) && |text| < 16
    ensures !Contains(text, nonce)
  {
  }

  lemma ReplacedFront(text: string, nonce: string)
    requires IsNonce(nonce)
    ensures At(text, 0, nonce) ==> StripNonce(text, nonce) != "" && StripNonce(text, nonce)[0] == '['
  {
  }

  /** The hexadecimal front of the stripped text is the front of the text itself. */
  lemma {:induction false} StrippedFront(text: string, nonce: string, m: nat)
    requires IsNonce(nonce) && m <= |StripNonce(text, nonce)|
    requires forall i :: 0 <= i < m ==> IsHex(StripNonce(text, nonce)[i])
    ensures m <= |text| && text[..m] == StripNonce(text, nonce)[..m]
  {
    if m > 0 {
      var r := StripNonce(text, nonce);
      ReplacedFront(text, nonce);
      var rest := StripNonce(text[1..], nonce);
      assert r == [text[0]] + rest;
      forall i | 0 <= i < m - 1 ensures IsHex(rest[i]) { assert rest[i] == r[i + 1]; }
      StrippedFront(text[1..], nonce, m - 1);
      assert text[..m] == [text[0]] + text[1..][..m - 1];
      assert r[..m] == [text[0]] + rest[..m - 1];
    }
  }

  lemma NonceAtStrippedFront(text: string, nonce: string)
    requires IsNonce(nonce)
    ensures At(StripNonce(text, nonce), 0, nonce) ==> At(text, 0, nonce)
  {
    var r := StripNonce(text, nonce);
    if At(r, 0, nonce) {
      assert forall k :: 0 <= k < 16 ==> r[k] == r[0..16][k];
      StrippedFront(text, nonce, 16);
    }
  }

  lemma {:induction false} StrippedHasNoNonce(text: string, nonce: string)
    requires IsNonce(nonce)
    ensures !Contains(StripNonce(text, nonce), nonce)
  {
    var r := StripNonce(text, nonce);
    if text == "" {
    } else if At(text, 0, nonce) {
      var rest := StripNonce(text[16..], nonce);
      StrippedHasNoNonce(text[16..], nonce);
      ShortHasNoNonce("[nonce-removed", nonce);
      SplitAtNonHex("[nonce-removed", ']', rest, nonce);
      assert r == "[nonce-removed" + [']'] + rest;
    } else {
      var rest := StripNonce(text[1..], nonce);
      StrippedHasNoNonce(text[1..], nonce);
      NonceAtStrippedFront(text, nonce);
      forall i: nat ensures !At(r, i, nonce) {
        if i > 0 { ShiftAt([text[0]], rest, i - 1, nonce); }
      }
    }
  }

  lemma {:induction false} EscapedFront(text: string, m: nat)
    requires m <= |Escape(text)|
    requires forall i :: 0 <= i < m ==> IsHex(Escape(text)[i])
    ensures m <= |text| && text[..m] == Escape(text)[..m]
  {
    if m > 0 {
      assert Escape(text)[0] == EscapeChar(text[0])[0];
      assert EscapeChar(text[0]) == [text[0]];
      var rest := Escape(text[1..]);
      forall i | 0 <= i < m - 1 ensures IsHex(rest[i]) { assert rest[i] == Escape(text)[i + 1]; }
      EscapedFront(text[1..], m - 1);
      assert text[..m] == [text[0]] + text[1..][..m - 1];
      assert Escape(text)[..m] == [text[0]] + rest[..m - 1];
    }
  }

  lemma NonceAtEscapedFront(text: string, nonce: string)
    requires IsNonce(nonce)
    ensures At(Escape(text), 0, nonce) ==> At(text, 0, nonce)
  {
    var r := Escape(text);
    if At(r, 0, nonce) {
      assert forall k :: 0 <= k < 16 ==> r[k] == r[0..16][k];
      EscapedFront(text, 16);
    }
  }

  /** Escaping makes no nonce. */
  lemma {:induction false} EscapeMakesNoNonce(text: string, nonce: string)
    requires IsNonce(nonce) && !Contains(text, nonce)
    ensures !Contains(Escape(text), nonce)
  {
    if text != "" {
      var e, rest, r := EscapeChar(text[0]), Escape(text[1..]), Escape(text);
      assert text == [text[0]] + text[1..];
      forall i: nat ensures !At(text[1..], i, nonce) {
        ShiftAt([text[0]], text[1..], i, nonce);
        assert !At(text, 1 + i, nonce);
      }
      EscapeMakesNoNonce(text[1..], nonce);
      if |e| > 1 {
        var body := e[..|e| - 1];
        ShortHasNoNonce(body, nonce);
        SplitAtNonHex(body, ';', rest, nonce);
        assert r == body + [';'] + rest;
      } else {
        NonceAtEscapedFront(text, nonce);
        forall i: nat ensures !At(r, i, nonce) {
          if i > 0 { ShiftAt(e, rest, i - 1, nonce); }
        }
      }
    }
  }

  lemma {:induction false} EscapeConcat(a: string, b: string)
    ensures Escape(a + b) == Escape(a) + Escape(b)
  {
    if a == "" {
      assert a + b == b;
    } else {
      assert (a + b)[1..] == a[1..] + b;
      EscapeConcat(a[1..], b);
    }
  }

  lemma {:induction false} EscapeKeepsHex(text: string)
    requires forall i :: 0 <= i < |text| ==> IsHex(text[i])
    ensures Escape(text) == text
  {
    if text != "" { EscapeKeepsHex(text[1..]); }
  }

  /** Nor does it take one away. */
  lemma EscapeKeepsNonceExactly(text: string, nonce: string)
    requires IsNonce(nonce)
    ensures Contains(Escape(text), nonce) <==> Contains(text, nonce)
  {
    if !Contains(text, nonce) {
      EscapeMakesNoNonce(text, nonce);
    } else {
      var i: nat :| At(text, i, nonce);
      var a, b := text[..i], text[i + 16..];
      assert text == a + (nonce + b);
      EscapeConcat(a, nonce + b);
      EscapeConcat(nonce, b);
      EscapeKeepsHex(nonce);
      assert Escape(text) == Escape(a) + (nonce + Escape(b));
      assert At(nonce + Escape(b), 0, nonce);
      ShiftAt(Escape(a), nonce + Escape(b), 0, nonce);
    }
  }

  lemma FrontHasNoNonce(text: string, head: string, nonce: string)
    requires head <= text && !Contains(text, nonce)
    ensures !Contains(head, nonce)
  {
    forall i: nat ensures !At(head, i, nonce) {
      assert text == head + text[|head|..];
      if i + |nonce| <= |head| { AtFront(head, text[|head|..], i, nonce); }
    }
  }

  /** The truncation marker can spell the nonce only with the digits of its byte count. */
  lemma MarkerNonce(head: string, dropped: nat, nonce: string)
    requires IsNonce(nonce) && !Contains(head, nonce)
    ensures Contains(head + Marker(dropped), nonce) <==> Contains(Decimal(dropped), nonce)
  {
    var n := Decimal(dropped);
    assert head + Marker(dropped) == head + ['\n'] + ("[truncated]" + [' '] + (n + [' '] + "bytes dropped"));
    SplitAtNonHex(head, '\n', "[truncated]" + [' '] + (n + [' '] + "bytes dropped"), nonce);
    SplitAtNonHex("[truncated]", ' ', n + [' '] + "bytes dropped", nonce);
    SplitAtNonHex(n, ' ', "bytes dropped", nonce);
    ShortHasNoNonce("[truncated]", nonce);
    ShortHasNoNonce("bytes dropped", nonce);
  }

  function Power(b: nat, e: nat): nat {
    if e == 0 then 1 else b * Power(b, e - 1)
  }

  lemma {:induction false} DecimalLength(n: nat, k: nat, bound: nat)
    requires k > 0 && bound == Power(10, k) && n < bound
    ensures |Decimal(n)| <= k
  {
    if n >= 10 {
      assert k > 1;
      assert Power(10, k) == 10 * Power(10, k - 1);
      DecimalLength(n / 10, k - 1, Power(10, k - 1));
    }
  }

  /** The wrapped content never has an angle bracket, and has the nonce exactly when the number of bytes
      the limit cuts off spells it: sixteen decimal digits, so a text of ten to the fifteen bytes at
      least. */
  lemma WrappedContentIsInertExactly(normalised: string, source: string, nonce: string, limit: Option<nat>,
                                     attrs: seq<(string, string)>)
    requires IsNonce(nonce) && source in SOURCES
    ensures var escaped := UntrustedBlock(normalised, source, nonce, limit, attrs).value.escaped;
            && Free(escaped, {'<', '>'})
            && (Contains(escaped, nonce) <==>
                limit.Some? && Contains(Decimal(DroppedBytes(StripNonce(normalised, nonce), limit.value)), nonce))
            && (Utf8Length(StripNonce(normalised, nonce)) < Power(10, 15) ==> !Contains(escaped, nonce))
  {
    var b := UntrustedBlock(normalised, source, nonce, limit, attrs).value;
    var stripped := StripNonce(normalised, nonce);
    StrippedHasNoNonce(normalised, nonce);
    EscapeHasNoBracket(b.plain);
    EscapeKeepsNonceExactly(b.plain, nonce);
    if limit.Some? {
      var dropped := DroppedBytes(stripped, limit.value);
      if dropped == 0 {
        ShortHasNoNonce(Decimal(0), nonce);
      } else {
        FrontHasNoNonce(stripped, Head(stripped, limit.value), nonce);
        MarkerNonce(Head(stripped, limit.value), dropped, nonce);
      }
      if Utf8Length(stripped) < Power(10, 15) {
        DecimalLength(dropped, 15, Power(10, 15));
        ShortHasNoNonce(Decimal(dropped), nonce);
      }
    }
  }

  lemma {:induction false} DecimalIsLong(n: nat, k: nat)
    requires Power(10, k) <= n < Power(10, k + 1)
    ensures |Decimal(n)| == k + 1
  {
    if k == 0 {
      assert Power(10, 1) == 10 * Power(10, 0);
    } else {
      assert Power(10, k + 1) == 10 * Power(10, k);
      assert Power(10, k) == 10 * Power(10, k - 1);
      assert Power(10, k - 1) >= 1;
      DecimalIsLong(n / 10, k - 1);
    }
  }

  lemma {:induction false} PlainLetters(n: nat)
    ensures Utf8Length(Repeat('x', n)) == n
  {
    if n > 0 {
      PlainLetters(n - 1);
      assert Repeat('x', n)[1..] == Repeat('x', n - 1);
    }
  }

  lemma {:induction false} LettersStay(n: nat, nonce: string)
    requires IsNonce(nonce)
    ensures StripNonce(Repeat('x', n), nonce) == Repeat('x', n)
  {
    if n > 0 {
      var text := Repeat('x', n);
      LettersStay(n - 1, nonce);
      assert text[1..] == Repeat('x', n - 1);
      if At(text, 0, nonce) { AtChars(text, 0, nonce); }
      assert [text[0]] + Repeat('x', n - 1) == text;
    }
  }

  /** So the nonce can return: sixteen digits that do not begin with a zero are a nonce, and a text of that
      many bytes cut to nothing is wrapped with the nonce inside. */
  lemma NonceReturnsThroughTheMarker(n: nat, source: string, attrs: seq<(string, string)>)
    requires Power(10, 15) <= n < Power(10, 16) && source in SOURCES
    ensures var nonce := Decimal(n);
            && IsNonce(nonce)
            && Contains(UntrustedBlock(Repeat('x', n), source, nonce, Some(0), attrs).value.escaped, nonce)
  {
    var nonce := Decimal(n);
    DecimalIsLong(n, 15);
    DecimalIsDigits(n);
    LettersStay(n, nonce);
    PlainLetters(n);
    assert At(nonce, 0, nonce);
    WrappedContentIsInertExactly(Repeat('x', n), source, nonce, Some(0), attrs);
  }

  // ---- truncation ---------------------------------------------------------------------------------

  /** The kept front is within the budget and the next character would not have been. */
  lemma {:induction false} HeadIsMaximal(text: string, limit: nat)
    ensures var h := Head(text, limit);
            && Utf8Length(h) <= limit
            && (|h| < |text| ==> Utf8Length(h) + Utf8Size(text[|h|]) > limit)
  {
    if text != "" && Utf8Size(text[0]) <= limit {
      HeadIsMaximal(text[1..], limit - Utf8Size(text[0]));
      var h := Head(text, limit);
      assert h[1..] == Head(text[1..], limit - Utf8Size(text[0]));
    }
  }

  /** A block shows all of its text, or the longest front within the limit and how many bytes that left out. */
  lemma BlockSaysWhatWasCut(normalised: string, source: string, nonce: string, limit: Option<nat>,
                            attrs: seq<(string, string)>)
    requires IsNonce(nonce) && source in SOURCES
    ensures var b, text := UntrustedBlock(normalised, source, nonce, limit, attrs).value, StripNonce(normalised, nonce);
            && b.source == source && b.escaped == Escape(b.plain)
            && (b.truncated <==> limit.Some? && Utf8Length(text) > limit.value)
            && (!b.truncated ==> b.plain == text && b.droppedBytes == 0)
            && (b.truncated ==>
                  var head := Head(text, limit.value);
                  && b.plain == head + "\n[truncated] " + Decimal(b.droppedBytes) + " bytes dropped"
                  && Utf8Length(head) + b.droppedBytes == Utf8Length(text) && b.droppedBytes > 0)
  {
    if limit.Some? {
      var text := StripNonce(normalised, nonce);
      HeadIsNoLonger(text, limit.value);
      HeadIsMaximal(text, limit.value);
      assert Head(text, limit.value) + Marker(DroppedBytes(text, limit.value)) ==
          Head(text, limit.value) + "\n[truncated] " + Decimal(DroppedBytes(text, limit.value)) + " bytes dropped";
    }
  }
}
