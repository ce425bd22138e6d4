/** Words of a text, texts that differ in white space only, and where a quote's words stand in a block's. */
module Quotes {
  import opened Text
  import opened Lint
  import opened CleanText
  import opened Prompt

  // ---- what the words of a text are -----------------------------------------------------------------

  ghost predicate AreWords(ws: seq<string>) {
    forall w <- ws :: w != "" && NoSpace(w)
  }

  lemma {:induction false} WordsHaveNoSpace(text: string, cur: string)
    requires NoSpace(cur)
    ensures AreWords(Words(text, cur))
  {
    if text != "" {
      WordsHaveNoSpace(text[1..], "");
      if !IsSpace(text[0]) { WordsHaveNoSpace(text[1..], cur + [text[0]]); }
    }
  }

  /** A word alone is its own only word; white space parts; nothing has no words. These three fix the words of
      every text. */
  lemma WordsByTheirLaws(w: string, a: string, c: char, b: string)
    requires w != "" && NoSpace(w) && IsSpace(c)
    ensures Words("", "") == [] && Words(w, "") == [w]
    ensures Words(a + [c] + b, "") == Words(a, "") + Words(b, "")
  {
    WordGoesOn(w, "", "");
    assert w + "" == w && "" + w == w;
    WordsApart(a, c, b, "");
  }

  lemma {:induction false} WordsOfJoined(ws: seq<string>)
    requires AreWords(ws)
    ensures Words(Join(" ", ws), "") == ws
  {
    if ws != [] {
      assert ws[0] in ws;
      assert forall w <- ws[1..] :: w in ws;
      WordsOfJoined(ws[1..]);
      if |ws| == 1 {
        WordsByTheirLaws(ws[0], "", ' ', "");
      } else {
        var rest := Join(" ", ws[1..]);
        WordsByTheirLaws(ws[0], ws[0], ' ', rest);
        assert Join(" ", ws) == ws[0] + [' '] + rest;
      }
    }
  }

  /** Single blanks, none at either end, and no other white space. */
  ghost predicate SingleSpaced(s: string) {
    && (forall i :: 0 <= i < |s| && IsSpace(s[i]) ==> s[i] == ' ' && 0 < i < |s| - 1)
    && (forall i {:trigger s[i]} :: 0 < i < |s| && s[i] == ' ' ==> s[i - 1] != ' ')
  }

  lemma {:induction false} JoinedIsSingleSpaced(ws: seq<string>)
    requires AreWords(ws)
    ensures SingleSpaced(Join(" ", ws)) && (ws != [] ==> Join(" ", ws) != "")
  {
    if ws != [] {
      assert ws[0] in ws;
      assert forall w <- ws[1..] :: w in ws;
      JoinedIsSingleSpaced(ws[1..]);
      if |ws| > 1 { SpacedOnce(ws[0], Join(" ", ws[1..])); }
    }
  }

  lemma SpacedOnce(a: string, b: string)
    requires a != "" && NoSpace(a) && b != "" && SingleSpaced(b)
    ensures SingleSpaced(a + " " + b)
  {
    var s := a + " " + b;
    forall i | 0 <= i < |s| && IsSpace(s[i]) ensures s[i] == ' ' && 0 < i < |s| - 1 {
      if i > |a| { assert s[i] == b[i - |a| - 1]; }
    }
    forall i {:trigger s[i]} | 0 < i < |s| && s[i] == ' ' ensures s[i - 1] != ' ' {
      if i == |a| {
        assert s[i - 1] == a[i - 1];
      } else if i > |a| {
        assert s[i] == b[i - |a| - 1];
        assert i > |a| + 1;
        assert s[i - 1] == b[i - |a| - 2];
      }
    }
  }

  // ---- where a quote stands ---------------------------------------------------------------------------

  predicate EndsWith(w: string, tail: string) {
    |tail| <= |w| && w[|w| - |tail|..] == tail
  }

  /** From word `j` of the block on: the inner words of the quote are whole words, its first ends a word and its
      last begins one; a quote of one word is part of one. */
  ghost predicate StandsAt(quote: seq<string>, block: seq<string>, j: nat) {
    && quote != [] && j + |quote| <= |block|
    && if |quote| == 1 then Contains(block[j], quote[0])
       else
         && EndsWith(block[j], quote[0])
         && (forall i :: 0 < i < |quote| - 1 ==> block[j + i] == quote[i])
         && quote[|quote| - 1] <= block[j + |quote| - 1]
  }

  ghost predicate StandsIn(quote: seq<string>, block: seq<string>) {
    exists j: nat :: StandsAt(quote, block, j)
  }

  /** The same from the first word on, that word whole. */
  ghost predicate Begins(quote: seq<string>, block: seq<string>) {
    && quote != [] && |quote| <= |block|
    && (forall i :: 0 <= i < |quote| - 1 ==> block[i] == quote[i])
    && quote[|quote| - 1] <= block[|quote| - 1]
  }

  lemma BeginsStep(quote: seq<string>, block: seq<string>)
    requires |quote| > 1 && block != []
    ensures Begins(quote, block) <==> quote[0] == block[0] && Begins(quote[1..], block[1..])
  {
    if quote[0] == block[0] && Begins(quote[1..], block[1..]) {
      forall i | 0 <= i < |quote| - 1 ensures block[i] == quote[i] {
        if i > 0 { assert block[1..][i - 1] == quote[1..][i - 1]; }
      }
    }
  }

  lemma JoinFirst(ws: seq<string>)
    requires |ws| > 1
    ensures Join(" ", ws) == ws[0] + (" " + Join(" ", ws[1..]))
  {
  }

  lemma NoBlanks(w: string)
    requires NoSpace(w)
    ensures ' ' !in w
  {
    forall i | 0 <= i < |w| ensures w[i] != ' ' { assert !IsSpace(w[i]); }
  }

  /** Where a word ends, two texts that agree show it. */
  lemma SameFirstWord(w: string, rest: string, v: string, more: string)
    requires ' ' !in w && ' ' !in v && At(v + (" " + more), 0, w + (" " + rest))
    ensures w == v
  {
    var t, p := v + (" " + more), w + (" " + rest);
    AtChars(t, 0, p);
    assert t[|v|] == ' ' && p[|w|] == ' ' && t[|w|] == p[|w|];
    assert |v| <= |w|;
    assert forall i :: 0 <= i < |v| ==> v[i] == t[i] && p[i] == w[i] && t[i] == p[i];
    assert |w| <= |v|;
  }

  /** A word and a blank at the front of words is the first of them. */
  lemma WordThenBlank(w: string, rest: string, v: string, more: string)
    requires NoSpace(w) && NoSpace(v)
    ensures At(v + (" " + more), 0, w + (" " + rest)) <==> w == v && At(more, 0, rest)
  {
    var t, p := v + (" " + more), w + (" " + rest);
    NoBlanks(w);
    NoBlanks(v);
    if At(t, 0, p) {
      SameFirstWord(w, rest, v, more);
      assert more[..|rest|] == t[0..|p|][|w| + 1..] == rest;
    }
    if w == v && At(more, 0, rest) {
      assert t[..|p|] == w + (" " + more[..|rest|]);
    }
  }

  lemma LastWordAtFront(w: string, v: string, more: string)
    requires NoSpace(w)
    ensures At(v, 0, w) <==> w <= v
    ensures At(v + (" " + more), 0, w) <==> w <= v
  {
    var t := v + (" " + more);
    NoBlanks(w);
    assert t[|v|] == ' ';
    if At(t, 0, w) {
      AtChars(t, 0, w);
      assert |w| <= |v|;
      assert v[..|w|] == t[..|w|];
    }
    if w <= v { assert t[..|w|] == v[..|w|]; }
  }

  lemma {:induction false} AtFrontExactly(quote: seq<string>, block: seq<string>)
    requires AreWords(quote) && AreWords(block) && quote != []
    ensures At(Join(" ", block), 0, Join(" ", quote)) <==> Begins(quote, block)
    decreases |quote|
  {
    assert quote[0] in quote;
    if block == [] {
      JoinedIsSingleSpaced(quote);
    } else {
      assert block[0] in block;
      assert forall w <- block[1..] :: w in block;
      assert forall w <- quote[1..] :: w in quote;
      if |quote| == 1 {
        LastWordAtFront(quote[0], block[0], if |block| > 1 then Join(" ", block[1..]) else "");
      } else {
        JoinFirst(quote);
        BeginsStep(quote, block);
        if |block| > 1 {
          JoinFirst(block);
          AtFrontExactly(quote[1..], block[1..]);
          WordThenBlank(quote[0], Join(" ", quote[1..]), block[0], Join(" ", block[1..]));
        } else {
          NoBlankInWord(quote[0], Join(" ", quote[1..]), block[0], 0);
        }
      }
    }
  }

  lemma NoBlankInWord(w: string, rest: string, v: string, p: nat)
    requires NoSpace(v)
    ensures !At(v, p, w + (" " + rest))
  {
    var pat := w + (" " + rest);
    assert pat[|w|] == ' ';
    NoBlanks(v);
    if At(v, p, pat) { AtChars(v, p, pat); }
  }

  /** The block from inside its first word on. */
  lemma CutFirst(block: seq<string>, p: nat)
    requires AreWords(block) && block != [] && p < |block[0]|
    ensures var cut := [block[0][p..]] + block[1..];
            AreWords(cut) && cut[1..] == block[1..] && Join(" ", block) == block[0][..p] + Join(" ", cut)
  {
    var v := block[0];
    var tail := v[p..];
    var cut := [tail] + block[1..];
    assert v in block && v == v[..p] + tail;
    assert NoSpace(tail);
    forall x | x in cut ensures x != "" && NoSpace(x) { assert x == tail || x in block; }
    assert cut[1..] == block[1..];
  }

  /** An occurrence that starts inside the first word of the block. */
  lemma InFirstWord(quote: seq<string>, block: seq<string>, p: nat)
    requires AreWords(quote) && AreWords(block) && quote != [] && block != [] && p < |block[0]|
    requires At(Join(" ", block), p, Join(" ", quote))
    ensures StandsAt(quote, block, 0)
  {
    var v, cut := block[0], [block[0][p..]] + block[1..];
    CutFirst(block, p);
    ShiftAt(v[..p], Join(" ", cut), 0, Join(" ", quote));
    AtFrontExactly(quote, cut);
    BeginsInside(quote, block, p);
  }

  lemma BeginsInside(quote: seq<string>, block: seq<string>, p: nat)
    requires block != [] && p < |block[0]| && Begins(quote, [block[0][p..]] + block[1..])
    ensures StandsAt(quote, block, 0)
  {
    var v, w, cut := block[0], quote[0], [block[0][p..]] + block[1..];
    if |quote| == 1 {
      assert At(v, p, w) by { assert v[p..p + |w|] == cut[0][..|w|]; }
    } else {
      assert cut[0] == w;
      forall i | 0 < i < |quote| - 1 ensures block[i] == quote[i] { assert cut[i] == block[i]; }
      assert cut[|quote| - 1] == block[|quote| - 1];
    }
  }

  /** The quote's words, joined, are part of the block's words, joined, exactly when they stand among them. */
  lemma {:induction false} QuoteStandsExactly(quote: seq<string>, block: seq<string>)
    requires AreWords(quote) && AreWords(block) && quote != []
    ensures Contains(Join(" ", block), Join(" ", quote)) <==> StandsIn(quote, block)
  {
    if Contains(Join(" ", block), Join(" ", quote)) {
      var p: nat :| At(Join(" ", block), p, Join(" ", quote));
      OccurrenceStands(quote, block, p);
    }
    if StandsIn(quote, block) {
      var j: nat :| StandsAt(quote, block, j);
      StandingOccurs(quote, block, j);
    }
  }

  lemma {:induction false} OccurrenceStands(quote: seq<string>, block: seq<string>, p: nat)
    requires AreWords(quote) && AreWords(block) && quote != [] && At(Join(" ", block), p, Join(" ", quote))
    ensures StandsIn(quote, block)
    decreases |block|
  {
    JoinedIsSingleSpaced(quote);
    assert quote[0] in quote;
    var first := Join(" ", quote)[0];
    assert first == quote[0][0];
    assert !IsSpace(first);
    AtChars(Join(" ", block), p, Join(" ", quote));
    assert block != [];
    if p < |block[0]| {
      InFirstWord(quote, block, p);
      assert StandsAt(quote, block, 0);
    } else {
      assert |block| > 1;
      JoinFirst(block);
      assert p > |block[0]|;
      var front, rest := block[0] + " ", Join(" ", block[1..]);
      assert Join(" ", block) == front + rest;
      ShiftAt(front, rest, p - |front|, Join(" ", quote));
      assert forall w <- block[1..] :: w in block;
      OccurrenceStands(quote, block[1..], p - |front|);
      var j: nat :| StandsAt(quote, block[1..], j);
      StandsLater(quote, block, j);
    }
  }

  lemma StandsLater(quote: seq<string>, block: seq<string>, j: nat)
    requires block != []
    ensures StandsAt(quote, block[1..], j) <==> StandsAt(quote, block, j + 1)
  {
    forall i {:trigger quote[i]} | 0 < i < |quote| - 1 && j + i < |block| - 1
      ensures block[1..][j + i] == block[j + 1 + i]
    {
    }
  }

  lemma {:induction false} StandingOccurs(quote: seq<string>, block: seq<string>, j: nat)
    requires AreWords(quote) && AreWords(block) && StandsAt(quote, block, j)
    ensures Contains(Join(" ", block), Join(" ", quote))
    decreases j
  {
    assert forall w <- block[1..] :: w in block;
    if j > 0 {
      StandsLater(quote, block, j - 1);
      StandingOccurs(quote, block[1..], j - 1);
      var rest := Join(" ", block[1..]);
      var p: nat :| At(rest, p, Join(" ", quote));
      JoinFirst(block);
      var front := block[0] + " ";
      assert Join(" ", block) == front + rest;
      ShiftAt(front, rest, p, Join(" ", quote));
    } else {
      StandingFirstOccurs(quote, block);
    }
  }

  lemma StandingFirstOccurs(quote: seq<string>, block: seq<string>)
    requires AreWords(quote) && AreWords(block) && StandsAt(quote, block, 0)
    ensures Contains(Join(" ", block), Join(" ", quote))
  {
    var v, w := block[0], quote[0];
    assert v in block && w in quote;
    if |quote| == 1 {
      var p: nat :| At(v, p, w);
      if |block| > 1 {
        JoinFirst(block);
        AtFront(v, " " + Join(" ", block[1..]), p, w);
      }
      assert At(Join(" ", block), p, w);
    } else {
      var p := |v| - |w|;
      var cut := [v[p..]] + block[1..];
      CutFirst(block, p);
      assert Begins(quote, cut);
      AtFrontExactly(quote, cut);
      ShiftAt(v[..p], Join(" ", cut), 0, Join(" ", quote));
    }
  }
}
