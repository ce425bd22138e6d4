/** What is left of a built message after its blocks: atoms with gaps, and what becomes of them when
    the constants are taken out. */
module CleanText {
  import opened Text
  import opened Values
  import opened Vocabulary
  import opened Lint

  /** A constant, a shown value or nothing, and the blank space after it. */
  datatype Piece = Piece(atom: string, gap: string)

  function Flat(ps: seq<Piece>): string {
    if ps == [] then "" else ps[0].atom + (ps[0].gap + Flat(ps[1..]))
  }

  predicate Breaks(g: string) {
    forall i :: 0 <= i < |g| ==> g[i] == '\n'
  }

  predicate GapOk(g: string) {
    g == " " || g == SEPARATOR || Breaks(g)
  }

  /** No occurrence of `c` starts at these pieces but a whole atom. */
  ghost predicate Ready(ps: seq<Piece>, c: string) {
    ps == [] ||
    (&& GapOk(ps[0].gap)
     && (ps[0].atom == c || !Contains(ps[0].atom, c))
     && (|ps| > 1 ==> ps[0].gap != "")
     && (|ps| > 1 && ps[0].gap == " " && ps[1].atom != "" ==> Unspliced(c, ps[0].atom, ps[1].atom))
     && (|ps| == 1 ==> Breaks(ps[0].gap))
     && Ready(ps[1..], c))
  }

  function Without(ps: seq<Piece>, c: string): seq<Piece> {
    if ps == [] then []
    else [if ps[0].atom == c then Piece("", ps[0].gap) else ps[0]] + Without(ps[1..], c)
  }

  // ---- one removal --------------------------------------------------------------------------------

  lemma {:induction false} CopyThrough(text: string, n: nat, c: string)
    requires c != "" && n <= |text|
    requires forall k: nat :: k < n ==> !At(text, k, c)
    ensures Replace(text, c, "") == text[..n] + Replace(text[n..], c, "")
  {
    if n == 0 {
      assert text[0..] == text;
    } else {
      assert !At(text, 0, c);
      forall k: nat | k < n - 1 ensures !At(text[1..], k, c) {
        ShiftAt([text[0]], text[1..], k, c);
        assert text == [text[0]] + text[1..] && !At(text, k + 1, c);
      }
      CopyThrough(text[1..], n - 1, c);
      assert text[1..][n - 1..] == text[n..];
      assert text[..n] == [text[0]] + text[1..][..n - 1];
    }
  }

  lemma GapChars(g: string)
    requires GapOk(g)
    ensures forall i :: 0 <= i < |g| ==> g[i] in GAPS
  {
  }

  lemma NothingInGap(gap: string, rest: string, k: nat, c: string)
    requires GapOk(gap) && Solid(c) && k < |gap|
    ensures !At(gap + rest, k, c)
  {
    GapChars(gap);
    assert (gap + rest)[k] == gap[k];
    if At(gap + rest, k, c) { AtChars(gap + rest, k, c); }
  }

  /** An occurrence that starts in an atom and leaves it needs a single blank and a second atom. */
  lemma LeavesAtom(atom: string, gap: string, rest: string, k: nat, c: string)
    requires GapOk(gap) && Solid(c) && k < |atom| && k + |c| > |atom|
    requires gap == "" ==> rest == ""
    requires At(atom + (gap + rest), k, c)
    ensures var p := |atom| - k;
            0 < p < |c| - 1 && gap == " " && c[p] == ' ' && Suffix(c[..p], atom) && At(rest, 0, c[p + 1..])
  {
    var text := atom + (gap + rest);
    var p := |atom| - k;
    GapChars(gap);
    if |gap| > 1 { assert text[|atom| + 1] == gap[1]; }
    AtChars(text, k, c);
    assert text[|atom|] == gap[0];
    assert c[p] == gap[0];
    assert c[p] == ' ';
    assert text[|atom| + 1] == c[p + 1];
    assert gap == " ";
    assert text[|atom| + 1..] == rest;
    assert text[k..k + |c|] == c;
    assert rest[..|c| - p - 1] == text[k..k + |c|][p + 1..];
    assert atom[k..] == text[k..k + |c|][..p];
  }

  lemma NothingInAtom(ps: seq<Piece>, k: nat, c: string)
    requires ps != [] && Ready(ps, c) && Solid(c) && ps[0].atom != c && k < |ps[0].atom|
    ensures !At(Flat(ps), k, c)
  {
    var atom, gap, rest := ps[0].atom, ps[0].gap, Flat(ps[1..]);
    if At(Flat(ps), k, c) {
      if k + |c| <= |atom| {
        AtFront(atom, gap + rest, k, c);
        assert Contains(atom, c);
      } else {
        LeavesAtom(atom, gap, rest, k, c);
        var p := |atom| - k;
        NextAtom(ps[1..], c, c[p + 1..]);
      }
    }
  }

  lemma EmptyAtom(ps: seq<Piece>, c: string)
    requires Ready(ps, c) && ps != [] && ps[0].atom == ""
    ensures Flat(ps) == "" || Flat(ps)[0] in GAPS
  {
    GapChars(ps[0].gap);
  }

  lemma NextAtom(ps: seq<Piece>, c: string, tail: string)
    requires Ready(ps, c) && tail != "" && tail[0] !in GAPS && At(Flat(ps), 0, tail)
    ensures ps != [] && ps[0].atom != "" && Comparable(tail, ps[0].atom)
  {
    var atom, t := ps[0].atom, Flat(ps);
    if atom == "" { EmptyAtom(ps, c); }
    AtChars(t, 0, tail);
    assert t[0..|tail|] == tail;
    if |tail| <= |atom| { assert tail == atom[..|tail|]; } else { assert atom == tail[..|atom|]; }
  }

  lemma CutFirst(ps: seq<Piece>, c: string)
    requires ps != [] && Ready(ps, c) && Solid(c) && ps[0].atom == c
    ensures Replace(Flat(ps), c, "") == ps[0].gap + Replace(Flat(ps[1..]), c, "")
  {
    var gap, rest := ps[0].gap, Flat(ps[1..]);
    var text := Flat(ps);
    SkipGap(gap, rest, c);
    assert text[..|c|] == c && text[|c|..] == gap + rest;
  }

  lemma SkipText(front: string, rest: string, c: string)
    requires c != "" && forall k: nat :: k < |front| ==> !At(front + rest, k, c)
    ensures Replace(front + rest, c, "") == front + Replace(rest, c, "")
  {
    CopyThrough(front + rest, |front|, c);
    assert (front + rest)[|front|..] == rest && (front + rest)[..|front|] == front;
  }

  lemma SkipFirst(ps: seq<Piece>, c: string)
    requires ps != [] && Ready(ps, c) && Solid(c) && ps[0].atom != c
    ensures Replace(Flat(ps), c, "") == ps[0].atom + (ps[0].gap + Replace(Flat(ps[1..]), c, ""))
  {
    var atom, gap, rest := ps[0].atom, ps[0].gap, Flat(ps[1..]);
    forall k: nat | k < |atom| ensures !At(atom + (gap + rest), k, c) { NothingInAtom(ps, k, c); }
    SkipText(atom, gap + rest, c);
    SkipGap(gap, rest, c);
  }

  lemma SkipGap(gap: string, rest: string, c: string)
    requires GapOk(gap) && Solid(c)
    ensures Replace(gap + rest, c, "") == gap + Replace(rest, c, "")
  {
    forall k: nat | k < |gap| ensures !At(gap + rest, k, c) { NothingInGap(gap, rest, k, c); }
    SkipText(gap, rest, c);
  }

  /** Taking a constant out of the text takes out exactly the atoms that are that constant. */
  lemma {:induction false} ReplaceOnPieces(ps: seq<Piece>, c: string)
    requires Ready(ps, c) && Solid(c)
    ensures Replace(Flat(ps), c, "") == Flat(Without(ps, c))
  {
    if ps != [] {
      ReplaceOnPieces(ps[1..], c);
      if ps[0].atom == c { CutFirst(ps, c); } else { SkipFirst(ps, c); }
      assert Without(ps, c)[1..] == Without(ps[1..], c);
    }
  }

  // ---- all removals ---------------------------------------------------------------------------------

  /** Text a value may show as: no constant is in it. */
  ghost predicate IsShown(t: Terms, s: string) {
    Looks(s) && forall c <- t.extras :: !Contains(s, c)
  }

  /** A constant, text a value shows as, or nothing. */
  ghost predicate AtomOk(t: Terms, atom: string) {
    atom == "" || IsConstant(t, atom) || IsShown(t, atom)
  }

  /** Pieces as a message joins them: a single blank comes after a label or a bullet's dash, or between
      constants of the builder. */
  ghost predicate Tidy(ps: seq<Piece>, t: Terms) {
    ps == [] ||
    (&& GapOk(ps[0].gap) && AtomOk(t, ps[0].atom)
     && (|ps| > 1 ==> ps[0].gap != "")
     && (|ps| > 1 && ps[0].gap == " " && ps[0].atom != "" && ps[1].atom != "" ==>
           Closes(ps[0].atom) || (IsCore(t, ps[0].atom) && IsCore(t, ps[1].atom)))
     && (|ps| == 1 ==> Breaks(ps[0].gap))
     && Tidy(ps[1..], t))
  }

  /** The multi-character constants among the atoms are no longer than `n`. */
  ghost predicate Within(ps: seq<Piece>, t: Terms, n: nat) {
    forall i :: 0 <= i < |ps| && IsConstant(t, ps[i].atom) && |ps[i].atom| > 1 ==> |ps[i].atom| <= n
  }

  lemma ValueHoldsNoConstant(t: Terms, atom: string, c: string)
    requires Sound(t) && IsShown(t, atom) && IsConstant(t, c) && |c| > 1
    ensures !Contains(atom, c)
  {
    if IsCore(t, c) {
      CoreIsSound(t, c);
      LooksHoldsNothingForeign(atom, c);
    }
  }

  lemma LooksHoldsNothingForeign(atom: string, c: string)
    requires Looks(atom) && Foreign(c)
    ensures !Contains(atom, c)
  {
    forall k: nat ensures !At(atom, k, c) {
      if At(atom, k, c) { AtChars(atom, k, c); }
    }
  }

  lemma NoBlankAfterNothing(c: string, right: string)
    ensures Unspliced(c, "", right)
  {
  }

  lemma {:induction false} TidyIsReady(ps: seq<Piece>, t: Terms, c: string)
    requires Sound(t) && Tidy(ps, t) && IsConstant(t, c) && |c| > 1 && Within(ps, t, |c|)
    ensures Ready(ps, c)
  {
    if ps != [] {
      var atom := ps[0].atom;
      assert forall i :: 0 <= i < |ps[1..]| ==> ps[1..][i] == ps[i + 1];
      TidyIsReady(ps[1..], t, c);
      if IsShown(t, atom) { ValueHoldsNoConstant(t, atom, c); }
      if atom != c && IsConstant(t, atom) { ShorterHoldsNot(atom, c); }
      if |ps| > 1 && ps[0].gap == " " && ps[1].atom != "" {
        if atom == "" {
          NoBlankAfterNothing(c, ps[1].atom);
        } else if Closes(atom) {
          ClosedDoesNotSplice(t, c, atom, ps[1].atom);
        } else {
          ConstantsDoNotSplice(t, c, atom, ps[1].atom);
        }
      }
    }
  }

  lemma ShorterHoldsNot(atom: string, c: string)
    requires |atom| <= |c| && atom != c
    ensures !Contains(atom, c)
  {
    forall k: nat ensures !At(atom, k, c) {
      if k + |c| <= |atom| { assert atom[k..k + |c|] == atom; }
    }
  }

  lemma {:induction false} WithoutStaysTidy(ps: seq<Piece>, t: Terms, c: string)
    requires Tidy(ps, t)
    ensures Tidy(Without(ps, c), t)
    ensures |Without(ps, c)| == |ps|
    ensures forall i :: 0 <= i < |ps| ==>
              Without(ps, c)[i] == if ps[i].atom == c then Piece("", ps[i].gap) else ps[i]
  {
    if ps != [] {
      WithoutStaysTidy(ps[1..], t, c);
      assert Without(ps, c)[1..] == Without(ps[1..], c);
      assert |ps| > 1 ==> ps[1..][0] == ps[1];
    }
  }

  function WithoutAll(ps: seq<Piece>, order: seq<string>): seq<Piece>
    decreases |order|
  {
    if order == [] then ps else WithoutAll(Without(ps, order[0]), order[1..])
  }

  /** The part of a longest-first order still to come, for pieces with the earlier constants gone. */
  ghost predicate Coming(order: seq<string>, t: Terms, ps: seq<Piece>) {
    && (forall i :: 0 <= i < |order| ==> IsConstant(t, order[i]) && |order[i]| > 1)
    && (forall i, j :: 0 <= i < j < |order| ==> |order[i]| >= |order[j]|)
    && (forall i :: 0 <= i < |ps| && IsConstant(t, ps[i].atom) && |ps[i].atom| > 1 ==> ps[i].atom in order)
  }

  /** Taking all the constants out, longest first, leaves the values and the single glyphs. */
  lemma {:induction false} RemoveOnPieces(ps: seq<Piece>, t: Terms, order: seq<string>)
    requires Sound(t) && Tidy(ps, t) && Coming(order, t, ps) && NoEmpty(order)
    ensures Remove(Flat(ps), order) == Flat(WithoutAll(ps, order))
    ensures Tidy(WithoutAll(ps, order), t)
    ensures |WithoutAll(ps, order)| == |ps|
    ensures forall i :: 0 <= i < |ps| ==>
              WithoutAll(ps, order)[i] == if ps[i].atom in order then Piece("", ps[i].gap) else ps[i]
    decreases |order|
  {
    if order != [] {
      var c := order[0];
      ConstantIsSolid(t, c);
      TidyIsReady(ps, t, c);
      ReplaceOnPieces(ps, c);
      WithoutStaysTidy(ps, t, c);
      RemoveOnPieces(Without(ps, c), t, order[1..]);
      assert forall a :: a in order <==> a == c || a in order[1..];
      assert "" !in order;
    }
  }

  // ---- the words that remain -----------------------------------------------------------------------

  predicate NoSpace(s: string) {
    forall i :: 0 <= i < |s| ==> !IsSpace(s[i])
  }

  function Tokens(ps: seq<Piece>): seq<string> {
    if ps == [] then []
    else Flush(ps[0].atom) + (if ps[0].gap == SEPARATOR then ["·"] else []) + Tokens(ps[1..])
  }

  lemma {:induction false} WordGoesOn(a: string, rest: string, cur: string)
    requires NoSpace(a)
    ensures Words(a + rest, cur) == Words(rest, cur + a)
  {
    if a == "" {
      assert a + rest == rest && cur + a == cur;
    } else {
      WordGoesOn(a[1..], rest, cur + [a[0]]);
      assert (a + rest)[1..] == a[1..] + rest;
      assert cur + [a[0]] + a[1..] == cur + a;
    }
  }

  lemma {:induction false} WordsAfterBreaks(g: string, rest: string, cur: string)
    requires Breaks(g) && g != ""
    ensures Words(g + rest, cur) == Flush(cur) + Words(rest, "")
  {
    assert (g + rest)[1..] == g[1..] + rest;
    if |g| > 1 { WordsAfterBreaks(g[1..], rest, ""); } else { assert g[1..] + rest == rest; }
  }

  lemma WordsAfterSeparator(rest: string, cur: string)
    ensures Words(SEPARATOR + rest, cur) == Flush(cur) + ["·"] + Words(rest, "")
  {
    var t := SEPARATOR + rest;
    var dot := "·" + (" " + rest);
    assert t[1..] == dot;
    WordGoesOn("·", " " + rest, "");
    assert "" + "·" == "·";
    assert (" " + rest)[1..] == rest;
    assert Words(dot, "") == Words(" " + rest, "·") == ["·"] + Words(rest, "");
    assert IsSpace(t[0]) && Words(t, cur) == Flush(cur) + Words(dot, "");
  }

  lemma WordsAfterGap(g: string, rest: string, cur: string)
    requires GapOk(g) && g != ""
    ensures Words(g + rest, cur) ==
            Flush(cur) + (if g == SEPARATOR then ["·"] else []) + Words(rest, "")
  {
    if g == SEPARATOR {
      WordsAfterSeparator(rest, cur);
    } else if g == " " {
      assert (g + rest)[1..] == rest;
    } else {
      WordsAfterBreaks(g, rest, cur);
    }
  }

  ghost predicate Spread(ps: seq<Piece>) {
    ps == [] ||
    (&& GapOk(ps[0].gap) && NoSpace(ps[0].atom) && (|ps| > 1 ==> ps[0].gap != "")
     && (|ps| == 1 ==> Breaks(ps[0].gap)) && Spread(ps[1..]))
  }

  lemma {:induction false} WordsOfPieces(ps: seq<Piece>)
    requires Spread(ps)
    ensures Words(Flat(ps), "") == Tokens(ps)
  {
    if ps != [] {
      var atom, gap, rest := ps[0].atom, ps[0].gap, Flat(ps[1..]);
      WordsOfPieces(ps[1..]);
      WordGoesOn(atom, gap + rest, "");
      assert "" + atom == atom;
      if gap != "" { WordsAfterGap(gap, rest, atom); } else { assert gap + rest == ""; }
    }
  }

  // ---- which pieces pass -------------------------------------------------------------------------------

  lemma ConstantLooksLikeNoValue(t: Terms, c: string)
    requires Sound(t) && IsConstant(t, c)
    ensures !IsShown(t, c)
  {
    if c in t.extras {
      assert At(c, 0, c);
    } else if |c| > 1 {
      CoreIsSound(t, c);
    }
  }

  lemma TrimOfValue(s: string)
    requires Looks(s)
    ensures Trim(s) == if s[0] == '-' then s[1..] else s
    ensures Trim(s) != ""
  {
    if s[0] == '-' {
      assert IsDigit(s[1..][0]);
    }
  }

  ghost predicate ValuesPass(ps: seq<Piece>, t: Terms) {
    forall i :: 0 <= i < |ps| && IsShown(t, ps[i].atom) ==> Passes(ps[i].atom, t.enums)
  }

  /** Nothing, a glyph or a value. */
  ghost predicate Remains(t: Terms, atom: string) {
    atom in {"", "-", "·"} || IsShown(t, atom)
  }

  ghost predicate AllRemain(t: Terms, ps: seq<Piece>) {
    forall i :: 0 <= i < |ps| ==> Remains(t, ps[i].atom)
  }

  lemma {:induction false} TokensPassExactly(ps: seq<Piece>, t: Terms)
    requires AllRemain(t, ps)
    ensures AllPass(Tokens(ps), t.enums) <==> ValuesPass(ps, t)
  {
    if ps != [] {
      var rest := ps[1..];
      assert forall i :: 0 <= i < |rest| ==> rest[i] == ps[i + 1];
      TokensPassExactly(rest, t);
      assert ps == [ps[0]] + rest;
      FirstPasses(ps[0], t);
      var front := Flush(ps[0].atom) + (if ps[0].gap == SEPARATOR then ["·"] else []);
      assert forall w :: w in Tokens(ps) <==> w in front || w in Tokens(rest);
      assert ValuesPass(ps, t) <==> ValuesPass([ps[0]], t) && ValuesPass(rest, t);
    }
  }

  lemma FirstPasses(p: Piece, t: Terms)
    requires Remains(t, p.atom)
    ensures AllPass(Flush(p.atom) + (if p.gap == SEPARATOR then ["·"] else []), t.enums) <==> ValuesPass([p], t)
  {
    GlyphsPass(t.enums);
    assert [p][0] == p;
    assert ValuesPass([p], t) <==> (IsShown(t, p.atom) ==> Passes(p.atom, t.enums));
  }

  lemma GlyphsPass(enums: set<string>)
    ensures Passes("-", enums) && Passes("·", enums) && !Looks("")
  {
    assert TrimLeft("-") == TrimLeft("-"[1..]) == "";
    assert TrimLeft("·") == TrimLeft("·"[1..]) == "";
  }

  lemma {:induction false} RemainingIsSpread(ps: seq<Piece>, t: Terms)
    requires Tidy(ps, t) && AllRemain(t, ps)
    ensures Spread(ps)
  {
    if ps != [] {
      assert forall i :: 0 <= i < |ps[1..]| ==> ps[1..][i] == ps[i + 1];
      RemainingIsSpread(ps[1..], t);
    }
  }

  /** Once the constants are out, every word of a tidy text passes exactly when its values do. */
  lemma TidyTextIsCleanExactly(ps: seq<Piece>, t: Terms, order: seq<string>)
    requires Sound(t) && Tidy(ps, t) && LongestFirst(order, Constants(t)) && NoEmpty(order)
    ensures AllPass(Words(Remove(Flat(ps), order), ""), t.enums) <==> ValuesPass(ps, t)
  {
    OrderIsComing(ps, t, order);
    RemoveOnPieces(ps, t, order);
    var left := WithoutAll(ps, order);
    forall i | 0 <= i < |ps| ensures Remains(t, left[i].atom) && (IsShown(t, ps[i].atom) ==> left[i] == ps[i])
                                     && (IsShown(t, left[i].atom) ==> left[i] == ps[i]) {
      AtomLeft(ps, t, order, i);
    }
    RemainingIsSpread(left, t);
    WordsOfPieces(left);
    TokensPassExactly(left, t);
  }

  lemma OrderIsComing(ps: seq<Piece>, t: Terms, order: seq<string>)
    requires LongestFirst(order, Constants(t))
    ensures Coming(order, t, ps)
  {
    forall c: string ensures c in order <==> IsConstant(t, c) && |c| > 1 { ConstantsByKind(t, c); }
    forall i | 0 <= i < |order| ensures IsConstant(t, order[i]) && |order[i]| > 1 { assert order[i] in order; }
  }

  lemma {:induction false} TidyAtoms(ps: seq<Piece>, t: Terms, i: nat)
    requires Tidy(ps, t) && i < |ps|
    ensures AtomOk(t, ps[i].atom)
  {
    if i > 0 { TidyAtoms(ps[1..], t, i - 1); }
  }

  lemma AtomLeft(ps: seq<Piece>, t: Terms, order: seq<string>, i: nat)
    requires Sound(t) && Tidy(ps, t) && Coming(order, t, ps) && i < |ps|
    requires LongestFirst(order, Constants(t))
    ensures var left := if ps[i].atom in order then "" else ps[i].atom;
            Remains(t, left) && !Looks("") && (IsShown(t, ps[i].atom) ==> ps[i].atom !in order)
  {
    TidyAtoms(ps, t, i);
    var atom := ps[i].atom;
    ConstantsByKind(t, atom);
    if IsConstant(t, atom) { ConstantLooksLikeNoValue(t, atom); }
    if atom !in order && IsConstant(t, atom) { ShortConstant(t, atom); }
  }

  lemma ShortConstant(t: Terms, c: string)
    requires Sound(t) && IsConstant(t, c) && |c| <= 1
    ensures c in {"", "-", "·"}
  {
    if IsCore(t, c) { EndOfConstant(t, c); }
  }
}
