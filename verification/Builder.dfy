/** The typed prompt builder: the only way to assemble a user message. */
module Builder {
  import opened Common
  import opened Text
  import opened Wrap
  import opened Linter
  import opened RoundTrip
  import opened Values
  import opened Vocabulary
  import opened Lint
  import opened Prompt

  /** Blocks as the index holds them: one per source, each with its place among the items. */
  ghost predicate IndexOk(index: map<string, Block>, items: seq<Item>) {
    && (forall source <- index :: exists i :: 0 <= i < |items| && items[i].Quoted?
                                    && items[i].block == index[source] && items[i].block.source == source)
    && (forall i {:trigger items[i]} :: 0 <= i < |items| && items[i].Quoted? ==>
          items[i].block.source in index && index[items[i].block.source] == items[i].block)
  }

  lemma IndexOkMore(index: map<string, Block>, items: seq<Item>, x: Item)
    requires IndexOk(index, items) && (x.Quoted? ==> x.block.source !in index)
    ensures IndexOk(if x.Quoted? then index[x.block.source := x.block] else index, items + [x])
  {
    var more := items + [x];
    assert more[|items|] == x;
    assert forall i :: 0 <= i < |items| ==> more[i] == items[i];
  }

  lemma {:induction false} SectionsMore(t: Terms, xs: seq<Item>, x: Item, nonce: string)
    requires ItemsOk(t, xs, nonce) && ItemOk(t, x, nonce)
    ensures ItemsOk(t, xs + [x], nonce)
    ensures Sections(t, xs + [x], nonce) == Sections(t, xs, nonce) + [Section(ItemText(t, x, nonce), x.Quoted?)]
  {
    if xs == [] {
      assert xs + [x] == [x];
    } else {
      SectionsMore(t, xs[1..], x, nonce);
      assert (xs + [x])[1..] == xs[1..] + [x];
    }
  }

  function Texts(ss: seq<Section>): seq<string> {
    seq(|ss|, i requires 0 <= i < |ss| => ss[i].shown)
  }

  lemma {:induction false} JoinedIsMessage(ss: seq<Section>)
    ensures Join("\n\n", Texts(ss)) == Message(ss)
  {
    if ss != [] {
      JoinedIsMessage(ss[1..]);
      assert Texts(ss)[1..] == Texts(ss[1..]);
    }
  }

  class PromptBuilder {
    /** The module's constants: TEMPLATE. */
    const terms: Terms
    const nonce: string
    var sections: seq<string>
    var blockIndex: map<string, Block>
    ghost var items: seq<Item>

    ghost predicate Valid()
      reads this
    {
      && Sound(terms) && IsNonce(nonce) && ItemsOk(terms, items, nonce)
      && sections == Texts(Sections(terms, items, nonce))
      && IndexOk(blockIndex, items)
    }

    constructor (t: Terms, token: string)
      requires Sound(t) && IsNonce(token)
      ensures Valid() && terms == t && nonce == token && items == [] && blockIndex == map[]
    {
      terms, nonce, sections, blockIndex, items := t, token, [], map[], [];
    }

    method Append(ghost x: Item, text: string)
      requires Valid() && ItemOk(terms, x, nonce) && text == ItemText(terms, x, nonce) && !x.Quoted?
      modifies this
      ensures Valid() && items == old(items) + [x] && blockIndex == old(blockIndex)
    {
      SectionsMore(terms, items, x, nonce);
      IndexOkMore(blockIndex, items, x);
      sections := sections + [text];
      items := items + [x];
    }

    method AddHeading(constant: string) returns (ok: bool)
      requires Valid()
      modifies this
      ensures Valid() && blockIndex == old(blockIndex)
      ensures ok <==> constant in Core(terms)
      ensures items == if ok then old(items) + [Heading(constant)] else old(items)
    {
      ok := constant in Core(terms);
      if ok {
        Append(Heading(constant), constant);
      }
    }

    /** Every part is a rendering `Fact` made, or must be a template constant. */
    method AddLine(parts: seq<Part>) returns (ok: bool)
      requires Valid()
      requires forall i :: 0 <= i < |parts| && parts[i].Shown? ==> PartOk(terms, parts[i])
      modifies this
      ensures Valid() && blockIndex == old(blockIndex)
      ensures ok <==> forall i :: 0 <= i < |parts| && parts[i].Constant? ==> parts[i].text in Core(terms)
      ensures items == if ok then old(items) + [Line(parts)] else old(items)
    {
      for k := 0 to |parts|
        invariant forall i :: 0 <= i < k && parts[i].Constant? ==> parts[i].text in Core(terms)
        invariant Valid() && items == old(items) && blockIndex == old(blockIndex)
      {
        if parts[k].Constant? && parts[k].text !in Core(terms) {
          return false;
        }
      }
      ok := true;
      ghost var x := Line(parts);
      assert forall i :: 0 <= i < |parts| ==> PartOk(terms, parts[i]);
      Append(x, Join(SEPARATOR, PartTexts(terms, parts)));
    }

    method AddSentence(constants: seq<string>) returns (ok: bool)
      requires Valid()
      modifies this
      ensures Valid() && blockIndex == old(blockIndex)
      ensures ok <==> forall i :: 0 <= i < |constants| ==> constants[i] in Core(terms)
      ensures items == if ok then old(items) + [Sentence(constants)] else old(items)
    {
      for k := 0 to |constants|
        invariant forall i :: 0 <= i < k ==> constants[i] in Core(terms)
        invariant Valid() && items == old(items) && blockIndex == old(blockIndex)
      {
        if constants[k] !in Core(terms) {
          return false;
        }
      }
      ok := true;
      Append(Sentence(constants), Join(" ", constants));
    }

    /** A source can be quoted once, and must be a known one. Attribute names are identifiers. */
    method AddBlock(text: string, source: string, limit: Option<nat>, attrs: seq<(string, string)>)
        returns (b: Option<Block>)
      requires Valid() && forall i :: 0 <= i < |attrs| ==> Free(attrs[i].0, {'>'})
      modifies this
      ensures Valid()
      ensures b.Some? <==> source !in old(blockIndex) && source in SOURCES
      ensures b.Some? ==> b == UntrustedBlock(text, source, nonce, limit, attrs)
      ensures b.Some? ==> blockIndex == old(blockIndex)[source := b.value]
      ensures b.Some? ==> items == old(items) + [Quoted(b.value, Attrs(attrs))]
      ensures b.None? ==> items == old(items) && blockIndex == old(blockIndex)
    {
      if source in blockIndex {
        return None;
      }
      b := UntrustedBlock(text, source, nonce, limit, attrs);
      if b.Some? {
        ghost var x := Quoted(b.value, Attrs(attrs));
        EscapeHasNoBracket(b.value.plain);
        AttrsHaveNoBracket(attrs);
        SectionsMore(terms, items, x, nonce);
        IndexOkMore(blockIndex, items, x);
        blockIndex := blockIndex[source := b.value];
        sections := sections + [b.value.rendered];
        items := items + [x];
      }
    }

    /** The finished message: the linter cuts out exactly its blocks, and has nothing to say about it
        exactly when every time on a line has an offset of whole minutes. */
    method Build() returns (user: string)
      requires Valid()
      ensures user == Message(Sections(terms, items, nonce))
      ensures Distinct(BoundaryOf(nonce)) && Unbalanced(user, BoundaryOf(nonce)) == []
      ensures Spans(user, BoundaryOf(nonce)) == BlockSpans(Sections(terms, items, nonce), 0)
      ensures forall order {:trigger LongestFirst(order, Constants(terms))} ::
                LongestFirst(order, Constants(terms)) && NoEmpty(order) ==>
                  (Violations(user, nonce, order, terms.enums) == [] <==> WholeMinuteItems(items))
    {
      user := Join("\n\n", sections);
      JoinedIsMessage(Sections(terms, items, nonce));
      BuiltMessageIsTakenApart(terms, items, nonce);
      forall order {:trigger LongestFirst(order, Constants(terms))}
        | LongestFirst(order, Constants(terms)) && NoEmpty(order)
        ensures Violations(user, nonce, order, terms.enums) == [] <==> WholeMinuteItems(items)
      {
        BuiltMessageIsCleanExactly(terms, items, nonce, order);
      }
    }
  }
}
