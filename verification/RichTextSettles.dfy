/** Trips through HTML settle: the HTML is final after one trip, the blocks after two. */
module RichTextSettles {
  import opened Contracts
  import opened Strings
  import opened Unicode
  import opened RichText
  import opened RichTextWriter
  import opened RichTextRoundTrip

  function Html(blocks: seq<RichBlock>): string
    requires RenderBlocks(blocks).Ok?
  {
    RenderBlocks(blocks).value
  }

  /** Writing a block list and reading what an HTML parser makes of the text. */
  function Trip(blocks: seq<RichBlock>): ParsedHtml
    requires RenderBlocks(blocks).Ok?
  {
    ReadHtml(Html(blocks), WrittenDom(blocks))
  }

  predicate AreFlat(blocks: seq<RichBlock>) {
    forall b :: b in blocks ==> LinksAreFlat(b)
  }

  // ---- Inlines: what comes back can be written, to the same text unless empty texts went ----

  lemma SameMarks(marks: seq<InlineMark>, text: string)
    ensures TextHtml(text, InOrder(MarkSet(marks))) == TextHtml(text, marks)
    ensures |MarkSet(InOrder(MarkSet(marks)))| == |InOrder(MarkSet(marks))|
  {
    InOrderSet(MarkSet(marks));
    forall m ensures m in InOrder(MarkSet(marks)) <==> m in marks {
      assert m in MarkSet(InOrder(MarkSet(marks))) <==> m in MarkSet(marks);
    }
  }

  lemma PlainHtml(text: string)
    ensures TextHtml(text, []) == EscapeHtml(text)
  {
  }

  predicate Writes(xs: seq<Inline>, html: string) {
    RenderInlines(xs) == Ok(html)
  }

  lemma WritesCons(x: Inline, rest: seq<Inline>, first: string, html: string)
    requires RenderInline(x) == Ok(first) && Writes(rest, html)
    ensures Writes([x] + rest, first + html)
  {
    assert ([x] + rest)[1..] == rest;
  }

  lemma WritesRest(xs: seq<Inline>) returns (first: string, html: string)
    requires xs != [] && RenderInlines(xs).Ok?
    ensures RenderInline(xs[0]) == Ok(first) && Writes(xs[1..], html) && Writes(xs, first + html)
  {
    first, html := RenderInline(xs[0]).value, RenderInlines(xs[1..]).value;
  }

  /** Two unmarked texts that touch are written like their concatenation. */
  lemma WritesMerged(text: string, rest: seq<Inline>, html: string)
    requires rest != [] && IsPlain(rest[0]) && Writes(rest, html)
    ensures Writes([Text(text + rest[0].text, [])] + rest[1..], TextHtml(text, []) + html)
  {
    var first, tail := WritesRest(rest);
    EscapeConcat(text, rest[0].text);
    PlainHtml(text);
    PlainHtml(rest[0].text);
    PlainHtml(text + rest[0].text);
    assert MarkSet([]) == {};
    WritesCons(Text(text + rest[0].text, []), rest[1..], EscapeHtml(text + rest[0].text), tail);
    assert EscapeHtml(text) + EscapeHtml(rest[0].text) + tail == EscapeHtml(text) + (EscapeHtml(rest[0].text) + tail);
  }

  lemma {:induction false} OneIsWritten(x: Inline) returns (html: string)
    requires RenderInline(x).Ok? && OneReadBack(x) != []
    ensures RenderInline(OneReadBack(x)[0]) == Ok(html)
    ensures IsFilled(x) ==> RenderInline(x) == Ok(html)
    decreases x, 0
  {
    match x
    case Break => html := "<br>";
    case Text(text, marks) =>
      SameMarks(marks, text);
      html := TextHtml(text, marks);
    case Link(href, children) =>
      var inner := ReadBackIsWritten(children);
      html := "<a href=\"" + EscapeHtml(href) + "\">" + inner + "</a>";
  }

  lemma {:induction false} ReadBackIsWritten(xs: seq<Inline>) returns (html: string)
    requires RenderInlines(xs).Ok?
    ensures Writes(ReadBack(xs), html)
    ensures AreFilled(xs) ==> Writes(xs, html)
    decreases xs, 1
  {
    html := "";
    if xs != [] {
      var x, ys := xs[0], xs[1..];
      var first, more := WritesRest(xs);
      var rest := ReadBackIsWritten(ys);
      if x.Text? && x.text == "" {
        html := rest;
        assert !IsFilled(x);
      } else if IsPlain(x) && StartsPlain(ys) {
        WritesMerged(x.text, ReadBack(ys), rest);
        html := TextHtml(x.text, []) + rest;
      } else {
        var one := OneIsWritten(x);
        WritesCons(OneReadBack(x)[0], ReadBack(ys), one, rest);
        assert ReadBack(xs) == [OneReadBack(x)[0]] + ReadBack(ys);
        html := one + rest;
      }
    }
  }

  // ---- Inlines: what comes back fits where the original did ----

  lemma FitsCons(x: Inline, rest: seq<Inline>, depth: nat)
    ensures FitsInlines([x] + rest, depth) <==> FitsInline(x, depth) && FitsInlines(rest, depth)
  {
    assert ([x] + rest)[1..] == rest;
  }

  lemma FitsMerged(text: string, rest: seq<Inline>, depth: nat)
    requires text != "" && rest != [] && IsPlain(rest[0]) && FitsInline(Text(text, []), depth) && FitsInlines(rest, depth)
    ensures FitsInlines([Text(text + rest[0].text, [])] + rest[1..], depth)
  {
    FitsCons(Text(text + rest[0].text, []), rest[1..], depth);
  }

  lemma {:induction false} OneFits(x: Inline, depth: nat)
    requires RenderInline(x).Ok? && FitsInline(x, depth) && OneReadBack(x) != []
    ensures FitsInline(OneReadBack(x)[0], depth)
    decreases x, 0
  {
    match x
    case Break =>
    case Text(text, marks) => InOrderSet(MarkSet(marks));
    case Link(href, children) => ReadBackFits(children, depth + 1);
  }

  lemma {:induction false} ReadBackFits(xs: seq<Inline>, depth: nat)
    requires RenderInlines(xs).Ok? && FitsInlines(xs, depth)
    ensures FitsInlines(ReadBack(xs), depth)
    decreases xs, 1
  {
    if xs != [] {
      var x, ys := xs[0], xs[1..];
      ReadBackFits(ys, depth);
      if x.Text? && x.text == "" {
      } else if IsPlain(x) && StartsPlain(ys) {
        FitsMerged(x.text, ReadBack(ys), depth);
      } else {
        OneFits(x, depth);
        FitsCons(OneReadBack(x)[0], ReadBack(ys), depth);
        assert ReadBack(xs) == [OneReadBack(x)[0]] + ReadBack(ys);
      }
    }
  }

  // ---- Inlines: links stay flat ----

  predicate LinksHoldNoLinks(xs: seq<Inline>) {
    forall x :: x in xs && x.Link? ==> !HasLink(x.children)
  }

  lemma {:induction false} NoNewLinks(xs: seq<Inline>)
    requires !HasLink(xs)
    ensures !HasLink(ReadBack(xs))
  {
    if xs != [] {
      assert xs[0] in xs;
      assert forall y :: y in xs[1..] ==> y in xs;
      NoNewLinks(xs[1..]);
    }
  }

  lemma {:induction false} LinksStayFlat(xs: seq<Inline>)
    requires LinksHoldNoLinks(xs)
    ensures LinksHoldNoLinks(ReadBack(xs))
  {
    if xs != [] {
      assert xs[0] in xs;
      assert forall y :: y in xs[1..] ==> y in xs;
      LinksStayFlat(xs[1..]);
      if xs[0].Link? {
        NoNewLinks(xs[0].children);
      }
    }
  }

  // ---- Blocks ----

  predicate IsFilledBlock(block: RichBlock)
    decreases block, 0
  {
    match block
    case Paragraph(xs) => AreFilled(xs)
    case List(_, _, items) => AreFilledItems(items)
  }

  predicate AreFilledItems(items: seq<ListItem>)
    decreases items, 1
  {
    items == [] || (items[0].blocks != [] && AreFilledBlocks(items[0].blocks) && AreFilledItems(items[1..]))
  }

  /** No empty texts and no items without blocks. */
  predicate AreFilledBlocks(blocks: seq<RichBlock>)
    decreases blocks, 1
  {
    blocks == [] || (IsFilledBlock(blocks[0]) && AreFilledBlocks(blocks[1..]))
  }

  lemma {:induction false} BlockIsFilled(block: RichBlock)
    ensures IsFilledBlock(BlockReadBack(block))
    decreases block, 0
  {
    match block
    case Paragraph(xs) => ReadBackIsFilled(xs);
    case List(_, _, items) => ItemsAreFilled(items);
  }

  lemma {:induction false} ItemsAreFilled(items: seq<ListItem>)
    ensures AreFilledItems(ItemsReadBack(items))
    decreases items, 1
  {
    if items != [] {
      BlocksAreFilled(items[0].blocks);
      ItemsAreFilled(items[1..]);
      assert ItemsReadBack(items)[1..] == ItemsReadBack(items[1..]);
    }
  }

  lemma {:induction false} BlocksAreFilled(blocks: seq<RichBlock>)
    ensures AreFilledBlocks(BlocksReadBack(blocks))
    decreases blocks, 1
  {
    if blocks != [] {
      BlockIsFilled(blocks[0]);
      BlocksAreFilled(blocks[1..]);
      assert BlocksReadBack(blocks)[1..] == BlocksReadBack(blocks[1..]);
    }
  }

  lemma {:induction false} BlockIsNormal(block: RichBlock)
    requires IsFilledBlock(block)
    ensures IsNormalBlock(BlockReadBack(block))
    decreases block, 0
  {
    match block
    case Paragraph(xs) => FilledReadsBackNormal(xs);
    case List(_, _, items) => ItemsAreNormal(items);
  }

  lemma {:induction false} ItemsAreNormal(items: seq<ListItem>)
    requires AreFilledItems(items)
    ensures AreNormalItems(ItemsReadBack(items))
    decreases items, 1
  {
    if items != [] {
      BlocksAreNormal(items[0].blocks);
      ItemsAreNormal(items[1..]);
      assert ItemsReadBack(items)[1..] == ItemsReadBack(items[1..]);
    }
  }

  lemma {:induction false} BlocksAreNormal(blocks: seq<RichBlock>)
    requires AreFilledBlocks(blocks)
    ensures AreNormalBlocks(BlocksReadBack(blocks))
    decreases blocks, 1
  {
    if blocks != [] {
      BlockIsNormal(blocks[0]);
      BlocksAreNormal(blocks[1..]);
      assert BlocksReadBack(blocks)[1..] == BlocksReadBack(blocks[1..]);
    }
  }

  // ---- Blocks: written again ----

  /** A list that comes back can be written, and to the same text if nothing was empty. */
  predicate IsWrittenAgain(before: Result<string, RenderError>, after: Result<string, RenderError>, filled: bool) {
    after.Ok? && (filled ==> after == before)
  }

  lemma {:induction false} BlockIsWrittenAgain(block: RichBlock)
    requires RenderBlock(block).Ok?
    ensures IsWrittenAgain(RenderBlock(block), RenderBlock(BlockReadBack(block)), IsFilledBlock(block))
    decreases block, 0
  {
    match block
    case Paragraph(xs) => var html := ReadBackIsWritten(xs);
    case List(_, _, items) => ItemsAreWrittenAgain(items);
  }

  lemma {:induction false} ItemsAreWrittenAgain(items: seq<ListItem>)
    requires RenderItems(items).Ok?
    ensures IsWrittenAgain(RenderItems(items), RenderItems(ItemsReadBack(items)), AreFilledItems(items))
    decreases items, 1
  {
    if items != [] {
      BlocksAreWrittenAgain(items[0].blocks);
      ItemsAreWrittenAgain(items[1..]);
      EmptyParagraphIsWritten();
      assert ItemsReadBack(items)[1..] == ItemsReadBack(items[1..]);
    }
  }

  lemma EmptyParagraphIsWritten()
    ensures RenderBlocks([Paragraph([])]).Ok?
  {
    assert [Paragraph([])][1..] == [];
    assert RenderBlock(Paragraph([])).Ok?;
  }

  lemma {:induction false} BlocksAreWrittenAgain(blocks: seq<RichBlock>)
    requires RenderBlocks(blocks).Ok?
    ensures IsWrittenAgain(RenderBlocks(blocks), RenderBlocks(BlocksReadBack(blocks)), AreFilledBlocks(blocks))
    decreases blocks, 1
  {
    if blocks != [] {
      BlockIsWrittenAgain(blocks[0]);
      BlocksAreWrittenAgain(blocks[1..]);
      assert BlocksReadBack(blocks)[1..] == BlocksReadBack(blocks[1..]);
    }
  }

  lemma {:induction false} BlockFitsAgain(block: RichBlock, depth: nat)
    requires RenderBlock(block).Ok? && FitsBlock(block, depth)
    ensures FitsBlock(BlockReadBack(block), depth)
    decreases block, 0
  {
    match block
    case Paragraph(xs) => ReadBackFits(xs, depth + 1);
    case List(_, _, items) => ItemsFitAgain(items, depth);
  }

  lemma {:induction false} ItemsFitAgain(items: seq<ListItem>, depth: nat)
    requires RenderItems(items).Ok? && FitsItems(items, depth)
    ensures FitsItems(ItemsReadBack(items), depth)
    decreases items, 1
  {
    if items != [] {
      BlocksFitAgain(items[0].blocks, depth + 2);
      ItemsFitAgain(items[1..], depth);
      EmptyParagraphFits(depth + 2);
      assert ItemsReadBack(items)[1..] == ItemsReadBack(items[1..]);
    }
  }

  lemma EmptyParagraphFits(depth: nat)
    ensures FitsBlocks([Paragraph([])], depth)
  {
    assert [Paragraph([])][1..] == [];
    assert FitsBlock(Paragraph([]), depth);
  }

  lemma {:induction false} BlocksFitAgain(blocks: seq<RichBlock>, depth: nat)
    requires RenderBlocks(blocks).Ok? && FitsBlocks(blocks, depth)
    ensures FitsBlocks(BlocksReadBack(blocks), depth)
    decreases blocks, 1
  {
    if blocks != [] {
      BlockFitsAgain(blocks[0], depth);
      BlocksFitAgain(blocks[1..], depth);
      assert BlocksReadBack(blocks)[1..] == BlocksReadBack(blocks[1..]);
    }
  }

  lemma {:induction false} BlockStaysFlat(block: RichBlock)
    requires LinksAreFlat(block)
    ensures LinksAreFlat(BlockReadBack(block))
    decreases block, 0
  {
    match block
    case Paragraph(xs) =>
      assert LinksHoldNoLinks(xs);
      LinksStayFlat(xs);
    case List(ordered, start, items) =>
      assert forall item, b :: item in items && b in item.blocks ==> LinksAreFlat(b);
      ItemsStayFlat(items);
      var back := BlockReadBack(block);
      assert back.items == ItemsReadBack(items);
  }

  lemma {:induction false} ItemsStayFlat(items: seq<ListItem>)
    requires forall item, b :: item in items && b in item.blocks ==> LinksAreFlat(b)
    ensures forall item, b :: item in ItemsReadBack(items) && b in item.blocks ==> LinksAreFlat(b)
    decreases items, 1
  {
    if items != [] {
      assert items[0] in items;
      assert forall item :: item in items[1..] ==> item in items;
      BlocksStayFlat(items[0].blocks);
      ItemsStayFlat(items[1..]);
    }
  }

  lemma {:induction false} BlocksStayFlat(blocks: seq<RichBlock>)
    requires AreFlat(blocks)
    ensures AreFlat(BlocksReadBack(blocks))
    decreases blocks, 1
  {
    if blocks != [] {
      assert blocks[0] in blocks;
      assert forall b :: b in blocks[1..] ==> b in blocks;
      BlockStaysFlat(blocks[0]);
      BlocksStayFlat(blocks[1..]);
    }
  }

  // ---- Trips ----

  /** A list that was read back can be written and fits; only its length may keep it from a second trip. */
  lemma CanGoAgain(blocks: seq<RichBlock>)
    requires RenderBlocks(blocks).Ok? && AreFlat(blocks) && Trip(blocks).complete
    ensures var once := Trip(blocks).blocks;
            && AreFilledBlocks(once) && RenderBlocks(once).Ok? && AreFlat(once)
            && (Trip(once).complete <==> Units(Html(once)) <= MAX_HTML_LENGTH)
  {
    ReadsBack(blocks);
    BlocksAreFilled(blocks);
    BlocksAreWrittenAgain(blocks);
    BlocksFitAgain(blocks, 0);
    BlocksStayFlat(blocks);
    ReadsBack(Trip(blocks).blocks);
  }

  /** From a list without empty parts one trip gives the normal form, and the HTML stays as it is. */
  lemma FilledSettlesInOne(blocks: seq<RichBlock>)
    requires RenderBlocks(blocks).Ok? && AreFlat(blocks) && AreFilledBlocks(blocks) && Trip(blocks).complete
    ensures var once := Trip(blocks).blocks;
            && AreNormalBlocks(once) && RenderBlocks(once) == RenderBlocks(blocks)
            && Trip(once).complete && Trip(once).blocks == once
  {
    ReadsBack(blocks);
    CanGoAgain(blocks);
    BlocksAreWrittenAgain(blocks);
    BlocksAreNormal(blocks);
    var once := Trip(blocks).blocks;
    ReadsBack(once);
    BlocksAreFixed(once);
  }

  /**
   * Two complete trips settle every list: the second gives the normal form, with the HTML of the first, and every
   * further trip is complete and returns the same blocks.
   */
  lemma TwoTripsSettle(blocks: seq<RichBlock>)
    requires RenderBlocks(blocks).Ok? && AreFlat(blocks) && Trip(blocks).complete
    ensures var once := Trip(blocks).blocks;
            && RenderBlocks(once).Ok? && (Trip(once).complete <==> Units(Html(once)) <= MAX_HTML_LENGTH)
            && (Trip(once).complete ==>
                  var twice := Trip(once).blocks;
                  && AreNormalBlocks(twice) && RenderBlocks(twice) == RenderBlocks(once)
                  && Trip(twice).complete && Trip(twice).blocks == twice)
  {
    CanGoAgain(blocks);
    if Trip(Trip(blocks).blocks).complete {
      FilledSettlesInOne(Trip(blocks).blocks);
    }
  }
}
