/** Reading back what was written: exactly when it returns the same blocks, and what it returns otherwise. */
module RichTextRoundTrip {
  import opened Contracts
  import opened Strings
  import opened Unicode
  import opened RichText
  import opened RichTextWriter

  // ---- What the reader has room for ----

  /** Element levels and the text node below them must stay within the depth limit. */
  predicate FitsText(text: string, wraps: nat, depth: nat) {
    var levels := wraps + if text == "" then 0 else 1;
    levels == 0 || depth + levels <= MAX_DEPTH + 1
  }

  predicate FitsInline(x: Inline, depth: nat)
    decreases x, 0
  {
    match x
    case Text(text, marks) => FitsText(text, |marks|, depth)
    case Link(href, children) => depth <= MAX_DEPTH && IsTrimmed(href) && FitsInlines(children, depth + 1)
    case Break => depth <= MAX_DEPTH
  }

  predicate FitsInlines(xs: seq<Inline>, depth: nat)
    decreases xs, 1
  {
    xs == [] || (FitsInline(xs[0], depth) && FitsInlines(xs[1..], depth))
  }

  predicate FitsBlock(block: RichBlock, depth: nat)
    decreases block, 0
  {
    match block
    case Paragraph(xs) => FitsInlines(xs, depth + 1)
    case List(_, _, items) => FitsItems(items, depth)
  }

  /** Each list level takes two levels of depth. */
  predicate FitsItems(items: seq<ListItem>, depth: nat)
    decreases items, 1
  {
    items == [] || (depth + 2 <= MAX_DEPTH && FitsBlocks(items[0].blocks, depth + 2) && FitsItems(items[1..], depth))
  }

  predicate FitsBlocks(blocks: seq<RichBlock>, depth: nat)
    decreases blocks, 1
  {
    blocks == [] || (FitsBlock(blocks[0], depth) && FitsBlocks(blocks[1..], depth))
  }

  // ---- What is read back ----

  predicate IsPlain(x: Inline) {
    x.Text? && x.marks == []
  }

  /** The written form begins with a text node. */
  predicate StartsPlain(xs: seq<Inline>) {
    xs != [] && IsPlain(xs[0]) && (xs[0].text != "" || StartsPlain(xs[1..]))
  }

  /** Empty texts vanish, marks are sorted, and unmarked texts that touch become one. */
  function ReadBack(xs: seq<Inline>): (r: seq<Inline>)
    ensures StartsPlain(xs) ==> r != [] && IsPlain(r[0])
    ensures |r| <= |xs|
    decreases xs, 1
  {
    if xs == [] then []
    else
      var rest := ReadBack(xs[1..]);
      match xs[0]
      case Break => [Break] + rest
      case Link(href, children) => [Link(href, ReadBack(children))] + rest
      case Text(text, marks) =>
        if text == "" then rest
        else if marks == [] && StartsPlain(xs[1..]) then [Text(text + rest[0].text, [])] + rest[1..]
        else [Text(text, InOrder(MarkSet(marks)))] + rest
  }

  function BlockReadBack(block: RichBlock): RichBlock
    decreases block, 0
  {
    match block
    case Paragraph(xs) => Paragraph(ReadBack(xs))
    case List(ordered, start, items) => List(ordered, start, ItemsReadBack(items))
  }

  function ItemsReadBack(items: seq<ListItem>): (r: seq<ListItem>)
    ensures |r| == |items|
    decreases items, 1
  {
    if items == [] then []
    else [ListItem(OrEmptyParagraph(BlocksReadBack(items[0].blocks)))] + ItemsReadBack(items[1..])
  }

  function BlocksReadBack(blocks: seq<RichBlock>): (r: seq<RichBlock>)
    ensures |r| == |blocks|
    decreases blocks, 1
  {
    if blocks == [] then [] else [BlockReadBack(blocks[0])] + BlocksReadBack(blocks[1..])
  }

  // ---- Marks ----

  lemma InOrderSet(marks: set<InlineMark>)
    ensures MarkSet(InOrder(marks)) == marks
    ensures |InOrder(marks)| == |marks|
  {
    forall m ensures m in MarkSet(InOrder(marks)) <==> m in marks {
      match m
      case Bold =>
      case Italic =>
      case Underline =>
      case Strike =>
    }
    InOrderDistinct(marks);
    SizeOfDistinct(InOrder(marks));
  }

  lemma InOrderDistinct(marks: set<InlineMark>)
    ensures var r := InOrder(marks); forall i, j :: 0 <= i < j < |r| ==> r[i] != r[j]
  {
  }

  lemma {:induction false} SizeOfDistinct(s: seq<InlineMark>)
    requires forall i, j :: 0 <= i < j < |s| ==> s[i] != s[j]
    ensures |MarkSet(s)| == |s|
  {
    if s != [] {
      var init, last := s[..|s| - 1], s[|s| - 1];
      SizeOfDistinct(init);
      assert MarkSet(s) == MarkSet(init) + {last};
      assert last !in MarkSet(init);
    } else {
      assert MarkSet(s) == {};
    }
  }

  function Wrapped(order: seq<InlineMark>, marks: seq<InlineMark>): set<InlineMark> {
    set m | m in order && m in marks
  }

  function WrapCount(order: seq<InlineMark>, marks: seq<InlineMark>): nat {
    if order == [] then 0 else (if order[0] in marks then 1 else 0) + WrapCount(order[1..], marks)
  }

  lemma {:induction false} WrapCountIsSize(order: seq<InlineMark>, marks: seq<InlineMark>)
    requires forall i, j :: 0 <= i < j < |order| ==> order[i] != order[j]
    ensures WrapCount(order, marks) == |Wrapped(order, marks)|
  {
    if order == [] {
      assert Wrapped(order, marks) == {};
    } else {
      WrapCountIsSize(order[1..], marks);
      var rest := Wrapped(order[1..], marks);
      if order[0] in marks {
        assert Wrapped(order, marks) == rest + {order[0]};
        assert order[0] !in rest;
      } else {
        assert Wrapped(order, marks) == rest;
      }
    }
  }

  lemma AllWrapped(marks: seq<InlineMark>)
    requires |MarkSet(marks)| == |marks|
    ensures WrapCount(MARK_ORDER, marks) == |marks| && Wrapped(MARK_ORDER, marks) == MarkSet(marks)
  {
    WrapCountIsSize(MARK_ORDER, marks);
    forall m ensures m in MARK_ORDER {
      match m
      case Bold => assert MARK_ORDER[0] == Bold;
      case Italic => assert MARK_ORDER[1] == Italic;
      case Underline => assert MARK_ORDER[2] == Underline;
      case Strike => assert MARK_ORDER[3] == Strike;
    }
    assert Wrapped(MARK_ORDER, marks) == MarkSet(marks);
  }

  // ---- Reading one inline ----

  predicate IsClean<T>(r: Read<T>) {
    r.issues == []
  }

  /** The reading has no issues exactly when there is room, and then it gives these inlines. */
  predicate Gives(r: Read<seq<Inline>>, fits: bool, value: seq<Inline>) {
    (IsClean(r) <==> fits) && (fits ==> r.value == value)
  }

  lemma ReadOne(node: Node, i: nat, marks: seq<InlineMark>, path: string, depth: nat)
    ensures ReadInlines([node], i, marks, path, depth) == ReadInline(node, marks, Child(path, i), depth)
  {
    var first := ReadInline(node, marks, Child(path, i), depth);
    assert [node][1..] == [];
    assert ReadInlines([], i + 1, marks, path, depth) == Read([], []);
    assert first.value + [] == first.value && first.issues + [] == first.issues;
  }

  lemma ReadMarkElement(mark: InlineMark, inner: seq<Node>, i: nat, marks: seq<InlineMark>, path: string, depth: nat)
    ensures var r := ReadInlines([Element(TagOf(mark), [], inner)], i, marks, path, depth);
            if depth > MAX_DEPTH then !IsClean(r)
            else r == ReadInlines(inner, 0, AddMark(marks, mark), Child(path, i), depth + 1)
  {
    ReadOne(Element(TagOf(mark), [], inner), i, marks, path, depth);
    var r := ReadInlines(inner, 0, AddMark(marks, mark), Child(path, i), depth + 1);
    assert MarkOf(TagOf(mark)) == Some(mark);
    assert [] + r.issues == r.issues;
  }

  function ReadText(text: string, marks: set<InlineMark>): seq<Inline> {
    if text == "" then [] else [Text(text, InOrder(marks))]
  }

  lemma {:induction false} ReadTextTree(order: seq<InlineMark>, marks: seq<InlineMark>, text: string,
                                        outer: set<InlineMark>, i: nat, path: string, depth: nat)
    ensures Gives(ReadInlines(TextTree(order, marks, text), i, InOrder(outer), path, depth),
                  FitsText(text, WrapCount(order, marks), depth), ReadText(text, outer + Wrapped(order, marks)))
    decreases order
  {
    if order == [] {
      ReadBareText(text, outer, i, path, depth);
      assert outer + Wrapped(order, marks) == outer;
    } else if order[0] in marks {
      var inner := TextTree(order[1..], marks, text);
      var r := ReadInlines(inner, 0, InOrder(outer + {order[0]}), Child(path, i), depth + 1);
      ReadInsideMark(order[0], inner, outer, i, path, depth);
      ReadTextTree(order[1..], marks, text, outer + {order[0]}, 0, Child(path, i), depth + 1);
      FitsOneMore(text, WrapCount(order[1..], marks), depth);
      WrappedFirst(order, marks, outer);
    } else {
      ReadTextTree(order[1..], marks, text, outer, i, path, depth);
      assert Wrapped(order[1..], marks) == Wrapped(order, marks);
    }
  }

  lemma WrappedFirst(order: seq<InlineMark>, marks: seq<InlineMark>, outer: set<InlineMark>)
    requires order != [] && order[0] in marks
    ensures outer + {order[0]} + Wrapped(order[1..], marks) == outer + Wrapped(order, marks)
  {
  }

  lemma FitsOneMore(text: string, wraps: nat, depth: nat)
    ensures FitsText(text, wraps + 1, depth) <==> depth <= MAX_DEPTH && FitsText(text, wraps, depth + 1)
  {
  }

  lemma ReadBareText(text: string, outer: set<InlineMark>, i: nat, path: string, depth: nat)
    ensures var nodes := if text == "" then [] else [TextNode(text)];
            Gives(ReadInlines(nodes, i, InOrder(outer), path, depth), FitsText(text, 0, depth), ReadText(text, outer))
  {
    if text != "" {
      ReadOne(TextNode(text), i, InOrder(outer), path, depth);
    }
  }

  lemma ReadInsideMark(mark: InlineMark, inner: seq<Node>, outer: set<InlineMark>, i: nat, path: string, depth: nat)
    ensures var r := ReadInlines([Element(TagOf(mark), [], inner)], i, InOrder(outer), path, depth);
            if depth > MAX_DEPTH then !IsClean(r)
            else r == ReadInlines(inner, 0, InOrder(outer + {mark}), Child(path, i), depth + 1)
  {
    ReadMarkElement(mark, inner, i, InOrder(outer), path, depth);
    InOrderSet(outer);
  }

  function OneReadBack(x: Inline): seq<Inline> {
    match x
    case Break => [Break]
    case Link(href, children) => [Link(href, ReadBack(children))]
    case Text(text, marks) => if text == "" then [] else [Text(text, InOrder(MarkSet(marks)))]
  }

  lemma LowerOfLower(p: string, href: string)
    requires p <= href && forall c :: c in p ==> !('A' <= c <= 'Z')
    ensures Lower(href[..|p|]) == p
  {
    assert href[..|p|] == p;
    forall i | 0 <= i < |p| ensures Lower(p)[i] == p[i] {
      assert p[i] in p;
    }
  }

  lemma LowerSchemeKeeps(href: string)
    requires HasScheme(href)
    ensures LowerScheme(href) == href
  {
    if "https://" <= href {
      assert "https:" <= href;
      LowerOfLower("https:", href);
      assert href == "https:" + href[6..];
    } else if "http://" <= href {
      assert "http:" <= href;
      LowerOfLower("http:", href);
      assert href == "http:" + href[5..];
      NotHttps(href);
    } else {
      LowerOfLower("mailto:", href);
      assert href == "mailto:" + href[7..];
      NotHttp(href);
    }
  }

  lemma NotHttps(href: string)
    requires "http://" <= href
    ensures |href| >= 6 && Lower(href[..6]) != "https:"
  {
    assert href[4] == "http://"[4] == ':';
    assert Lower(href[..6])[4] == ':' && "https:"[4] == 's';
  }

  lemma NotHttp(href: string)
    requires "mailto:" <= href
    ensures |href| >= 7 && Lower(href[..6]) != "https:" && Lower(href[..5]) != "http:"
  {
    assert href[0] == "mailto:"[0] == 'm';
    assert Lower(href[..6])[0] == 'm' && "https:"[0] == 'h';
    assert Lower(href[..5])[0] == 'm' && "http:"[0] == 'h';
  }

  lemma ReadLinkTree(href: string, inner: seq<Node>, i: nat, path: string, depth: nat)
    requires HasScheme(href) && !HasControl(href)
    ensures var r := ReadInlines([Element(TA, [Attribute("href", href)], inner)], i, [], path, depth);
            var rest := ReadInlines(inner, 0, [], Child(path, i), depth + 1);
            && (IsClean(r) <==> depth <= MAX_DEPTH && IsTrimmed(href) && IsClean(rest))
            && (IsClean(r) ==> r.value == [Link(href, rest.value)])
  {
    var attributes := [Attribute("href", href)];
    ReadOne(Element(TA, attributes, inner), i, [], path, depth);
    HrefIsAllowed(href, Child(path, i));
    LowerSchemeKeeps(href);
  }

  lemma HrefIsAllowed(href: string, path: string)
    ensures AttributeIssues([Attribute("href", href)], {"href"}, path) == []
    ensures HrefOf([Attribute("href", href)]) == href
  {
    assert Lower("href") == "href";
    assert AttributeIssues([Attribute("href", href)][1..], {"href"}, path) == [];
  }

  lemma {:induction false} ReadInlineTree(x: Inline, i: nat, path: string, depth: nat)
    requires RenderInline(x).Ok?
    ensures Gives(ReadInlines(InlineTree(x), i, [], path, depth), FitsInline(x, depth), OneReadBack(x))
    decreases x, 0
  {
    match x
    case Text(text, marks) =>
      ReadTextTree(MARK_ORDER, marks, text, {}, i, path, depth);
      AllWrapped(marks);
      assert {} + MarkSet(marks) == MarkSet(marks);
    case Link(href, children) =>
      ReadInlinesTree(children, 0, Child(path, i), depth + 1);
      ReadLinkTree(href, InlinesTree(children), i, path, depth);
    case Break =>
      ReadOne(Element(TBr, [], []), i, [], path, depth);
  }

  // ---- Reading a run of inlines ----

  lemma {:induction false} StartsWithText(xs: seq<Inline>)
    ensures StartsPlain(xs) <==> InlinesTree(xs) != [] && InlinesTree(xs)[0].TextNode?
    decreases xs
  {
    if xs != [] {
      StartsWithText(xs[1..]);
      PlainTree(xs[0]);
    }
  }

  /** Only a non-empty unmarked text is written as a text node. */
  lemma PlainTree(x: Inline)
    ensures IsPlain(x) ==> InlineTree(x) == if x.text == "" then [] else [TextNode(x.text)]
    ensures InlineTree(x) != [] && InlineTree(x)[0].TextNode? ==> IsPlain(x)
    ensures InlineTree(x) == [] ==> IsPlain(x) || x.Text?
    ensures x.Text? && x.marks != [] ==> InlineTree(x) != [] && InlineTree(x)[0].Element?
  {
    if x.Text? {
      TextTreeShape(MARK_ORDER, x.marks, x.text);
      if x.marks != [] {
        var m := x.marks[0];
        assert m in MARK_ORDER by {
          match m
          case Bold => assert MARK_ORDER[0] == Bold;
          case Italic => assert MARK_ORDER[1] == Italic;
          case Underline => assert MARK_ORDER[2] == Underline;
          case Strike => assert MARK_ORDER[3] == Strike;
        }
      }
    }
  }

  lemma {:induction false} TextTreeShape(order: seq<InlineMark>, marks: seq<InlineMark>, text: string)
    ensures var nodes := TextTree(order, marks, text);
            if exists m :: m in order && m in marks then nodes != [] && nodes[0].Element?
            else nodes == if text == "" then [] else [TextNode(text)]
  {
    if order != [] {
      TextTreeShape(order[1..], marks, text);
      if m :| m in order && m in marks {
        assert m == order[0] || m in order[1..];
      }
    }
  }

  lemma ReadAfter(node: Node, rest: seq<Node>, i: nat, path: string, depth: nat)
    ensures var first := ReadInlines([node], i, [], path, depth);
            var more := ReadInlines(rest, i + 1, [], path, depth);
            ReadInlines([node] + rest, i, [], path, depth) == Both(first, more)
  {
    ReadOne(node, i, [], path, depth);
    assert ([node] + rest)[1..] == rest;
  }

  lemma CleanBoth(a: Read<seq<Inline>>, b: Read<seq<Inline>>)
    ensures IsClean(Both(a, b)) <==> IsClean(a) && IsClean(b)
  {
  }

  lemma MergedText(t: string, u: string, tail: seq<Node>, i: nat, path: string, depth: nat)
    requires u != ""
    ensures var r := ReadInlines([TextNode(u)] + tail, i, [], path, depth);
            var merged := ReadInlines([TextNode(t + u)] + tail, i, [], path, depth);
            && (IsClean(merged) <==> IsClean(r))
            && (IsClean(r) ==> depth <= MAX_DEPTH && r.value != [] && r.value[0] == Text(u, [])
                               && merged.value == [Text(t + u, [])] + r.value[1..])
  {
    ReadAfter(TextNode(u), tail, i, path, depth);
    ReadAfter(TextNode(t + u), tail, i, path, depth);
    ReadOne(TextNode(u), i, [], path, depth);
    ReadOne(TextNode(t + u), i, [], path, depth);
  }

  lemma {:induction false} TextNodesAreFilled(xs: seq<Inline>)
    requires StartsPlain(xs)
    ensures InlinesTree(xs) != [] && InlinesTree(xs)[0].TextNode? && InlinesTree(xs)[0].text != ""
  {
    PlainTree(xs[0]);
    StartsWithText(xs);
    if xs[0].text == "" {
      TextNodesAreFilled(xs[1..]);
    }
  }

  /** An unmarked text before a run that begins with a text node is read as part of that node. */
  lemma ReadMerged(x: Inline, ys: seq<Inline>, i: nat, path: string, depth: nat)
    requires IsPlain(x) && x.text != "" && StartsPlain(ys)
    requires Gives(ReadInlines(InlinesTree(ys), i, [], path, depth), FitsInlines(ys, depth), ReadBack(ys))
    ensures Gives(ReadInlines(InlinesTree([x] + ys), i, [], path, depth), FitsInlines([x] + ys, depth), ReadBack([x] + ys))
  {
    assert ([x] + ys)[1..] == ys;
    PlainTree(x);
    TextNodesAreFilled(ys);
    var rest := InlinesTree(ys);
    var u, tail := rest[0].text, rest[1..];
    assert rest == [TextNode(u)] + tail;
    assert InlinesTree([x] + ys) == [TextNode(x.text + u)] + tail;
    MergedText(x.text, u, tail, i, path, depth);
  }

  lemma ReadSeparate(x: Inline, ys: seq<Inline>, i: nat, path: string, depth: nat)
    requires InlineTree(x) != [] && !(IsPlain(x) && StartsPlain(ys))
    requires Gives(ReadInlines(InlineTree(x), i, [], path, depth), FitsInline(x, depth), OneReadBack(x))
    requires Gives(ReadInlines(InlinesTree(ys), i + 1, [], path, depth), FitsInlines(ys, depth), ReadBack(ys))
    ensures Gives(ReadInlines(InlinesTree([x] + ys), i, [], path, depth), FitsInlines([x] + ys, depth), ReadBack([x] + ys))
  {
    assert ([x] + ys)[1..] == ys;
    PlainTree(x);
    StartsWithText(ys);
    var node := InlineTree(x)[0];
    assert InlineTree(x) == [node];
    assert InlinesTree([x] + ys) == [node] + InlinesTree(ys);
    ReadAfter(node, InlinesTree(ys), i, path, depth);
    CleanBoth(ReadInlines([node], i, [], path, depth), ReadInlines(InlinesTree(ys), i + 1, [], path, depth));
    assert ReadBack([x] + ys) == OneReadBack(x) + ReadBack(ys);
  }

  lemma {:induction false} ReadInlinesTree(xs: seq<Inline>, i: nat, path: string, depth: nat)
    requires RenderInlines(xs).Ok?
    ensures Gives(ReadInlines(InlinesTree(xs), i, [], path, depth), FitsInlines(xs, depth), ReadBack(xs))
    decreases xs, 1
  {
    if xs != [] {
      var x, ys := xs[0], xs[1..];
      assert xs == [x] + ys;
      PlainTree(x);
      if InlineTree(x) == [] {
        ReadInlinesTree(ys, i, path, depth);
        assert [] + InlinesTree(ys) == InlinesTree(ys);
      } else if IsPlain(x) && StartsPlain(ys) {
        ReadInlinesTree(ys, i, path, depth);
        ReadMerged(x, ys, i, path, depth);
      } else {
        ReadInlineTree(x, i, path, depth);
        ReadInlinesTree(ys, i + 1, path, depth);
        ReadSeparate(x, ys, i, path, depth);
      }
    }
  }

  // ---- Reading blocks ----

  predicate GivesBlocks(r: Read<seq<RichBlock>>, fits: bool, value: seq<RichBlock>) {
    (IsClean(r) <==> fits) && (fits ==> r.value == value)
  }

  predicate GivesItems(r: Read<seq<ListItem>>, fits: bool, value: seq<ListItem>) {
    (IsClean(r) <==> fits) && (fits ==> r.value == value)
  }

  lemma ReadParagraphTree(xs: seq<Inline>, path: string, depth: nat)
    requires RenderInlines(xs).Ok?
    ensures ReadBlock(BlockTree(Paragraph(xs)), path, depth).Some?
    ensures var r := ReadBlock(BlockTree(Paragraph(xs)), path, depth).value;
            GivesBlocks(r, FitsInlines(xs, depth + 1), [Paragraph(ReadBack(xs))])
  {
    ReadInlinesTree(xs, 0, path, depth + 1);
    var inner := ReadInlines(InlinesTree(xs), 0, [], path, depth + 1);
    assert [] + inner.issues == inner.issues;
  }

  lemma ReadStartTree(start: Option<nat>, ordered: bool, path: string)
    requires start.Some? ==> ordered && start.value <= MAX_START
    ensures AttributeIssues(StartAttributes(start), if ordered then {"start"} else {}, path) == []
    ensures ReadStart(StartAttributes(start), ordered, path) == Read(start, [])
  {
    if start.Some? {
      var attributes := StartAttributes(start);
      assert attributes[1..] == [];
      assert AttributeIssues(attributes[1..], {"start"}, path) == [];
      assert Lower("start") == "start";
      ValueOfDecimal(start.value);
    }
  }

  lemma ReadListTree(ordered: bool, start: Option<nat>, items: seq<ListItem>, path: string, depth: nat)
    requires start.Some? ==> ordered && start.value <= MAX_START
    requires GivesItems(ReadItems(ItemsTree(items), 0, path, depth + 1), FitsItems(items, depth), ItemsReadBack(items))
    ensures ReadBlock(BlockTree(List(ordered, start, items)), path, depth).Some?
    ensures var r := ReadBlock(BlockTree(List(ordered, start, items)), path, depth).value;
            GivesBlocks(r, FitsItems(items, depth), [List(ordered, start, ItemsReadBack(items))])
  {
    ReadStartTree(start, ordered, path);
    var inner := ReadItems(ItemsTree(items), 0, path, depth + 1);
    assert [] + [] + inner.issues == inner.issues;
    assert ReadList(ordered, StartAttributes(start), ItemsTree(items), path, depth + 1)
        == Read(List(ordered, start, inner.value), inner.issues);
  }

  lemma {:induction false} ReadBlockTree(block: RichBlock, path: string, depth: nat)
    requires RenderBlock(block).Ok?
    ensures ReadBlock(BlockTree(block), path, depth).Some?
    ensures GivesBlocks(ReadBlock(BlockTree(block), path, depth).value, FitsBlock(block, depth), [BlockReadBack(block)])
    decreases block, 0
  {
    match block
    case Paragraph(xs) => ReadParagraphTree(xs, path, depth);
    case List(ordered, start, items) =>
      ReadItemsTree(items, 0, path, depth);
      ReadListTree(ordered, start, items, path, depth);
  }

  lemma ReadItemTree(blocks: seq<RichBlock>, path: string, depth: nat)
    requires depth + 2 <= MAX_DEPTH ==>
               GivesBlocks(ReadBlocks(BlocksTree(blocks), path, depth + 2), FitsBlocks(blocks, depth + 2), BlocksReadBack(blocks))
    ensures GivesItems(ReadItem(Element(TLi, [], BlocksTree(blocks)), path, depth + 1),
                       depth + 2 <= MAX_DEPTH && FitsBlocks(blocks, depth + 2),
                       [ListItem(OrEmptyParagraph(BlocksReadBack(blocks)))])
  {
    var inner := ReadBlocks(BlocksTree(blocks), path, depth + 2);
    assert [] + inner.issues == inner.issues;
  }

  lemma {:induction false} ReadItemsTree(items: seq<ListItem>, i: nat, path: string, depth: nat)
    requires RenderItems(items).Ok?
    ensures GivesItems(ReadItems(ItemsTree(items), i, path, depth + 1), FitsItems(items, depth), ItemsReadBack(items))
    decreases items, 1
  {
    if items != [] {
      var blocks := items[0].blocks;
      var first := Element(TLi, [], BlocksTree(blocks));
      ReadBlocksTree(blocks, Child(path, i), depth + 2);
      ReadItemTree(blocks, Child(path, i), depth);
      ReadItemsTree(items[1..], i + 1, path, depth);
      assert ([first] + ItemsTree(items[1..]))[1..] == ItemsTree(items[1..]);
      CleanBothItems(ReadItem(first, Child(path, i), depth + 1), ReadItems(ItemsTree(items[1..]), i + 1, path, depth + 1));
    }
  }

  lemma CleanBothItems(a: Read<seq<ListItem>>, b: Read<seq<ListItem>>)
    ensures IsClean(Both(a, b)) <==> IsClean(a) && IsClean(b)
  {
  }

  lemma ReadBlockFirst(node: Node, rest: seq<Node>, i: nat, path: string, depth: nat)
    requires ReadBlock(node, Child(path, i), depth).Some?
    ensures var first := ReadBlock(node, Child(path, i), depth).value;
            var more := ReadBlockNodes(rest, i + 1, [], path, depth);
            var r := ReadBlockNodes([node] + rest, i, [], path, depth);
            && (IsClean(r) <==> IsClean(first) && IsClean(more))
            && (IsClean(r) ==> r.value == first.value + more.value)
  {
    var first := ReadBlock(node, Child(path, i), depth).value;
    assert ([node] + rest)[1..] == rest;
    assert OrphanIssue(node, [], Child(path, i)) == [];
    assert [] + first.issues == first.issues && [] + first.value == first.value;
  }

  lemma {:induction false} ReadBlockNodesTree(blocks: seq<RichBlock>, i: nat, path: string, depth: nat)
    requires RenderBlocks(blocks).Ok?
    ensures GivesBlocks(ReadBlockNodes(BlocksTree(blocks), i, [], path, depth), FitsBlocks(blocks, depth), BlocksReadBack(blocks))
    decreases blocks, 1
  {
    if blocks != [] {
      ReadBlockTree(blocks[0], Child(path, i), depth);
      ReadBlockNodesTree(blocks[1..], i + 1, path, depth);
      ReadBlockFirst(BlockTree(blocks[0]), BlocksTree(blocks[1..]), i, path, depth);
    }
  }

  lemma {:induction false} ReadBlocksTree(blocks: seq<RichBlock>, path: string, depth: nat)
    requires RenderBlocks(blocks).Ok?
    ensures depth <= MAX_DEPTH ==>
              GivesBlocks(ReadBlocks(BlocksTree(blocks), path, depth), FitsBlocks(blocks, depth), BlocksReadBack(blocks))
    decreases blocks, 2
  {
    ReadBlockNodesTree(blocks, 0, path, depth);
  }

  // ---- Normal form ----

  predicate IsSorted(marks: seq<InlineMark>) {
    marks == InOrder(MarkSet(marks))
  }

  predicate IsNormalInline(x: Inline)
    decreases x, 0
  {
    match x
    case Break => true
    case Link(_, children) => IsNormal(children)
    case Text(text, marks) => text != "" && IsSorted(marks)
  }

  /** Texts are not empty, marks are sorted, and no two unmarked texts touch. */
  predicate IsNormal(xs: seq<Inline>)
    decreases xs, 1
  {
    xs == [] || (IsNormalInline(xs[0]) && IsNormal(xs[1..]) && !(IsPlain(xs[0]) && |xs| > 1 && IsPlain(xs[1])))
  }

  predicate IsNormalBlock(block: RichBlock)
    decreases block, 0
  {
    match block
    case Paragraph(xs) => IsNormal(xs)
    case List(_, _, items) => AreNormalItems(items)
  }

  predicate AreNormalItems(items: seq<ListItem>)
    decreases items, 1
  {
    items == [] || (items[0].blocks != [] && AreNormalBlocks(items[0].blocks) && AreNormalItems(items[1..]))
  }

  predicate AreNormalBlocks(blocks: seq<RichBlock>)
    decreases blocks, 1
  {
    blocks == [] || (IsNormalBlock(blocks[0]) && AreNormalBlocks(blocks[1..]))
  }

  lemma NormalStartsPlain(xs: seq<Inline>)
    requires IsNormal(xs)
    ensures StartsPlain(xs) <==> xs != [] && IsPlain(xs[0])
  {
  }

  /** Reading back changes nothing exactly in normal form: anything else is dropped, merged or reordered. */
  lemma {:induction false} NormalIsFixed(xs: seq<Inline>)
    ensures ReadBack(xs) == xs <==> IsNormal(xs)
    decreases xs, 1
  {
    if xs != [] {
      var x, ys := xs[0], xs[1..];
      assert xs == [x] + ys;
      NormalIsFixed(ys);
      if x.Text? && (x.text == "" || (x.marks == [] && StartsPlain(ys))) {
        MergedIsShorter(xs);
      } else {
        OneIsFixed(x);
        assert ReadBack(xs) == OneReadBack(x) + ReadBack(ys);
        assert ReadBack(xs)[1..] == ReadBack(ys);
        if IsNormal(ys) {
          NormalStartsPlain(ys);
        }
      }
    }
  }

  lemma {:induction false} OneIsFixed(x: Inline)
    requires !(x.Text? && x.text == "")
    ensures |OneReadBack(x)| == 1 && (OneReadBack(x)[0] == x <==> IsNormalInline(x))
    decreases x, 0
  {
    match x
    case Break =>
    case Link(href, children) => NormalIsFixed(children);
    case Text(text, marks) =>
  }

  lemma MergedIsShorter(xs: seq<Inline>)
    requires xs != [] && xs[0].Text? && (xs[0].text == "" || (xs[0].marks == [] && StartsPlain(xs[1..])))
    ensures |ReadBack(xs)| < |xs| && !IsNormal(xs)
  {
    if xs[0].text != "" && IsNormal(xs[1..]) {
      NormalStartsPlain(xs[1..]);
    }
  }

  lemma {:induction false} BlockIsFixed(block: RichBlock)
    ensures BlockReadBack(block) == block <==> IsNormalBlock(block)
    decreases block, 0
  {
    match block
    case Paragraph(xs) => NormalIsFixed(xs);
    case List(_, _, items) => ItemsAreFixed(items);
  }

  lemma {:induction false} ItemsAreFixed(items: seq<ListItem>)
    ensures ItemsReadBack(items) == items <==> AreNormalItems(items)
    decreases items, 1
  {
    if items != [] {
      var blocks := items[0].blocks;
      BlocksAreFixed(blocks);
      ItemsAreFixed(items[1..]);
      assert items == [items[0]] + items[1..];
      assert ItemsReadBack(items)[1..] == ItemsReadBack(items[1..]);
      assert ItemsReadBack(items)[0] == items[0] <==> OrEmptyParagraph(BlocksReadBack(blocks)) == blocks;
    }
  }

  lemma {:induction false} BlocksAreFixed(blocks: seq<RichBlock>)
    ensures BlocksReadBack(blocks) == blocks <==> AreNormalBlocks(blocks)
    decreases blocks, 1
  {
    if blocks != [] {
      BlockIsFixed(blocks[0]);
      BlocksAreFixed(blocks[1..]);
      assert blocks == [blocks[0]] + blocks[1..];
      assert BlocksReadBack(blocks)[1..] == BlocksReadBack(blocks[1..]);
    }
  }

  // ---- The round trip ----

  predicate HasLink(xs: seq<Inline>) {
    exists x :: x in xs && x.Link?
  }

  /** An HTML parser does not nest anchors, so the tree stands for the text only without nested links. */
  predicate LinksAreFlat(block: RichBlock)
    decreases block
  {
    match block
    case Paragraph(xs) => forall x :: x in xs && x.Link? ==> !HasLink(x.children)
    case List(_, _, items) => forall item, b :: item in items && b in item.blocks ==> LinksAreFlat(b)
  }

  /** The document that an HTML parser builds from the written text. */
  function WrittenDom(blocks: seq<RichBlock>): Dom {
    Dom([], false, BlocksTree(blocks))
  }

  lemma {:induction false} WrittenIsNotBlank(blocks: seq<RichBlock>)
    requires RenderBlocks(blocks).Ok?
    ensures var html := RenderBlocks(blocks).value; html == "" || (html[0] == '<' && !IsJsBlank(html))
  {
    if blocks != [] {
      var first := RenderBlock(blocks[0]).value;
      assert first[0] == '<';
      var html := RenderBlocks(blocks).value;
      assert html[0] == '<' && html[0] in html;
    }
  }

  /**
   * For every block list that can be written, with links not nested: the written text is read back completely and
   * to the same blocks exactly when it is not too long, nothing is too deep, link addresses are trimmed, and the
   * list is in normal form.
   */
  lemma RoundTripIsExact(blocks: seq<RichBlock>)
    requires RenderBlocks(blocks).Ok?
    requires forall b :: b in blocks ==> LinksAreFlat(b)
    ensures var html := RenderBlocks(blocks).value;
            var parsed := ReadHtml(html, WrittenDom(blocks));
            parsed.complete && parsed.blocks == blocks <==>
            Units(html) <= MAX_HTML_LENGTH && FitsBlocks(blocks, 0) && AreNormalBlocks(blocks)
  {
    ReadsBack(blocks);
    BlocksAreFixed(blocks);
  }

  /** Whatever fits is read completely, and what comes back is the list with its texts merged and sorted. */
  lemma ReadsBack(blocks: seq<RichBlock>)
    requires RenderBlocks(blocks).Ok?
    ensures var html := RenderBlocks(blocks).value;
            var parsed := ReadHtml(html, WrittenDom(blocks));
            && (parsed.complete <==> Units(html) <= MAX_HTML_LENGTH && FitsBlocks(blocks, 0))
            && (parsed.complete ==> parsed.blocks == BlocksReadBack(blocks))
  {
    WrittenIsNotBlank(blocks);
    ReadBlocksTree(blocks, "body", 0);
    assert [] + [] + ReadBlocks(BlocksTree(blocks), "body", 0).issues == ReadBlocks(BlocksTree(blocks), "body", 0).issues;
  }

  // ---- Two round trips reach the normal form ----

  predicate IsFilled(x: Inline)
    decreases x, 0
  {
    match x
    case Break => true
    case Link(_, children) => AreFilled(children)
    case Text(text, _) => text != ""
  }

  predicate AreFilled(xs: seq<Inline>)
    decreases xs, 1
  {
    xs == [] || (IsFilled(xs[0]) && AreFilled(xs[1..]))
  }

  lemma {:induction false} ReadBackIsFilled(xs: seq<Inline>)
    ensures AreFilled(ReadBack(xs))
    decreases xs, 1
  {
    if xs != [] {
      var x, rest := xs[0], ReadBack(xs[1..]);
      ReadBackIsFilled(xs[1..]);
      if x.Link? {
        ReadBackIsFilled(x.children);
      }
      if !(x.Text? && (x.text == "" || (x.marks == [] && StartsPlain(xs[1..])))) {
        assert ReadBack(xs) == OneReadBack(x) + rest;
        assert ReadBack(xs)[1..] == rest;
      }
    }
  }

  /** Without empty texts one pass is enough. */
  lemma {:induction false} FilledReadsBackNormal(xs: seq<Inline>)
    requires AreFilled(xs)
    ensures IsNormal(ReadBack(xs))
    ensures ReadBack(xs) != [] && IsPlain(ReadBack(xs)[0]) ==> StartsPlain(xs)
    decreases xs, 1
  {
    if xs != [] {
      var x, ys := xs[0], xs[1..];
      var rest := ReadBack(ys);
      FilledReadsBackNormal(ys);
      if x.Text? && x.marks == [] && StartsPlain(ys) {
        assert rest[1..] == ReadBack(xs)[1..];
        NoMarks();
      } else {
        FilledOne(x);
        assert ReadBack(xs) == OneReadBack(x) + rest;
        assert ReadBack(xs)[1..] == rest;
      }
    }
  }

  lemma NoMarks()
    ensures IsSorted([])
  {
    assert MarkSet([]) == {};
  }

  lemma {:induction false} FilledOne(x: Inline)
    requires IsFilled(x)
    ensures |OneReadBack(x)| == 1 && IsNormalInline(OneReadBack(x)[0])
    ensures IsPlain(OneReadBack(x)[0]) ==> IsPlain(x)
    decreases x, 0
  {
    match x
    case Break =>
    case Link(_, children) => FilledReadsBackNormal(children);
    case Text(_, marks) =>
      InOrderSet(MarkSet(marks));
      if marks != [] {
        assert marks[0] in MarkSet(marks) && marks[0] in MarkSet(InOrder(MarkSet(marks)));
      }
  }
}
