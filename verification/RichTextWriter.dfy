/** Writing rich blocks as HTML, and the DOM tree which that HTML denotes. */
module RichTextWriter {
  import opened Contracts
  import opened Strings
  import opened Unicode
  import opened RichText

  // ---- The written text ----

  datatype RenderError = UnsupportedLink | UnsupportedMarks | UnsupportedStart

  function Replace(s: string, c: char, entity: string): string {
    if s == "" then "" else (if s[0] == c then entity else [s[0]]) + Replace(s[1..], c, entity)
  }

  /** Five replacements one after the other, the ampersand first. */
  function EscapeHtml(s: string): string {
    var amp := Replace(s, '&', "&amp;");
    var lt := Replace(amp, '<', "&lt;");
    var gt := Replace(lt, '>', "&gt;");
    var quot := Replace(gt, '"', "&quot;");
    Replace(quot, '\'', "&#39;")
  }

  function WrapHtml(mark: InlineMark, tag: string, marks: seq<InlineMark>, html: string): string {
    if mark in marks then "<" + tag + ">" + html + "</" + tag + ">" else html
  }

  function TextHtml(text: string, marks: seq<InlineMark>): string {
    var strike := WrapHtml(Strike, "s", marks, EscapeHtml(text));
    var underline := WrapHtml(Underline, "u", marks, strike);
    var italic := WrapHtml(Italic, "i", marks, underline);
    WrapHtml(Bold, "b", marks, italic)
  }

  function RenderInline(x: Inline): Result<string, RenderError>
    decreases x, 0
  {
    match x
    case Break => Ok("<br>")
    case Link(href, children) =>
      if !HasScheme(href) || HasControl(href) then Err(UnsupportedLink)
      else
        (match RenderInlines(children)
         case Err(e) => Err(e)
         case Ok(inner) => Ok("<a href=\"" + EscapeHtml(href) + "\">" + inner + "</a>"))
    case Text(text, marks) =>
      if |MarkSet(marks)| != |marks| then Err(UnsupportedMarks) else Ok(TextHtml(text, marks))
  }

  function RenderInlines(xs: seq<Inline>): Result<string, RenderError>
    decreases xs, 1
  {
    if xs == [] then Ok("")
    else
      match RenderInline(xs[0])
      case Err(e) => Err(e)
      case Ok(first) =>
        match RenderInlines(xs[1..])
        case Err(e) => Err(e)
        case Ok(rest) => Ok(first + rest)
  }

  function StartHtml(start: Option<nat>): string {
    match start
    case None => ""
    case Some(n) => " start=\"" + Decimal(n) + "\""
  }

  function RenderBlock(block: RichBlock): Result<string, RenderError>
    decreases block, 0
  {
    match block
    case Paragraph(xs) =>
      (match RenderInlines(xs)
       case Err(e) => Err(e)
       case Ok(inner) => Ok("<p>" + inner + "</p>"))
    case List(ordered, start, items) =>
      if start.Some? && (!ordered || start.value > MAX_START) then Err(UnsupportedStart)
      else
        var tag := if ordered then "ol" else "ul";
        (match RenderItems(items)
         case Err(e) => Err(e)
         case Ok(inner) => Ok("<" + tag + StartHtml(start) + ">" + inner + "</" + tag + ">"))
  }

  function RenderItems(items: seq<ListItem>): Result<string, RenderError>
    decreases items, 1
  {
    if items == [] then Ok("")
    else
      match RenderBlocks(items[0].blocks)
      case Err(e) => Err(e)
      case Ok(first) =>
        match RenderItems(items[1..])
        case Err(e) => Err(e)
        case Ok(rest) => Ok("<li>" + first + "</li>" + rest)
  }

  /** The HTML of a block list, or the first thing in it that cannot be written. */
  function RenderBlocks(blocks: seq<RichBlock>): Result<string, RenderError>
    decreases blocks, 1
  {
    if blocks == [] then Ok("")
    else
      match RenderBlock(blocks[0])
      case Err(e) => Err(e)
      case Ok(first) =>
        match RenderBlocks(blocks[1..])
        case Err(e) => Err(e)
        case Ok(rest) => Ok(first + rest)
  }

  // ---- The tree of the written text ----

  function TagOf(mark: InlineMark): TagName {
    match mark
    case Bold => TB
    case Italic => TI
    case Underline => TU
    case Strike => TS
  }

  /** The text inside its mark elements, the earlier mark outside; an empty text leaves no text node. */
  function TextTree(order: seq<InlineMark>, marks: seq<InlineMark>, text: string): (nodes: seq<Node>)
    ensures |nodes| <= 1
  {
    if order == [] then if text == "" then [] else [TextNode(text)]
    else if order[0] in marks then [Element(TagOf(order[0]), [], TextTree(order[1..], marks, text))]
    else TextTree(order[1..], marks, text)
  }

  function InlineTree(x: Inline): (nodes: seq<Node>)
    ensures |nodes| <= 1
    decreases x, 0
  {
    match x
    case Text(text, marks) => TextTree(MARK_ORDER, marks, text)
    case Link(href, children) => [Element(TA, [Attribute("href", href)], InlinesTree(children))]
    case Break => [Element(TBr, [], [])]
  }

  /** Text nodes that touch are one text node. */
  function Prepend(first: seq<Node>, rest: seq<Node>): seq<Node> {
    if first != [] && rest != [] && first[|first| - 1].TextNode? && rest[0].TextNode?
    then first[..|first| - 1] + [TextNode(first[|first| - 1].text + rest[0].text)] + rest[1..]
    else first + rest
  }

  function InlinesTree(xs: seq<Inline>): seq<Node>
    decreases xs, 1
  {
    if xs == [] then [] else Prepend(InlineTree(xs[0]), InlinesTree(xs[1..]))
  }

  function StartAttributes(start: Option<nat>): seq<Attribute> {
    match start
    case None => []
    case Some(n) => [Attribute("start", Decimal(n))]
  }

  function BlockTree(block: RichBlock): Node
    decreases block, 0
  {
    match block
    case Paragraph(xs) => Element(TP, [], InlinesTree(xs))
    case List(ordered, start, items) => Element(if ordered then TOl else TUl, StartAttributes(start), ItemsTree(items))
  }

  function ItemsTree(items: seq<ListItem>): seq<Node>
    decreases items, 1
  {
    if items == [] then [] else [Element(TLi, [], BlocksTree(items[0].blocks))] + ItemsTree(items[1..])
  }

  function BlocksTree(blocks: seq<RichBlock>): seq<Node>
    decreases blocks, 1
  {
    if blocks == [] then [] else [BlockTree(blocks[0])] + BlocksTree(blocks[1..])
  }

  // ---- The tree is the tree of the text ----

  function AttributesText(attributes: seq<Attribute>): string {
    if attributes == [] then ""
    else " " + attributes[0].name + "=\"" + EscapeHtml(attributes[0].value) + "\"" + AttributesText(attributes[1..])
  }

  /** The tree written out: tags with their attributes, text escaped, a line break without an end tag. */
  function NodeText(node: Node): string
    decreases node, 0
  {
    match node
    case TextNode(text) => EscapeHtml(text)
    case Element(tag, attributes, children) =>
      var start := "<" + LowerName(tag) + AttributesText(attributes) + ">";
      if tag.TBr? then start else start + NodesText(children) + "</" + LowerName(tag) + ">"
    case _ => ""
  }

  function NodesText(nodes: seq<Node>): string
    decreases nodes, 1
  {
    if nodes == [] then "" else NodeText(nodes[0]) + NodesText(nodes[1..])
  }

  lemma {:induction false} ReplaceConcat(a: string, b: string, c: char, entity: string)
    ensures Replace(a + b, c, entity) == Replace(a, c, entity) + Replace(b, c, entity)
  {
    if a == "" {
      assert a + b == b;
    } else {
      ReplaceConcat(a[1..], b, c, entity);
      FirstOfConcat(a, b);
      Associates(if a[0] == c then entity else [a[0]], Replace(a[1..], c, entity), Replace(b, c, entity));
    }
  }

  lemma FirstOfConcat(a: string, b: string)
    requires a != ""
    ensures a + b != "" && (a + b)[0] == a[0] && (a + b)[1..] == a[1..] + b
  {
  }

  lemma EscapeConcat(a: string, b: string)
    ensures EscapeHtml(a + b) == EscapeHtml(a) + EscapeHtml(b)
  {
    ReplaceConcat(a, b, '&', "&amp;");
    var a1, b1 := Replace(a, '&', "&amp;"), Replace(b, '&', "&amp;");
    ReplaceConcat(a1, b1, '<', "&lt;");
    var a2, b2 := Replace(a1, '<', "&lt;"), Replace(b1, '<', "&lt;");
    ReplaceConcat(a2, b2, '>', "&gt;");
    var a3, b3 := Replace(a2, '>', "&gt;"), Replace(b2, '>', "&gt;");
    ReplaceConcat(a3, b3, '"', "&quot;");
    var a4, b4 := Replace(a3, '"', "&quot;"), Replace(b3, '"', "&quot;");
    ReplaceConcat(a4, b4, '\'', "&#39;");
  }

  predicate Lacks(s: string, c: char) {
    c !in s
  }

  lemma {:induction false} ReplaceRemoves(s: string, c: char, entity: string)
    requires Lacks(entity, c)
    ensures Lacks(Replace(s, c, entity), c)
  {
    if s != "" {
      ReplaceRemoves(s[1..], c, entity);
    }
  }

  lemma {:induction false} ReplaceKeepsOut(s: string, c: char, entity: string, d: char)
    requires Lacks(s, d) && Lacks(entity, d)
    ensures Lacks(Replace(s, c, entity), d)
  {
    if s != "" {
      assert s[0] in s;
      ReplaceKeepsOut(s[1..], c, entity, d);
    }
  }

  /** Escaped text holds none of the characters that end a text or an attribute value. */
  lemma EscapedIsInert(s: string)
    ensures Lacks(EscapeHtml(s), '<') && Lacks(EscapeHtml(s), '>')
    ensures Lacks(EscapeHtml(s), '"') && Lacks(EscapeHtml(s), '\'')
  {
    var amp := Replace(s, '&', "&amp;");
    var lt := Replace(amp, '<', "&lt;");
    var gt := Replace(lt, '>', "&gt;");
    var quot := Replace(gt, '"', "&quot;");
    ReplaceRemoves(amp, '<', "&lt;");
    ReplaceRemoves(lt, '>', "&gt;");
    ReplaceRemoves(gt, '"', "&quot;");
    ReplaceRemoves(quot, '\'', "&#39;");
    ReplaceKeepsOut(lt, '>', "&gt;", '<');
    ReplaceKeepsOut(gt, '"', "&quot;", '<');
    ReplaceKeepsOut(gt, '"', "&quot;", '>');
    ReplaceKeepsOut(quot, '\'', "&#39;", '<');
    ReplaceKeepsOut(quot, '\'', "&#39;", '>');
    ReplaceKeepsOut(quot, '\'', "&#39;", '"');
  }

  lemma NodesTextOne(node: Node)
    ensures NodesText([node]) == NodeText(node)
  {
    assert NodesText([node][1..]) == "";
  }

  lemma PrependText(first: seq<Node>, rest: seq<Node>)
    requires |first| <= 1
    ensures NodesText(Prepend(first, rest)) == NodesText(first) + NodesText(rest)
  {
    if first == [] {
      assert first + rest == rest;
    } else {
      NodesTextOne(first[0]);
      if rest != [] && first[0].TextNode? && rest[0].TextNode? {
        EscapeConcat(first[0].text, rest[0].text);
        assert first[..0] == [];
        assert ([TextNode(first[0].text + rest[0].text)] + rest[1..])[1..] == rest[1..];
      } else {
        assert (first + rest)[1..] == rest;
      }
    }
  }

  lemma ElementText(tag: TagName, children: seq<Node>)
    requires !tag.TBr?
    ensures NodesText([Element(tag, [], children)]) == "<" + LowerName(tag) + ">" + NodesText(children) + "</" + LowerName(tag) + ">"
  {
    NodesTextOne(Element(tag, [], children));
    assert "<" + LowerName(tag) + AttributesText([]) == "<" + LowerName(tag);
  }

  lemma WrapText(order: seq<InlineMark>, marks: seq<InlineMark>, text: string, html: string)
    requires order != [] && NodesText(TextTree(order[1..], marks, text)) == html
    ensures NodesText(TextTree(order, marks, text)) == WrapHtml(order[0], LowerName(TagOf(order[0])), marks, html)
  {
    if order[0] in marks {
      ElementText(TagOf(order[0]), TextTree(order[1..], marks, text));
    }
  }

  lemma BareText(text: string, marks: seq<InlineMark>)
    ensures NodesText(TextTree([], marks, text)) == EscapeHtml(text)
  {
    if text != "" {
      NodesTextOne(TextNode(text));
    }
  }

  lemma TextTreeText(text: string, marks: seq<InlineMark>)
    ensures NodesText(TextTree(MARK_ORDER, marks, text)) == TextHtml(text, marks)
  {
    var italic, underline, strike := [Italic, Underline, Strike], [Underline, Strike], [Strike];
    assert MARK_ORDER[1..] == italic && italic[1..] == underline && underline[1..] == strike && strike[1..] == [];
    var html := EscapeHtml(text);
    BareText(text, marks);
    WrapText(strike, marks, text, html);
    var struck := WrapHtml(Strike, "s", marks, html);
    WrapText(underline, marks, text, struck);
    var underlined := WrapHtml(Underline, "u", marks, struck);
    WrapText(italic, marks, text, underlined);
    WrapText(MARK_ORDER, marks, text, WrapHtml(Italic, "i", marks, underlined));
  }

  lemma {:induction false} InlineTreeText(x: Inline)
    requires RenderInline(x).Ok?
    ensures NodesText(InlineTree(x)) == RenderInline(x).value
    decreases x, 0
  {
    match x
    case Text(text, marks) => TextTreeText(text, marks);
    case Link(href, children) =>
      InlinesTreeText(children);
      LinkText(href, InlinesTree(children));
    case Break => NodesTextOne(InlineTree(x)[0]);
  }

  lemma HrefText(href: string)
    ensures "<" + LowerName(TA) + AttributesText([Attribute("href", href)]) + ">" == "<a href=\"" + EscapeHtml(href) + "\">"
  {
    assert AttributesText([Attribute("href", href)][1..]) == "";
    assert " " + "href" + "=\"" == " href=\"";
  }

  lemma LinkText(href: string, children: seq<Node>)
    ensures NodesText([Element(TA, [Attribute("href", href)], children)]) ==
            "<a href=\"" + EscapeHtml(href) + "\">" + NodesText(children) + "</a>"
  {
    NodesTextOne(Element(TA, [Attribute("href", href)], children));
    HrefText(href);
    assert "</" + LowerName(TA) + ">" == "</a>";
  }

  lemma TaggedText(tag: TagName, attributes: seq<Attribute>, children: seq<Node>, name: string, start: string)
    requires !tag.TBr? && name == LowerName(tag) && start == AttributesText(attributes)
    ensures NodeText(Element(tag, attributes, children)) == "<" + name + start + ">" + NodesText(children) + "</" + name + ">"
  {
  }

  lemma ListText(ordered: bool, start: Option<nat>, children: seq<Node>)
    ensures NodeText(Element(if ordered then TOl else TUl, StartAttributes(start), children)) ==
            var tag := if ordered then "ol" else "ul";
            "<" + tag + StartHtml(start) + ">" + NodesText(children) + "</" + tag + ">"
  {
    StartText(start);
    if ordered {
      TaggedText(TOl, StartAttributes(start), children, "ol", StartHtml(start));
    } else {
      TaggedText(TUl, StartAttributes(start), children, "ul", StartHtml(start));
    }
  }

  lemma StartText(start: Option<nat>)
    ensures AttributesText(StartAttributes(start)) == StartHtml(start)
  {
    if start.Some? {
      var attributes := StartAttributes(start);
      assert AttributesText(attributes[1..]) == "";
      EscapedDigits(Decimal(start.value));
      assert " " + "start" + "=\"" == " start=\"";
    }
  }

  lemma {:induction false} NothingToReplace(s: string, c: char, entity: string)
    requires Lacks(s, c)
    ensures Replace(s, c, entity) == s
  {
    if s != "" {
      assert s[0] in s;
      NothingToReplace(s[1..], c, entity);
    }
  }

  lemma EscapedDigits(s: string)
    requires forall c :: c in s ==> IsDigit(c)
    ensures EscapeHtml(s) == s
  {
    NothingToReplace(s, '&', "&amp;");
    NothingToReplace(s, '<', "&lt;");
    NothingToReplace(s, '>', "&gt;");
    NothingToReplace(s, '"', "&quot;");
    NothingToReplace(s, '\'', "&#39;");
  }

  lemma {:induction false} InlinesTreeText(xs: seq<Inline>)
    requires RenderInlines(xs).Ok?
    ensures NodesText(InlinesTree(xs)) == RenderInlines(xs).value
    decreases xs, 1
  {
    if xs != [] {
      InlineTreeText(xs[0]);
      InlinesTreeText(xs[1..]);
      PrependText(InlineTree(xs[0]), InlinesTree(xs[1..]));
    }
  }

  lemma NodesTextCons(first: Node, rest: seq<Node>)
    ensures NodesText([first] + rest) == NodeText(first) + NodesText(rest)
  {
    assert ([first] + rest)[1..] == rest;
  }

  lemma ItemText(children: seq<Node>)
    ensures NodeText(Element(TLi, [], children)) == "<li>" + NodesText(children) + "</li>"
  {
    TaggedText(TLi, [], children, "li", "");
    assert "<" + "li" + "" + ">" == "<li>" && "</" + "li" + ">" == "</li>";
  }

  lemma ParagraphText(children: seq<Node>)
    ensures NodeText(Element(TP, [], children)) == "<p>" + NodesText(children) + "</p>"
  {
    TaggedText(TP, [], children, "p", "");
    assert "<" + "p" + "" + ">" == "<p>" && "</" + "p" + ">" == "</p>";
  }

  lemma {:induction false} BlockTreeText(block: RichBlock)
    requires RenderBlock(block).Ok?
    ensures NodeText(BlockTree(block)) == RenderBlock(block).value
    decreases block, 0
  {
    match block
    case Paragraph(xs) =>
      InlinesTreeText(xs);
      ParagraphText(InlinesTree(xs));
    case List(ordered, start, items) =>
      ItemsTreeText(items);
      ListText(ordered, start, ItemsTree(items));
  }

  lemma {:induction false} ItemsTreeText(items: seq<ListItem>)
    requires RenderItems(items).Ok?
    ensures NodesText(ItemsTree(items)) == RenderItems(items).value
    decreases items, 1
  {
    if items != [] {
      BlocksTreeText(items[0].blocks);
      ItemsTreeText(items[1..]);
      ItemText(BlocksTree(items[0].blocks));
      NodesTextCons(Element(TLi, [], BlocksTree(items[0].blocks)), ItemsTree(items[1..]));
    }
  }

  /** The tree written out is exactly the written HTML. */
  lemma {:induction false} BlocksTreeText(blocks: seq<RichBlock>)
    requires RenderBlocks(blocks).Ok?
    ensures NodesText(BlocksTree(blocks)) == RenderBlocks(blocks).value
    decreases blocks, 1
  {
    if blocks != [] {
      BlockTreeText(blocks[0]);
      BlocksTreeText(blocks[1..]);
      NodesTextCons(BlockTree(blocks[0]), BlocksTree(blocks[1..]));
    }
  }
}
