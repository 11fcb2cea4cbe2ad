/** Reading legacy HTML, given as its DOM tree, into rich blocks, and writing rich blocks as HTML. */
module RichText {
  import opened Contracts
  import opened Strings
  import opened Unicode

  // ---- The DOM ----

  datatype TagName =
    | TB | TStrong | TI | TEm | TU | TS | TStrike
    | TSpan | TBr | TA | TP | TDiv | TUl | TOl | TLi
    | Discarded(discarded: string)
    | OtherTag(other: string)

  datatype Attribute = Attribute(name: string, value: string)

  datatype Node =
    | TextNode(text: string)
    | Comment
    | OtherNode
    | Element(tag: TagName, attributes: seq<Attribute>, children: seq<Node>)

  datatype Dom = Dom(head: seq<Node>, doctype: bool, body: seq<Node>)

  function LowerName(tag: TagName): string {
    match tag
    case TB => "b" case TStrong => "strong" case TI => "i" case TEm => "em" case TU => "u"
    case TS => "s" case TStrike => "strike" case TSpan => "span" case TBr => "br" case TA => "a"
    case TP => "p" case TDiv => "div" case TUl => "ul" case TOl => "ol" case TLi => "li"
    case Discarded(name) => name
    case OtherTag(name) => name
  }

  // ---- Issues ----

  datatype IssueCode =
    | UnsupportedTag | UnsupportedAttribute | InvalidLink | InvalidListStart
    | CommentIssue | OrphanWhitespace | TooLarge

  datatype Issue = Issue(code: IssueCode, path: string, name: Option<string>)

  /** What a reading step returns and what it reports, in order. */
  datatype Read<+T> = Read(value: T, issues: seq<Issue>)

  const MAX_HTML_LENGTH: nat := 1_000_000
  const MAX_DEPTH: nat := 8
  const MAX_START: nat := 4_294_967_295

  function Child(path: string, i: nat): string {
    path + "/" + Decimal(i)
  }

  function LowerChar(c: char): char {
    if 'A' <= c <= 'Z' then (c as int + 32) as char else c
  }

  function Lower(s: string): (r: string)
    ensures |r| == |s| && forall i :: 0 <= i < |s| ==> r[i] == LowerChar(s[i])
  {
    seq(|s|, i requires 0 <= i < |s| => LowerChar(s[i]))
  }

  function AttributeIssues(attributes: seq<Attribute>, allowed: set<string>, path: string): seq<Issue> {
    if attributes == [] then []
    else
      (if Lower(attributes[0].name) in allowed then []
       else [Issue(UnsupportedAttribute, path, Some(attributes[0].name))])
      + AttributeIssues(attributes[1..], allowed, path)
  }

  function GetAttribute(attributes: seq<Attribute>, name: string): Option<string> {
    if attributes == [] then None
    else if attributes[0].name == name then Some(attributes[0].value)
    else GetAttribute(attributes[1..], name)
  }

  // ---- Marks and links ----

  const MARK_ORDER: seq<InlineMark> := [Bold, Italic, Underline, Strike]

  function MarkOf(tag: TagName): Option<InlineMark> {
    match tag
    case TB => Some(Bold) case TStrong => Some(Bold)
    case TI => Some(Italic) case TEm => Some(Italic)
    case TU => Some(Underline)
    case TS => Some(Strike) case TStrike => Some(Strike)
    case _ => None
  }

  /** The marks of a set in their fixed order. */
  function InOrder(marks: set<InlineMark>): seq<InlineMark> {
    (if Bold in marks then [Bold] else []) + (if Italic in marks then [Italic] else [])
    + (if Underline in marks then [Underline] else []) + (if Strike in marks then [Strike] else [])
  }

  function MarkSet(marks: seq<InlineMark>): set<InlineMark> {
    set m | m in marks
  }

  function AddMark(marks: seq<InlineMark>, mark: InlineMark): seq<InlineMark> {
    InOrder(MarkSet(marks) + {mark})
  }

  /** The scheme in lower case, when the link begins with a known scheme in any case. */
  function LowerScheme(href: string): string {
    if |href| >= 6 && Lower(href[..6]) == "https:" then "https:" + href[6..]
    else if |href| >= 5 && Lower(href[..5]) == "http:" then "http:" + href[5..]
    else if |href| >= 7 && Lower(href[..7]) == "mailto:" then "mailto:" + href[7..]
    else href
  }

  predicate IsControl(c: char) {
    c <= '\U{1F}' || c == '\U{7F}'
  }

  predicate HasControl(s: string) {
    exists c :: c in s && IsControl(c)
  }

  predicate HasScheme(href: string) {
    "https://" <= href || "http://" <= href || "mailto:" <= href
  }

  predicate IsTrimmed(s: string) {
    s == "" || (!IsJsWhitespace(s[0]) && !IsJsWhitespace(s[|s| - 1]))
  }

  /** What the reader demands of a link. */
  predicate AcceptedLink(href: string) {
    IsTrimmed(href) && !HasControl(href) && HasScheme(LowerScheme(href))
  }

  predicate AllDigits(s: string) {
    s != "" && forall c :: c in s ==> IsDigit(c)
  }

  predicate AcceptedStart(raw: string) {
    AllDigits(raw) && Value(raw) <= MAX_START
  }

  // ---- Specification of the reader ----

  function ReadInline(node: Node, marks: seq<InlineMark>, path: string, depth: nat): Read<seq<Inline>>
    decreases node, 0
  {
    if depth > MAX_DEPTH then Read([], [Issue(TooLarge, path, None)])
    else
      match node
      case TextNode(text) => Read(if text == "" then [] else [Text(text, marks)], [])
      case Comment => Read([], [Issue(CommentIssue, path, None)])
      case OtherNode => Read([], [])
      case Element(tag, attributes, children) =>
        if tag.Discarded? then Read([], [Issue(UnsupportedTag, path, Some(LowerName(tag)))])
        else if tag.TBr? then Read([Break], AttributeIssues(attributes, {}, path))
        else if tag.TA? then ReadLink(attributes, children, marks, path, depth)
        else if MarkOf(tag).Some? || tag.TSpan? then
          ReadWrapper(attributes, children, NextMarks(tag, marks), path, depth)
        else
          var inner := ReadWrapper(attributes, children, marks, path, depth);
          Read(inner.value, [Issue(UnsupportedTag, path, Some(LowerName(tag)))] + inner.issues)
  }

  function NextMarks(tag: TagName, marks: seq<InlineMark>): seq<InlineMark> {
    if MarkOf(tag).Some? then AddMark(marks, MarkOf(tag).value) else marks
  }

  function HrefOf(attributes: seq<Attribute>): string {
    match GetAttribute(attributes, "href")
    case Some(value) => value
    case None => ""
  }

  function ReadLink(attributes: seq<Attribute>, children: seq<Node>, marks: seq<InlineMark>, path: string, depth: nat)
    : Read<seq<Inline>>
    decreases children, 2
  {
    var href := HrefOf(attributes);
    var inner := ReadInlines(children, 0, marks, path, depth + 1);
    var before := AttributeIssues(attributes, {"href"}, path) + inner.issues;
    if AcceptedLink(href) then Read([Link(LowerScheme(href), inner.value)], before)
    else Read(inner.value, before + [Issue(InvalidLink, path, None)])
  }

  /** An element that contributes only its children. */
  function ReadWrapper(attributes: seq<Attribute>, children: seq<Node>, marks: seq<InlineMark>, path: string, depth: nat)
    : Read<seq<Inline>>
    decreases children, 2
  {
    var inner := ReadInlines(children, 0, marks, path, depth + 1);
    Read(inner.value, AttributeIssues(attributes, {}, path) + inner.issues)
  }

  /** The inline contents of the nodes, which are numbered from i. */
  function ReadInlines(nodes: seq<Node>, i: nat, marks: seq<InlineMark>, path: string, depth: nat): Read<seq<Inline>>
    decreases nodes, 1
  {
    if nodes == [] then Read([], [])
    else
      var first := ReadInline(nodes[0], marks, Child(path, i), depth);
      var rest := ReadInlines(nodes[1..], i + 1, marks, path, depth);
      Read(first.value + rest.value, first.issues + rest.issues)
  }

  function ReadStart(attributes: seq<Attribute>, ordered: bool, path: string): Read<Option<nat>> {
    if !ordered then Read(None, [])
    else
      match GetAttribute(attributes, "start")
      case None => Read(None, [])
      case Some(raw) =>
        if AcceptedStart(raw) then Read(Some(Value(raw)), []) else Read(None, [Issue(InvalidListStart, path, None)])
  }

  function OrEmptyParagraph(blocks: seq<RichBlock>): seq<RichBlock> {
    if blocks == [] then [Paragraph([])] else blocks
  }

  /** One child of a list: an item, or nothing and an issue. */
  function ReadItem(node: Node, path: string, depth: nat): Read<seq<ListItem>>
    decreases node, 1
  {
    match node
    case Element(tag, attributes, children) =>
      if tag.TLi? then
        var inner := ReadBlocks(children, path, depth + 1);
        Read([ListItem(OrEmptyParagraph(inner.value))], AttributeIssues(attributes, {}, path) + inner.issues)
      else Read([], [Issue(UnsupportedTag, path, Some(LowerName(tag)))])
    case TextNode(text) =>
      Read([], [if IsJsBlank(text) then Issue(OrphanWhitespace, path, None) else Issue(UnsupportedTag, path, Some("text"))])
    case _ => Read([], [Issue(UnsupportedTag, path, Some("text"))])
  }

  function ReadItems(nodes: seq<Node>, i: nat, path: string, depth: nat): Read<seq<ListItem>>
    decreases nodes, 1
  {
    if nodes == [] then Read([], [])
    else
      var first := ReadItem(nodes[0], Child(path, i), depth);
      var rest := ReadItems(nodes[1..], i + 1, path, depth);
      Read(first.value + rest.value, first.issues + rest.issues)
  }

  function ReadList(ordered: bool, attributes: seq<Attribute>, children: seq<Node>, path: string, depth: nat): Read<RichBlock>
    decreases children, 2
  {
    var start := ReadStart(attributes, ordered, path);
    var items := ReadItems(children, 0, path, depth);
    Read(List(ordered, start.value, items.value),
         AttributeIssues(attributes, if ordered then {"start"} else {}, path) + start.issues + items.issues)
  }

  function Flushed(pending: seq<Inline>): seq<RichBlock> {
    if pending == [] then [] else [Paragraph(pending)]
  }

  function ReadBlocks(nodes: seq<Node>, path: string, depth: nat): Read<seq<RichBlock>>
    decreases nodes, 2
  {
    if depth > MAX_DEPTH then Read([], [Issue(TooLarge, path, None)])
    else ReadBlockNodes(nodes, 0, [], path, depth)
  }

  function ReadDivision(attributes: seq<Attribute>, children: seq<Node>, path: string, depth: nat): Read<seq<RichBlock>>
    decreases children, 3
  {
    var inner := ReadBlocks(children, path, depth + 1);
    Read(OrEmptyParagraph(inner.value), AttributeIssues(attributes, {}, path) + inner.issues)
  }

  /** A block element, or none for nodes that count as inline content. */
  function ReadBlock(node: Node, path: string, depth: nat): Option<Read<seq<RichBlock>>>
    decreases node, 3
  {
    match node
    case Element(TP, attributes, children) =>
      var inner := ReadWrapper(attributes, children, [], path, depth);
      Some(Read([Paragraph(inner.value)], inner.issues))
    case Element(TDiv, attributes, children) => Some(ReadDivision(attributes, children, path, depth))
    case Element(TUl, attributes, children) =>
      var list := ReadList(false, attributes, children, path, depth + 1);
      Some(Read([list.value], list.issues))
    case Element(TOl, attributes, children) =>
      var list := ReadList(true, attributes, children, path, depth + 1);
      Some(Read([list.value], list.issues))
    case _ => None
  }

  function OrphanIssue(node: Node, pending: seq<Inline>, path: string): seq<Issue> {
    if node.TextNode? && IsJsBlank(node.text) && pending == [] then [Issue(OrphanWhitespace, path, None)] else []
  }

  datatype Gathered = Gathered(blocks: seq<RichBlock>, pending: seq<Inline>)

  /** One node among blocks: a block element closes the pending paragraph, anything else extends it. */
  function ReadBlockNode(node: Node, pending: seq<Inline>, path: string, depth: nat): Read<Gathered>
    decreases node, 4
  {
    match ReadBlock(node, path, depth)
    case Some(block) => Read(Gathered(Flushed(pending) + block.value, []), OrphanIssue(node, pending, path) + block.issues)
    case None =>
      var inline := ReadInline(node, [], path, depth + 1);
      Read(Gathered([], pending + inline.value), OrphanIssue(node, pending, path) + inline.issues)
  }

  function ReadBlockNodes(nodes: seq<Node>, i: nat, pending: seq<Inline>, path: string, depth: nat): Read<seq<RichBlock>>
    decreases nodes, 1
  {
    if nodes == [] then Read(Flushed(pending), [])
    else
      var first := ReadBlockNode(nodes[0], pending, Child(path, i), depth);
      var rest := ReadBlockNodes(nodes[1..], i + 1, first.value.pending, path, depth);
      Read(first.value.blocks + rest.value, first.issues + rest.issues)
  }

  function HeadIssues(nodes: seq<Node>, i: nat): seq<Issue> {
    if nodes == [] then []
    else
      var here := Child("head", i);
      (match nodes[0]
       case Element(tag, attributes, _) =>
         [Issue(UnsupportedTag, here, Some(LowerName(tag)))] + AttributeIssues(attributes, {}, here)
       case Comment => [Issue(CommentIssue, here, None)]
       case TextNode(text) => if text == "" then [] else [Issue(UnsupportedTag, here, Some("text"))]
       case OtherNode => [])
      + HeadIssues(nodes[1..], i + 1)
  }

  datatype ParsedHtml = ParsedHtml(rawHtml: string, blocks: seq<RichBlock>, issues: seq<Issue>, complete: bool)

  /** The reading of a whole text, whose DOM is given. */
  function ReadHtml(rawHtml: string, dom: Dom): ParsedHtml {
    if Units(rawHtml) > MAX_HTML_LENGTH then ParsedHtml(rawHtml, [], [Issue(TooLarge, "body", None)], false)
    else if rawHtml != "" && IsJsBlank(rawHtml) then
      ParsedHtml(rawHtml, [Paragraph([Text(rawHtml, [])])], [Issue(OrphanWhitespace, "body", None)], false)
    else
      var body := ReadBlocks(dom.body, "body", 0);
      var doctype := if dom.doctype then [Issue(UnsupportedTag, "doctype", Some("doctype"))] else [];
      var issues := HeadIssues(dom.head, 0) + doctype + body.issues;
      ParsedHtml(rawHtml, body.value, issues, issues == [])
  }

  // ---- The reader ----

  /** Where a loop stands: what it has and what remains make up the whole. */
  predicate Split<T(==)>(all: Read<seq<T>>, start: seq<Issue>, sofar: seq<T>, now: seq<Issue>, rest: Read<seq<T>>) {
    all.value == sofar + rest.value && start + all.issues == now + rest.issues
  }

  function Both<T>(first: Read<seq<T>>, rest: Read<seq<T>>): Read<seq<T>> {
    Read(first.value + rest.value, first.issues + rest.issues)
  }

  lemma SplitStep<T>(all: Read<seq<T>>, start: seq<Issue>, sofar: seq<T>, now: seq<Issue>,
                     first: Read<seq<T>>, rest: Read<seq<T>>)
    requires Split(all, start, sofar, now, Both(first, rest))
    ensures Split(all, start, sofar + first.value, now + first.issues, rest)
  {
    Associates(sofar, first.value, rest.value);
    Associates(now, first.issues, rest.issues);
  }

  class RichTextReader {
    var issues: seq<Issue>

    constructor ()
      ensures issues == []
    {
      issues := [];
    }

    method Report(code: IssueCode, path: string, name: Option<string>)
      modifies this
      ensures issues == old(issues) + [Issue(code, path, name)]
    {
      issues := issues + [Issue(code, path, name)];
    }

    method CheckAttributes(attributes: seq<Attribute>, allowed: set<string>, path: string)
      modifies this
      ensures issues == old(issues) + AttributeIssues(attributes, allowed, path)
    {
      for i := 0 to |attributes|
        invariant old(issues) + AttributeIssues(attributes, allowed, path)
                  == issues + AttributeIssues(attributes[i..], allowed, path)
      {
        assert attributes[i..][0] == attributes[i] && attributes[i..][1..] == attributes[i + 1..];
        if Lower(attributes[i].name) !in allowed {
          Report(UnsupportedAttribute, path, Some(attributes[i].name));
        }
      }
    }

    method ParseInlineChildren(children: seq<Node>, marks: seq<InlineMark>, path: string, depth: nat)
      returns (result: seq<Inline>)
      modifies this
      ensures var r := ReadInlines(children, 0, marks, path, depth);
              result == r.value && issues == old(issues) + r.issues
      decreases children, 1
    {
      result := [];
      for i := 0 to |children|
        invariant Split(ReadInlines(children, 0, marks, path, depth), old(issues), result, issues,
                        ReadInlines(children[i..], i, marks, path, depth))
      {
        assert children[i..][0] == children[i] && children[i..][1..] == children[i + 1..];
        SplitStep(ReadInlines(children, 0, marks, path, depth), old(issues), result, issues,
                  ReadInline(children[i], marks, Child(path, i), depth),
                  ReadInlines(children[i + 1..], i + 1, marks, path, depth));
        var more := ParseInlines(children[i], marks, Child(path, i), depth);
        result := result + more;
      }
    }

    method ParseInlines(node: Node, marks: seq<InlineMark>, path: string, depth: nat) returns (result: seq<Inline>)
      modifies this
      ensures var r := ReadInline(node, marks, path, depth);
              result == r.value && issues == old(issues) + r.issues
      decreases node, 0
    {
      if depth > MAX_DEPTH {
        Report(TooLarge, path, None);
        return [];
      }
      match node {
        case TextNode(text) =>
          return if text == "" then [] else [Text(text, marks)];
        case Comment =>
          Report(CommentIssue, path, None);
          return [];
        case OtherNode =>
          return [];
        case Element(tag, attributes, children) =>
          if tag.Discarded? {
            Report(UnsupportedTag, path, Some(LowerName(tag)));
            return [];
          }
          if tag.TBr? {
            CheckAttributes(attributes, {}, path);
            return [Break];
          }
          if tag.TA? {
            result := ParseLink(attributes, children, marks, path, depth);
            return;
          }
          var mark := MarkOf(tag);
          if mark.Some? || tag.TSpan? {
            var nextMarks := if mark.Some? then AddMark(marks, mark.value) else marks;
            result := ParseWrapper(attributes, children, nextMarks, path, depth);
            return;
          }
          Report(UnsupportedTag, path, Some(LowerName(tag)));
          result := ParseWrapper(attributes, children, marks, path, depth);
      }
    }

    method ParseLink(attributes: seq<Attribute>, children: seq<Node>, marks: seq<InlineMark>, path: string, depth: nat)
      returns (result: seq<Inline>)
      modifies this
      ensures var r := ReadLink(attributes, children, marks, path, depth);
              result == r.value && issues == old(issues) + r.issues
      decreases children, 2
    {
      ghost var start := issues;
      CheckAttributes(attributes, {"href"}, path);
      var href := HrefOf(attributes);
      var inner := ParseInlineChildren(children, marks, path, depth + 1);
      Associates(start, AttributeIssues(attributes, {"href"}, path), ReadInlines(children, 0, marks, path, depth + 1).issues);
      if !AcceptedLink(href) {
        Report(InvalidLink, path, None);
        return inner;
      }
      return [Link(LowerScheme(href), inner)];
    }

    method ParseWrapper(attributes: seq<Attribute>, children: seq<Node>, marks: seq<InlineMark>, path: string, depth: nat)
      returns (result: seq<Inline>)
      modifies this
      ensures var r := ReadWrapper(attributes, children, marks, path, depth);
              result == r.value && issues == old(issues) + r.issues
      decreases children, 2
    {
      ghost var start := issues;
      CheckAttributes(attributes, {}, path);
      result := ParseInlineChildren(children, marks, path, depth + 1);
      Associates(start, AttributeIssues(attributes, {}, path), ReadInlines(children, 0, marks, path, depth + 1).issues);
    }

    method ParseList(ordered: bool, attributes: seq<Attribute>, children: seq<Node>, path: string, depth: nat)
      returns (list: RichBlock)
      modifies this
      ensures var r := ReadList(ordered, attributes, children, path, depth);
              list == r.value && issues == old(issues) + r.issues
      decreases children, 2
    {
      CheckAttributes(attributes, if ordered then {"start"} else {}, path);
      var start: Option<nat> := None;
      if ordered {
        var raw := GetAttribute(attributes, "start");
        if raw.Some? {
          if AcceptedStart(raw.value) {
            start := Some(Value(raw.value));
          } else {
            Report(InvalidListStart, path, None);
          }
        }
      }
      var items := ParseItems(children, path, depth);
      list := List(ordered, start, items);
    }

    method ParseItem(node: Node, path: string, depth: nat) returns (items: seq<ListItem>)
      modifies this
      ensures var r := ReadItem(node, path, depth);
              items == r.value && issues == old(issues) + r.issues
      decreases node, 1
    {
      if node.TextNode? && IsJsBlank(node.text) {
        Report(OrphanWhitespace, path, None);
        return [];
      }
      if node.Element? && node.tag.TLi? {
        CheckAttributes(node.attributes, {}, path);
        var blocks := ParseBlocks(node.children, path, depth + 1);
        return [ListItem(OrEmptyParagraph(blocks))];
      }
      Report(UnsupportedTag, path, Some(if node.Element? then LowerName(node.tag) else "text"));
      return [];
    }

    method ParseItems(children: seq<Node>, path: string, depth: nat) returns (items: seq<ListItem>)
      modifies this
      ensures var r := ReadItems(children, 0, path, depth);
              items == r.value && issues == old(issues) + r.issues
      decreases children, 1
    {
      items := [];
      for i := 0 to |children|
        invariant Split(ReadItems(children, 0, path, depth), old(issues), items, issues,
                        ReadItems(children[i..], i, path, depth))
      {
        assert children[i..][0] == children[i] && children[i..][1..] == children[i + 1..];
        SplitStep(ReadItems(children, 0, path, depth), old(issues), items, issues,
                  ReadItem(children[i], Child(path, i), depth), ReadItems(children[i + 1..], i + 1, path, depth));
        var more := ParseItem(children[i], Child(path, i), depth);
        items := items + more;
      }
    }

    method ParseDivision(attributes: seq<Attribute>, children: seq<Node>, path: string, depth: nat)
      returns (blocks: seq<RichBlock>)
      modifies this
      ensures var r := ReadDivision(attributes, children, path, depth);
              blocks == r.value && issues == old(issues) + r.issues
      decreases children, 3
    {
      ghost var start := issues;
      CheckAttributes(attributes, {}, path);
      blocks := ParseBlocks(children, path, depth + 1);
      Associates(start, AttributeIssues(attributes, {}, path), ReadBlocks(children, path, depth + 1).issues);
      blocks := OrEmptyParagraph(blocks);
    }

    /** A paragraph, division or list element; `ok` is false for inline content, which is left alone. */
    method ParseBlockElement(node: Node, path: string, depth: nat) returns (ok: bool, blocks: seq<RichBlock>)
      modifies this
      ensures var r := ReadBlock(node, path, depth);
              && ok == r.Some?
              && (ok ==> blocks == r.value.value && issues == old(issues) + r.value.issues)
              && (!ok ==> issues == old(issues))
      decreases node, 3
    {
      match node {
        case Element(TP, attributes, children) =>
          var inner := ParseWrapper(attributes, children, [], path, depth);
          return true, [Paragraph(inner)];
        case Element(TDiv, attributes, children) =>
          blocks := ParseDivision(attributes, children, path, depth);
          return true, blocks;
        case Element(TUl, attributes, children) =>
          var list := ParseList(false, attributes, children, path, depth + 1);
          return true, [list];
        case Element(TOl, attributes, children) =>
          var list := ParseList(true, attributes, children, path, depth + 1);
          return true, [list];
        case _ =>
          return false, [];
      }
    }

    method NoteOrphan(node: Node, pending: seq<Inline>, path: string)
      modifies this
      ensures issues == old(issues) + OrphanIssue(node, pending, path)
    {
      if node.TextNode? && IsJsBlank(node.text) && pending == [] {
        Report(OrphanWhitespace, path, None);
      }
    }

    method ParseBlockNode(node: Node, pending: seq<Inline>, path: string, depth: nat)
      returns (blocks: seq<RichBlock>, nextPending: seq<Inline>)
      modifies this
      ensures var r := ReadBlockNode(node, pending, path, depth);
              r.value == Gathered(blocks, nextPending) && issues == old(issues) + r.issues
      decreases node, 4
    {
      ghost var start := issues;
      NoteOrphan(node, pending, path);
      var ok, more := ParseBlockElement(node, path, depth);
      if ok {
        Associates(start, OrphanIssue(node, pending, path), ReadBlock(node, path, depth).value.issues);
        return Flushed(pending) + more, [];
      }
      var inline := ParseInlines(node, [], path, depth + 1);
      Associates(start, OrphanIssue(node, pending, path), ReadInline(node, [], path, depth + 1).issues);
      return [], pending + inline;
    }

    method ParseBlocks(children: seq<Node>, path: string, depth: nat) returns (blocks: seq<RichBlock>)
      modifies this
      ensures var r := ReadBlocks(children, path, depth);
              blocks == r.value && issues == old(issues) + r.issues
      decreases children, 2
    {
      if depth > MAX_DEPTH {
        Report(TooLarge, path, None);
        return [];
      }
      blocks := ParseBlockNodes(children, path, depth);
    }

    method ParseBlockNodes(children: seq<Node>, path: string, depth: nat) returns (blocks: seq<RichBlock>)
      modifies this
      ensures var r := ReadBlockNodes(children, 0, [], path, depth);
              blocks == r.value && issues == old(issues) + r.issues
      decreases children, 1
    {
      blocks := [];
      var pending: seq<Inline> := [];
      for i := 0 to |children|
        invariant Split(ReadBlockNodes(children, 0, [], path, depth), old(issues), blocks, issues,
                        ReadBlockNodes(children[i..], i, pending, path, depth))
      {
        assert children[i..][0] == children[i] && children[i..][1..] == children[i + 1..];
        ghost var first := ReadBlockNode(children[i], pending, Child(path, i), depth);
        SplitStep(ReadBlockNodes(children, 0, [], path, depth), old(issues), blocks, issues,
                  Read(first.value.blocks, first.issues),
                  ReadBlockNodes(children[i + 1..], i + 1, first.value.pending, path, depth));
        var more;
        more, pending := ParseBlockNode(children[i], pending, Child(path, i), depth);
        blocks := blocks + more;
      }
      blocks := blocks + Flushed(pending);
    }

    method ReadHead(nodes: seq<Node>)
      modifies this
      ensures issues == old(issues) + HeadIssues(nodes, 0)
    {
      for i := 0 to |nodes|
        invariant old(issues) + HeadIssues(nodes, 0) == issues + HeadIssues(nodes[i..], i)
      {
        assert nodes[i..][0] == nodes[i] && nodes[i..][1..] == nodes[i + 1..];
        var here := Child("head", i);
        match nodes[i] {
          case Element(tag, attributes, _) =>
            Report(UnsupportedTag, here, Some(LowerName(tag)));
            CheckAttributes(attributes, {}, here);
          case Comment =>
            Report(CommentIssue, here, None);
          case TextNode(text) =>
            if text != "" {
              Report(UnsupportedTag, here, Some("text"));
            }
          case OtherNode =>
        }
      }
    }
  }

  method ParseLegacyRichHtml(rawHtml: string, dom: Dom) returns (parsed: ParsedHtml)
    ensures parsed == ReadHtml(rawHtml, dom)
  {
    if Units(rawHtml) > MAX_HTML_LENGTH {
      return ParsedHtml(rawHtml, [], [Issue(TooLarge, "body", None)], false);
    }
    if rawHtml != "" && IsJsBlank(rawHtml) {
      return ParsedHtml(rawHtml, [Paragraph([Text(rawHtml, [])])], [Issue(OrphanWhitespace, "body", None)], false);
    }
    var reader := new RichTextReader();
    reader.ReadHead(dom.head);
    if dom.doctype {
      reader.Report(UnsupportedTag, "doctype", Some("doctype"));
    }
    var blocks := reader.ParseBlocks(dom.body, "body", 0);
    parsed := ParsedHtml(rawHtml, blocks, reader.issues, reader.issues == []);
  }
}
