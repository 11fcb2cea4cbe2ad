/** What the reader makes of a DOM tree, told by the names of its elements alone. */
module RichTextNames {
  import opened Contracts
  import opened Strings
  import opened Unicode
  import opened RichText

  // ---- Names ----

  const DISCARDED_NAMES: seq<string> := ["script", "style", "iframe", "object", "embed", "form", "meta", "link"]

  const KNOWN_NAMES: seq<string> :=
    ["b", "strong", "i", "em", "u", "s", "strike", "span", "br", "a", "p", "div", "ul", "ol", "li"]

  /** The tag stands for its name: the two open cases only hold the names that are meant for them. */
  predicate IsNamed(tag: TagName) {
    match tag
    case Discarded(name) => name in DISCARDED_NAMES
    case OtherTag(name) => name !in DISCARDED_NAMES && name !in KNOWN_NAMES
    case _ => true
  }

  predicate NodeIsNamed(node: Node)
    decreases node, 0
  {
    node.Element? ==> IsNamed(node.tag) && AreNamed(node.children)
  }

  predicate AreNamed(nodes: seq<Node>)
    decreases nodes, 1
  {
    nodes == [] || (NodeIsNamed(nodes[0]) && AreNamed(nodes[1..]))
  }

  // ---- The texts of a tree ----

  /** What inline content is made of; a text has the names of the elements around it, and all lie in links, outermost first. */
  datatype Found =
    | FoundText(text: string, names: set<string>, links: seq<string>)
    | FoundBreak(links: seq<string>)
    | FoundLink(href: string, links: seq<string>)

  predicate BeginsWith(href: string, scheme: string) {
    |scheme| <= |href| && Lower(href[..|scheme|]) == scheme
  }

  const LETTERS: string := "abcdefghijklmnopqrstuvwxyz"
  const CAPITALS: string := "ABCDEFGHIJKLMNOPQRSTUVWXYZ"

  /** A trimmed link without control characters that begins with a known scheme, in any case. */
  predicate IsLink(href: string) {
    && (href != "" ==> !IsJsWhitespace(href[0]) && !IsJsWhitespace(href[|href| - 1]))
    && (forall c :: c in href ==> '\U{20}' <= c && c != '\U{7F}')
    && (BeginsWith(href, "https://") || BeginsWith(href, "http://") || BeginsWith(href, "mailto:"))
  }

  /** The link with its scheme in lower case. */
  function LinkOf(href: string): string
    requires IsLink(href)
  {
    if BeginsWith(href, "https://") then "https://" + href[8..]
    else if BeginsWith(href, "http://") then "http://" + href[7..]
    else "mailto:" + href[7..]
  }

  predicate IsLinkElement(name: string, attributes: seq<Attribute>) {
    name == "a" && IsLink(HrefOf(attributes))
  }

  /** What inline reading finds in a node: nothing below the depth limit, nor inside a discarded element or a break. */
  function TextsIn(node: Node, names: set<string>, links: seq<string>, depth: nat): seq<Found>
    decreases node, 0
  {
    if depth > 8 then []
    else
      match node
      case TextNode(text) => if text == "" then [] else [FoundText(text, names, links)]
      case Element(tag, attributes, children) =>
        var name := LowerName(tag);
        if name == "br" then [FoundBreak(links)]
        else if name in DISCARDED_NAMES then []
        else if IsLinkElement(name, attributes) then
          var href := LinkOf(HrefOf(attributes));
          [FoundLink(href, links)] + AllTextsIn(children, names + {name}, links + [href], depth + 1)
        else AllTextsIn(children, names + {name}, links, depth + 1)
      case _ => []
  }

  function AllTextsIn(nodes: seq<Node>, names: set<string>, links: seq<string>, depth: nat): seq<Found>
    decreases nodes, 1
  {
    if nodes == [] then []
    else TextsIn(nodes[0], names, links, depth) + AllTextsIn(nodes[1..], names, links, depth)
  }

  // ---- The texts of what was read ----

  datatype Run =
    | RunText(text: string, marks: seq<InlineMark>, links: seq<string>)
    | RunBreak(links: seq<string>)
    | RunLink(href: string, links: seq<string>)

  function RunsOf(x: Inline, links: seq<string>): seq<Run>
    decreases x, 0
  {
    match x
    case Text(text, marks) => [RunText(text, marks, links)]
    case Break => [RunBreak(links)]
    case Link(href, children) => [RunLink(href, links)] + AllRunsOf(children, links + [href])
  }

  function AllRunsOf(xs: seq<Inline>, links: seq<string>): seq<Run>
    decreases xs, 1
  {
    if xs == [] then [] else RunsOf(xs[0], links) + AllRunsOf(xs[1..], links)
  }

  function Rank(mark: InlineMark): nat {
    match mark
    case Bold => 0
    case Italic => 1
    case Underline => 2
    case Strike => 3
  }

  predicate IsOrdered(marks: seq<InlineMark>) {
    forall i, j :: 0 <= i < j < |marks| ==> Rank(marks[i]) < Rank(marks[j])
  }

  /** The marks, in their order, are those that the names call for. */
  predicate IsMarkedBy(marks: seq<InlineMark>, names: set<string>) {
    && IsOrdered(marks)
    && (Bold in marks <==> "b" in names || "strong" in names)
    && (Italic in marks <==> "i" in names || "em" in names)
    && (Underline in marks <==> "u" in names)
    && (Strike in marks <==> "s" in names || "strike" in names)
  }

  predicate IsReadAs(found: Found, run: Run) {
    match found
    case FoundText(text, names, links) =>
      run.RunText? && run.text == text && run.links == links && IsMarkedBy(run.marks, names)
    case FoundBreak(links) => run == RunBreak(links)
    case FoundLink(href, links) => run == RunLink(href, links)
  }

  predicate AreReadAs(found: seq<Found>, runs: seq<Run>) {
    |found| == |runs| && forall k :: 0 <= k < |found| ==> IsReadAs(found[k], runs[k])
  }

  // ---- Marks by name ----

  lemma MarkByName(tag: TagName)
    requires IsNamed(tag)
    ensures var name, mark := LowerName(tag), MarkOf(tag);
            && (mark == Some(Bold) <==> name == "b" || name == "strong")
            && (mark == Some(Italic) <==> name == "i" || name == "em")
            && (mark == Some(Underline) <==> name == "u")
            && (mark == Some(Strike) <==> name == "s" || name == "strike")
  {
  }

  lemma KindByName(tag: TagName)
    requires IsNamed(tag)
    ensures tag.TBr? <==> LowerName(tag) == "br"
    ensures tag.TA? <==> LowerName(tag) == "a"
    ensures tag.Discarded? <==> LowerName(tag) in DISCARDED_NAMES
  {
  }

  lemma InOrderIsOrdered(marks: set<InlineMark>)
    ensures IsOrdered(InOrder(marks))
  {
  }

  lemma InOrderHasAll(marks: set<InlineMark>, mark: InlineMark)
    ensures mark in InOrder(marks) <==> mark in marks
  {
    match mark
    case Bold =>
    case Italic =>
    case Underline =>
    case Strike =>
  }

  lemma AddMarkAdds(marks: seq<InlineMark>, added: InlineMark, mark: InlineMark)
    ensures mark in AddMark(marks, added) <==> mark in marks || mark == added
  {
    InOrderHasAll(MarkSet(marks) + {added}, mark);
  }

  /** Going into an element with marks adds its name's mark, if it has one. */
  lemma MarksByName(tag: TagName, marks: seq<InlineMark>, names: set<string>)
    requires IsNamed(tag) && IsMarkedBy(marks, names)
    ensures IsMarkedBy(NextMarks(tag, marks), names + {LowerName(tag)})
  {
    MarkByName(tag);
    if MarkOf(tag).Some? {
      var added := MarkOf(tag).value;
      InOrderIsOrdered(MarkSet(marks) + {added});
      AddMarkAdds(marks, added, Bold);
      AddMarkAdds(marks, added, Italic);
      AddMarkAdds(marks, added, Underline);
      AddMarkAdds(marks, added, Strike);
    }
  }

  // ---- Links by scheme ----

  /** Capitals become their letters, and nothing else changes. */
  lemma LowerByLetter(c: char)
    ensures (exists i :: 0 <= i < 26 && c == CAPITALS[i] && LowerChar(c) == LETTERS[i]) || (c !in CAPITALS && LowerChar(c) == c)
  {
    if 'A' <= c <= 'Z' {
      var i := c as int - 'A' as int;
      assert CAPITALS[i] == c && LETTERS[i] == LowerChar(c);
    }
  }

  lemma BeginsWithMore(href: string, scheme: string, more: string)
    ensures BeginsWith(href, scheme + more) <==> BeginsWith(href, scheme) && BeginsWith(href[|scheme|..], more)
  {
    if |scheme + more| <= |href| {
      var front, behind := href[..|scheme|], href[|scheme|..][..|more|];
      assert href[..|scheme + more|] == front + behind;
      assert Lower(front + behind) == Lower(front) + Lower(behind);
    }
  }

  lemma SlashesStay(s: string)
    ensures BeginsWith(s, "//") <==> "//" <= s
  {
    if |s| >= 2 {
      assert s[..2] == [s[0], s[1]] && Lower(s[..2]) == [LowerChar(s[0]), LowerChar(s[1])];
    }
  }

  lemma SchemesDiffer(href: string)
    ensures !(BeginsWith(href, "https:") && BeginsWith(href, "http:"))
    ensures !(BeginsWith(href, "https:") && BeginsWith(href, "mailto:"))
    ensures !(BeginsWith(href, "http:") && BeginsWith(href, "mailto:"))
  {
    if |href| >= 5 {
      assert Lower(href[..5])[4] == LowerChar(href[4]) && Lower(href[..5])[0] == LowerChar(href[0]);
    }
    if |href| >= 6 {
      assert Lower(href[..6])[4] == LowerChar(href[4]) && Lower(href[..6])[0] == LowerChar(href[0]);
    }
    if |href| >= 7 {
      assert Lower(href[..7])[0] == LowerChar(href[0]);
    }
  }

  lemma LinkByScheme(href: string)
    ensures AcceptedLink(href) <==> IsLink(href)
    ensures IsLink(href) ==> LowerScheme(href) == LinkOf(href)
  {
    SchemesDiffer(href);
    WebScheme(href, "https:");
    WebScheme(href, "http:");
    assert "https:" + "//" == "https://" && "http:" + "//" == "http://";
    if BeginsWith(href, "https:") {
      LowerHttps(href);
    } else if BeginsWith(href, "http:") {
      LowerHttp(href);
    } else if BeginsWith(href, "mailto:") {
      LowerMail(href);
    } else {
      NoScheme(href);
    }
  }

  lemma WebScheme(href: string, scheme: string)
    ensures BeginsWith(href, scheme + "//") <==> BeginsWith(href, scheme) && "//" <= href[|scheme|..]
  {
    BeginsWithMore(href, scheme, "//");
    if |scheme| <= |href| {
      SlashesStay(href[|scheme|..]);
    }
  }
  /** The scheme in lower case, and the rest. */
  lemma LowerWeb(scheme: string, rest: string)
    requires scheme == "https:" || scheme == "http:"
    ensures HasScheme(scheme + rest) <==> "//" <= rest
  {
    var all, web := scheme + rest, scheme + "//";
    assert all[0] == 'h' && all[4] == scheme[4] && web == (if scheme == "https:" then "https://" else "http://");
    assert "https://"[4] == 's' && "http://"[4] == ':' && "mailto:"[0] == 'm';
    if "//" <= rest {
      assert all[..|web|] == scheme + rest[..2];
    }
    if web <= all {
      assert rest[..2] == all[|scheme|..|web|] == web[|scheme|..];
    }
  }

  lemma SlashesMove(scheme: string, rest: string)
    requires "//" <= rest
    ensures scheme + rest == scheme + "//" + rest[2..]
  {
    assert rest == "//" + rest[2..];
  }

  lemma LowerHttps(href: string)
    requires BeginsWith(href, "https:")
    ensures HasScheme(LowerScheme(href)) <==> "//" <= href[6..]
    ensures "//" <= href[6..] ==> LowerScheme(href) == "https://" + href[8..]
  {
    LowerWeb("https:", href[6..]);
    if "//" <= href[6..] {
      SlashesMove("https:", href[6..]);
    }
    assert "https:" + "//" == "https://";
  }

  lemma LowerHttp(href: string)
    requires BeginsWith(href, "http:") && !BeginsWith(href, "https:")
    ensures HasScheme(LowerScheme(href)) <==> "//" <= href[5..]
    ensures "//" <= href[5..] ==> LowerScheme(href) == "http://" + href[7..]
  {
    LowerWeb("http:", href[5..]);
    if "//" <= href[5..] {
      SlashesMove("http:", href[5..]);
    }
    assert "http:" + "//" == "http://";
  }

  lemma LowerMail(href: string)
    requires BeginsWith(href, "mailto:") && !BeginsWith(href, "http:") && !BeginsWith(href, "https:")
    ensures LowerScheme(href) == "mailto:" + href[7..] && HasScheme(LowerScheme(href))
  {
  }

  lemma NoScheme(href: string)
    requires !BeginsWith(href, "mailto:") && !BeginsWith(href, "http:") && !BeginsWith(href, "https:")
    ensures !HasScheme(LowerScheme(href))
  {
    LowerBegins(href, "https:");
    LowerBegins(href, "http:");
    LowerBegins(href, "mailto:");
    assert "https://"[..6] == "https:" && "http://"[..5] == "http:";
  }

  lemma LowerBegins(href: string, scheme: string)
    requires forall i :: 0 <= i < |scheme| ==> LowerChar(scheme[i]) == scheme[i]
    ensures scheme <= href ==> BeginsWith(href, scheme)
  {
  }

  // ---- Inline reading ----

  lemma RunsJoin(a: seq<Inline>, b: seq<Inline>, links: seq<string>)
    ensures AllRunsOf(a + b, links) == AllRunsOf(a, links) + AllRunsOf(b, links)
  {
    if a == [] {
      assert a + b == b;
    } else {
      assert (a + b)[0] == a[0] && (a + b)[1..] == a[1..] + b;
      RunsJoin(a[1..], b, links);
    }
  }

  lemma ReadAsJoin(f: seq<Found>, g: seq<Found>, r: seq<Run>, s: seq<Run>)
    requires AreReadAs(f, r) && AreReadAs(g, s)
    ensures AreReadAs(f + g, r + s)
  {
  }

  lemma {:induction false} NodeIsRead(node: Node, marks: seq<InlineMark>, names: set<string>, links: seq<string>,
                                      path: string, depth: nat)
    requires NodeIsNamed(node) && IsMarkedBy(marks, names)
    ensures AreReadAs(TextsIn(node, names, links, depth), AllRunsOf(ReadInline(node, marks, path, depth).value, links))
    decreases node, 0
  {
    if depth <= MAX_DEPTH && node.Element? {
      KindByName(node.tag);
      if node.tag.TA? {
        LinkIsRead(node, marks, names, links, path, depth);
      } else if !node.tag.Discarded? && !node.tag.TBr? {
        WrapperIsRead(node, marks, names, links, path, depth);
      }
    }
  }

  lemma {:induction false} WrapperIsRead(node: Node, marks: seq<InlineMark>, names: set<string>, links: seq<string>,
                                         path: string, depth: nat)
    requires NodeIsNamed(node) && IsMarkedBy(marks, names) && depth <= MAX_DEPTH
    requires node.Element? && !node.tag.Discarded? && !node.tag.TBr? && !node.tag.TA?
    ensures AreReadAs(TextsIn(node, names, links, depth), AllRunsOf(ReadInline(node, marks, path, depth).value, links))
    decreases node.children, 2
  {
    KindByName(node.tag);
    MarksByName(node.tag, marks, names);
    ReadOfWrapper(node, marks, path, depth);
    NodesAreRead(node.children, 0, NextMarks(node.tag, marks), names + {LowerName(node.tag)}, links, path, depth + 1);
  }

  lemma ReadOfWrapper(node: Node, marks: seq<InlineMark>, path: string, depth: nat)
    requires depth <= MAX_DEPTH && node.Element? && !node.tag.Discarded? && !node.tag.TBr? && !node.tag.TA?
    ensures ReadInline(node, marks, path, depth).value
            == ReadInlines(node.children, 0, NextMarks(node.tag, marks), path, depth + 1).value
  {
  }

  lemma {:induction false} LinkIsRead(node: Node, marks: seq<InlineMark>, names: set<string>, links: seq<string>,
                                      path: string, depth: nat)
    requires NodeIsNamed(node) && IsMarkedBy(marks, names) && node.Element? && node.tag.TA? && depth <= MAX_DEPTH
    ensures AreReadAs(TextsIn(node, names, links, depth), AllRunsOf(ReadInline(node, marks, path, depth).value, links))
    decreases node.children, 2
  {
    var href := HrefOf(node.attributes);
    TextsInLink(node, names, links, depth);
    LinkIsUnmarked(marks, names);
    ReadOfLink(node, marks, path, depth);
    if IsLink(href) {
      var all := links + [LinkOf(href)];
      NodesAreRead(node.children, 0, marks, names + {"a"}, all, path, depth + 1);
      OneLink(AllTextsIn(node.children, names + {"a"}, all, depth + 1), LinkOf(href),
              ReadInlines(node.children, 0, marks, path, depth + 1).value, links);
    } else {
      NodesAreRead(node.children, 0, marks, names + {"a"}, links, path, depth + 1);
    }
  }

  lemma ReadOfLink(node: Node, marks: seq<InlineMark>, path: string, depth: nat)
    requires node.Element? && node.tag.TA? && depth <= MAX_DEPTH
    ensures var href, inner := HrefOf(node.attributes), ReadInlines(node.children, 0, marks, path, depth + 1).value;
            ReadInline(node, marks, path, depth).value == if IsLink(href) then [Link(LinkOf(href), inner)] else inner
  {
    LinkByScheme(HrefOf(node.attributes));
  }

  lemma TextsInLink(node: Node, names: set<string>, links: seq<string>, depth: nat)
    requires node.Element? && node.tag.TA? && depth <= MAX_DEPTH
    ensures var href := HrefOf(node.attributes);
            TextsIn(node, names, links, depth) ==
            if IsLink(href)
            then [FoundLink(LinkOf(href), links)] + AllTextsIn(node.children, names + {"a"}, links + [LinkOf(href)], depth + 1)
            else AllTextsIn(node.children, names + {"a"}, links, depth + 1)
  {
    KindByName(node.tag);
  }

  lemma LinkIsUnmarked(marks: seq<InlineMark>, names: set<string>)
    requires IsMarkedBy(marks, names)
    ensures IsMarkedBy(marks, names + {"a"})
  {
    MarksByName(TA, marks, names);
  }

  lemma OneLink(found: seq<Found>, href: string, inner: seq<Inline>, links: seq<string>)
    requires AreReadAs(found, AllRunsOf(inner, links + [href]))
    ensures AreReadAs([FoundLink(href, links)] + found, AllRunsOf([Link(href, inner)], links))
  {
    assert [Link(href, inner)][1..] == [];
    ReadAsJoin([FoundLink(href, links)], found, [RunLink(href, links)], AllRunsOf(inner, links + [href]));
  }

  /** Every text within the depth limit is read, once and in order, with the marks its names call for and inside its links. */
  lemma {:induction false} NodesAreRead(nodes: seq<Node>, i: nat, marks: seq<InlineMark>, names: set<string>,
                                        links: seq<string>, path: string, depth: nat)
    requires AreNamed(nodes) && IsMarkedBy(marks, names)
    ensures AreReadAs(AllTextsIn(nodes, names, links, depth), AllRunsOf(ReadInlines(nodes, i, marks, path, depth).value, links))
    decreases nodes, 1
  {
    if nodes != [] {
      var first := ReadInline(nodes[0], marks, Child(path, i), depth).value;
      var rest := ReadInlines(nodes[1..], i + 1, marks, path, depth).value;
      NodeIsRead(nodes[0], marks, names, links, Child(path, i), depth);
      NodesAreRead(nodes[1..], i + 1, marks, names, links, path, depth);
      RunsJoin(first, rest, links);
      ReadAsJoin(TextsIn(nodes[0], names, links, depth), AllTextsIn(nodes[1..], names, links, depth),
                 AllRunsOf(first, links), AllRunsOf(rest, links));
    }
  }

  // ---- The blocks of a tree ----

  datatype FoundBlock =
    | FoundParagraph(content: seq<Found>)
    | FoundList(ordered: bool, start: Option<nat>, items: seq<FoundItem>)

  datatype FoundItem = FoundItem(blocks: seq<FoundBlock>)

  predicate IsBlockName(name: string) {
    name == "p" || name == "div" || name == "ul" || name == "ol"
  }

  predicate IsLoose(node: Node) {
    node.Element? ==> !IsBlockName(LowerName(node.tag))
  }

  /** How many nodes come before the first block element. */
  function LooseCount(nodes: seq<Node>): (n: nat)
    ensures n <= |nodes|
  {
    if nodes == [] || !IsLoose(nodes[0]) then 0 else 1 + LooseCount(nodes[1..])
  }

  function ParagraphOf(content: seq<Found>): seq<FoundBlock> {
    if content == [] then [] else [FoundParagraph(content)]
  }

  /** An ordered list starts at its start attribute when that is a number that fits 32 bits. */
  function StartOf(name: string, attributes: seq<Attribute>): Option<nat> {
    match GetAttribute(attributes, "start")
    case Some(raw) => if name == "ol" && raw != "" && (forall c :: c in raw ==> '0' <= c <= '9') && Value(raw) < 0x1_0000_0000 then Some(Value(raw)) else None
    case None => None
  }

  function OrEmpty(blocks: seq<FoundBlock>): seq<FoundBlock> {
    if blocks == [] then [FoundParagraph([])] else blocks
  }

  /** The blocks among the nodes: each stretch of loose nodes is a paragraph if anything is found in it. */
  function BlocksIn(nodes: seq<Node>, depth: nat): seq<FoundBlock>
    decreases nodes, 2
  {
    if depth > 8 || nodes == [] then []
    else
      var n := LooseCount(nodes);
      if n > 0 then ParagraphOf(AllTextsIn(nodes[..n], {}, [], depth + 1)) + BlocksIn(nodes[n..], depth)
      else BlockIn(nodes[0], depth) + BlocksIn(nodes[1..], depth)
  }

  /** A paragraph element is one paragraph, a division its blocks or an empty paragraph, a list element one list. */
  function BlockIn(node: Node, depth: nat): seq<FoundBlock>
    requires !IsLoose(node)
    decreases node, 3
  {
    var name := LowerName(node.tag);
    if name == "p" then [FoundParagraph(AllTextsIn(node.children, {}, [], depth + 1))]
    else if name == "div" then OrEmpty(BlocksIn(node.children, depth + 1))
    else [FoundList(name == "ol", StartOf(name, node.attributes), ItemsIn(node.children, depth + 1))]
  }

  /** The items of a list are its item elements; nothing else in it counts. */
  function ItemsIn(nodes: seq<Node>, depth: nat): seq<FoundItem>
    decreases nodes, 2
  {
    if nodes == [] then []
    else
      (if nodes[0].Element? && LowerName(nodes[0].tag) == "li"
       then [FoundItem(OrEmpty(BlocksIn(nodes[0].children, depth + 1)))]
       else [])
      + ItemsIn(nodes[1..], depth)
  }

  // ---- The blocks of what was read ----

  predicate BlockIsReadAs(found: FoundBlock, block: RichBlock)
    decreases found, 0
  {
    match found
    case FoundParagraph(content) => block.Paragraph? && AreReadAs(content, AllRunsOf(block.inlines, []))
    case FoundList(ordered, start, items) =>
      block.List? && block.ordered == ordered && block.start == start && ItemsAreReadAs(items, block.items)
  }

  predicate ItemsAreReadAs(found: seq<FoundItem>, items: seq<ListItem>)
    decreases found, 1
  {
    |found| == |items| && forall k :: 0 <= k < |found| ==> BlocksAreReadAs(found[k].blocks, items[k].blocks)
  }

  predicate BlocksAreReadAs(found: seq<FoundBlock>, blocks: seq<RichBlock>)
    decreases found, 1
  {
    |found| == |blocks| && forall k :: 0 <= k < |found| ==> BlockIsReadAs(found[k], blocks[k])
  }

  // ---- Block reading ----

  lemma BlockByName(tag: TagName)
    requires IsNamed(tag)
    ensures tag.TP? <==> LowerName(tag) == "p"
    ensures tag.TDiv? <==> LowerName(tag) == "div"
    ensures tag.TUl? <==> LowerName(tag) == "ul"
    ensures tag.TOl? <==> LowerName(tag) == "ol"
    ensures tag.TLi? <==> LowerName(tag) == "li"
  {
  }

  lemma BlocksJoin(f: seq<FoundBlock>, g: seq<FoundBlock>, a: seq<RichBlock>, b: seq<RichBlock>)
    requires BlocksAreReadAs(f, a) && BlocksAreReadAs(g, b)
    ensures BlocksAreReadAs(f + g, a + b)
  {
  }

  lemma ItemsJoin(f: seq<FoundItem>, g: seq<FoundItem>, a: seq<ListItem>, b: seq<ListItem>)
    requires ItemsAreReadAs(f, a) && ItemsAreReadAs(g, b)
    ensures ItemsAreReadAs(f + g, a + b)
  {
  }

  lemma OneBlock(found: FoundBlock, block: RichBlock)
    requires BlockIsReadAs(found, block)
    ensures BlocksAreReadAs([found], [block])
  {
  }

  lemma OneItem(found: seq<FoundBlock>, blocks: seq<RichBlock>)
    requires BlocksAreReadAs(found, blocks)
    ensures ItemsAreReadAs([FoundItem(OrEmpty(found))], [ListItem(OrEmptyParagraph(blocks))])
  {
    OrEmptyIsRead(found, blocks);
  }

  lemma OrEmptyIsRead(found: seq<FoundBlock>, blocks: seq<RichBlock>)
    requires BlocksAreReadAs(found, blocks)
    ensures BlocksAreReadAs(OrEmpty(found), OrEmptyParagraph(blocks))
  {
    if found == [] {
      OneBlock(FoundParagraph([]), Paragraph([]));
    }
  }

  /** Something was read exactly when something was found. */
  lemma FoundMeansRead(found: seq<Found>, inlines: seq<Inline>)
    requires AreReadAs(found, AllRunsOf(inlines, []))
    ensures found == [] <==> inlines == []
  {
    if inlines != [] {
      assert RunsOf(inlines[0], []) != [];
    }
  }

  lemma ParagraphIsRead(content: seq<Found>, pending: seq<Inline>)
    requires AreReadAs(content, AllRunsOf(pending, []))
    ensures BlocksAreReadAs(ParagraphOf(content), Flushed(pending))
  {
    FoundMeansRead(content, pending);
    if content != [] {
      OneBlock(FoundParagraph(content), Paragraph(pending));
    }
  }

  lemma StartIsRead(tag: TagName, attributes: seq<Attribute>, path: string)
    requires tag.TUl? || tag.TOl?
    ensures ReadStart(attributes, tag.TOl?, path).value == StartOf(LowerName(tag), attributes)
  {
  }

  /** The blocks when some content comes before the nodes. */
  function BlocksAfter(content: seq<Found>, nodes: seq<Node>, depth: nat): seq<FoundBlock> {
    var n := LooseCount(nodes);
    ParagraphOf(content + AllTextsIn(nodes[..n], {}, [], depth + 1)) + BlocksIn(nodes[n..], depth)
  }

  lemma NothingBefore(nodes: seq<Node>, depth: nat)
    requires depth <= 8
    ensures BlocksAfter([], nodes, depth) == BlocksIn(nodes, depth)
  {
    var n := LooseCount(nodes);
    assert [] + AllTextsIn(nodes[..n], {}, [], depth + 1) == AllTextsIn(nodes[..n], {}, [], depth + 1);
    if n == 0 {
      assert nodes[..0] == [] && nodes[0..] == nodes;
    }
  }

  lemma LooseBefore(content: seq<Found>, nodes: seq<Node>, depth: nat)
    requires nodes != [] && IsLoose(nodes[0])
    ensures BlocksAfter(content, nodes, depth) == BlocksAfter(content + TextsIn(nodes[0], {}, [], depth + 1), nodes[1..], depth)
  {
    var n := LooseCount(nodes);
    var first, rest := TextsIn(nodes[0], {}, [], depth + 1), AllTextsIn(nodes[1..][..n - 1], {}, [], depth + 1);
    assert nodes[..n][0] == nodes[0] && nodes[..n][1..] == nodes[1..][..n - 1] && nodes[n..] == nodes[1..][n - 1..];
    assert content + (first + rest) == (content + first) + rest;
  }

  lemma BlockBefore(content: seq<Found>, nodes: seq<Node>, depth: nat)
    requires nodes != [] && !IsLoose(nodes[0]) && depth <= 8
    ensures BlocksAfter(content, nodes, depth)
            == ParagraphOf(content) + BlockIn(nodes[0], depth) + BlocksIn(nodes[1..], depth)
  {
    assert nodes[..0] == [] && nodes[0..] == nodes && content + [] == content;
    BlocksFrom(nodes, depth);
    Associates(ParagraphOf(content), BlockIn(nodes[0], depth), BlocksIn(nodes[1..], depth));
  }

  lemma BlocksFrom(nodes: seq<Node>, depth: nat)
    requires nodes != [] && !IsLoose(nodes[0]) && depth <= 8
    ensures LooseCount(nodes) == 0 && BlocksIn(nodes, depth) == BlockIn(nodes[0], depth) + BlocksIn(nodes[1..], depth)
  {
  }

  /** The nodes are read as their blocks, after whatever is pending. */
  lemma {:induction false} BlockNodesAreRead(nodes: seq<Node>, i: nat, content: seq<Found>, pending: seq<Inline>,
                                             path: string, depth: nat)
    requires AreNamed(nodes) && AreReadAs(content, AllRunsOf(pending, [])) && depth <= MAX_DEPTH
    ensures BlocksAreReadAs(BlocksAfter(content, nodes, depth), ReadBlockNodes(nodes, i, pending, path, depth).value)
    decreases nodes, 1
  {
    if nodes == [] {
      ParagraphIsRead(content, pending);
      assert content + [] == content && ParagraphOf(content) + [] == ParagraphOf(content);
    } else if IsLoose(nodes[0]) {
      LooseIsRead(nodes, i, content, pending, path, depth);
    } else {
      ElementIsRead(nodes, i, content, pending, path, depth);
    }
  }

  lemma {:induction false} LooseIsRead(nodes: seq<Node>, i: nat, content: seq<Found>, pending: seq<Inline>,
                                       path: string, depth: nat)
    requires AreNamed(nodes) && AreReadAs(content, AllRunsOf(pending, [])) && depth <= MAX_DEPTH
    requires nodes != [] && IsLoose(nodes[0])
    ensures BlocksAreReadAs(BlocksAfter(content, nodes, depth), ReadBlockNodes(nodes, i, pending, path, depth).value)
    decreases nodes, 0
  {
    var here := Child(path, i);
    var inline := ReadInline(nodes[0], [], here, depth + 1).value;
    var found := TextsIn(nodes[0], {}, [], depth + 1);
    NodeIsRead(nodes[0], [], {}, [], here, depth + 1);
    RunsJoin(pending, inline, []);
    ReadAsJoin(content, found, AllRunsOf(pending, []), AllRunsOf(inline, []));
    BlockNodesAreRead(nodes[1..], i + 1, content + found, pending + inline, path, depth);
    LooseBefore(content, nodes, depth);
    ReadOfLoose(nodes, i, pending, path, depth);
  }

  lemma ReadOfLoose(nodes: seq<Node>, i: nat, pending: seq<Inline>, path: string, depth: nat)
    requires nodes != [] && NodeIsNamed(nodes[0]) && IsLoose(nodes[0])
    ensures var inline := ReadInline(nodes[0], [], Child(path, i), depth + 1).value;
            ReadBlockNodes(nodes, i, pending, path, depth).value
            == ReadBlockNodes(nodes[1..], i + 1, pending + inline, path, depth).value
  {
    if nodes[0].Element? {
      BlockByName(nodes[0].tag);
    }
    assert ReadBlock(nodes[0], Child(path, i), depth).None?;
  }

  lemma {:induction false} ElementIsRead(nodes: seq<Node>, i: nat, content: seq<Found>, pending: seq<Inline>,
                                         path: string, depth: nat)
    requires AreNamed(nodes) && AreReadAs(content, AllRunsOf(pending, [])) && depth <= MAX_DEPTH
    requires nodes != [] && !IsLoose(nodes[0])
    ensures BlocksAreReadAs(BlocksAfter(content, nodes, depth), ReadBlockNodes(nodes, i, pending, path, depth).value)
    decreases nodes, 0
  {
    ParagraphIsRead(content, pending);
    BlockIsRead(nodes[0], Child(path, i), depth);
    var block := ReadBlock(nodes[0], Child(path, i), depth).value.value;
    var rest := ReadBlockNodes(nodes[1..], i + 1, [], path, depth).value;
    BlocksJoin(ParagraphOf(content), BlockIn(nodes[0], depth), Flushed(pending), block);
    BlockNodesAreRead(nodes[1..], i + 1, [], [], path, depth);
    NothingBefore(nodes[1..], depth);
    BlocksJoin(ParagraphOf(content) + BlockIn(nodes[0], depth), BlocksIn(nodes[1..], depth), Flushed(pending) + block, rest);
    BlockBefore(content, nodes, depth);
    ReadOfBlock(nodes, i, pending, path, depth);
  }

  lemma ReadOfBlock(nodes: seq<Node>, i: nat, pending: seq<Inline>, path: string, depth: nat)
    requires nodes != [] && ReadBlock(nodes[0], Child(path, i), depth).Some?
    ensures ReadBlockNodes(nodes, i, pending, path, depth).value
            == Flushed(pending) + ReadBlock(nodes[0], Child(path, i), depth).value.value
               + ReadBlockNodes(nodes[1..], i + 1, [], path, depth).value
  {
  }

  lemma {:induction false} BlocksAreRead(nodes: seq<Node>, path: string, depth: nat)
    requires AreNamed(nodes)
    ensures BlocksAreReadAs(BlocksIn(nodes, depth), ReadBlocks(nodes, path, depth).value)
    decreases nodes, 2
  {
    if depth <= MAX_DEPTH {
      BlockNodesAreRead(nodes, 0, [], [], path, depth);
      NothingBefore(nodes, depth);
    }
  }

  lemma {:induction false} BlockIsRead(node: Node, path: string, depth: nat)
    requires NodeIsNamed(node) && !IsLoose(node)
    ensures ReadBlock(node, path, depth).Some?
    ensures BlocksAreReadAs(BlockIn(node, depth), ReadBlock(node, path, depth).value.value)
    decreases node, 3
  {
    BlockByName(node.tag);
    if node.tag.TP? {
      NodesAreRead(node.children, 0, [], {}, [], path, depth + 1);
      OneBlock(FoundParagraph(AllTextsIn(node.children, {}, [], depth + 1)),
               Paragraph(ReadInlines(node.children, 0, [], path, depth + 1).value));
    } else if node.tag.TDiv? {
      BlocksAreRead(node.children, path, depth + 1);
      OrEmptyIsRead(BlocksIn(node.children, depth + 1), ReadBlocks(node.children, path, depth + 1).value);
    } else {
      StartIsRead(node.tag, node.attributes, path);
      ItemsAreRead(node.children, 0, path, depth + 1);
      OneBlock(BlockIn(node, depth)[0], ReadList(node.tag.TOl?, node.attributes, node.children, path, depth + 1).value);
    }
  }

  lemma {:induction false} ItemsAreRead(nodes: seq<Node>, i: nat, path: string, depth: nat)
    requires AreNamed(nodes)
    ensures ItemsAreReadAs(ItemsIn(nodes, depth), ReadItems(nodes, i, path, depth).value)
    decreases nodes, 1
  {
    if nodes != [] {
      var here := Child(path, i);
      ItemsAreRead(nodes[1..], i + 1, path, depth);
      if nodes[0].Element? {
        BlockByName(nodes[0].tag);
      }
      if nodes[0].Element? && nodes[0].tag.TLi? {
        var found, blocks := BlocksIn(nodes[0].children, depth + 1), ReadBlocks(nodes[0].children, here, depth + 1).value;
        BlocksAreRead(nodes[0].children, here, depth + 1);
        OneItem(found, blocks);
        ItemsJoin([FoundItem(OrEmpty(found))], ItemsIn(nodes[1..], depth), [ListItem(OrEmptyParagraph(blocks))],
                  ReadItems(nodes[1..], i + 1, path, depth).value);
      }
    }
  }

  /**
   * A text that is not blank and not too long is read as the blocks of its tree: every paragraph, list and item, and in
   * them every text, break and link in order, with the marks that the names of the elements around it call for.
   */
  lemma HtmlIsReadByName(rawHtml: string, dom: Dom)
    requires AreNamed(dom.body)
    requires Units(rawHtml) <= 1_000_000 && (rawHtml == "" || !IsJsBlank(rawHtml))
    ensures BlocksAreReadAs(BlocksIn(dom.body, 0), ReadHtml(rawHtml, dom).blocks)
  {
    BlocksAreRead(dom.body, "body", 0);
  }
}
