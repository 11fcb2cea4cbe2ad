/** When a text is read completely, told by element names; and that the reader does not tell aliases of an element apart. */
module RichTextComplete {
  import opened Contracts
  import opened Strings
  import opened Unicode
  import opened RichText
  import opened RichTextNames

  // ---- What is read without an issue ----

  const INLINE_NAMES: seq<string> := ["b", "strong", "i", "em", "u", "s", "strike", "span"]

  predicate OnlyHas(attributes: seq<Attribute>, allowed: set<string>) {
    forall a :: a in attributes ==> Lower(a.name) in allowed
  }

  /** Inline content within the depth limit: texts, and elements of the known names with the attributes they may have. */
  predicate InlineFits(node: Node, depth: nat)
    decreases node, 0
  {
    depth <= 8 &&
    match node
    case TextNode(_) => true
    case OtherNode => true
    case Comment => false
    case Element(tag, attributes, children) =>
      var name := LowerName(tag);
      if name == "br" then OnlyHas(attributes, {})
      else if name == "a" then
        OnlyHas(attributes, {"href"}) && IsLink(HrefOf(attributes)) && InlinesFit(children, depth + 1)
      else name in INLINE_NAMES && OnlyHas(attributes, {}) && InlinesFit(children, depth + 1)
  }

  predicate InlinesFit(nodes: seq<Node>, depth: nat)
    decreases nodes, 1
  {
    nodes == [] || (InlineFits(nodes[0], depth) && InlinesFit(nodes[1..], depth))
  }

  predicate IsBlankText(node: Node) {
    node.TextNode? && IsJsBlank(node.text)
  }

  /** Content among blocks; a blank text needs something found in front of it since the last block element. */
  predicate NodesFit(nodes: seq<Node>, started: bool, depth: nat)
    decreases nodes, 2
  {
    nodes == [] ||
    if IsLoose(nodes[0]) then
      && InlineFits(nodes[0], depth + 1) && (started || !IsBlankText(nodes[0]))
      && NodesFit(nodes[1..], started || TextsIn(nodes[0], {}, [], depth + 1) != [], depth)
    else BlockFits(nodes[0], depth) && NodesFit(nodes[1..], false, depth)
  }

  predicate StartFits(attributes: seq<Attribute>) {
    GetAttribute(attributes, "start").Some? ==> StartOf("ol", attributes).Some?
  }

  predicate BlockFits(node: Node, depth: nat)
    requires !IsLoose(node)
    decreases node, 3
  {
    var name := LowerName(node.tag);
    if name == "p" then OnlyHas(node.attributes, {}) && InlinesFit(node.children, depth + 1)
    else if name == "div" then OnlyHas(node.attributes, {}) && depth < 8 && NodesFit(node.children, false, depth + 1)
    else if name == "ul" then OnlyHas(node.attributes, {}) && ItemsFit(node.children, depth + 1)
    else OnlyHas(node.attributes, {"start"}) && StartFits(node.attributes) && ItemsFit(node.children, depth + 1)
  }

  /** A list has nothing but items. */
  predicate ItemsFit(nodes: seq<Node>, depth: nat)
    decreases nodes, 2
  {
    nodes == [] || (ItemFits(nodes[0], depth) && ItemsFit(nodes[1..], depth))
  }

  predicate ItemFits(node: Node, depth: nat)
    decreases node, 3
  {
    && node.Element? && LowerName(node.tag) == "li" && OnlyHas(node.attributes, {})
    && depth < 8 && NodesFit(node.children, false, depth + 1)
  }

  /** Nothing in the head that would be lost. */
  predicate HeadFits(nodes: seq<Node>) {
    forall node :: node in nodes ==> IsNothing(node)
  }

  predicate IsNothing(node: Node) {
    node.OtherNode? || (node.TextNode? && node.text == "")
  }

  // ---- Attributes and links ----

  lemma {:induction false} NoAttributeIssues(attributes: seq<Attribute>, allowed: set<string>, path: string)
    ensures AttributeIssues(attributes, allowed, path) == [] <==> OnlyHas(attributes, allowed)
  {
    if attributes != [] {
      NoAttributeIssues(attributes[1..], allowed, path);
      assert forall a :: a in attributes <==> a == attributes[0] || a in attributes[1..];
    }
  }

  /** Each attribute that is not allowed is reported under its name, and nothing else is. */
  lemma {:induction false} ReportedAttributes(attributes: seq<Attribute>, allowed: set<string>, path: string, issue: Issue)
    ensures issue in AttributeIssues(attributes, allowed, path) <==>
            exists a :: a in attributes && Lower(a.name) !in allowed && issue == Issue(UnsupportedAttribute, path, Some(a.name))
  {
    if attributes != [] {
      ReportedAttributes(attributes[1..], allowed, path, issue);
      assert forall a :: a in attributes <==> a == attributes[0] || a in attributes[1..];
    }
  }

  lemma InlineName(tag: TagName)
    requires IsNamed(tag)
    ensures MarkOf(tag).Some? || tag.TSpan? <==> LowerName(tag) in INLINE_NAMES
  {
  }

  // ---- Inline content ----

  lemma {:induction false} InlineIsClean(node: Node, marks: seq<InlineMark>, path: string, depth: nat)
    requires NodeIsNamed(node)
    ensures ReadInline(node, marks, path, depth).issues == [] <==> InlineFits(node, depth)
    decreases node, 0
  {
    if depth <= MAX_DEPTH && node.Element? {
      KindByName(node.tag);
      InlineName(node.tag);
      NoAttributeIssues(node.attributes, {}, path);
      if node.tag.TA? {
        LinkIsClean(node, marks, path, depth);
      } else if !node.tag.Discarded? && !node.tag.TBr? {
        InlinesAreClean(node.children, 0, NextMarks(node.tag, marks), path, depth + 1);
      }
    }
  }

  lemma {:induction false} LinkIsClean(node: Node, marks: seq<InlineMark>, path: string, depth: nat)
    requires NodeIsNamed(node) && node.Element? && node.tag.TA? && depth <= MAX_DEPTH
    ensures ReadInline(node, marks, path, depth).issues == [] <==> InlineFits(node, depth)
    decreases node.children, 2
  {
    NoAttributeIssues(node.attributes, {"href"}, path);
    LinkByScheme(HrefOf(node.attributes));
    InlinesAreClean(node.children, 0, marks, path, depth + 1);
    IssuesOfLink(node, marks, path, depth);
    KindByName(node.tag);
  }

  lemma IssuesOfLink(node: Node, marks: seq<InlineMark>, path: string, depth: nat)
    requires node.Element? && node.tag.TA? && depth <= MAX_DEPTH
    ensures ReadInline(node, marks, path, depth).issues == [] <==>
            && AttributeIssues(node.attributes, {"href"}, path) == [] && AcceptedLink(HrefOf(node.attributes))
            && ReadInlines(node.children, 0, marks, path, depth + 1).issues == []
  {
  }

  lemma {:induction false} InlinesAreClean(nodes: seq<Node>, i: nat, marks: seq<InlineMark>, path: string, depth: nat)
    requires AreNamed(nodes)
    ensures ReadInlines(nodes, i, marks, path, depth).issues == [] <==> InlinesFit(nodes, depth)
    decreases nodes, 1
  {
    if nodes != [] {
      InlineIsClean(nodes[0], marks, Child(path, i), depth);
      InlinesAreClean(nodes[1..], i + 1, marks, path, depth);
      IssuesOfInlines(nodes, i, marks, path, depth);
    }
  }

  lemma IssuesOfInlines(nodes: seq<Node>, i: nat, marks: seq<InlineMark>, path: string, depth: nat)
    requires nodes != []
    ensures ReadInlines(nodes, i, marks, path, depth).issues == [] <==>
            && ReadInline(nodes[0], marks, Child(path, i), depth).issues == []
            && ReadInlines(nodes[1..], i + 1, marks, path, depth).issues == []
  {
  }

  // ---- Blocks ----

  lemma {:induction false} NodesAreClean(nodes: seq<Node>, i: nat, pending: seq<Inline>, path: string, depth: nat)
    requires AreNamed(nodes) && depth <= MAX_DEPTH
    ensures ReadBlockNodes(nodes, i, pending, path, depth).issues == [] <==> NodesFit(nodes, pending != [], depth)
    decreases nodes, 1
  {
    if nodes != [] {
      var here := Child(path, i);
      NodeIsClean(nodes[0], pending, here, depth);
      NodesAreClean(nodes[1..], i + 1, ReadBlockNode(nodes[0], pending, here, depth).value.pending, path, depth);
    }
  }

  /** One node among blocks, and what is pending behind it. */
  lemma {:induction false} NodeIsClean(node: Node, pending: seq<Inline>, path: string, depth: nat)
    requires NodeIsNamed(node) && depth <= MAX_DEPTH
    ensures var r := ReadBlockNode(node, pending, path, depth);
            if IsLoose(node) then
              && (r.issues == [] <==> InlineFits(node, depth + 1) && (pending != [] || !IsBlankText(node)))
              && (r.value.pending != [] <==> pending != [] || TextsIn(node, {}, [], depth + 1) != [])
            else (r.issues == [] <==> BlockFits(node, depth)) && r.value.pending == []
    decreases node, 4
  {
    if IsLoose(node) {
      InlineIsClean(node, [], path, depth + 1);
      NodeIsRead(node, [], {}, [], path, depth + 1);
      FoundMeansRead(TextsIn(node, {}, [], depth + 1), ReadInline(node, [], path, depth + 1).value);
      NoBlock(node, path, depth);
    } else {
      BlockIsClean(node, path, depth);
    }
  }

  lemma NoBlock(node: Node, path: string, depth: nat)
    requires NodeIsNamed(node) && IsLoose(node)
    ensures ReadBlock(node, path, depth).None?
  {
    if node.Element? {
      BlockByName(node.tag);
    }
  }

  lemma {:induction false} BlocksAreClean(nodes: seq<Node>, path: string, depth: nat)
    requires AreNamed(nodes)
    ensures ReadBlocks(nodes, path, depth).issues == [] <==> depth <= 8 && NodesFit(nodes, false, depth)
    decreases nodes, 2
  {
    if depth <= MAX_DEPTH {
      NodesAreClean(nodes, 0, [], path, depth);
    }
  }

  lemma {:induction false} BlockIsClean(node: Node, path: string, depth: nat)
    requires NodeIsNamed(node) && !IsLoose(node)
    ensures ReadBlock(node, path, depth).Some?
    ensures ReadBlock(node, path, depth).value.issues == [] <==> BlockFits(node, depth)
    decreases node, 3
  {
    BlockByName(node.tag);
    NoAttributeIssues(node.attributes, {}, path);
    if node.tag.TP? {
      InlinesAreClean(node.children, 0, [], path, depth + 1);
    } else if node.tag.TDiv? {
      BlocksAreClean(node.children, path, depth + 1);
    } else {
      NoAttributeIssues(node.attributes, {"start"}, path);
      ItemsAreClean(node.children, 0, path, depth + 1);
    }
  }

  lemma {:induction false} ItemsAreClean(nodes: seq<Node>, i: nat, path: string, depth: nat)
    requires AreNamed(nodes)
    ensures ReadItems(nodes, i, path, depth).issues == [] <==> ItemsFit(nodes, depth)
    decreases nodes, 1
  {
    if nodes != [] {
      var here := Child(path, i);
      ItemsAreClean(nodes[1..], i + 1, path, depth);
      ItemIsClean(nodes[0], here, depth);
    }
  }

  lemma {:induction false} ItemIsClean(node: Node, path: string, depth: nat)
    requires NodeIsNamed(node)
    ensures ReadItem(node, path, depth).issues == [] <==> ItemFits(node, depth)
    decreases node, 3
  {
    if node.Element? {
      BlockByName(node.tag);
      NoAttributeIssues(node.attributes, {}, path);
      BlocksAreClean(node.children, path, depth + 1);
    }
  }

  lemma {:induction false} HeadIsClean(nodes: seq<Node>, i: nat)
    ensures HeadIssues(nodes, i) == [] <==> HeadFits(nodes)
  {
    if nodes != [] {
      HeadIsClean(nodes[1..], i + 1);
      assert HeadFits(nodes) <==> IsNothing(nodes[0]) && HeadFits(nodes[1..]) by {
        assert forall node :: node in nodes <==> node == nodes[0] || node in nodes[1..];
      }
    }
  }

  /** A text is read completely exactly when it is not too long or blank, and its tree has only what can be read. */
  lemma CompleteExactlyWhen(rawHtml: string, dom: Dom)
    requires AreNamed(dom.body)
    ensures ReadHtml(rawHtml, dom).complete <==>
            && Units(rawHtml) <= 1_000_000 && (rawHtml == "" || !IsJsBlank(rawHtml))
            && HeadFits(dom.head) && !dom.doctype && NodesFit(dom.body, false, 0)
  {
    HeadIsClean(dom.head, 0);
    BlocksAreClean(dom.body, "body", 0);
  }

  // ---- Aliases ----

  /** The element that the writer uses for the same mark. */
  function Plain(tag: TagName): TagName {
    match tag
    case TStrong => TB
    case TEm => TI
    case TStrike => TS
    case _ => tag
  }

  function Renamed(node: Node): Node
    decreases node, 0
  {
    match node
    case Element(tag, attributes, children) => Element(Plain(tag), attributes, AllRenamed(children))
    case _ => node
  }

  function AllRenamed(nodes: seq<Node>): seq<Node>
    decreases nodes, 1
  {
    if nodes == [] then [] else [Renamed(nodes[0])] + AllRenamed(nodes[1..])
  }

  /** The same result, and issues in both or in neither. */
  predicate IsAlike<T(==)>(a: Read<T>, b: Read<T>) {
    a.value == b.value && (a.issues == [] <==> b.issues == [])
  }

  lemma {:induction false} InlineIsAlike(node: Node, marks: seq<InlineMark>, path: string, depth: nat)
    ensures ReadInline(Renamed(node), marks, path, depth) == ReadInline(node, marks, path, depth)
    decreases node, 0
  {
    if depth <= MAX_DEPTH && node.Element? {
      AliasMeansSame(node.tag);
      InlinesAreAlike(node.children, 0, if node.tag.TA? then marks else NextMarks(node.tag, marks), path, depth + 1);
    }
  }

  lemma AliasMeansSame(tag: TagName)
    ensures MarkOf(Plain(tag)) == MarkOf(tag)
    ensures MarkOf(tag).None? ==> Plain(tag) == tag
  {
  }

  lemma {:induction false} InlinesAreAlike(nodes: seq<Node>, i: nat, marks: seq<InlineMark>, path: string, depth: nat)
    ensures ReadInlines(AllRenamed(nodes), i, marks, path, depth) == ReadInlines(nodes, i, marks, path, depth)
    decreases nodes, 1
  {
    if nodes != [] {
      InlineIsAlike(nodes[0], marks, Child(path, i), depth);
      InlinesAreAlike(nodes[1..], i + 1, marks, path, depth);
    }
  }

  lemma {:induction false} BlockNodesAreAlike(nodes: seq<Node>, i: nat, pending: seq<Inline>, path: string, depth: nat)
    ensures IsAlike(ReadBlockNodes(AllRenamed(nodes), i, pending, path, depth), ReadBlockNodes(nodes, i, pending, path, depth))
    decreases nodes, 1
  {
    if nodes != [] {
      var here := Child(path, i);
      BlockNodeIsAlike(nodes[0], pending, here, depth);
      BlockNodesAreAlike(nodes[1..], i + 1, ReadBlockNode(nodes[0], pending, here, depth).value.pending, path, depth);
    }
  }

  lemma {:induction false} BlockNodeIsAlike(node: Node, pending: seq<Inline>, path: string, depth: nat)
    ensures IsAlike(ReadBlockNode(Renamed(node), pending, path, depth), ReadBlockNode(node, pending, path, depth))
    decreases node, 4
  {
    BlockIsAlike(node, path, depth);
    InlineIsAlike(node, [], path, depth + 1);
  }

  lemma {:induction false} BlockIsAlike(node: Node, path: string, depth: nat)
    ensures var a, b := ReadBlock(Renamed(node), path, depth), ReadBlock(node, path, depth);
            (a.Some? <==> b.Some?) && (a.Some? ==> IsAlike(a.value, b.value))
    decreases node, 3
  {
    match node
    case Element(TP, _, children) => InlinesAreAlike(children, 0, [], path, depth + 1);
    case Element(TDiv, _, children) => BlocksAreAlike(children, path, depth + 1);
    case Element(TUl, _, children) => ItemsAreAlike(children, 0, path, depth + 1);
    case Element(TOl, _, children) => ItemsAreAlike(children, 0, path, depth + 1);
    case _ =>
  }

  lemma {:induction false} BlocksAreAlike(nodes: seq<Node>, path: string, depth: nat)
    ensures IsAlike(ReadBlocks(AllRenamed(nodes), path, depth), ReadBlocks(nodes, path, depth))
    decreases nodes, 2
  {
    BlockNodesAreAlike(nodes, 0, [], path, depth);
  }

  lemma {:induction false} ItemsAreAlike(nodes: seq<Node>, i: nat, path: string, depth: nat)
    ensures IsAlike(ReadItems(AllRenamed(nodes), i, path, depth), ReadItems(nodes, i, path, depth))
    decreases nodes, 1
  {
    if nodes != [] {
      var here := Child(path, i);
      ItemIsAlike(nodes[0], here, depth);
      ItemsAreAlike(nodes[1..], i + 1, path, depth);
    }
  }

  lemma {:induction false} ItemIsAlike(node: Node, path: string, depth: nat)
    ensures IsAlike(ReadItem(Renamed(node), path, depth), ReadItem(node, path, depth))
    decreases node, 3
  {
    if node.Element? {
      BlocksAreAlike(node.children, path, depth + 1);
    }
  }

  /** With strong, em and strike written as b, i and s a text is read as the same blocks, and completely if it was before. */
  lemma AliasesAreReadAlike(rawHtml: string, dom: Dom, plainHtml: string)
    requires Units(rawHtml) <= MAX_HTML_LENGTH && (rawHtml == "" || !IsJsBlank(rawHtml))
    requires Units(plainHtml) <= MAX_HTML_LENGTH && (plainHtml == "" || !IsJsBlank(plainHtml))
    ensures var a, b := ReadHtml(plainHtml, dom.(body := AllRenamed(dom.body))), ReadHtml(rawHtml, dom);
            a.blocks == b.blocks && a.complete == b.complete
  {
    BlocksAreAlike(dom.body, "body", 0);
  }
}
