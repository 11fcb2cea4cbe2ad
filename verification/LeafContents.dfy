/** Which text each leaf holds, told by its address in the document, and in which order the leaves come. */
module LeafContents {
  import opened Contracts
  import opened Strings
  import opened TextMap
  import opened LeafWalk
  import opened LeafNames

  // ---- One paragraph ----

  /** The inline content with its links dissolved; a text keeps the target of the innermost link around it. */
  datatype FlatItem = FlatText(text: string, href: Option<string>) | FlatBreak

  function Flat(xs: seq<Inline>, href: Option<string>): seq<FlatItem>
    decreases xs, 1
  {
    if xs == [] then [] else FlatOne(xs[0], href) + Flat(xs[1..], href)
  }

  function FlatOne(x: Inline, href: Option<string>): seq<FlatItem>
    decreases x, 0
  {
    match x
    case Text(text, _) => [FlatText(text, href)]
    case Link(target, children) => Flat(children, Some(target))
    case Break => [FlatBreak]
  }

  function LeafOf(path: string, k: nat, item: FlatItem): LeafItem {
    match item
    case FlatText(text, href) => TextLeaf(path + ":l" + Decimal(k), text, href)
    case FlatBreak => BreakLeaf
  }

  /** Each item in its place, numbered from n. */
  predicate AreNumbered(items: seq<LeafItem>, path: string, n: nat, flat: seq<FlatItem>) {
    |items| == |flat| && forall k :: 0 <= k < |flat| ==> items[k] == LeafOf(path, n + k, flat[k])
  }

  lemma NumberedJoin(a: seq<LeafItem>, b: seq<LeafItem>, path: string, n: nat, f: seq<FlatItem>, g: seq<FlatItem>)
    requires AreNumbered(a, path, n, f) && AreNumbered(b, path, n + |f|, g)
    ensures AreNumbered(a + b, path, n, f + g)
  {
    forall k | 0 <= k < |f + g| ensures (a + b)[k] == LeafOf(path, n + k, (f + g)[k]) {
      if k >= |f| {
        assert b[k - |f|] == LeafOf(path, n + |f| + (k - |f|), g[k - |f|]);
      }
    }
  }

  lemma {:induction false} FlattenedAreNumbered(xs: seq<Inline>, path: string, n: nat, href: Option<string>)
    ensures var r := FlattenInto(xs, path, n, href);
            AreNumbered(r.items, path, n, Flat(xs, href)) && r.next == n + |Flat(xs, href)|
    decreases xs, 1
  {
    if xs != [] {
      var first := FlattenOne(xs[0], path, n, href);
      OneIsNumbered(xs[0], path, n, href);
      FlattenedAreNumbered(xs[1..], path, first.next, href);
      NumberedJoin(first.items, FlattenInto(xs[1..], path, first.next, href).items, path, n, FlatOne(xs[0], href), Flat(xs[1..], href));
    }
  }

  lemma {:induction false} OneIsNumbered(x: Inline, path: string, n: nat, href: Option<string>)
    ensures var r := FlattenOne(x, path, n, href);
            AreNumbered(r.items, path, n, FlatOne(x, href)) && r.next == n + |FlatOne(x, href)|
    decreases x, 0
  {
    if x.Link? {
      FlattenedAreNumbered(x.children, path, n, Some(x.href));
    }
  }

  /** A paragraph is a boundary and its texts and breaks, numbered through from zero. */
  lemma ParagraphIsNumbered(xs: seq<Inline>, path: string)
    ensures var items := BlockItems(Paragraph(xs), path);
            items != [] && items[0] == Boundary && AreNumbered(items[1..], path, 0, Flat(xs, None))
  {
    FlattenedAreNumbered(xs, path, 0, None);
    assert BlockItems(Paragraph(xs), path)[1..] == FlattenInto(xs, path, 0, None).items;
  }

  // ---- The text at an address ----

  /** The text of the k-th item of the n-th block, which is a paragraph, with its link. */
  function InParagraph(blocks: seq<RichBlock>, n: nat, k: nat): Option<FlatItem> {
    if n < |blocks| && blocks[n].Paragraph? && k < |Flat(blocks[n].inlines, None)| then Some(Flat(blocks[n].inlines, None)[k]) else None
  }

  /** The same below the items that the steps lead to. */
  function AtAddress(blocks: seq<RichBlock>, steps: seq<Step>, n: nat, k: nat): Option<FlatItem> {
    if steps == [] then InParagraph(blocks, n, k)
    else
      var s := steps[0];
      if s.block < |blocks| && blocks[s.block].List? && s.item < |blocks[s.block].items|
      then AtAddress(blocks[s.block].items[s.item].blocks, steps[1..], n, k)
      else None
  }

  lemma {:induction false} BlocksJoin(a: seq<RichBlock>, b: seq<RichBlock>, path: string, n: nat)
    ensures BlocksItems(a + b, path, n) == BlocksItems(a, path, n) + BlocksItems(b, path, n + |a|)
  {
    if a == [] {
      assert a + b == b;
    } else {
      assert (a + b)[0] == a[0] && (a + b)[1..] == a[1..] + b;
      BlocksFrom(a + b, path, n);
      BlocksFrom(a, path, n);
      BlocksJoin(a[1..], b, path, n + 1);
    }
  }

  lemma {:induction false} ItemsJoin(a: seq<ListItem>, b: seq<ListItem>, path: string, n: nat)
    ensures ListItems(a + b, path, n) == ListItems(a, path, n) + ListItems(b, path, n + |a|)
  {
    if a == [] {
      assert a + b == b;
    } else {
      assert (a + b)[0] == a[0] && (a + b)[1..] == a[1..] + b;
      ItemsFrom(a + b, path, n);
      ItemsFrom(a, path, n);
      ItemsJoin(a[1..], b, path, n + 1);
    }
  }

  /** The leaves of a block stand behind those of the blocks before it, and before those of the blocks behind it. */
  lemma BlockInPlace(blocks: seq<RichBlock>, path: string, n: nat)
    requires n < |blocks|
    ensures BlocksItems(blocks, path, 0) ==
            BlocksItems(blocks[..n], path, 0) + BlockItems(blocks[n], path + ":b" + Decimal(n)) + BlocksItems(blocks[n + 1..], path, n + 1)
  {
    BlocksCut(blocks, path, n);
    BlocksAt(blocks, path, n);
    Associated(BlocksItems(blocks[..n], path, 0), BlockItems(blocks[n], path + ":b" + Decimal(n)),
               BlocksItems(blocks[n + 1..], path, n + 1));
  }

  lemma BlocksCut(blocks: seq<RichBlock>, path: string, n: nat)
    requires n < |blocks|
    ensures BlocksItems(blocks, path, 0) == BlocksItems(blocks[..n], path, 0) + BlocksItems(blocks[n..], path, n)
  {
    CutAt(blocks, n);
    BlocksJoin(blocks[..n], blocks[n..], path, 0);
  }

  lemma BlocksAt(blocks: seq<RichBlock>, path: string, n: nat)
    requires n < |blocks|
    ensures BlocksItems(blocks[n..], path, n) == BlockItems(blocks[n], path + ":b" + Decimal(n)) + BlocksItems(blocks[n + 1..], path, n + 1)
  {
    CutAt(blocks, n);
    BlocksFrom(blocks[n..], path, n);
  }

  lemma ItemsCut(items: seq<ListItem>, path: string, i: nat)
    requires i < |items|
    ensures ListItems(items, path, 0) == ListItems(items[..i], path, 0) + ListItems(items[i..], path, i)
  {
    CutAt(items, i);
    ItemsJoin(items[..i], items[i..], path, 0);
  }

  lemma ItemsAt(items: seq<ListItem>, path: string, i: nat)
    requires i < |items|
    ensures ListItems(items[i..], path, i) ==
            BlocksItems(items[i].blocks, path + ":i" + Decimal(i), 0) + ListItems(items[i + 1..], path, i + 1)
  {
    CutAt(items, i);
    ItemsFrom(items[i..], path, i);
  }

  lemma CutAt<T>(s: seq<T>, n: nat)
    requires n < |s|
    ensures s[..n] + s[n..] == s && s[n..][0] == s[n] && s[n..][1..] == s[n + 1..]
  {
  }

  lemma Associated<T>(a: seq<T>, b: seq<T>, c: seq<T>)
    ensures a + (b + c) == a + b + c
  {
  }

  lemma BlocksFrom(blocks: seq<RichBlock>, path: string, n: nat)
    requires blocks != []
    ensures BlocksItems(blocks, path, n) == BlockItems(blocks[0], path + ":b" + Decimal(n)) + BlocksItems(blocks[1..], path, n + 1)
  {
  }

  lemma ItemsFrom(items: seq<ListItem>, path: string, n: nat)
    requires items != []
    ensures ListItems(items, path, n) == BlocksItems(items[0].blocks, path + ":i" + Decimal(n), 0) + ListItems(items[1..], path, n + 1)
  {
  }

  /** So do the leaves of a list item. */
  lemma ItemInPlace(items: seq<ListItem>, path: string, i: nat)
    requires i < |items|
    ensures ListItems(items, path, 0) ==
            ListItems(items[..i], path, 0) + BlocksItems(items[i].blocks, path + ":i" + Decimal(i), 0)
            + ListItems(items[i + 1..], path, i + 1)
  {
    ItemsCut(items, path, i);
    ItemsAt(items, path, i);
    Associated(ListItems(items[..i], path, 0), BlocksItems(items[i].blocks, path + ":i" + Decimal(i), 0),
               ListItems(items[i + 1..], path, i + 1));
  }

  /** A text at an address is in the leaf named by the address. */
  lemma {:induction false} TextIsInItsLeaf(blocks: seq<RichBlock>, path: string, steps: seq<Step>, n: nat, k: nat,
                                           text: string, href: Option<string>)
    requires AtAddress(blocks, steps, n, k) == Some(FlatText(text, href))
    ensures TextLeaf(path + LeafWord(steps, n, k), text, href) in BlocksItems(blocks, path, 0)
    decreases |steps|
  {
    if steps == [] {
      var here := path + ":b" + Decimal(n);
      BlockInPlace(blocks, path, n);
      ParagraphIsNumbered(blocks[n].inlines, here);
      var items := BlockItems(blocks[n], here);
      assert items[1..][k] == LeafOf(here, 0 + k, FlatText(text, href));
      assert items[1 + k] == TextLeaf(here + ":l" + Decimal(k), text, href);
      SameName(path, n, k);
    } else {
      var s := steps[0];
      var here := path + ":b" + Decimal(s.block);
      BlockInPlace(blocks, path, s.block);
      ItemInPlace(blocks[s.block].items, here, s.item);
      TextIsInItsLeaf(blocks[s.block].items[s.item].blocks, here + ":i" + Decimal(s.item), steps[1..], n, k, text, href);
      DeeperAddress(path, steps, n, k);
    }
  }

  lemma SameName(path: string, n: nat, k: nat)
    ensures path + ":b" + Decimal(n) + ":l" + Decimal(k) == path + LeafWord([], n, k)
  {
    assert LeafWord([], n, k) == LastWord(n, k);
  }

  lemma DeeperAddress(path: string, steps: seq<Step>, n: nat, k: nat)
    requires steps != []
    ensures var s := steps[0];
            path + ":b" + Decimal(s.block) + ":i" + Decimal(s.item) + LeafWord(steps[1..], n, k) == path + LeafWord(steps, n, k)
  {
    assert steps == [steps[0]] + steps[1..];
    OneStepMore(path, steps[0], steps[1..], n, k);
  }

  /** A leaf of a body holds the text at some address, and is named by it. */
  ghost predicate HoldsText(blocks: seq<RichBlock>, path: string, leaf: LeafItem) {
    exists steps, n, k :: IsTextAt(blocks, path, leaf, steps, n, k)
  }

  predicate IsTextAt(blocks: seq<RichBlock>, path: string, leaf: LeafItem, steps: seq<Step>, n: nat, k: nat) {
    && leaf.TextLeaf? && leaf.nodeId == path + LeafWord(steps, n, k)
    && AtAddress(blocks, steps, n, k) == Some(FlatText(leaf.text, leaf.href))
  }

  lemma {:induction false} LeafHoldsText(blocks: seq<RichBlock>, path: string, from: nat, leaf: LeafItem)
    requires leaf.TextLeaf? && from <= |blocks| && leaf in BlocksItems(blocks[from..], path, from)
    ensures HoldsText(blocks, path, leaf)
    decreases blocks, |blocks| - from, 0
  {
    assert blocks[from..][0] == blocks[from] && blocks[from..][1..] == blocks[from + 1..];
    if leaf in BlockItems(blocks[from], path + ":b" + Decimal(from)) {
      BlockHoldsText(blocks, path, from, leaf);
    } else {
      LeafHoldsText(blocks, path, from + 1, leaf);
    }
  }

  lemma {:induction false} BlockHoldsText(blocks: seq<RichBlock>, path: string, n: nat, leaf: LeafItem)
    requires leaf.TextLeaf? && n < |blocks| && leaf in BlockItems(blocks[n], path + ":b" + Decimal(n))
    ensures HoldsText(blocks, path, leaf)
    decreases blocks, 0
  {
    var here := path + ":b" + Decimal(n);
    match blocks[n]
    case Paragraph(inlines) =>
      ParagraphIsNumbered(inlines, here);
      var items := BlockItems(blocks[n], here);
      var k :| 0 <= k < |items| && items[k] == leaf;
      assert items[1..][k - 1] == LeafOf(here, 0 + (k - 1), Flat(inlines, None)[k - 1]);
      SameName(path, n, k - 1);
      assert IsTextAt(blocks, path, leaf, [], n, k - 1);
    case List(_, _, items) => ItemHoldsText(blocks, path, n, 0, leaf);
  }

  lemma {:induction false} ItemHoldsText(blocks: seq<RichBlock>, path: string, n: nat, from: nat, leaf: LeafItem)
    requires leaf.TextLeaf? && n < |blocks| && blocks[n].List? && from <= |blocks[n].items|
    requires leaf in ListItems(blocks[n].items[from..], path + ":b" + Decimal(n), from)
    ensures HoldsText(blocks, path, leaf)
    decreases blocks, 0, |blocks[n].items| - from
  {
    var items, here := blocks[n].items, path + ":b" + Decimal(n);
    assert items[from..][0] == items[from] && items[from..][1..] == items[from + 1..];
    var inner := items[from].blocks;
    if leaf in BlocksItems(inner, here + ":i" + Decimal(from), 0) {
      assert inner[0..] == inner;
      LeafHoldsText(inner, here + ":i" + Decimal(from), 0, leaf);
      DeeperText(blocks, path, n, from, leaf);
    } else {
      ItemHoldsText(blocks, path, n, from + 1, leaf);
    }
  }

  lemma DeeperText(blocks: seq<RichBlock>, path: string, n: nat, i: nat, leaf: LeafItem)
    requires n < |blocks| && blocks[n].List? && i < |blocks[n].items|
    requires HoldsText(blocks[n].items[i].blocks, path + ":b" + Decimal(n) + ":i" + Decimal(i), leaf)
    ensures HoldsText(blocks, path, leaf)
  {
    var inner, deep := blocks[n].items[i].blocks, path + ":b" + Decimal(n) + ":i" + Decimal(i);
    var steps, m, k :| IsTextAt(inner, deep, leaf, steps, m, k);
    var all := [Step(n, i)] + steps;
    assert all[1..] == steps;
    DeeperAddress(path, all, m, k);
    assert IsTextAt(blocks, path, leaf, all, m, k);
  }

  /** The leaves of a body are exactly its texts, each named by where it stands. */
  lemma BodyLeavesAreItsTexts(blocks: seq<RichBlock>, path: string, leaf: LeafItem)
    requires leaf.TextLeaf?
    ensures leaf in BlocksItems(blocks, path, 0) <==> HoldsText(blocks, path, leaf)
  {
    assert blocks[0..] == blocks;
    if leaf in BlocksItems(blocks, path, 0) {
      LeafHoldsText(blocks, path, 0, leaf);
    }
    if HoldsText(blocks, path, leaf) {
      var steps, n, k :| IsTextAt(blocks, path, leaf, steps, n, k);
      TextIsInItsLeaf(blocks, path, steps, n, k, leaf.text, leaf.href);
    }
  }

  // ---- Sections and entries ----

  /** A leaf of an entry: a line of its head, by the title format, or a text of its body. */
  ghost predicate IsEntryLeaf(e: Entry, line: HeadLine, single: bool, leaf: LeafItem) {
    var root := "entry:" + e.id;
    || leaf == TextLeaf(root + ":title", line.title, None)
    || leaf == TextLeaf(root + ":dates", line.range, None)
    || (single && leaf == TextLeaf(root + ":imeta", line.inlineMeta, None))
    || (!single && leaf == TextLeaf(root + ":meta", line.meta, None))
    || HoldsText(e.body, root, leaf)
  }

  /** A leaf of a visible section: its heading, a text of its body, or a leaf of one of its entries. */
  ghost predicate IsSectionLeaf(x: Section, line: Entry -> HeadLine, single: bool, leaf: LeafItem) {
    var root := "section:" + x.id;
    x.visible &&
    (|| leaf == TextLeaf(root + ":head", x.title, None)
     || (x.SummarySection? && HoldsText(x.body, root, leaf))
     || (x.EntrySection? && exists e :: e in x.entries && IsEntryLeaf(e, line(e), single, leaf)))
  }

  lemma LeadHolds(id: string, text: string, leaf: LeafItem)
    requires leaf.TextLeaf?
    ensures leaf in Lead(id, text) <==> leaf == TextLeaf(id, text, None)
  {
  }

  lemma EntryHolds(e: Entry, line: Entry -> HeadLine, single: bool, leaf: LeafItem)
    requires leaf.TextLeaf?
    ensures leaf in EntryGroup(e, line, single).items <==> IsEntryLeaf(e, line(e), single, leaf)
  {
    var root, text := "entry:" + e.id, line(e);
    LeadHolds(root + ":title", text.title, leaf);
    LeadHolds(root + ":dates", text.range, leaf);
    LeadHolds(root + ":imeta", text.inlineMeta, leaf);
    LeadHolds(root + ":meta", text.meta, leaf);
    BodyLeavesAreItsTexts(e.body, root, leaf);
  }

  ghost predicate InGroup(groups: seq<Group>, leaf: LeafItem) {
    exists g :: g in groups && leaf in g.items
  }

  lemma {:induction false} ItemsAreInGroups(groups: seq<Group>, leaf: LeafItem)
    ensures leaf in ItemsOf(groups) <==> InGroup(groups, leaf)
  {
    if groups != [] {
      var n := |groups| - 1;
      ItemsAreInGroups(groups[..n], leaf);
      assert forall g :: g in groups <==> g in groups[..n] || g == groups[n];
    }
  }

  lemma SectionHolds(x: Section, line: Entry -> HeadLine, single: bool, leaf: LeafItem)
    requires leaf.TextLeaf?
    ensures InGroup(SectionGroups(x, line, single), leaf) <==> IsSectionLeaf(x, line, single, leaf)
  {
    var root := "section:" + x.id;
    LeadHolds(root + ":head", x.title, leaf);
    if x.visible {
      match x
      case SummarySection(_, _, _, _, body) =>
        BodyLeavesAreItsTexts(body, root, leaf);
        assert SectionGroups(x, line, single)[0] in SectionGroups(x, line, single);
      case EntrySection(_, _, title, _, entries) =>
        EntriesHold(entries, line, single, leaf);
        var groups := EntryGroups(entries, line, single);
        var head := Group(root, Lead(root + ":head", title), false);
        assert forall g :: g in [head] + groups <==> g == head || g in groups;
    }
  }

  lemma EntriesHold(es: seq<Entry>, line: Entry -> HeadLine, single: bool, leaf: LeafItem)
    requires leaf.TextLeaf?
    ensures InGroup(EntryGroups(es, line, single), leaf) <==> exists e :: e in es && IsEntryLeaf(e, line(e), single, leaf)
  {
    var groups := EntryGroups(es, line, single);
    forall e ensures leaf in EntryGroup(e, line, single).items <==> IsEntryLeaf(e, line(e), single, leaf) {
      EntryHolds(e, line, single, leaf);
    }
    if InGroup(groups, leaf) {
      var g :| g in groups && leaf in g.items;
      var i :| 0 <= i < |groups| && groups[i] == g;
      assert es[i] in es && g == EntryGroup(es[i], line, single);
    }
    if e :| e in es && IsEntryLeaf(e, line(e), single, leaf) {
      var i :| 0 <= i < |es| && es[i] == e;
      assert groups[i] in groups && groups[i] == EntryGroup(e, line, single);
    }
  }

  lemma InEither(a: seq<Group>, b: seq<Group>, leaf: LeafItem)
    ensures InGroup(a + b, leaf) <==> InGroup(a, leaf) || InGroup(b, leaf)
  {
    assert forall g :: g in a + b <==> g in a || g in b;
  }

  ghost predicate HasLeaf(ss: seq<Section>, line: Entry -> HeadLine, single: bool, leaf: LeafItem) {
    exists x :: x in ss && IsSectionLeaf(x, line, single, leaf)
  }

  lemma HasLeafMore(ss: seq<Section>, x: Section, line: Entry -> HeadLine, single: bool, leaf: LeafItem)
    ensures HasLeaf(ss + [x], line, single, leaf) <==> HasLeaf(ss, line, single, leaf) || IsSectionLeaf(x, line, single, leaf)
  {
    assert forall y :: y in ss + [x] <==> y in ss || y == x;
  }

  lemma InitAndLast<T>(s: seq<T>)
    requires s != []
    ensures s == s[..|s| - 1] + [s[|s| - 1]]
  {
  }

  lemma GroupsHoldMore(ss: seq<Section>, init: seq<Section>, x: Section, line: Entry -> HeadLine, single: bool, leaf: LeafItem)
    requires ss == init + [x] && leaf.TextLeaf?
    requires InGroup(Groups(init, line, single), leaf) <==> HasLeaf(init, line, single, leaf)
    ensures InGroup(Groups(ss, line, single), leaf) <==> HasLeaf(ss, line, single, leaf)
  {
    GroupsMore(init, x, line, single);
    SectionHolds(x, line, single, leaf);
    InEither(Groups(init, line, single), SectionGroups(x, line, single), leaf);
    HasLeafMore(init, x, line, single, leaf);
  }

  lemma {:induction false} GroupsHold(ss: seq<Section>, line: Entry -> HeadLine, single: bool, leaf: LeafItem)
    requires leaf.TextLeaf?
    ensures InGroup(Groups(ss, line, single), leaf) <==> HasLeaf(ss, line, single, leaf)
  {
    if ss != [] {
      var init, x := ss[..|ss| - 1], ss[|ss| - 1];
      GroupsHold(init, line, single, leaf);
      InitAndLast(ss);
      GroupsHoldMore(ss, init, x, line, single, leaf);
    }
  }

  /** The leaves of a document are exactly those of its visible sections: headings, heads of entries, and texts of bodies. */
  lemma LeavesAreTheTexts(ss: seq<Section>, line: Entry -> HeadLine, single: bool, leaf: LeafItem)
    requires leaf.TextLeaf?
    ensures leaf in ItemsOf(Groups(ss, line, single)) <==> HasLeaf(ss, line, single, leaf)
  {
    ItemsAreInGroups(Groups(ss, line, single), leaf);
    GroupsHold(ss, line, single, leaf);
  }

  lemma GroupsMore(ss: seq<Section>, x: Section, line: Entry -> HeadLine, single: bool)
    ensures Groups(ss + [x], line, single) == Groups(ss, line, single) + SectionGroups(x, line, single)
  {
    assert (ss + [x])[..|ss|] == ss;
  }

  lemma GroupsJoinMore(a: seq<Section>, b: seq<Section>, init: seq<Section>, x: Section, line: Entry -> HeadLine, single: bool)
    requires b == init + [x]
    requires Groups(a + init, line, single) == Groups(a, line, single) + Groups(init, line, single)
    ensures Groups(a + b, line, single) == Groups(a, line, single) + Groups(b, line, single)
  {
    GroupsMore(a + init, x, line, single);
    GroupsMore(init, x, line, single);
    Associated(a, init, [x]);
    Associated(Groups(a, line, single), Groups(init, line, single), SectionGroups(x, line, single));
  }

  lemma {:induction false} GroupsJoin(a: seq<Section>, b: seq<Section>, line: Entry -> HeadLine, single: bool)
    ensures Groups(a + b, line, single) == Groups(a, line, single) + Groups(b, line, single)
  {
    if b == [] {
      assert a + b == a && Groups(a, line, single) + [] == Groups(a, line, single);
    } else {
      var init, x := b[..|b| - 1], b[|b| - 1];
      GroupsJoin(a, init, line, single);
      InitAndLast(b);
      GroupsJoinMore(a, b, init, x, line, single);
    }
  }

  /** The items of a section follow those of the sections before it. */
  lemma SectionInPlace(ss: seq<Section>, i: nat, line: Entry -> HeadLine, single: bool)
    requires i < |ss|
    ensures ItemsOf(Groups(ss[..i], line, single)) + ItemsOf(SectionGroups(ss[i], line, single)) <= ItemsOf(Groups(ss, line, single))
  {
    assert ss == ss[..i + 1] + ss[i + 1..];
    GroupsJoin(ss[..i + 1], ss[i + 1..], line, single);
    ItemsConcat(Groups(ss[..i + 1], line, single), Groups(ss[i + 1..], line, single));
    OneMoreSection(ss, i, line, single);
  }

  /** A section's heading stands first; an entry begins with its head, each line on its own, and its body follows. */
  lemma HeadsInOrder(x: Section, e: Entry, line: Entry -> HeadLine, single: bool)
    ensures x.visible ==> Lead("section:" + x.id + ":head", x.title) <= ItemsOf(SectionGroups(x, line, single))
    ensures var root, text := "entry:" + e.id, line(e);
            var second := if single then TextLeaf(root + ":imeta", text.inlineMeta, None) else TextLeaf(root + ":dates", text.range, None);
            var third := if single then TextLeaf(root + ":dates", text.range, None) else TextLeaf(root + ":meta", text.meta, None);
            EntryGroup(e, line, single).items ==
            [Boundary, TextLeaf(root + ":title", text.title, None), Boundary, second, Boundary, third] + BlocksItems(e.body, root, 0)
  {
    if x.visible {
      var root := "section:" + x.id;
      match x
      case SummarySection(_, _, title, _, body) =>
        OneGroup(Group(root, Lead(root + ":head", title) + BlocksItems(body, root, 0), true));
      case EntrySection(_, _, title, _, entries) =>
        HeadedItems(Group(root, Lead(root + ":head", title), false), EntryGroups(entries, line, single));
    }
  }
}
