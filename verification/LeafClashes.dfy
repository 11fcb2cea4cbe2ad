/** Exactly when two leaves of a document can share a name, and a valid document in which two do. */
module LeafClashes {
  import opened Contracts
  import opened Strings
  import opened Documents
  import opened TextMap
  import opened LeafWalk
  import opened LeafNames
  import opened Unicode

  // ---- The leaves of a list of items ----

  function Leaves(items: seq<LeafItem>): seq<LeafItem> {
    if items == [] then []
    else (if items[0].TextLeaf? then [items[0]] else []) + Leaves(items[1..])
  }

  lemma {:induction false} LeavesConcat(a: seq<LeafItem>, b: seq<LeafItem>)
    ensures Leaves(a + b) == Leaves(a) + Leaves(b)
  {
    if a == [] {
      assert a + b == b;
    } else {
      LeavesConcat(a[1..], b);
      assert (a + b)[1..] == a[1..] + b && (a + b)[0] == a[0];
    }
  }

  lemma {:induction false} LeafIsThere(items: seq<LeafItem>, leaf: LeafItem)
    requires leaf in Leaves(items)
    ensures leaf in items
  {
    if items != [] && !(items[0].TextLeaf? && leaf == items[0]) {
      LeafIsThere(items[1..], leaf);
    }
  }

  lemma NameIsThere(items: seq<LeafItem>, leaf: LeafItem)
    requires leaf in items && leaf.TextLeaf?
    ensures leaf.nodeId in LeafIds(items)
  {
    var i :| 0 <= i < |items| && items[i] == leaf;
    var k := LeafIdAmong(items, i);
  }

  // ---- A body with one leaf, at the end of a given way ----

  const LETTER: RichBlock := Paragraph([Text("x", [])])

  function BodyAt(steps: seq<Step>): seq<RichBlock> {
    if steps == [] then [LETTER]
    else Blanks(steps[0].block) + [List(false, None, Hollow(steps[0].item) + [ListItem(BodyAt(steps[1..]))])]
  }

  function Blanks(n: nat): seq<RichBlock> {
    if n == 0 then [] else [Paragraph([])] + Blanks(n - 1)
  }

  function Hollow(n: nat): seq<ListItem> {
    if n == 0 then [] else [ListItem([])] + Hollow(n - 1)
  }

  lemma BlockThenRest(block: RichBlock, rest: seq<RichBlock>, path: string, b: nat)
    ensures BlocksItems([block] + rest, path, b) == BlockItems(block, path + ":b" + Decimal(b)) + BlocksItems(rest, path, b + 1)
  {
    assert ([block] + rest)[1..] == rest;
  }

  lemma {:induction false} AfterBlanks(n: nat, block: RichBlock, path: string, b: nat, at: nat)
    requires at == b + n
    ensures Leaves(BlocksItems(Blanks(n) + [block], path, b)) == Leaves(BlockItems(block, path + ":b" + Decimal(at)))
  {
    if n == 0 {
      assert Blanks(n) + [block] == [block] + [];
      BlockThenRest(block, [], path, b);
      assert BlocksItems([], path, b + 1) == [];
      NothingAfter(BlockItems(block, path + ":b" + Decimal(b)));
    } else {
      AfterBlanks(n - 1, block, path, b + 1, at);
      OneBlank(Blanks(n - 1) + [block], path, b);
      MoreBlanks(n, block);
    }
  }

  lemma MoreBlanks(n: nat, block: RichBlock)
    requires n > 0
    ensures Blanks(n) + [block] == [Paragraph([])] + (Blanks(n - 1) + [block])
  {
  }

  lemma NothingAfter(items: seq<LeafItem>)
    ensures items + [] == items
  {
  }

  lemma OneBlank(rest: seq<RichBlock>, path: string, b: nat)
    ensures Leaves(BlocksItems([Paragraph([])] + rest, path, b)) == Leaves(BlocksItems(rest, path, b + 1))
  {
    BlockThenRest(Paragraph([]), rest, path, b);
    BlankHasNoLeaf(path + ":b" + Decimal(b));
    LeavesConcat(BlockItems(Paragraph([]), path + ":b" + Decimal(b)), BlocksItems(rest, path, b + 1));
  }

  lemma BlankHasNoLeaf(path: string)
    ensures Leaves(BlockItems(Paragraph([]), path)) == []
  {
    assert BlockItems(Paragraph([]), path) == [Boundary];
    assert [Boundary][1..] == [];
  }

  lemma ItemThenRest(item: ListItem, rest: seq<ListItem>, path: string, i: nat)
    ensures ListItems([item] + rest, path, i) == BlocksItems(item.blocks, path + ":i" + Decimal(i), 0) + ListItems(rest, path, i + 1)
  {
    assert ([item] + rest)[1..] == rest;
  }

  lemma {:induction false} AfterHollow(n: nat, item: ListItem, path: string, i: nat, at: nat)
    requires at == i + n
    ensures ListItems(Hollow(n) + [item], path, i) == BlocksItems(item.blocks, path + ":i" + Decimal(at), 0)
  {
    if n == 0 {
      assert Hollow(n) + [item] == [item] + [];
      ItemThenRest(item, [], path, i);
      assert ListItems([], path, i + 1) == [];
      NothingAfter(BlocksItems(item.blocks, path + ":i" + Decimal(i), 0));
    } else {
      AfterHollow(n - 1, item, path, i + 1, at);
      assert Hollow(n) + [item] == [ListItem([])] + (Hollow(n - 1) + [item]);
      OneHollow(Hollow(n - 1) + [item], path, i);
    }
  }

  lemma OneHollow(rest: seq<ListItem>, path: string, i: nat)
    ensures ListItems([ListItem([])] + rest, path, i) == ListItems(rest, path, i + 1)
  {
    ItemThenRest(ListItem([]), rest, path, i);
    assert BlocksItems([], path + ":i" + Decimal(i), 0) == [];
  }

  function Letter(id: string): LeafItem {
    TextLeaf(id, "x", None)
  }

  lemma LetterAlone(leaf: LeafItem)
    requires leaf.TextLeaf?
    ensures Leaves([Boundary] + [leaf]) == [leaf]
  {
    assert ([Boundary] + [leaf])[1..] == [leaf] && [leaf][1..] == [];
    assert Leaves([leaf]) == [leaf] + Leaves([]);
  }

  lemma LetterAt(path: string)
    ensures Leaves(BlocksItems([LETTER], path, 0)) == [Letter(path + LastWord(0, 0))]
  {
    var here := path + ":b" + Decimal(0);
    var leaf := Letter(here + ":l" + Decimal(0));
    var inlines := [Text("x", [])];
    assert inlines[1..] == [];
    assert FlattenInto([], here, 1, None) == Flattened([], 1);
    assert FlattenInto(inlines, here, 0, None).items == [leaf];
    assert BlockItems(LETTER, here) == [Boundary] + [leaf];
    LetterAlone(leaf);
    assert Blanks(0) + [LETTER] == [LETTER];
    AfterBlanks(0, LETTER, path, 0, 0);
    assert here + ":l" + Decimal(0) == path + LastWord(0, 0);
  }

  /** One level: the leaves are those of the body one step further down. */
  lemma LevelDown(step: Step, inner: seq<RichBlock>, path: string)
    ensures Leaves(BlocksItems(Blanks(step.block) + [List(false, None, Hollow(step.item) + [ListItem(inner)])], path, 0)) ==
            Leaves(BlocksItems(inner, path + ":b" + Decimal(step.block) + ":i" + Decimal(step.item), 0))
  {
    var items := Hollow(step.item) + [ListItem(inner)];
    AfterBlanks(step.block, List(false, None, items), path, 0, step.block);
    AfterHollow(step.item, ListItem(inner), path + ":b" + Decimal(step.block), 0, step.item);
  }

  lemma {:induction false} BodyAtHasTheLeaf(steps: seq<Step>, path: string)
    ensures Leaves(BlocksItems(BodyAt(steps), path, 0)) == [Letter(path + LeafWord(steps, 0, 0))]
  {
    if steps == [] {
      LetterAt(path);
      assert LeafWord(steps, 0, 0) == LastWord(0, 0);
    } else {
      var step, rest := steps[0], steps[1..];
      var deep := path + ":b" + Decimal(step.block) + ":i" + Decimal(step.item);
      LevelDown(step, BodyAt(rest), path);
      BodyAtHasTheLeaf(rest, deep);
      OneStepMore(path, step, rest, 0, 0);
      assert [step] + rest == steps;
      Associates(path, StepWord(step), LeafWord(rest, 0, 0));
    }
  }

  // ---- These bodies are valid ----

  lemma {:induction false} BlanksAreGood(n: nat, room: int)
    requires room >= 0
    ensures forall b :: b in Blanks(n) ==> GoodBlock(b) && NestsWithin(b, room)
  {
    if n > 0 {
      BlanksAreGood(n - 1, room);
    }
  }

  lemma {:induction false} HollowIsHollow(n: nat)
    ensures forall item :: item in Hollow(n) ==> item == ListItem([])
  {
    if n > 0 {
      HollowIsHollow(n - 1);
    }
  }

  lemma ListIsGood(item: nat, inner: seq<RichBlock>, room: int)
    requires room >= 1 && GoodBlocks(inner, room - 1)
    ensures var list := List(false, None, Hollow(item) + [ListItem(inner)]); GoodBlock(list) && NestsWithin(list, room)
  {
    HollowIsHollow(item);
    var list := List(false, None, Hollow(item) + [ListItem(inner)]);
    forall x | x in list.items ensures GoodItem(x) && ItemNestsWithin(x, room - 1) {
      assert x == ListItem(inner) || x == ListItem([]);
    }
  }

  lemma {:induction false} BodyAtIsGood(steps: seq<Step>, room: int)
    requires |steps| <= room
    ensures GoodBlocks(BodyAt(steps), room)
  {
    if steps == [] {
      assert GoodBlock(LETTER) && NestsWithin(LETTER, room);
    } else {
      BodyAtIsGood(steps[1..], room - 1);
      BlanksAreGood(steps[0].block, room);
      ListIsGood(steps[0].item, BodyAt(steps[1..]), room);
    }
  }

  // ---- Two bodies ----

  /** Two leaves that are printed have one name. */
  predicate IsClash(x: LeafItem, y: LeafItem) {
    IsLeaf(x) && IsLeaf(y) && x.nodeId == y.nodeId
  }

  ghost predicate Clash(xs: seq<LeafItem>, ys: seq<LeafItem>) {
    exists x, y :: x in xs && y in ys && IsClash(x, y)
  }

  ghost predicate NeverClash(a: string, b: string) {
    forall xs, ys :: GoodBody(xs) && GoodBody(ys) ==> !Clash(BlocksItems(xs, a, 0), BlocksItems(ys, b, 0))
  }

  lemma SafeRootsNeverClash(a: string, b: string)
    requires AreSafe(a, b)
    ensures NeverClash(a, b)
  {
    forall xs, ys | GoodBody(xs) && GoodBody(ys) ensures !Clash(BlocksItems(xs, a, 0), BlocksItems(ys, b, 0)) {
      var s, t := BlocksItems(xs, a, 0), BlocksItems(ys, b, 0);
      BodyNamesAreNames(xs, a);
      BodyNamesAreNames(ys, b);
      SafeRootsAreApart(LeafIds(s), a, LeafIds(t), b);
      forall x, y | x in s && y in t ensures !IsClash(x, y) {
        if x.TextLeaf? && y.TextLeaf? {
          NameIsThere(s, x);
          NameIsThere(t, y);
        }
      }
    }
  }

  /** The way from one root to the other leads to a body in which a leaf has the name of the other body's letter. */
  lemma WayClashes(a: string, b: string, steps: seq<Step>)
    requires b == a + Word(steps)
    ensures Letter(b + LastWord(0, 0)) in BlocksItems(BodyAt(steps), a, 0)
    ensures Letter(b + LastWord(0, 0)) in BlocksItems([LETTER], b, 0)
  {
    BodyAtHasTheLeaf(steps, a);
    LetterAt(b);
    assert a + LeafWord(steps, 0, 0) == b + LastWord(0, 0);
    LeafIsThere(BlocksItems(BodyAt(steps), a, 0), Letter(b + LastWord(0, 0)));
    LeafIsThere(BlocksItems([LETTER], b, 0), Letter(b + LastWord(0, 0)));
  }

  lemma ReachedRootsClash(a: string, b: string)
    requires Reaches(a, b)
    ensures !NeverClash(a, b) && !NeverClash(b, a)
  {
    var steps :| |steps| <= MAX_LIST_DEPTH && b == a + Word(steps);
    WayClashes(a, b, steps);
    BodyAtIsGood(steps, MAX_LIST_DEPTH);
    BodyAtIsGood([], MAX_LIST_DEPTH);
    var leaf := Letter(b + LastWord(0, 0));
    assert IsClash(leaf, leaf) && BodyAt([]) == [LETTER];
    assert Clash(BlocksItems(BodyAt(steps), a, 0), BlocksItems([LETTER], b, 0));
    assert Clash(BlocksItems([LETTER], b, 0), BlocksItems(BodyAt(steps), a, 0));
  }

  /**
   * Valid bodies under two roots never hold leaves of one name, whatever they contain, exactly when neither root is
   * the other one or the path of an item below it, at most eight lists down.
   */
  lemma RootsNeverClashExactlyWhen(a: string, b: string)
    ensures NeverClash(a, b) <==> AreSafe(a, b)
  {
    if AreSafe(a, b) {
      SafeRootsNeverClash(a, b);
    } else if Reaches(a, b) {
      ReachedRootsClash(a, b);
    } else {
      ReachedRootsClash(b, a);
    }
  }

  // ---- Two groups of a document ----

  lemma {:induction false} GroupItemsAreThere(groups: seq<Group>, i: nat, leaf: LeafItem)
    requires i < |groups| && leaf in groups[i].items
    ensures leaf in ItemsOf(groups)
  {
    if i < |groups| - 1 {
      GroupItemsAreThere(groups[..|groups| - 1], i, leaf);
    }
  }

  /** One name in two groups is one name at two places of the whole. */
  lemma {:induction false} ClashInGroups(groups: seq<Group>, i: nat, j: nat, leaf: LeafItem)
    requires i < j < |groups| && leaf in groups[i].items && leaf in groups[j].items && IsLeaf(leaf)
    ensures !DistinctLeaves(ItemsOf(groups))
  {
    var init, last := groups[..|groups| - 1], groups[|groups| - 1];
    var all := ItemsOf(groups);
    if j < |groups| - 1 {
      ClashInGroups(init, i, j, leaf);
      var k, m :| 0 <= k < m < |ItemsOf(init)| && IsClash(ItemsOf(init)[k], ItemsOf(init)[m]);
      assert all[k] == ItemsOf(init)[k] && all[m] == ItemsOf(init)[m];
      assert IsClash(all[k], all[m]);
    } else {
      GroupItemsAreThere(init, i, leaf);
      var k :| 0 <= k < |ItemsOf(init)| && ItemsOf(init)[k] == leaf;
      var m :| 0 <= m < |last.items| && last.items[m] == leaf;
      assert all[k] == leaf && all[|ItemsOf(init)| + m] == leaf;
    }
  }

  // ---- Whole documents ----

  /** The same section but for texts and bodies: identity, kind, visibility and entries in the same order. */
  predicate SameFrame(x: Section, y: Section) {
    && x.id == y.id && x.visible == y.visible && (x.EntrySection? <==> y.EntrySection?)
    && |EntriesOf(x)| == |EntriesOf(y)| && forall i :: 0 <= i < |EntriesOf(x)| ==> EntriesOf(x)[i].id == EntriesOf(y)[i].id
  }

  predicate SameFrames(ss: seq<Section>, tt: seq<Section>) {
    |ss| == |tt| && forall i :: 0 <= i < |ss| ==> SameFrame(ss[i], tt[i])
  }

  predicate SameRoots(gs: seq<Group>, hs: seq<Group>) {
    |gs| == |hs| && forall i :: 0 <= i < |gs| ==> gs[i].root == hs[i].root && gs[i].hasBody == hs[i].hasBody
  }

  lemma FrameGivesRoots(x: Section, y: Section, line: Entry -> HeadLine, single: bool)
    requires SameFrame(x, y)
    ensures SameRoots(SectionGroups(x, line, single), SectionGroups(y, line, single))
  {
  }

  lemma {:induction false} FramesGiveRoots(ss: seq<Section>, tt: seq<Section>, line: Entry -> HeadLine, single: bool)
    requires SameFrames(ss, tt)
    ensures SameRoots(Groups(ss, line, single), Groups(tt, line, single))
  {
    if ss != [] {
      var n := |ss| - 1;
      assert SameFrames(ss[..n], tt[..n]);
      FramesGiveRoots(ss[..n], tt[..n], line, single);
      FrameGivesRoots(ss[n], tt[n], line, single);
      RootsJoin(Groups(ss[..n], line, single), SectionGroups(ss[n], line, single),
                Groups(tt[..n], line, single), SectionGroups(tt[n], line, single));
    }
  }

  lemma RootsJoin(a: seq<Group>, b: seq<Group>, c: seq<Group>, d: seq<Group>)
    requires SameRoots(a, c) && SameRoots(b, d)
    ensures SameRoots(a + b, c + d)
  {
  }

  // ---- The roots of a valid document differ ----

  predicate IsRootOf(root: string, x: Section) {
    root == "section:" + x.id || exists e :: e in EntriesOf(x) && root == "entry:" + e.id
  }

  ghost predicate RootsAreOf(groups: seq<Group>, ss: seq<Section>) {
    forall g :: g in groups ==> exists x :: x in ss && IsRootOf(g.root, x)
  }

  lemma SectionRoots(x: Section, line: Entry -> HeadLine, single: bool)
    ensures forall g :: g in SectionGroups(x, line, single) ==> IsRootOf(g.root, x)
  {
    if x.EntrySection? && x.visible {
      var groups := EntryGroups(x.entries, line, single);
      forall g | g in groups ensures IsRootOf(g.root, x) {
        var i :| 0 <= i < |groups| && groups[i] == g;
        assert x.entries[i] in EntriesOf(x);
      }
    }
  }

  lemma PrefixesDiffer(a: string, b: string)
    ensures "section:" + a != "entry:" + b
    ensures "section:" + a == "section:" + b ==> a == b
    ensures "entry:" + a == "entry:" + b ==> a == b
  {
    assert ("section:" + a)[0] == 's' && ("entry:" + b)[0] == 'e';
    assert ("section:" + a)[8..] == a && ("section:" + b)[8..] == b;
    assert ("entry:" + a)[6..] == a && ("entry:" + b)[6..] == b;
  }

  predicate RootsDiffer(groups: seq<Group>) {
    forall i, j :: 0 <= i < j < |groups| ==> groups[i].root != groups[j].root
  }

  lemma SectionRootsDiffer(x: Section, line: Entry -> HeadLine, single: bool)
    requires ValidSection(x)
    ensures RootsDiffer(SectionGroups(x, line, single))
  {
    if x.EntrySection? && x.visible {
      var groups := SectionGroups(x, line, single);
      forall i, j | 0 <= i < j < |groups| ensures groups[i].root != groups[j].root {
        assert groups[j].root == "entry:" + x.entries[j - 1].id;
        if i == 0 {
          PrefixesDiffer(x.id, x.entries[j - 1].id);
        } else {
          PrefixesDiffer(x.entries[i - 1].id, x.entries[j - 1].id);
          assert EntriesOf(x)[i - 1].id != EntriesOf(x)[j - 1].id;
        }
      }
    }
  }

  lemma OtherSectionsRoot(x: Section, y: Section, root: string)
    requires x.id != y.id && EntryIds(x) !! EntryIds(y) && IsRootOf(root, x)
    ensures !IsRootOf(root, y)
  {
    PrefixesDiffer(x.id, y.id);
    if root == "section:" + x.id {
      forall e | e in EntriesOf(y) ensures root != "entry:" + e.id {
        PrefixesDiffer(x.id, e.id);
      }
    } else {
      var e :| e in EntriesOf(x) && root == "entry:" + e.id;
      PrefixesDiffer(y.id, e.id);
      assert e.id in EntryIds(x);
      forall f | f in EntriesOf(y) ensures root != "entry:" + f.id {
        PrefixesDiffer(e.id, f.id);
        assert f.id in EntryIds(y);
      }
    }
  }

  lemma {:induction false} ValidRootsDiffer(ss: seq<Section>, line: Entry -> HeadLine, single: bool)
    requires ValidSections(ss)
    ensures RootsDiffer(Groups(ss, line, single)) && RootsAreOf(Groups(ss, line, single), ss)
  {
    if ss != [] {
      var init, last := ss[..|ss| - 1], ss[|ss| - 1];
      ValidRootsDiffer(init, line, single);
      SectionRootsDiffer(last, line, single);
      SectionRoots(last, line, single);
      var before, groups := Groups(init, line, single), SectionGroups(last, line, single);
      forall g, h | g in before && h in groups ensures g.root != h.root {
        var x :| x in init && IsRootOf(g.root, x);
        InitIsApart(ss, x);
        OtherSectionsRoot(x, last, g.root);
      }
      JoinedRootsDiffer(before, groups);
      forall g | g in before + groups ensures exists x :: x in ss && IsRootOf(g.root, x) {
        if g in before {
          var x :| x in init && IsRootOf(g.root, x);
          assert x in ss;
        }
      }
    }
  }

  lemma InitIsApart(ss: seq<Section>, x: Section)
    requires ss != [] && ValidSections(ss) && x in ss[..|ss| - 1]
    ensures x.id != ss[|ss| - 1].id && EntryIds(x) !! EntryIds(ss[|ss| - 1])
  {
    var i :| 0 <= i < |ss| - 1 && ss[i] == x;
  }

  lemma JoinedRootsDiffer(a: seq<Group>, b: seq<Group>)
    requires RootsDiffer(a) && RootsDiffer(b) && forall g, h :: g in a && h in b ==> g.root != h.root
    ensures RootsDiffer(a + b)
  {
    forall i, j | 0 <= i < j < |a + b| ensures (a + b)[i].root != (a + b)[j].root {
      if i < |a| <= j {
        assert a[i] in a && b[j - |a|] in b;
      }
    }
  }

  // ---- Other bodies in the same document ----

  function Refill(ss: seq<Section>, body: string -> seq<RichBlock>): (tt: seq<Section>)
    ensures |tt| == |ss| && forall i :: 0 <= i < |ss| ==> tt[i] == RefillSection(ss[i], body)
  {
    seq(|ss|, i requires 0 <= i < |ss| => RefillSection(ss[i], body))
  }

  /** The section with the body that is chosen for each root. */
  function RefillSection(x: Section, body: string -> seq<RichBlock>): Section {
    match x
    case SummarySection(id, kind, title, visible, _) => SummarySection(id, kind, title, visible, body("section:" + id))
    case EntrySection(id, kind, title, visible, entries) => EntrySection(id, kind, title, visible, RefillEntries(entries, body))
  }

  function RefillEntries(es: seq<Entry>, body: string -> seq<RichBlock>): (r: seq<Entry>)
    ensures |r| == |es| && forall i :: 0 <= i < |es| ==> r[i] == es[i].(body := body("entry:" + es[i].id))
  {
    seq(|es|, i requires 0 <= i < |es| => es[i].(body := body("entry:" + es[i].id)))
  }

  lemma RefilledEntryIds(x: Section, body: string -> seq<RichBlock>)
    ensures EntryIds(RefillSection(x, body)) == EntryIds(x) && SameFrame(x, RefillSection(x, body))
  {
    var y := RefillSection(x, body);
    forall id ensures id in EntryIds(y) <==> id in EntryIds(x) {
      if id in EntryIds(x) {
        var e :| e in EntriesOf(x) && e.id == id;
        var i :| 0 <= i < |EntriesOf(x)| && EntriesOf(x)[i] == e;
        assert EntriesOf(y)[i] in EntriesOf(y);
      }
      if id in EntryIds(y) {
        var e :| e in EntriesOf(y) && e.id == id;
        var i :| 0 <= i < |EntriesOf(y)| && EntriesOf(y)[i] == e;
        assert EntriesOf(x)[i] in EntriesOf(x);
      }
    }
  }

  ghost predicate AllGood(body: string -> seq<RichBlock>) {
    forall root :: GoodBody(body(root))
  }

  lemma GoodAt(body: string -> seq<RichBlock>, root: string)
    requires AllGood(body)
    ensures GoodBody(body(root))
  {
  }

  lemma RefilledEntriesAreValid(es: seq<Entry>, body: string -> seq<RichBlock>)
    requires ValidEntries(es) && AllGood(body)
    ensures ValidEntries(RefillEntries(es, body))
  {
    var r := RefillEntries(es, body);
    forall i, j | 0 <= i < j < |r| ensures r[i].id != r[j].id {
      assert es[i].id != es[j].id;
    }
    forall e | e in r ensures !IsBlank(e.id) && GoodBody(e.body) {
      var i :| 0 <= i < |r| && r[i] == e;
      assert es[i] in es;
      GoodAt(body, "entry:" + es[i].id);
    }
  }

  lemma RefilledSectionIsValid(x: Section, body: string -> seq<RichBlock>)
    requires ValidSection(x) && AllGood(body)
    ensures ValidSection(RefillSection(x, body))
  {
    match x
    case EntrySection(_, _, _, _, entries) =>
      assert EntriesOf(x) == entries;
      RefilledEntriesAreValid(entries, body);
    case SummarySection(id, _, _, _, _) => GoodAt(body, "section:" + id);
  }

  lemma RefillIsValid(ss: seq<Section>, body: string -> seq<RichBlock>)
    requires ValidSections(ss) && AllGood(body)
    ensures ValidSections(Refill(ss, body)) && SameFrames(ss, Refill(ss, body))
  {
    forall i | 0 <= i < |ss|
      ensures ValidSection(Refill(ss, body)[i]) && SameFrame(ss[i], Refill(ss, body)[i])
      ensures EntryIds(Refill(ss, body)[i]) == EntryIds(ss[i])
    {
      RefilledSectionIsValid(ss[i], body);
      RefilledEntryIds(ss[i], body);
    }
  }

  /** The group holds the body that was chosen for its root. */
  predicate HoldsBody(g: Group, body: string -> seq<RichBlock>) {
    g.hasBody ==> forall leaf :: leaf in BlocksItems(body(g.root), g.root, 0) ==> leaf in g.items
  }

  lemma SectionHoldsBodies(x: Section, body: string -> seq<RichBlock>, line: Entry -> HeadLine, single: bool)
    ensures forall g :: g in SectionGroups(RefillSection(x, body), line, single) ==> HoldsBody(g, body)
  {
  }

  lemma {:induction false} GroupsHoldBodies(ss: seq<Section>, body: string -> seq<RichBlock>, line: Entry -> HeadLine, single: bool)
    ensures forall g :: g in Groups(Refill(ss, body), line, single) ==> HoldsBody(g, body)
  {
    if ss != [] {
      var n := |ss| - 1;
      GroupsHoldBodies(ss[..n], body, line, single);
      SectionHoldsBodies(ss[n], body, line, single);
      assert Refill(ss, body)[..n] == Refill(ss[..n], body);
    }
  }

  // ---- Exactly when a document is safe ----

  /** However its texts and bodies are changed, a valid document with these IDs has no two leaves of one name. */
  ghost predicate AlwaysDistinct(ss: seq<Section>, line: Entry -> HeadLine, single: bool) {
    forall tt :: ValidSections(tt) && SameFrames(ss, tt) ==> DistinctLeaves(ItemsOf(Groups(tt, line, single)))
  }

  lemma SafeIsDistinct(ss: seq<Section>, tt: seq<Section>, line: Entry -> HeadLine, single: bool)
    requires RootsAreSafe(Groups(ss, line, single)) && ValidSections(tt) && SameFrames(ss, tt)
    ensures DistinctLeaves(ItemsOf(Groups(tt, line, single)))
  {
    FramesGiveRoots(ss, tt, line, single);
    var gs, hs := Groups(ss, line, single), Groups(tt, line, single);
    forall i, j | 0 <= i < j < |hs| ensures GroupsAreSafe(hs[i], hs[j]) {
      assert GroupsAreSafe(gs[i], gs[j]);
    }
    LeavesAreDistinct(tt, line, single);
  }

  function Chosen(a: string, steps: seq<Step>): string -> seq<RichBlock> {
    (root: string) => if root == a then BodyAt(steps) else [LETTER]
  }

  lemma ChosenAreGood(a: string, steps: seq<Step>)
    requires |steps| <= MAX_LIST_DEPTH
    ensures AllGood(Chosen(a, steps))
  {
    BodyAtIsGood(steps, MAX_LIST_DEPTH);
    BodyAtIsGood([], MAX_LIST_DEPTH);
  }

  /** If one root reaches another, some bodies make the document clash. */
  lemma ReachingClashes(ss: seq<Section>, line: Entry -> HeadLine, single: bool, i: nat, j: nat)
    requires ValidSections(ss)
    requires var gs := Groups(ss, line, single);
             i < |gs| && j < |gs| && gs[i].root != gs[j].root && gs[i].hasBody && gs[j].hasBody && Reaches(gs[i].root, gs[j].root)
    ensures !AlwaysDistinct(ss, line, single)
  {
    var gs := Groups(ss, line, single);
    var steps :| |steps| <= MAX_LIST_DEPTH && gs[j].root == gs[i].root + Word(steps);
    var tt := Refill(ss, Chosen(gs[i].root, steps));
    ChosenAreGood(gs[i].root, steps);
    RefillIsValid(ss, Chosen(gs[i].root, steps));
    FramesGiveRoots(ss, tt, line, single);
    GroupsHoldBodies(ss, Chosen(gs[i].root, steps), line, single);
    var hs := Groups(tt, line, single);
    ChosenBodiesClash(hs, i, j, steps);
  }

  lemma ChosenBodiesClash(hs: seq<Group>, i: nat, j: nat, steps: seq<Step>)
    requires i < |hs| && j < |hs| && hs[i].root != hs[j].root && hs[i].hasBody && hs[j].hasBody
    requires hs[j].root == hs[i].root + Word(steps)
    requires HoldsBody(hs[i], Chosen(hs[i].root, steps)) && HoldsBody(hs[j], Chosen(hs[i].root, steps))
    ensures !DistinctLeaves(ItemsOf(hs))
  {
    var leaf := Letter(hs[j].root + LastWord(0, 0));
    WayClashes(hs[i].root, hs[j].root, steps);
    assert leaf in hs[i].items && leaf in hs[j].items;
    ClashInGroups(hs, if i < j then i else j, if i < j then j else i, leaf);
  }

  /**
   * For every valid document: no other texts and bodies under the same IDs make two leaves share a name, if and only
   * if no root with a body reaches another one.
   */
  lemma DocumentIsSafeExactlyWhen(ss: seq<Section>, line: Entry -> HeadLine, single: bool)
    requires ValidSections(ss)
    ensures AlwaysDistinct(ss, line, single) <==> RootsAreSafe(Groups(ss, line, single))
  {
    var gs := Groups(ss, line, single);
    if RootsAreSafe(gs) {
      forall tt | ValidSections(tt) && SameFrames(ss, tt) ensures DistinctLeaves(ItemsOf(Groups(tt, line, single))) {
        SafeIsDistinct(ss, tt, line, single);
      }
    } else {
      ValidRootsDiffer(ss, line, single);
      var i, j :| 0 <= i < j < |gs| && !GroupsAreSafe(gs[i], gs[j]);
      if Reaches(gs[i].root, gs[j].root) {
        ReachingClashes(ss, line, single, i, j);
      } else {
        ReachingClashes(ss, line, single, j, i);
      }
    }
  }

  // ---- A valid document in which two leaves share a name ----

  const NESTED: Entry := Entry("a", map[], BodyAt([Step(0, 0)]))
  const BELOW: Entry := Entry("a:b0:i0", map[], [LETTER])
  const CLASHING: Section := EntrySection("s", Work, "", true, [NESTED, BELOW])

  lemma ClashingIsValid()
    ensures ValidSections([CLASHING])
  {
    BodyAtIsGood([Step(0, 0)], MAX_LIST_DEPTH);
    BodyAtIsGood([], MAX_LIST_DEPTH);
    assert GoodBody(NESTED.body) && GoodBody(BELOW.body);
    assert NESTED.id[0] == 'a' && BELOW.id[0] == 'a' && CLASHING.id[0] == 's';
    assert 'a' in NESTED.id && 'a' in BELOW.id && 's' in CLASHING.id;
    assert |NESTED.id| != |BELOW.id|;
    assert EntriesOf(CLASHING) == [NESTED, BELOW];
    assert ValidEntries([NESTED, BELOW]);
  }

  lemma OneSection(x: Section, line: Entry -> HeadLine, single: bool)
    ensures Groups([x], line, single) == SectionGroups(x, line, single)
  {
    assert [x][..0] == [];
    assert Groups([], line, single) == [];
  }

  /** The only item of the first entry's list and the second entry have one path. */
  lemma DocumentDoesClash(d: ResumeDocument, line: Entry -> HeadLine, single: bool)
    requires !IsBlank(d.documentId) && !IsBlank(d.title)
    ensures var e := d.(sections := [CLASHING]); Valid(e) && !DistinctLeaves(ItemsOf(Groups(e.sections, line, single)))
  {
    ClashingIsValid();
    OneSection(CLASHING, line, single);
    var gs := Groups([CLASHING], line, single);
    assert gs[1] == EntryGroup(NESTED, line, single) && gs[2] == EntryGroup(BELOW, line, single);
    WordOfFirst();
    WayClashes(gs[1].root, gs[2].root, [Step(0, 0)]);
    ClashInGroups(gs, 1, 2, Letter(gs[2].root + LastWord(0, 0)));
  }

  lemma WordOfFirst()
    ensures "entry:" + "a:b0:i0" == "entry:" + "a" + Word([Step(0, 0)])
  {
    assert [Step(0, 0)][1..] == [];
    assert Decimal(0) == "0";
    assert Word([Step(0, 0)]) == ":b" + "0" + ":i" + "0" + "";
  }
}
