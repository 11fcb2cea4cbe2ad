/** The leaves of all sections of a document, and when no two of them share a name. */
module LeafNames {
  import opened Contracts
  import opened Strings
  import opened Documents
  import opened TextMap
  import opened LeafWalk
  import opened Unicode

  // ---- Specification: the leaves under each root ----

  /** What is printed in the head of an entry. */
  datatype HeadLine = HeadLine(title: string, inlineMeta: string, range: string, meta: string)

  /** The leaves whose IDs continue one root, the ID of a section or of an entry; only a section of entries has no body. */
  datatype Group = Group(root: string, items: seq<LeafItem>, hasBody: bool)

  function Lead(id: string, text: string): seq<LeafItem> {
    [Boundary, TextLeaf(id, text, None)]
  }

  function EntryHead(root: string, line: HeadLine, single: bool): seq<LeafItem> {
    if single
    then Lead(root + ":title", line.title) + Lead(root + ":imeta", line.inlineMeta) + Lead(root + ":dates", line.range)
    else Lead(root + ":title", line.title) + Lead(root + ":dates", line.range) + Lead(root + ":meta", line.meta)
  }

  function EntryGroup(e: Entry, line: Entry -> HeadLine, single: bool): Group {
    var root := "entry:" + e.id;
    Group(root, EntryHead(root, line(e), single) + BlocksItems(e.body, root, 0), true)
  }

  function EntryGroups(es: seq<Entry>, line: Entry -> HeadLine, single: bool): (r: seq<Group>)
    ensures |r| == |es| && forall i :: 0 <= i < |es| ==> r[i] == EntryGroup(es[i], line, single)
  {
    seq(|es|, i requires 0 <= i < |es| => EntryGroup(es[i], line, single))
  }

  /** A visible section: its heading, then its entries or its body; a hidden one has no leaves. */
  function SectionGroups(x: Section, line: Entry -> HeadLine, single: bool): seq<Group> {
    if !x.visible then []
    else
      var root := "section:" + x.id;
      match x
      case EntrySection(_, _, title, _, entries) =>
        [Group(root, Lead(root + ":head", title), false)] + EntryGroups(entries, line, single)
      case SummarySection(_, _, title, _, body) =>
        [Group(root, Lead(root + ":head", title) + BlocksItems(body, root, 0), true)]
  }

  function Groups(sections: seq<Section>, line: Entry -> HeadLine, single: bool): seq<Group> {
    if sections == [] then []
    else Groups(sections[..|sections| - 1], line, single) + SectionGroups(sections[|sections| - 1], line, single)
  }

  function ItemsOf(groups: seq<Group>): seq<LeafItem> {
    if groups == [] then [] else ItemsOf(groups[..|groups| - 1]) + groups[|groups| - 1].items
  }

  lemma {:induction false} ItemsConcat(a: seq<Group>, b: seq<Group>)
    ensures ItemsOf(a + b) == ItemsOf(a) + ItemsOf(b)
  {
    if b == [] {
      assert a + b == a;
    } else {
      var init, last := b[..|b| - 1], b[|b| - 1];
      ItemsConcat(a, init);
      assert (a + b)[..|a + b| - 1] == a + init && (a + b)[|a + b| - 1] == last;
      Associates(ItemsOf(a), ItemsOf(init), last.items);
    }
  }

  // ---- The walk over the document ----

  method WalkEntry(e: Entry, line: Entry -> HeadLine, single: bool, out: seq<LeafItem>) returns (grown: seq<LeafItem>)
    ensures grown == out + EntryGroup(e, line, single).items
  {
    var root := "entry:" + e.id;
    var text := line(e);
    var head := Lead(root + ":title", text.title);
    if single {
      head := head + Lead(root + ":imeta", text.inlineMeta);
      head := head + Lead(root + ":dates", text.range);
    } else {
      head := head + Lead(root + ":dates", text.range);
      head := head + Lead(root + ":meta", text.meta);
    }
    grown := WalkBlocks(e.body, root, out + head);
    Associates(out, head, BlocksItems(e.body, root, 0));
  }

  method WalkEntries(entries: seq<Entry>, line: Entry -> HeadLine, single: bool, out: seq<LeafItem>)
    returns (grown: seq<LeafItem>)
    ensures grown == out + ItemsOf(EntryGroups(entries, line, single))
  {
    grown := out;
    for i := 0 to |entries|
      invariant grown == out + ItemsOf(EntryGroups(entries[..i], line, single))
    {
      OneMoreEntry(entries, i, line, single);
      Associates(out, ItemsOf(EntryGroups(entries[..i], line, single)), EntryGroup(entries[i], line, single).items);
      grown := WalkEntry(entries[i], line, single, grown);
    }
    assert entries[..|entries|] == entries;
  }

  lemma OneMoreEntry(es: seq<Entry>, i: nat, line: Entry -> HeadLine, single: bool)
    requires i < |es|
    ensures ItemsOf(EntryGroups(es[..i + 1], line, single)) ==
            ItemsOf(EntryGroups(es[..i], line, single)) + EntryGroup(es[i], line, single).items
  {
    var all := EntryGroups(es[..i + 1], line, single);
    assert all[..i] == EntryGroups(es[..i], line, single);
  }

  method WalkSection(x: Section, line: Entry -> HeadLine, single: bool, out: seq<LeafItem>) returns (grown: seq<LeafItem>)
    ensures grown == out + ItemsOf(SectionGroups(x, line, single))
  {
    grown := out;
    if !x.visible {
      return;
    }
    var root := "section:" + x.id;
    var head := Lead(root + ":head", x.title);
    grown := grown + head;
    match x {
      case EntrySection(_, _, _, _, entries) =>
        grown := WalkEntries(entries, line, single, grown);
        HeadedItems(Group(root, head, false), EntryGroups(entries, line, single));
        Associates(out, head, ItemsOf(EntryGroups(entries, line, single)));
      case SummarySection(_, _, _, _, body) =>
        grown := WalkBlocks(body, root, grown);
        OneGroup(Group(root, head + BlocksItems(body, root, 0), true));
        Associates(out, head, BlocksItems(body, root, 0));
    }
  }

  method WalkSections(sections: seq<Section>, line: Entry -> HeadLine, single: bool) returns (out: seq<LeafItem>)
    ensures out == ItemsOf(Groups(sections, line, single))
  {
    out := [];
    for i := 0 to |sections|
      invariant out == ItemsOf(Groups(sections[..i], line, single))
    {
      OneMoreSection(sections, i, line, single);
      out := WalkSection(sections[i], line, single, out);
    }
    assert sections[..|sections|] == sections;
  }

  lemma OneMoreSection(ss: seq<Section>, i: nat, line: Entry -> HeadLine, single: bool)
    requires i < |ss|
    ensures ItemsOf(Groups(ss[..i + 1], line, single)) ==
            ItemsOf(Groups(ss[..i], line, single)) + ItemsOf(SectionGroups(ss[i], line, single))
  {
    assert ss[..i + 1][..i] == ss[..i];
    ItemsConcat(Groups(ss[..i], line, single), SectionGroups(ss[i], line, single));
  }

  lemma HeadedItems(first: Group, rest: seq<Group>)
    ensures ItemsOf([first] + rest) == first.items + ItemsOf(rest)
  {
    ItemsConcat([first], rest);
    OneGroup(first);
  }

  lemma OneGroup(g: Group)
    ensures ItemsOf([g]) == g.items
  {
    assert [g][..0] == [];
    assert ItemsOf([g]) == [] + g.items;
  }

  // ---- When one root reaches another ----

  /** A way down to an item: the number of a block and the number of an item in it. */
  datatype Step = Step(block: nat, item: nat)

  function StepWord(step: Step): string {
    ":b" + Decimal(step.block) + ":i" + Decimal(step.item)
  }

  function Word(steps: seq<Step>): string {
    if steps == [] then "" else StepWord(steps[0]) + Word(steps[1..])
  }

  /** The second root is the first, or the path of an item below it, not deeper than the lists of a valid body go. */
  ghost predicate Reaches(a: string, b: string) {
    exists steps :: |steps| <= MAX_LIST_DEPTH && b == a + Word(steps)
  }

  ghost predicate AreSafe(a: string, b: string) {
    !Reaches(a, b) && !Reaches(b, a)
  }

  function LastWord(n: nat, k: nat): string {
    ":b" + Decimal(n) + ":l" + Decimal(k)
  }

  function LeafWord(steps: seq<Step>, n: nat, k: nat): string {
    Word(steps) + LastWord(n, k)
  }

  ghost predicate IsBodyWord(w: string) {
    exists steps, n, k :: |steps| <= MAX_LIST_DEPTH && w == LeafWord(steps, n, k)
  }

  predicate IsHeadWord(w: string) {
    w in [":title", ":imeta", ":dates", ":meta", ":head"]
  }

  ghost predicate IsTail(w: string) {
    IsHeadWord(w) || IsBodyWord(w)
  }

  /** The name continues the root as the walk does. */
  ghost predicate IsNameOf(id: string, root: string) {
    root <= id && IsTail(id[|root|..])
  }

  // ---- Names of a body ----

  predicate HasForm(id: string, path: string, w: string) {
    id == path + w
  }

  lemma BodyName(id: string, path: string, steps: seq<Step>, n: nat, k: nat)
    requires HasForm(id, path, LeafWord(steps, n, k)) && |steps| <= MAX_LIST_DEPTH
    ensures IsNameOf(id, path)
  {
    assert id[|path|..] == LeafWord(steps, n, k);
  }

  /** The name of a leaf inside at most `room` lists below the path. */
  ghost predicate IsBodyName(id: string, path: string, room: int) {
    exists steps, n, k :: |steps| <= room && HasForm(id, path, LeafWord(steps, n, k))
  }

  ghost predicate AllBodyNames(ids: seq<string>, path: string, room: int) {
    forall i :: 0 <= i < |ids| ==> IsBodyName(ids[i], path, room)
  }

  lemma OneStepMore(path: string, step: Step, steps: seq<Step>, n: nat, k: nat)
    ensures path + ":b" + Decimal(step.block) + ":i" + Decimal(step.item) == path + StepWord(step)
    ensures LeafWord([step] + steps, n, k) == StepWord(step) + LeafWord(steps, n, k)
  {
    assert ([step] + steps)[1..] == steps;
    assert Word([step] + steps) == StepWord(step) + Word(steps);
  }

  lemma DeeperName(id: string, path: string, step: Step, room: int)
    requires IsBodyName(id, path + ":b" + Decimal(step.block) + ":i" + Decimal(step.item), room - 1)
    ensures IsBodyName(id, path, room)
  {
    var deep := path + ":b" + Decimal(step.block) + ":i" + Decimal(step.item);
    var steps, n, k :| |steps| <= room - 1 && HasForm(id, deep, LeafWord(steps, n, k));
    OneStepMore(path, step, steps, n, k);
    Associates(path, StepWord(step), LeafWord(steps, n, k));
    assert HasForm(id, path, LeafWord([step] + steps, n, k));
  }

  lemma NumberIsName(id: string, path: string, n: nat, to: nat, room: int)
    requires HasNumber(id, path + ":b" + Decimal(n), 0, to) && room >= 0
    ensures IsBodyName(id, path, room)
  {
    var here := path + ":b" + Decimal(n);
    var k: nat :| 0 <= k < to && id == LeafId(here, k);
    var none: seq<Step> := [];
    assert Word(none) == "";
    assert LeafId(here, k) == path + LeafWord(none, n, k);
    assert |none| <= room && HasForm(id, path, LeafWord(none, n, k));
  }

  lemma ParagraphNames(inlines: seq<Inline>, path: string, n: nat, room: int)
    requires room >= 0
    ensures AllBodyNames(LeafIds(BlockItems(Paragraph(inlines), path + ":b" + Decimal(n))), path, room)
  {
    var here := path + ":b" + Decimal(n);
    var flat := FlattenInto(inlines, here, 0, None);
    FlattenDistinct(inlines, here, 0, None);
    BoundaryHasNoLeaf(flat.items);
    var ids := LeafIds(flat.items);
    forall i | 0 <= i < |ids| ensures IsBodyName(ids[i], path, room) {
      assert HasNumber(ids[i], here, 0, flat.next);
      NumberIsName(ids[i], path, n, flat.next, room);
    }
  }

  lemma BoundaryHasNoLeaf(items: seq<LeafItem>)
    ensures LeafIds([Boundary] + items) == LeafIds(items)
  {
    assert ([Boundary] + items)[1..] == items;
  }

  lemma NamesConcat(a: seq<string>, b: seq<string>, path: string, room: int)
    requires AllBodyNames(a, path, room) && AllBodyNames(b, path, room)
    ensures AllBodyNames(a + b, path, room)
  {
  }

  predicate NestWithin(blocks: seq<RichBlock>, room: int) {
    forall i :: 0 <= i < |blocks| ==> NestsWithin(blocks[i], room)
  }

  predicate ItemsNestWithin(items: seq<ListItem>, room: int) {
    forall i :: 0 <= i < |items| ==> NestWithin(items[i].blocks, room)
  }

  lemma ListNests(block: RichBlock, room: int)
    requires NestsWithin(block, room) && block.List?
    ensures ItemsNestWithin(block.items, room - 1)
  {
    forall i, j | 0 <= i < |block.items| && 0 <= j < |block.items[i].blocks|
      ensures NestsWithin(block.items[i].blocks[j], room - 1)
    {
      assert block.items[i] in block.items && ItemNestsWithin(block.items[i], room - 1);
      assert block.items[i].blocks[j] in block.items[i].blocks;
    }
  }

  lemma {:induction false} BlockNames(block: RichBlock, path: string, n: nat, room: int)
    requires NestsWithin(block, room)
    ensures AllBodyNames(LeafIds(BlockItems(block, path + ":b" + Decimal(n))), path, room)
    decreases block, 0
  {
    match block
    case Paragraph(inlines) => ParagraphNames(inlines, path, n, room);
    case List(_, _, items) =>
      ListNests(block, room);
      ItemNames(items, path, n, 0, room);
  }

  lemma {:induction false} ItemNames(items: seq<ListItem>, path: string, n: nat, i: nat, room: int)
    requires ItemsNestWithin(items, room - 1)
    ensures AllBodyNames(LeafIds(ListItems(items, path + ":b" + Decimal(n), i)), path, room)
    decreases items, 1
  {
    if items != [] {
      var here := path + ":b" + Decimal(n) + ":i" + Decimal(i);
      var first := BlocksItems(items[0].blocks, here, 0);
      BlocksNames(items[0].blocks, here, 0, room - 1);
      forall j | 0 <= j < |LeafIds(first)| ensures IsBodyName(LeafIds(first)[j], path, room) {
        DeeperName(LeafIds(first)[j], path, Step(n, i), room);
      }
      ItemNames(items[1..], path, n, i + 1, room);
      var rest := ListItems(items[1..], path + ":b" + Decimal(n), i + 1);
      LeafIdsConcat(first, rest);
      NamesConcat(LeafIds(first), LeafIds(rest), path, room);
    }
  }

  lemma {:induction false} BlocksNames(blocks: seq<RichBlock>, path: string, b: nat, room: int)
    requires NestWithin(blocks, room)
    ensures AllBodyNames(LeafIds(BlocksItems(blocks, path, b)), path, room)
    decreases blocks, 1
  {
    if blocks != [] {
      var first, rest := BlockItems(blocks[0], path + ":b" + Decimal(b)), BlocksItems(blocks[1..], path, b + 1);
      BlockNames(blocks[0], path, b, room);
      BlocksNames(blocks[1..], path, b + 1, room);
      LeafIdsConcat(first, rest);
      NamesConcat(LeafIds(first), LeafIds(rest), path, room);
    }
  }

  // ---- One name under two roots ----

  /** A tail starts with a colon and goes on with the letter of a block or of a head, never with that of a leaf or an item. */
  predicate StartsAsTail(w: string) {
    |w| > 2 && w[0] == ':' && w[1] != 'l' && (w[1] == 'i' ==> !IsDigit(w[2]))
  }

  lemma TailStarts(w: string)
    requires IsTail(w)
    ensures StartsAsTail(w)
  {
    if !IsHeadWord(w) {
      var steps, n, k :| w == LeafWord(steps, n, k);
      if steps != [] {
        assert ":b" <= StepWord(steps[0]);
      }
      assert ":b" <= w && |w| > 2;
      assert w[0] == ":b"[0] && w[1] == ":b"[1];
    }
  }

  lemma DecimalChar(n: nat, i: nat)
    requires i < |Decimal(n)|
    ensures IsDigit(Decimal(n)[i])
  {
    assert Decimal(n)[i] in Decimal(n);
  }

  predicate LeafFollows(whole: string, i: nat) {
    i + 1 < |whole| && whole[i + 1] == 'l'
  }

  predicate ItemFollows(whole: string, i: nat) {
    i + 2 < |whole| && whole[i + 1] == 'i' && IsDigit(whole[i + 2])
  }

  /** In the end of a leaf's name only the part of the leaf starts with a colon after the first one. */
  lemma LastWordColons(n: nat, k: nat, i: nat)
    requires 0 < i < |LastWord(n, k)|
    ensures LastWord(n, k)[i] == ':' ==> LeafFollows(LastWord(n, k), i)
  {
    var at := 2 + |Decimal(n)|;
    if 2 <= i < at {
      DecimalChar(n, i - 2);
      assert LastWord(n, k)[i] == Decimal(n)[i - 2];
    } else if i >= at + 2 {
      DecimalChar(k, i - at - 2);
      assert LastWord(n, k)[i] == Decimal(k)[i - at - 2];
    }
    assert LastWord(n, k)[at + 1] == 'l';
  }

  lemma StepWordColons(step: Step, deeper: string, i: nat)
    requires 0 < i < |StepWord(step)|
    ensures (StepWord(step) + deeper)[i] == ':' ==> ItemFollows(StepWord(step) + deeper, i)
  {
    var at := 2 + |Decimal(step.block)|;
    var whole := StepWord(step) + deeper;
    if 2 <= i < at {
      DecimalChar(step.block, i - 2);
      assert whole[i] == Decimal(step.block)[i - 2];
    } else if i >= at + 2 {
      DecimalChar(step.item, i - at - 2);
      assert whole[i] == Decimal(step.item)[i - at - 2];
    }
    DecimalChar(step.item, 0);
    assert whole[at + 1] == 'i' && whole[at + 2] == Decimal(step.item)[0];
  }

  lemma TailAt(s: string, w: string, whole: string)
    requires StartsAsTail(w) && whole == s + w
    ensures |s| < |whole| && whole[|s|] == ':' && !LeafFollows(whole, |s|) && !ItemFollows(whole, |s|)
  {
    assert whole[|s|] == w[0] && whole[|s| + 1] == w[1] && whole[|s| + 2] == w[2];
  }

  lemma CutSame(front: string, rest: string, s: string, w: string)
    requires front + rest == s + w && |s| >= |front|
    ensures s == front + s[|front|..] && rest == s[|front|..] + w
  {
    assert (front + rest)[..|front|] == front && (s + w)[..|front|] == s[..|front|];
    assert (front + rest)[|front|..] == rest && (s + w)[|front|..] == s[|front|..] + w;
  }

  lemma {:induction false} CutAtStep(steps: seq<Step>, n: nat, k: nat, s: string, w: string) returns (way: seq<Step>)
    requires StartsAsTail(w) && LeafWord(steps, n, k) == s + w
    ensures s == Word(way) && |way| <= |steps|
  {
    way := [];
    TailAt(s, w, LeafWord(steps, n, k));
    if steps == [] {
      assert LeafWord(steps, n, k) == LastWord(n, k);
      if |s| > 0 {
        LastWordColons(n, k, |s|);
      }
    } else {
      var deeper := LeafWord(steps[1..], n, k);
      assert LeafWord(steps, n, k) == StepWord(steps[0]) + deeper;
      if 0 < |s| < |StepWord(steps[0])| {
        StepWordColons(steps[0], deeper, |s|);
      } else if |s| > 0 {
        CutSame(StepWord(steps[0]), deeper, s, w);
        var rest := CutAtStep(steps[1..], n, k, s[|StepWord(steps[0])|..], w);
        way := [steps[0]] + rest;
        assert way[1..] == rest;
      }
    }
  }

  lemma HeadWordColons(v: string, i: nat)
    requires IsHeadWord(v) && i < |v| && v[i] == ':'
    ensures i == 0
  {
  }

  /** The end of a head is a letter, that of a leaf in a body a digit. */
  lemma LastChars(w: string)
    ensures IsHeadWord(w) ==> w != "" && !IsDigit(w[|w| - 1])
    ensures IsBodyWord(w) ==> w != "" && IsDigit(w[|w| - 1])
  {
    if IsBodyWord(w) {
      var steps, n, k :| |steps| <= MAX_LIST_DEPTH && w == LeafWord(steps, n, k);
      assert w[|w| - 1] == Decimal(k)[|Decimal(k)| - 1];
      DecimalChar(k, |Decimal(k)| - 1);
    }
  }

  /** A tail within a tail: what is before it is a way down, and a head is found nowhere but in the same head. */
  lemma CutTail(v: string, s: string, w: string) returns (way: seq<Step>)
    requires IsTail(v) && IsTail(w) && v == s + w
    ensures s == Word(way) && |way| <= MAX_LIST_DEPTH && (IsHeadWord(v) || IsHeadWord(w) ==> s == "")
  {
    way := [];
    TailStarts(w);
    LastChars(v);
    LastChars(w);
    assert v[|v| - 1] == w[|w| - 1];
    if IsHeadWord(v) {
      TailAt(s, w, v);
      HeadWordColons(v, |s|);
    } else {
      var steps, n, k :| |steps| <= MAX_LIST_DEPTH && v == LeafWord(steps, n, k);
      way := CutAtStep(steps, n, k, s, w);
    }
  }

  /** A name that continues two roots leads from the shorter root to the longer, in the body of both. */
  lemma OneNameTwoRoots(id: string, a: string, b: string)
    requires IsNameOf(id, a) && IsNameOf(id, b) && |a| <= |b|
    ensures Reaches(a, b) && (IsHeadWord(id[|a|..]) || IsHeadWord(id[|b|..]) ==> a == b)
  {
    var s := id[|a|..|b|];
    assert b == a + s && id[|a|..] == s + id[|b|..];
    var way := CutTail(id[|a|..], s, id[|b|..]);
    assert b == a + Word(way);
    if s == "" {
      assert a + s == a;
    }
  }

  ghost predicate AllNamesOf(ids: seq<string>, root: string) {
    forall i :: 0 <= i < |ids| ==> IsNameOf(ids[i], root)
  }

  lemma SafeRootsAreApart(xs: seq<string>, a: string, ys: seq<string>, b: string)
    requires AllNamesOf(xs, a) && AllNamesOf(ys, b) && AreSafe(a, b)
    ensures Apart(xs, ys)
  {
    forall i, j | 0 <= i < |xs| && 0 <= j < |ys| ensures xs[i] != ys[j] {
      if xs[i] == ys[j] {
        if |a| <= |b| {
          OneNameTwoRoots(xs[i], a, b);
        } else {
          OneNameTwoRoots(xs[i], b, a);
        }
      }
    }
  }

  lemma BodyNamesAreNames(blocks: seq<RichBlock>, root: string)
    requires GoodBody(blocks)
    ensures AllNamesOf(LeafIds(BlocksItems(blocks, root, 0)), root)
  {
    var ids := LeafIds(BlocksItems(blocks, root, 0));
    assert forall i :: 0 <= i < |blocks| ==> blocks[i] in blocks;
    BlocksNames(blocks, root, 0, MAX_LIST_DEPTH);
    forall i | 0 <= i < |ids| ensures IsNameOf(ids[i], root) {
      assert IsBodyName(ids[i], root, MAX_LIST_DEPTH);
      var steps, n, k :| |steps| <= MAX_LIST_DEPTH && HasForm(ids[i], root, LeafWord(steps, n, k));
      BodyName(ids[i], root, steps, n, k);
    }
  }

  // ---- Groups ----

  ghost predicate AreHeadNames(ids: seq<string>, root: string) {
    forall k :: 0 <= k < |ids| ==> IsNameOf(ids[k], root) && IsHeadWord(ids[k][|root|..])
  }

  /** The leaves of a group have distinct names, each of the group's root, and those without a body names of heads. */
  ghost predicate IsNamed(g: Group) {
    && Distinct(LeafIds(g.items)) && AllNamesOf(LeafIds(g.items), g.root)
    && (!g.hasBody ==> AreHeadNames(LeafIds(g.items), g.root))
  }

  /** The roots differ, and of two with bodies neither reaches the other. */
  ghost predicate GroupsAreSafe(g: Group, h: Group) {
    g.root != h.root && (g.hasBody && h.hasBody ==> AreSafe(g.root, h.root))
  }

  ghost predicate RootsAreSafe(groups: seq<Group>) {
    forall i, j :: 0 <= i < j < |groups| ==> GroupsAreSafe(groups[i], groups[j])
  }

  lemma SafeGroupsAreApart(g: Group, h: Group)
    requires IsNamed(g) && IsNamed(h) && GroupsAreSafe(g, h)
    ensures Apart(LeafIds(g.items), LeafIds(h.items))
  {
    var xs, ys := LeafIds(g.items), LeafIds(h.items);
    forall i, j | 0 <= i < |xs| && 0 <= j < |ys| ensures xs[i] != ys[j] {
      if xs[i] == ys[j] {
        if |g.root| <= |h.root| {
          OneNameTwoRoots(xs[i], g.root, h.root);
        } else {
          OneNameTwoRoots(xs[i], h.root, g.root);
        }
      }
    }
  }

  ghost predicate AllNamed(groups: seq<Group>) {
    forall i :: 0 <= i < |groups| ==> IsNamed(groups[i])
  }

  ghost predicate ApartFromAll(ids: seq<string>, groups: seq<Group>) {
    forall i :: 0 <= i < |groups| ==> Apart(LeafIds(groups[i].items), ids)
  }

  lemma {:induction false} ApartFromItems(groups: seq<Group>, ids: seq<string>)
    requires ApartFromAll(ids, groups)
    ensures Apart(LeafIds(ItemsOf(groups)), ids)
  {
    if groups != [] {
      var init, last := groups[..|groups| - 1], groups[|groups| - 1];
      ApartFromItems(init, ids);
      LeafIdsConcat(ItemsOf(init), last.items);
    }
  }

  lemma {:induction false} GroupsAreDistinct(groups: seq<Group>)
    requires AllNamed(groups) && RootsAreSafe(groups)
    ensures Distinct(LeafIds(ItemsOf(groups)))
  {
    if groups != [] {
      var init, last := groups[..|groups| - 1], groups[|groups| - 1];
      GroupsAreDistinct(init);
      forall i | 0 <= i < |init| ensures Apart(LeafIds(init[i].items), LeafIds(last.items)) {
        assert IsNamed(groups[i]) && IsNamed(last);
        assert GroupsAreSafe(groups[i], groups[|groups| - 1]);
        SafeGroupsAreApart(init[i], last);
      }
      ApartFromItems(init, LeafIds(last.items));
      LeafIdsConcat(ItemsOf(init), last.items);
      assert IsNamed(last);
      DistinctConcat(LeafIds(ItemsOf(init)), LeafIds(last.items));
    }
  }

  // ---- One root ----

  lemma OneLeaf(leaf: LeafItem)
    requires leaf.TextLeaf?
    ensures LeafIds([leaf]) == [leaf.nodeId]
    ensures LeafIds([Boundary] + [leaf]) == [leaf.nodeId]
  {
    assert [leaf][1..] == [] && LeafIds([]) == [];
    assert ([Boundary] + [leaf])[1..] == [leaf];
    assert LeafIds([leaf]) == [leaf.nodeId] + [];
    assert LeafIds([Boundary] + [leaf]) == [] + LeafIds([leaf]);
  }

  lemma LeadIds(id: string, text: string)
    ensures LeafIds(Lead(id, text)) == [id]
  {
    OneLeaf(TextLeaf(id, text, None));
    assert Lead(id, text) == [Boundary] + [TextLeaf(id, text, None)];
  }

  lemma EntryHeadIds(root: string, line: HeadLine, single: bool)
    ensures LeafIds(EntryHead(root, line, single)) ==
            if single then [root + ":title", root + ":imeta", root + ":dates"] else [root + ":title", root + ":dates", root + ":meta"]
  {
    var second := if single then Lead(root + ":imeta", line.inlineMeta) else Lead(root + ":dates", line.range);
    var third := if single then Lead(root + ":dates", line.range) else Lead(root + ":meta", line.meta);
    LeadIds(root + ":title", line.title);
    LeadIds(root + ":imeta", line.inlineMeta);
    LeadIds(root + ":dates", line.range);
    LeadIds(root + ":meta", line.meta);
    LeafIdsConcat(Lead(root + ":title", line.title) + second, third);
    LeafIdsConcat(Lead(root + ":title", line.title), second);
  }

  lemma HeadName(root: string, w: string)
    requires IsHeadWord(w)
    ensures IsNameOf(root + w, root) && (root + w)[|root|..] == w
  {
  }

  lemma HeadNamesDiffer(root: string, v: string, w: string)
    requires v != w
    ensures root + v != root + w
  {
    assert (root + v)[|root|..] == v && (root + w)[|root|..] == w;
  }

  lemma ThreeHeadNames(root: string, u: string, v: string, w: string)
    requires IsHeadWord(u) && IsHeadWord(v) && IsHeadWord(w) && u != v && u != w && v != w
    ensures var ids := [root + u, root + v, root + w]; Distinct(ids) && AreHeadNames(ids, root)
  {
    HeadName(root, u);
    HeadName(root, v);
    HeadName(root, w);
    HeadNamesDiffer(root, u, v);
    HeadNamesDiffer(root, u, w);
    HeadNamesDiffer(root, v, w);
  }

  lemma EntryHeadIsNamed(root: string, line: HeadLine, single: bool)
    ensures var ids := LeafIds(EntryHead(root, line, single)); Distinct(ids) && AreHeadNames(ids, root)
  {
    EntryHeadIds(root, line, single);
    assert ":title"[1] != ":imeta"[1] && ":title"[1] != ":dates"[1] && ":title"[1] != ":meta"[1];
    assert ":imeta"[1] != ":dates"[1] && ":dates"[1] != ":meta"[1];
    if single {
      ThreeHeadNames(root, ":title", ":imeta", ":dates");
    } else {
      ThreeHeadNames(root, ":title", ":dates", ":meta");
    }
  }

  /** A head followed by a body: the letter after the colon tells a name of the head from one of the body. */
  lemma HeadAndBody(root: string, head: seq<LeafItem>, blocks: seq<RichBlock>)
    requires Distinct(LeafIds(head)) && AreHeadNames(LeafIds(head), root) && GoodBody(blocks)
    ensures IsNamed(Group(root, head + BlocksItems(blocks, root, 0), true))
  {
    var body := LeafIds(BlocksItems(blocks, root, 0));
    BlocksDistinct(blocks, root, 0);
    BodyNamesAreNames(blocks, root);
    LeafIdsConcat(head, BlocksItems(blocks, root, 0));
    forall i, j | 0 <= i < |LeafIds(head)| && 0 <= j < |body| ensures LeafIds(head)[i] != body[j] {
      assert UnderStep(body[j], root, ":b", 0);
      BodyNameHasB(body[j], root);
      HeadHasNoB(LeafIds(head)[i], root);
    }
    DistinctConcat(LeafIds(head), body);
  }

  lemma HeadHasNoB(id: string, root: string)
    requires root <= id && IsHeadWord(id[|root|..])
    ensures |id| > |root| + 1 && id[|root| + 1] != 'b'
  {
    assert id[|root| + 1] == id[|root|..][1];
  }

  lemma BodyNameHasB(id: string, root: string)
    requires UnderStep(id, root, ":b", 0)
    ensures |id| > |root| + 1 && id[|root| + 1] == 'b'
  {
    var m: nat :| UnderStepAt(id, root, ":b", m);
    var start := root + ":b" + Decimal(m) + ":";
    assert start[|root| + 1] == 'b' && start <= id;
  }

  lemma SectionGroupsAreNamed(x: Section, line: Entry -> HeadLine, single: bool)
    requires ValidSection(x)
    ensures AllNamed(SectionGroups(x, line, single))
  {
    var root := "section:" + x.id;
    LeadIds(root + ":head", x.title);
    HeadName(root, ":head");
    match x
    case SummarySection(_, _, title, _, body) => HeadAndBody(root, Lead(root + ":head", title), body);
    case EntrySection(_, _, title, _, entries) =>
      forall i | 0 <= i < |entries| ensures IsNamed(EntryGroup(entries[i], line, single)) {
        var here := "entry:" + entries[i].id;
        assert entries[i] in EntriesOf(x);
        EntryHeadIsNamed(here, line(entries[i]), single);
        HeadAndBody(here, EntryHead(here, line(entries[i]), single), entries[i].body);
      }
  }

  lemma {:induction false} GroupsAreNamed(sections: seq<Section>, line: Entry -> HeadLine, single: bool)
    requires forall x :: x in sections ==> ValidSection(x)
    ensures AllNamed(Groups(sections, line, single))
  {
    if sections != [] {
      GroupsAreNamed(sections[..|sections| - 1], line, single);
      SectionGroupsAreNamed(sections[|sections| - 1], line, single);
    }
  }

  // ---- The whole document ----

  /** If the roots are safe, no two leaves of valid sections share a name. */
  lemma LeavesAreDistinct(sections: seq<Section>, line: Entry -> HeadLine, single: bool)
    requires ValidSections(sections) && RootsAreSafe(Groups(sections, line, single))
    ensures DistinctLeaves(ItemsOf(Groups(sections, line, single)))
  {
    var items := ItemsOf(Groups(sections, line, single));
    GroupsAreNamed(sections, line, single);
    GroupsAreDistinct(Groups(sections, line, single));
    forall i, j | 0 <= i < j < |items| && IsLeaf(items[i]) && IsLeaf(items[j]) ensures items[i].nodeId != items[j].nodeId {
      LeafIdsAt(items, i, j);
    }
  }
}
