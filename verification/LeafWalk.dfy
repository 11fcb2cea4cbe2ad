/** The walk over rich blocks that names the leaves, and why no two leaves share a name. */
module LeafWalk {
  import opened Contracts
  import opened Strings
  import opened TextMap
  import opened Unicode

  // ---- Specification: the items a body yields, with their IDs ----

  datatype Flattened = Flattened(items: seq<LeafItem>, next: nat)

  /** Leaves and breaks are numbered through; the children of a link continue the numbering. */
  function FlattenInto(children: seq<Inline>, path: string, n: nat, href: Option<string>): Flattened {
    if children == [] then Flattened([], n)
    else
      var first := FlattenOne(children[0], path, n, href);
      var rest := FlattenInto(children[1..], path, first.next, href);
      Flattened(first.items + rest.items, rest.next)
  }

  function FlattenOne(node: Inline, path: string, n: nat, href: Option<string>): Flattened {
    match node
    case Text(text, _) => Flattened([TextLeaf(path + ":l" + Decimal(n), text, href)], n + 1)
    case Link(target, children) => FlattenInto(children, path, n, Some(target))
    case Break => Flattened([BreakLeaf], n + 1)
  }

  function BlockItems(block: RichBlock, path: string): seq<LeafItem> {
    match block
    case Paragraph(inlines) => [Boundary] + FlattenInto(inlines, path, 0, None).items
    case List(_, _, items) => ListItems(items, path, 0)
  }

  function ListItems(items: seq<ListItem>, path: string, i: nat): seq<LeafItem> {
    if items == [] then []
    else BlocksItems(items[0].blocks, path + ":i" + Decimal(i), 0) + ListItems(items[1..], path, i + 1)
  }

  /** The walk over a block list; the blocks are numbered from b. */
  function BlocksItems(blocks: seq<RichBlock>, path: string, b: nat): seq<LeafItem> {
    if blocks == [] then []
    else BlockItems(blocks[0], path + ":b" + Decimal(b)) + BlocksItems(blocks[1..], path, b + 1)
  }

  // ---- The walkers: each appends to the output ----

  method FlattenInlinesInto(children: seq<Inline>, path: string, leafIndex: nat, out: seq<LeafItem>, href: Option<string>)
    returns (next: nat, grown: seq<LeafItem>)
    ensures var all := FlattenInto(children, path, leafIndex, href);
            grown == out + all.items && next == all.next
    decreases children
  {
    next, grown := leafIndex, out;
    for i := 0 to |children|
      invariant var all := FlattenInto(children, path, leafIndex, href);
                IsUnderway(out + all.items, all.next, grown, next, children[i..], path, href)
    {
      assert children[i..][0] == children[i] && children[i..][1..] == children[i + 1..];
      FlattenStep(grown, next, children[i..], path, href);
      match children[i] {
        case Text(text, _) =>
          grown := grown + [TextLeaf(path + ":l" + Decimal(next), text, href)];
          next := next + 1;
        case Link(target, inner) =>
          next, grown := FlattenInlinesInto(inner, path, next, grown, Some(target));
        case Break =>
          grown := grown + [BreakLeaf];
          next := next + 1;
      }
    }
  }

  /** What the walk has, and what the remaining children add, make the whole. */
  ghost predicate IsUnderway(whole: seq<LeafItem>, end: nat, grown: seq<LeafItem>, next: nat,
                             children: seq<Inline>, path: string, href: Option<string>) {
    var rest := FlattenInto(children, path, next, href);
    whole == grown + rest.items && end == rest.next
  }

  lemma FlattenStep(grown: seq<LeafItem>, next: nat, children: seq<Inline>, path: string, href: Option<string>)
    requires children != []
    ensures var first := FlattenOne(children[0], path, next, href);
            forall whole, end :: IsUnderway(whole, end, grown, next, children, path, href) ==>
              IsUnderway(whole, end, grown + first.items, first.next, children[1..], path, href)
  {
    var first := FlattenOne(children[0], path, next, href);
    Associates(grown, first.items, FlattenInto(children[1..], path, first.next, href).items);
  }

  method WalkBlock(block: RichBlock, path: string, out: seq<LeafItem>) returns (grown: seq<LeafItem>)
    ensures grown == out + BlockItems(block, path)
    decreases block, 0
  {
    match block {
      case Paragraph(inlines) =>
        var next;
        next, grown := FlattenInlinesInto(inlines, path, 0, out + [Boundary], None);
        Associates(out, [Boundary], FlattenInto(inlines, path, 0, None).items);
      case List(_, _, items) =>
        grown := WalkList(items, path, out);
    }
  }

  method WalkList(items: seq<ListItem>, path: string, out: seq<LeafItem>) returns (grown: seq<LeafItem>)
    ensures grown == out + ListItems(items, path, 0)
    decreases items, 0
  {
    grown := out;
    for i := 0 to |items|
      invariant out + ListItems(items, path, 0) == grown + ListItems(items[i..], path, i)
    {
      assert items[i..][0] == items[i] && items[i..][1..] == items[i + 1..];
      grown := WalkBlocks(items[i].blocks, path + ":i" + Decimal(i), grown);
    }
  }

  method WalkBlocks(blocks: seq<RichBlock>, path: string, out: seq<LeafItem>) returns (grown: seq<LeafItem>)
    ensures grown == out + BlocksItems(blocks, path, 0)
    decreases blocks, 1
  {
    grown := out;
    for b := 0 to |blocks|
      invariant out + BlocksItems(blocks, path, 0) == grown + BlocksItems(blocks[b..], path, b)
    {
      assert blocks[b..][0] == blocks[b] && blocks[b..][1..] == blocks[b + 1..];
      grown := WalkBlock(blocks[b], path + ":b" + Decimal(b), grown);
    }
  }

  // ---- No two leaves share an ID ----

  function LeafIds(items: seq<LeafItem>): seq<string> {
    if items == [] then []
    else (if items[0].TextLeaf? then [items[0].nodeId] else []) + LeafIds(items[1..])
  }

  lemma {:induction false} LeafIdsConcat(a: seq<LeafItem>, b: seq<LeafItem>)
    ensures LeafIds(a + b) == LeafIds(a) + LeafIds(b)
  {
    if a == [] {
      assert a + b == b;
    } else {
      LeafIdsConcat(a[1..], b);
      assert (a + b)[1..] == a[1..] + b && (a + b)[0] == a[0];
    }
  }

  predicate Distinct(ids: seq<string>) {
    forall i, j :: 0 <= i < j < |ids| ==> ids[i] != ids[j]
  }

  /** Every ID continues the path with a colon. */
  predicate AllUnder(ids: seq<string>, path: string) {
    forall i :: 0 <= i < |ids| ==> path + ":" <= ids[i]
  }

  predicate Apart(a: seq<string>, b: seq<string>) {
    forall i, j :: 0 <= i < |a| && 0 <= j < |b| ==> a[i] != b[j]
  }

  lemma DistinctConcat(a: seq<string>, b: seq<string>)
    requires Distinct(a) && Distinct(b) && Apart(a, b)
    ensures Distinct(a + b)
  {
  }

  /** A decimal followed by a colon can be read back, so different numbers lead to different IDs. */
  lemma DecimalColon(a: string, b: string, id: string)
    requires (forall c :: c in a ==> IsDigit(c)) && (forall c :: c in b ==> IsDigit(c))
    requires a + ":" <= id && b + ":" <= id
    ensures a == b
  {
    DigitsThenColon(a, id);
    DigitsThenColon(b, id);
    assert |a| == |b|;
    assert a == id[..|a|] && b == id[..|b|];
  }

  lemma DigitsThenColon(a: string, id: string)
    requires (forall c :: c in a ==> IsDigit(c)) && a + ":" <= id
    ensures id[|a|] == ':' && forall k :: 0 <= k < |a| ==> IsDigit(id[k])
  {
    assert id[|a|] == (a + ":")[|a|];
    forall k | 0 <= k < |a| ensures IsDigit(id[k]) {
      assert id[k] == (a + ":")[k] == a[k];
    }
  }

  lemma PathsApart(path: string, tag: string, m: nat, n: nat, id: string)
    requires path + tag + Decimal(m) + ":" <= id && path + tag + Decimal(n) + ":" <= id
    ensures m == n
  {
    var rest := id[|path + tag|..];
    DropPrefix(path + tag, Decimal(m) + ":", id);
    DropPrefix(path + tag, Decimal(n) + ":", id);
    assert path + tag + Decimal(m) + ":" == path + tag + (Decimal(m) + ":");
    assert path + tag + Decimal(n) + ":" == path + tag + (Decimal(n) + ":");
    DecimalColon(Decimal(m), Decimal(n), rest);
    DecimalInjective(m, n);
  }

  lemma DropPrefix(a: string, b: string, id: string)
    ensures a + b <= id ==> b <= id[|a|..]
  {
  }

  function LeafId(path: string, k: nat): string {
    path + ":l" + Decimal(k)
  }

  lemma LeafIdInjective(path: string, j: nat, k: nat)
    requires LeafId(path, j) == LeafId(path, k)
    ensures j == k
  {
    assert LeafId(path, j)[|path| + 2..] == Decimal(j);
    assert LeafId(path, k)[|path| + 2..] == Decimal(k);
    DecimalInjective(j, k);
  }

  /** The ID is the path's leaf ID of some number in the range. */
  ghost predicate HasNumber(id: string, path: string, from: nat, to: nat) {
    exists k: nat :: from <= k < to && id == LeafId(path, k)
  }

  ghost predicate NumberedFrom(ids: seq<string>, path: string, from: nat, to: nat) {
    forall i :: 0 <= i < |ids| ==> HasNumber(ids[i], path, from, to)
  }

  lemma NumberedApart(a: seq<string>, b: seq<string>, path: string, from: nat, mid: nat, to: nat)
    requires NumberedFrom(a, path, from, mid) && NumberedFrom(b, path, mid, to)
    ensures Apart(a, b)
  {
    forall i, j | 0 <= i < |a| && 0 <= j < |b| ensures a[i] != b[j] {
      assert HasNumber(a[i], path, from, mid) && HasNumber(b[j], path, mid, to);
      var k: nat :| from <= k < mid && a[i] == LeafId(path, k);
      var m: nat :| mid <= m < to && b[j] == LeafId(path, m);
      if a[i] == b[j] {
        LeafIdInjective(path, k, m);
      }
    }
  }

  lemma NumberedConcat(a: seq<string>, b: seq<string>, path: string, from: nat, mid: nat, to: nat)
    requires from <= mid <= to
    requires NumberedFrom(a, path, from, mid) && NumberedFrom(b, path, mid, to)
    ensures NumberedFrom(a + b, path, from, to)
  {
    forall i | 0 <= i < |a + b| ensures HasNumber((a + b)[i], path, from, to) {
      if i < |a| {
        HasNumberWidens(a[i], path, from, mid, from, to);
      } else {
        HasNumberWidens(b[i - |a|], path, mid, to, from, to);
      }
    }
  }

  lemma HasNumberWidens(id: string, path: string, from: nat, to: nat, low: nat, high: nat)
    requires HasNumber(id, path, from, to) && low <= from && to <= high
    ensures HasNumber(id, path, low, high)
  {
    var k: nat :| from <= k < to && id == LeafId(path, k);
    assert low <= k < high;
  }

  lemma NumberedAreUnder(ids: seq<string>, path: string, from: nat, to: nat)
    requires NumberedFrom(ids, path, from, to)
    ensures AllUnder(ids, path)
  {
    forall i | 0 <= i < |ids| ensures path + ":" <= ids[i] {
      assert HasNumber(ids[i], path, from, to);
      var k: nat :| from <= k < to && ids[i] == LeafId(path, k);
      assert LeafId(path, k) == (path + ":") + ("l" + Decimal(k));
    }
  }

  lemma {:induction false} FlattenDistinct(children: seq<Inline>, path: string, n: nat, href: Option<string>)
    ensures var r := FlattenInto(children, path, n, href);
            n <= r.next && NumberedFrom(LeafIds(r.items), path, n, r.next) && Distinct(LeafIds(r.items))
    decreases children, 1
  {
    if children != [] {
      var first := FlattenOne(children[0], path, n, href);
      var rest := FlattenInto(children[1..], path, first.next, href);
      FlattenOneDistinct(children[0], path, n, href);
      FlattenDistinct(children[1..], path, first.next, href);
      var a, b := LeafIds(first.items), LeafIds(rest.items);
      LeafIdsConcat(first.items, rest.items);
      NumberedApart(a, b, path, n, first.next, rest.next);
      NumberedConcat(a, b, path, n, first.next, rest.next);
      DistinctConcat(a, b);
    }
  }

  lemma {:induction false} FlattenOneDistinct(node: Inline, path: string, n: nat, href: Option<string>)
    ensures var r := FlattenOne(node, path, n, href);
            n <= r.next && NumberedFrom(LeafIds(r.items), path, n, r.next) && Distinct(LeafIds(r.items))
    decreases node, 0
  {
    match node
    case Link(target, children) => FlattenDistinct(children, path, n, Some(target));
    case Text(_, _) =>
      assert LeafIds(FlattenOne(node, path, n, href).items) == [LeafId(path, n)];
      assert HasNumber(LeafId(path, n), path, n, n + 1);
    case Break =>
  }

  /** Each ID lies under a numbered step of the path, with a number in the range. */
  ghost predicate StepsFrom(ids: seq<string>, path: string, tag: string, from: nat) {
    forall i :: 0 <= i < |ids| ==> UnderStep(ids[i], path, tag, from)
  }

  ghost predicate UnderStepAt(id: string, path: string, tag: string, m: nat) {
    path + tag + Decimal(m) + ":" <= id
  }

  ghost predicate UnderStep(id: string, path: string, tag: string, from: nat) {
    exists m: nat :: from <= m && UnderStepAt(id, path, tag, m)
  }

  lemma StepsApart(a: seq<string>, b: seq<string>, path: string, tag: string, m: nat)
    requires AllUnder(a, path + tag + Decimal(m)) && StepsFrom(b, path, tag, m + 1)
    ensures Apart(a, b)
  {
    forall i, j | 0 <= i < |a| && 0 <= j < |b| ensures a[i] != b[j] {
      assert UnderStep(b[j], path, tag, m + 1);
      var n: nat :| m + 1 <= n && UnderStepAt(b[j], path, tag, n);
      if a[i] == b[j] {
        PathsApart(path, tag, m, n, a[i]);
      }
    }
  }

  lemma StepsConcat(a: seq<string>, b: seq<string>, path: string, tag: string, m: nat)
    requires AllUnder(a, path + tag + Decimal(m)) && StepsFrom(b, path, tag, m + 1)
    ensures StepsFrom(a + b, path, tag, m)
  {
    forall i | 0 <= i < |a + b| ensures UnderStep((a + b)[i], path, tag, m) {
      if i < |a| {
        assert UnderStepAt(a[i], path, tag, m);
      } else {
        assert UnderStep(b[i - |a|], path, tag, m + 1);
        var n: nat :| m + 1 <= n && UnderStepAt(b[i - |a|], path, tag, n);
        assert UnderStepAt((a + b)[i], path, tag, n);
      }
    }
  }

  /** IDs under a numbered step of the path are under the path itself. */
  lemma StepsAreUnder(ids: seq<string>, path: string, tag: string, from: nat)
    requires StepsFrom(ids, path, tag, from) && |tag| > 0 && tag[0] == ':'
    ensures AllUnder(ids, path)
  {
    forall i | 0 <= i < |ids| ensures path + ":" <= ids[i] {
      assert UnderStep(ids[i], path, tag, from);
      var m: nat :| from <= m && UnderStepAt(ids[i], path, tag, m);
      assert path + tag + Decimal(m) + ":" == (path + ":") + (tag[1..] + Decimal(m) + ":");
    }
  }

  lemma {:induction false} BlockDistinct(block: RichBlock, path: string)
    ensures Distinct(LeafIds(BlockItems(block, path))) && AllUnder(LeafIds(BlockItems(block, path)), path)
    decreases block, 0
  {
    match block
    case Paragraph(inlines) =>
      var r := FlattenInto(inlines, path, 0, None);
      FlattenDistinct(inlines, path, 0, None);
      LeafIdsConcat([Boundary], r.items);
      var ids := LeafIds(r.items);
      assert LeafIds(BlockItems(block, path)) == ids;
      NumberedAreUnder(ids, path, 0, r.next);
    case List(_, _, items) =>
      ListDistinct(items, path, 0);
      StepsAreUnder(LeafIds(ListItems(items, path, 0)), path, ":i", 0);
  }

  lemma {:induction false} ListDistinct(items: seq<ListItem>, path: string, i: nat)
    ensures Distinct(LeafIds(ListItems(items, path, i))) && StepsFrom(LeafIds(ListItems(items, path, i)), path, ":i", i)
    decreases items, 0
  {
    if items != [] {
      var here := path + ":i" + Decimal(i);
      var first, rest := BlocksItems(items[0].blocks, here, 0), ListItems(items[1..], path, i + 1);
      BlocksDistinct(items[0].blocks, here, 0);
      StepsAreUnder(LeafIds(first), here, ":b", 0);
      ListDistinct(items[1..], path, i + 1);
      LeafIdsConcat(first, rest);
      StepsApart(LeafIds(first), LeafIds(rest), path, ":i", i);
      StepsConcat(LeafIds(first), LeafIds(rest), path, ":i", i);
      DistinctConcat(LeafIds(first), LeafIds(rest));
    }
  }

  /** All leaf IDs under one path are pairwise distinct, and each starts with the number of its block. */
  lemma {:induction false} BlocksDistinct(blocks: seq<RichBlock>, path: string, b: nat)
    ensures Distinct(LeafIds(BlocksItems(blocks, path, b))) && StepsFrom(LeafIds(BlocksItems(blocks, path, b)), path, ":b", b)
    decreases blocks, 1
  {
    if blocks != [] {
      var here := path + ":b" + Decimal(b);
      var first, rest := BlockItems(blocks[0], here), BlocksItems(blocks[1..], path, b + 1);
      BlockDistinct(blocks[0], here);
      BlocksDistinct(blocks[1..], path, b + 1);
      LeafIdsConcat(first, rest);
      StepsApart(LeafIds(first), LeafIds(rest), path, ":b", b);
      StepsConcat(LeafIds(first), LeafIds(rest), path, ":b", b);
      DistinctConcat(LeafIds(first), LeafIds(rest));
    }
  }

  lemma {:induction false} LeafIdsAt(items: seq<LeafItem>, i: nat, j: nat)
    requires i < j < |items| && items[i].TextLeaf? && items[j].TextLeaf? && Distinct(LeafIds(items))
    ensures items[i].nodeId != items[j].nodeId
  {
    var ids := LeafIds(items);
    if i == 0 {
      var k := LeafIdAmong(items[1..], j - 1);
      assert ids[0] == items[0].nodeId && ids[k + 1] == items[j].nodeId;
    } else {
      DistinctTail(items);
      LeafIdsAt(items[1..], i - 1, j - 1);
    }
  }

  lemma DistinctTail(items: seq<LeafItem>)
    requires items != [] && Distinct(LeafIds(items))
    ensures Distinct(LeafIds(items[1..]))
  {
    var ids, rest := LeafIds(items), LeafIds(items[1..]);
    var shift := |ids| - |rest|;
    assert forall k :: 0 <= k < |rest| ==> rest[k] == ids[k + shift];
  }

  lemma {:induction false} LeafIdAmong(items: seq<LeafItem>, i: nat) returns (k: nat)
    requires i < |items| && items[i].TextLeaf?
    ensures k < |LeafIds(items)| && LeafIds(items)[k] == items[i].nodeId
  {
    if i == 0 {
      k := 0;
    } else {
      var r := LeafIdAmong(items[1..], i - 1);
      k := r + |LeafIds(items)| - |LeafIds(items[1..])|;
    }
  }

  /** The leaves of one body have distinct IDs, as the text map needs. */
  lemma BodyLeavesAreDistinct(blocks: seq<RichBlock>, path: string)
    ensures DistinctLeaves(BlocksItems(blocks, path, 0))
  {
    var items := BlocksItems(blocks, path, 0);
    BlocksDistinct(blocks, path, 0);
    forall i, j | 0 <= i < j < |items| && IsLeaf(items[i]) && IsLeaf(items[j]) ensures items[i].nodeId != items[j].nodeId {
      LeafIdsAt(items, i, j);
    }
  }
}
