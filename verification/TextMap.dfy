/** From leaves to the logical text, and from glyph clusters to its UTF-16 ranges. */
module TextMap {
  import opened Contracts
  import opened Unicode

  datatype LeafItem =
    | TextLeaf(nodeId: string, text: string, href: Option<string>)
    | BreakLeaf
    | Boundary

  datatype Leaf = Leaf(text: string, base: nat)

  // ---- Specification of the logical text ----

  datatype Assembly = Assembly(logical: string, pending: bool, leaves: map<string, Leaf>)

  function EndsLine(s: string): bool {
    s == [] || s[|s| - 1] == '\n'
  }

  /** The text before a new leaf: a pending boundary becomes a line break unless a line is just starting. */
  function BeforeLeaf(a: Assembly): string {
    if a.pending && !EndsLine(a.logical) then a.logical + "\n" else a.logical
  }

  function AssembleOne(a: Assembly, item: LeafItem): Assembly {
    match item
    case Boundary => a.(pending := true)
    case BreakLeaf => Assembly(a.logical + "\n", false, a.leaves)
    case TextLeaf(id, text, _) =>
      if text == "" then a
      else
        var before := BeforeLeaf(a);
        Assembly(before + text, false, a.leaves[id := Leaf(text, Units(before))])
  }

  function Assemble(items: seq<LeafItem>): Assembly {
    if items == [] then Assembly("", false, map[])
    else AssembleOne(Assemble(items[..|items| - 1]), items[|items| - 1])
  }

  /** The running form: text, length in units and the pending flag are updated item by item. */
  method AssembleLogical(items: seq<LeafItem>) returns (logical: string, leaves: map<string, Leaf>)
    ensures logical == Assemble(items).logical && leaves == Assemble(items).leaves
  {
    logical, leaves := "", map[];
    var pendingBoundary, utf16Len := false, 0;
    assert items[..0] == [];
    for i := 0 to |items|
      invariant Assembly(logical, pendingBoundary, leaves) == Assemble(items[..i])
      invariant utf16Len == Units(logical)
    {
      assert items[..i + 1][..i] == items[..i];
      logical, pendingBoundary, utf16Len, leaves := TakeItem(items[i], logical, pendingBoundary, utf16Len, leaves);
    }
    assert items[..|items|] == items;
  }

  /** One item: a boundary is remembered, a break ends the line, a text is placed and recorded. */
  method TakeItem(item: LeafItem, before: string, pending: bool, units: nat, known: map<string, Leaf>)
    returns (logical: string, pendingBoundary: bool, utf16Len: nat, leaves: map<string, Leaf>)
    requires units == Units(before)
    ensures Assembly(logical, pendingBoundary, leaves) == AssembleOne(Assembly(before, pending, known), item)
    ensures utf16Len == Units(logical)
  {
    logical, pendingBoundary, utf16Len, leaves := before, pending, units, known;
    match item {
      case Boundary =>
        pendingBoundary := true;
      case BreakLeaf =>
        EncodeConcat(logical, "\n");
        logical := logical + "\n";
        utf16Len := utf16Len + 1;
        pendingBoundary := false;
      case TextLeaf(nodeId, text, _) =>
        if text != "" {
          if pendingBoundary && logical != "" && logical[|logical| - 1] != '\n' {
            EncodeConcat(logical, "\n");
            logical := logical + "\n";
            utf16Len := utf16Len + 1;
          }
          leaves := leaves[nodeId := Leaf(text, utf16Len)];
          EncodeConcat(logical, text);
          logical := logical + text;
          utf16Len := utf16Len + Units(text);
          pendingBoundary := false;
        }
    }
  }

  // ---- Where leaves lie ----

  /** The leaf's text stands at character position p, and its base counts the units before it. */
  predicate PlacedAt(logical: string, leaf: Leaf, p: nat) {
    && p + |leaf.text| <= |logical|
    && logical[p..p + |leaf.text|] == leaf.text
    && leaf.base == Units(logical[..p])
  }

  ghost predicate Placed(logical: string, leaf: Leaf) {
    exists p: nat :: PlacedAt(logical, leaf, p)
  }

  lemma PlacedGrows(logical: string, more: string, leaf: Leaf)
    requires Placed(logical, leaf)
    ensures Placed(logical + more, leaf)
  {
    var p: nat :| PlacedAt(logical, leaf, p);
    assert (logical + more)[..p] == logical[..p];
    assert (logical + more)[p..p + |leaf.text|] == logical[p..p + |leaf.text|];
    assert PlacedAt(logical + more, leaf, p);
  }

  lemma PlacedLast(before: string, text: string)
    ensures Placed(before + text, Leaf(text, Units(before)))
  {
    assert (before + text)[..|before|] == before;
    assert (before + text)[|before|..|before| + |text|] == text;
    assert PlacedAt(before + text, Leaf(text, Units(before)), |before|);
  }

  /** Every recorded leaf stands in the logical text where its base says. */
  lemma {:induction false} LeafIsPlaced(items: seq<LeafItem>, id: string)
    requires id in Assemble(items).leaves
    ensures Assemble(items).leaves[id].text != "" && Placed(Assemble(items).logical, Assemble(items).leaves[id])
  {
    var a := Assemble(items[..|items| - 1]);
    var item := items[|items| - 1];
    var b := AssembleOne(a, item);
    if item.TextLeaf? && item.text != "" && id == item.nodeId {
      PlacedLast(BeforeLeaf(a), item.text);
    } else {
      LeafIsPlaced(items[..|items| - 1], id);
      Extends(a, item);
      PlacedGrows(a.logical, b.logical[|a.logical|..], a.leaves[id]);
    }
  }

  lemma Extends(a: Assembly, item: LeafItem)
    ensures a.logical <= AssembleOne(a, item).logical
    ensures AssembleOne(a, item).logical == a.logical + AssembleOne(a, item).logical[|a.logical|..]
  {
  }

  predicate IsLeaf(item: LeafItem) {
    item.TextLeaf? && item.text != ""
  }

  predicate DistinctLeaves(items: seq<LeafItem>) {
    forall i, j :: 0 <= i < j < |items| && IsLeaf(items[i]) && IsLeaf(items[j]) ==> items[i].nodeId != items[j].nodeId
  }

  /** With distinct IDs every leaf is recorded with its own text, and ends within the logical text. */
  lemma {:induction false} LeafRecorded(items: seq<LeafItem>, i: nat)
    requires DistinctLeaves(items) && i < |items| && IsLeaf(items[i])
    ensures var a := Assemble(items);
            && items[i].nodeId in a.leaves && a.leaves[items[i].nodeId].text == items[i].text
            && a.leaves[items[i].nodeId].base + Units(items[i].text) <= Units(a.logical)
  {
    var n := |items| - 1;
    var init := items[..n];
    var a := Assemble(init);
    if i == n {
      EncodeConcat(BeforeLeaf(a), items[n].text);
    } else {
      LeafRecorded(init, i);
      assert init[i] == items[i];
      Extends(a, items[n]);
      EncodeConcat(a.logical, AssembleOne(a, items[n]).logical[|a.logical|..]);
    }
  }

  /** Leaves keep their order: an earlier leaf ends before a later one begins. */
  lemma {:induction false} LeavesInOrder(items: seq<LeafItem>, i: nat, j: nat)
    requires DistinctLeaves(items) && i < j < |items| && IsLeaf(items[i]) && IsLeaf(items[j])
    ensures var a := Assemble(items);
            && items[i].nodeId in a.leaves && items[j].nodeId in a.leaves
            && a.leaves[items[i].nodeId].base + Units(items[i].text) <= a.leaves[items[j].nodeId].base
  {
    var n := |items| - 1;
    var init := items[..n];
    var a := Assemble(init);
    assert init[i] == items[i];
    if j == n {
      LeafRecorded(init, i);
      if BeforeLeaf(a) != a.logical {
        EncodeConcat(a.logical, "\n");
      }
    } else {
      LeavesInOrder(init, i, j);
      assert init[j] == items[j];
    }
  }

  // ---- Clusters ----

  datatype RawCluster = RawCluster(
    nodeId: string, text: string, byteOffset: nat, page: nat, x: real, y: real, width: real, height: real)

  datatype TextCluster = TextCluster(
    nodeId: string, startUtf16: nat, endUtf16: nat, logicalOrder: nat,
    page: nat, x: real, y: real, width: real, height: real, rtl: bool)

  datatype MapError = UnknownNode(nodeId: string) | TextMismatch(nodeId: string, byteOffset: nat) | IndexPanic

  /** One flag per UTF-16 unit from one flag per character. */
  function ByUnit(s: string, levels: seq<bool>): (r: seq<bool>)
    requires |levels| == |s|
    ensures |r| == Units(s)
  {
    if s == [] then []
    else
      var n := |s| - 1;
      ByUnit(s[..n], levels[..n]) + seq(Utf16Len(s[n]), _ => levels[n])
  }

  /** One raw cluster: its text must be the leaf's bytes at its offset; its range follows from the bytes before it. */
  function MapCluster(leaves: map<string, Leaf>, rtlUnits: seq<bool>, raw: RawCluster): Result<TextCluster, MapError> {
    if raw.nodeId !in leaves then Err(UnknownNode(raw.nodeId))
    else
      var leaf := leaves[raw.nodeId];
      if GetBytes(leaf.text, raw.byteOffset, raw.byteOffset + Bytes(raw.text)) != Some(raw.text)
      then Err(TextMismatch(raw.nodeId, raw.byteOffset))
      else
        var start := leaf.base + Units(leaf.text[..CharIndex(leaf.text, raw.byteOffset).value]);
        if start >= |rtlUnits| then Err(IndexPanic)
        else Ok(TextCluster(raw.nodeId, start, start + Units(raw.text), 0,
                            raw.page, raw.x, raw.y, raw.width, raw.height, rtlUnits[start]))
  }

  /** All raw clusters in order; the first failure decides. */
  function MapClusters(leaves: map<string, Leaf>, rtlUnits: seq<bool>, raw: seq<RawCluster>): Result<seq<TextCluster>, MapError> {
    if raw == [] then Ok([])
    else
      var init := MapClusters(leaves, rtlUnits, raw[..|raw| - 1]);
      if init.Err? then init
      else
        var last := MapCluster(leaves, rtlUnits, raw[|raw| - 1]);
        if last.Err? then Err(last.error) else Ok(init.value + [last.value])
  }

  /** Stable insertion by start. */
  function InsertByStart(sorted: seq<TextCluster>, c: TextCluster): seq<TextCluster> {
    if sorted == [] || sorted[|sorted| - 1].startUtf16 <= c.startUtf16 then sorted + [c]
    else InsertByStart(sorted[..|sorted| - 1], c) + [sorted[|sorted| - 1]]
  }

  function SortByStart(cs: seq<TextCluster>): seq<TextCluster> {
    if cs == [] then [] else InsertByStart(SortByStart(cs[..|cs| - 1]), cs[|cs| - 1])
  }

  function Numbered(cs: seq<TextCluster>): (r: seq<TextCluster>)
    ensures |r| == |cs| && forall i :: 0 <= i < |cs| ==> r[i] == cs[i].(logicalOrder := i)
  {
    seq(|cs|, i requires 0 <= i < |cs| => cs[i].(logicalOrder := i))
  }

  /**
   * The text map of the leaves and the raw clusters. Bidirectional levels come from outside, one per character.
   * Tables are built once per leaf, then every cluster is looked up in its leaf's table.
   */
  method BuildTextMap(items: seq<LeafItem>, raw: seq<RawCluster>, levels: seq<bool>)
    returns (result: Result<seq<TextCluster>, MapError>, logical: string)
    requires |levels| == |Assemble(items).logical|
    ensures logical == Assemble(items).logical
    ensures var mapped := MapClusters(Assemble(items).leaves, ByUnit(logical, levels), raw);
            result == if mapped.Err? then mapped else Ok(Numbered(SortByStart(mapped.value)))
  {
    var leaves;
    logical, leaves := AssembleLogical(items);
    var rtlUnits := SpreadLevels(logical, levels);
    result := MapRaw(leaves, rtlUnits, raw);
    if result.Ok? {
      result := Ok(Numbered(SortByStart(result.value)));
    }
  }

  method SpreadLevels(logical: string, levels: seq<bool>) returns (rtlUnits: seq<bool>)
    requires |levels| == |logical|
    ensures rtlUnits == ByUnit(logical, levels)
  {
    rtlUnits := [];
    assert logical[..0] == [];
    for i := 0 to |logical|
      invariant rtlUnits == ByUnit(logical[..i], levels[..i])
    {
      assert logical[..i + 1][..i] == logical[..i] && levels[..i + 1][..i] == levels[..i];
      rtlUnits := rtlUnits + seq(Utf16Len(logical[i]), _ => levels[i]);
    }
    assert logical[..|logical|] == logical && levels[..|logical|] == levels;
  }

  /** The lookup through the table is the specification's count of the prefix. */
  method MapRaw(leaves: map<string, Leaf>, rtlUnits: seq<bool>, raw: seq<RawCluster>)
    returns (result: Result<seq<TextCluster>, MapError>)
    ensures result == MapClusters(leaves, rtlUnits, raw)
  {
    var offsets := BuildOffsets(leaves);
    var clusters: seq<TextCluster> := [];
    assert raw[..0] == [];
    for i := 0 to |raw|
      invariant MapClusters(leaves, rtlUnits, raw[..i]) == Ok(clusters)
    {
      assert raw[..i + 1][..i] == raw[..i];
      var mapped := MapOne(leaves, offsets, rtlUnits, raw[i]);
      if mapped.Err? {
        FailureStays(leaves, rtlUnits, raw, i + 1);
        return Err(mapped.error);
      }
      clusters := clusters + [mapped.value];
    }
    assert raw[..|raw|] == raw;
    return Ok(clusters);
  }

  method MapOne(leaves: map<string, Leaf>, offsets: map<string, seq<nat>>, rtlUnits: seq<bool>, cluster: RawCluster)
    returns (result: Result<TextCluster, MapError>)
    requires offsets.Keys == leaves.Keys
    requires forall id :: id in leaves ==> IsLookup(offsets[id], leaves[id].text)
    ensures result == MapCluster(leaves, rtlUnits, cluster)
  {
    if cluster.nodeId !in leaves {
      return Err(UnknownNode(cluster.nodeId));
    }
    var leaf := leaves[cluster.nodeId];
    var endByte := cluster.byteOffset + Bytes(cluster.text);
    if GetBytes(leaf.text, cluster.byteOffset, endByte) != Some(cluster.text) {
      return Err(TextMismatch(cluster.nodeId, cluster.byteOffset));
    }
    LookupAt(offsets[cluster.nodeId], leaf.text, cluster.byteOffset);
    var start := leaf.base + offsets[cluster.nodeId][cluster.byteOffset];
    var end := start + Units(cluster.text);
    if start >= |rtlUnits| {
      return Err(IndexPanic);
    }
    return Ok(TextCluster(cluster.nodeId, start, end, 0, cluster.page,
                          cluster.x, cluster.y, cluster.width, cluster.height, rtlUnits[start]));
  }

  lemma {:induction false} FailureStays(leaves: map<string, Leaf>, rtlUnits: seq<bool>, raw: seq<RawCluster>, n: nat)
    requires n <= |raw| && MapClusters(leaves, rtlUnits, raw[..n]).Err?
    ensures MapClusters(leaves, rtlUnits, raw) == MapClusters(leaves, rtlUnits, raw[..n])
    decreases |raw|
  {
    if n == |raw| {
      assert raw[..n] == raw;
    } else {
      var init := raw[..|raw| - 1];
      assert init[..n] == raw[..n];
      FailureStays(leaves, rtlUnits, init, n);
    }
  }

  /** One table for every leaf. */
  method BuildOffsets(leaves: map<string, Leaf>) returns (offsets: map<string, seq<nat>>)
    ensures offsets.Keys == leaves.Keys
    ensures forall id :: id in leaves ==> IsLookup(offsets[id], leaves[id].text)
  {
    offsets := map[];
    var left := leaves.Keys;
    while left != {}
      invariant left <= leaves.Keys && offsets.Keys == leaves.Keys - left
      invariant forall id :: id in offsets ==> IsLookup(offsets[id], leaves[id].text)
      decreases |left|
    {
      var id :| id in left;
      var lookup := BuildLookup(leaves[id].text);
      offsets := offsets[id := lookup[..]];
      left := left - {id};
    }
  }

  lemma LookupAt(table: seq<nat>, text: string, byte: nat)
    requires IsLookup(table, text) && CharIndex(text, byte).Some?
    ensures byte < |table| && table[byte] == Units(text[..CharIndex(text, byte).value])
  {
    assert BoundaryHolds(table, text, CharIndex(text, byte).value);
  }

  // ---- What a mapped cluster means ----

  /** The range lies inside the leaf and cuts the wanted text out of the logical text. */
  predicate ExactRange(logical: string, leaf: Leaf, start: nat, end: nat, text: string) {
    && leaf.base <= start <= end <= leaf.base + Units(leaf.text)
    && end <= Units(logical)
    && Encode16(logical)[start..end] == Encode16(text)
  }

  lemma BytesAreExact(logical: string, leaf: Leaf, from: nat, text: string)
    requires Placed(logical, leaf) && GetBytes(leaf.text, from, from + Bytes(text)) == Some(text)
    ensures ExactFrom(logical, leaf, CharIndex(leaf.text, from).value, text)
  {
    var p: nat :| PlacedAt(logical, leaf, p);
    RangeInLeaf(logical, leaf, p, CharIndex(leaf.text, from).value, CharIndex(leaf.text, from + Bytes(text)).value, text);
  }

  predicate ExactFrom(logical: string, leaf: Leaf, i: nat, text: string)
    requires i <= |leaf.text|
  {
    var start := leaf.base + Units(leaf.text[..i]);
    ExactRange(logical, leaf, start, start + Units(text), text)
  }

  /** The cluster's range cuts exactly its glyph text out of the logical text, inside its own leaf. */
  lemma ClusterIsExact(items: seq<LeafItem>, rtlUnits: seq<bool>, raw: RawCluster)
    requires MapCluster(Assemble(items).leaves, rtlUnits, raw).Ok?
    ensures raw.nodeId in Assemble(items).leaves
    ensures var c := MapCluster(Assemble(items).leaves, rtlUnits, raw).value;
            && c.nodeId == raw.nodeId
            && ExactRange(Assemble(items).logical, Assemble(items).leaves[raw.nodeId], c.startUtf16, c.endUtf16, raw.text)
  {
    LeafIsPlaced(items, raw.nodeId);
    MappedIsExact(Assemble(items), rtlUnits, raw);
  }

  lemma MappedIsExact(a: Assembly, rtlUnits: seq<bool>, raw: RawCluster)
    requires MapCluster(a.leaves, rtlUnits, raw).Ok? && Placed(a.logical, a.leaves[raw.nodeId])
    ensures var c := MapCluster(a.leaves, rtlUnits, raw).value;
            && c.nodeId == raw.nodeId
            && ExactRange(a.logical, a.leaves[raw.nodeId], c.startUtf16, c.endUtf16, raw.text)
  {
    BytesAreExact(a.logical, a.leaves[raw.nodeId], raw.byteOffset, raw.text);
  }

  lemma RangeInLeaf(logical: string, leaf: Leaf, p: nat, i: nat, j: nat, text: string)
    requires PlacedAt(logical, leaf, p) && i <= j <= |leaf.text| && leaf.text[i..j] == text
    ensures ExactFrom(logical, leaf, i, text)
  {
    UnitsWithin(leaf.text, i, j);
    UnitsAt(logical, leaf, p, i);
    UnitsAt(logical, leaf, p, j);
    RangeText(logical, leaf.text, p, i, j, text);
    MakeExact(logical, leaf, i, text, Units(logical[..p + i]), Units(logical[..p + j]));
  }

  lemma RangeText(logical: string, whole: string, p: nat, i: nat, j: nat, text: string)
    requires p + |whole| <= |logical| && logical[p..p + |whole|] == whole && i <= j <= |whole| && whole[i..j] == text
    ensures p + j <= |logical| && Units(logical[..p + i]) <= Units(logical[..p + j]) <= Units(logical)
    ensures Encode16(logical)[Units(logical[..p + i])..Units(logical[..p + j])] == Encode16(text)
  {
    SliceOfSlice(logical, p, whole, i, j);
    EncodedAs(logical, p + i, p + j, text);
  }

  lemma MakeExact(logical: string, leaf: Leaf, i: nat, text: string, start: nat, end: nat)
    requires i <= |leaf.text| && start == leaf.base + Units(leaf.text[..i]) && end == start + Units(text)
    requires end <= leaf.base + Units(leaf.text) && end <= Units(logical)
    requires Encode16(logical)[start..end] == Encode16(text)
    ensures ExactFrom(logical, leaf, i, text)
  {
  }

  lemma EncodedAs(s: string, i: nat, j: nat, t: string)
    requires i <= j <= |s| && s[i..j] == t
    ensures Units(s[..i]) <= Units(s[..j]) <= Units(s)
    ensures Encode16(s)[Units(s[..i])..Units(s[..j])] == Encode16(t)
  {
    EncodedSlice(s, i, j);
  }

  lemma SliceOfSlice(logical: string, p: nat, text: string, i: nat, j: nat)
    requires p + |text| <= |logical| && logical[p..p + |text|] == text && i <= j <= |text|
    ensures logical[p + i..p + j] == text[i..j]
  {
    forall k | i <= k < j ensures logical[p + k] == text[k] {
      assert logical[p..p + |text|][k] == logical[p + k];
    }
    var a, b := logical[p + i..p + j], text[i..j];
    forall q | 0 <= q < |b| ensures a[q] == b[q] {
      assert logical[p + (i + q)] == text[i + q];
    }
  }

  lemma UnitsWithin(text: string, i: nat, j: nat)
    requires i <= j <= |text|
    ensures Units(text[..i]) + Units(text[i..j]) == Units(text[..j]) <= Units(text)
  {
    PrefixGrows(text, i, j);
    PrefixGrows(text, j, |text|);
    assert text[..|text|] == text;
  }

  lemma UnitsAt(logical: string, leaf: Leaf, p: nat, i: nat)
    requires PlacedAt(logical, leaf, p) && i <= |leaf.text|
    ensures Units(logical[..p + i]) == leaf.base + Units(leaf.text[..i])
  {
    assert logical[..p + i] == logical[..p] + logical[p..p + |leaf.text|][..i];
    EncodeConcat(logical[..p], leaf.text[..i]);
  }

  /** Clusters of different leaves never overlap, and follow the order of their leaves. */
  lemma ClustersFollowLeaves(items: seq<LeafItem>, rtlUnits: seq<bool>, i: nat, j: nat, r: RawCluster, q: RawCluster)
    requires DistinctLeaves(items) && i < j < |items| && IsLeaf(items[i]) && IsLeaf(items[j])
    requires r.nodeId == items[i].nodeId && q.nodeId == items[j].nodeId
    requires MapCluster(Assemble(items).leaves, rtlUnits, r).Ok? && MapCluster(Assemble(items).leaves, rtlUnits, q).Ok?
    ensures MapCluster(Assemble(items).leaves, rtlUnits, r).value.endUtf16 <=
            MapCluster(Assemble(items).leaves, rtlUnits, q).value.startUtf16
  {
    ClusterIsExact(items, rtlUnits, r);
    ClusterIsExact(items, rtlUnits, q);
    LeafRecorded(items, i);
    LeavesInOrder(items, i, j);
  }

  // ---- The order of the result ----

  predicate SortedByStart(cs: seq<TextCluster>) {
    forall i, j :: 0 <= i < j < |cs| ==> cs[i].startUtf16 <= cs[j].startUtf16
  }

  /** The clusters that begin at this unit, in order. */
  function StartingAt(cs: seq<TextCluster>, start: nat): seq<TextCluster> {
    if cs == [] then []
    else StartingAt(cs[..|cs| - 1], start) + if cs[|cs| - 1].startUtf16 == start then [cs[|cs| - 1]] else []
  }

  lemma {:induction false} InsertKeeps(sorted: seq<TextCluster>, c: TextCluster)
    ensures multiset(InsertByStart(sorted, c)) == multiset(sorted) + multiset{c}
  {
    if sorted != [] && sorted[|sorted| - 1].startUtf16 > c.startUtf16 {
      InsertKeeps(sorted[..|sorted| - 1], c);
      BagLast(sorted);
    }
  }

  lemma {:induction false} InsertBelow(sorted: seq<TextCluster>, c: TextCluster, high: nat)
    requires c.startUtf16 <= high && forall i :: 0 <= i < |sorted| ==> sorted[i].startUtf16 <= high
    ensures forall i :: 0 <= i < |InsertByStart(sorted, c)| ==> InsertByStart(sorted, c)[i].startUtf16 <= high
  {
    if sorted != [] && sorted[|sorted| - 1].startUtf16 > c.startUtf16 {
      InsertBelow(sorted[..|sorted| - 1], c, high);
    }
  }

  lemma {:induction false} InsertSorts(sorted: seq<TextCluster>, c: TextCluster)
    requires SortedByStart(sorted)
    ensures SortedByStart(InsertByStart(sorted, c))
  {
    if sorted != [] && sorted[|sorted| - 1].startUtf16 > c.startUtf16 {
      InsertSorts(sorted[..|sorted| - 1], c);
      InsertBelow(sorted[..|sorted| - 1], c, sorted[|sorted| - 1].startUtf16);
    }
  }

  lemma {:induction false} InsertIsStable(sorted: seq<TextCluster>, c: TextCluster, start: nat)
    requires SortedByStart(sorted)
    ensures StartingAt(InsertByStart(sorted, c), start) ==
            StartingAt(sorted, start) + if c.startUtf16 == start then [c] else []
  {
    var r := InsertByStart(sorted, c);
    if sorted == [] || sorted[|sorted| - 1].startUtf16 <= c.startUtf16 {
      assert r[..|r| - 1] == sorted;
    } else {
      var init := sorted[..|sorted| - 1];
      InsertIsStable(init, c, start);
      assert r[..|r| - 1] == InsertByStart(init, c);
      if c.startUtf16 == start {
        assert sorted[|sorted| - 1].startUtf16 != start;
      }
    }
  }

  /** The result is the mapped clusters sorted by start, ties in their original order. */
  lemma {:induction false} SortIsStable(cs: seq<TextCluster>, start: nat)
    ensures SortedByStart(SortByStart(cs))
    ensures multiset(SortByStart(cs)) == multiset(cs)
    ensures StartingAt(SortByStart(cs), start) == StartingAt(cs, start)
  {
    if cs != [] {
      var init, last := cs[..|cs| - 1], cs[|cs| - 1];
      SortIsStable(init, start);
      InsertSorts(SortByStart(init), last);
      InsertKeeps(SortByStart(init), last);
      InsertIsStable(SortByStart(init), last, start);
      BagLast(cs);
    }
  }

  lemma BagLast<T>(s: seq<T>)
    requires s != []
    ensures multiset(s) == multiset(s[..|s| - 1]) + multiset{s[|s| - 1]}
  {
    assert s == s[..|s| - 1] + [s[|s| - 1]];
  }

  /** Success keeps one exact cluster per raw cluster. */
  lemma {:induction false} EveryClusterMapped(leaves: map<string, Leaf>, rtlUnits: seq<bool>, raw: seq<RawCluster>)
    requires MapClusters(leaves, rtlUnits, raw).Ok?
    ensures var cs := MapClusters(leaves, rtlUnits, raw).value;
            |cs| == |raw| && forall i :: 0 <= i < |raw| ==> MapCluster(leaves, rtlUnits, raw[i]) == Ok(cs[i])
  {
    if raw != [] {
      EveryClusterMapped(leaves, rtlUnits, raw[..|raw| - 1]);
    }
  }

  /** The cluster is empty and stands at the very end of the logical text. */
  predicate EmptyAtEnd(logical: string, leaf: Leaf, raw: RawCluster) {
    && raw.text == ""
    && raw.byteOffset == Bytes(leaf.text)
    && leaf.base + Units(leaf.text) == Units(logical)
  }

  lemma StrictlyBefore(text: string, i: nat)
    requires i < |text|
    ensures Units(text[..i]) < Units(text)
  {
    UnitsWithin(text, i, |text|);
    AtLeastOneUnit(text[i..|text|]);
    assert text[..|text|] == text;
  }

  lemma EndIndex(text: string)
    ensures CharIndex(text, Bytes(text)) == Some(|text|) && text[..|text|] == text
  {
    assert text[..|text|] == text;
    CharIndexComplete(text, |text|);
  }

  lemma EndOfLeaf(logical: string, leaf: Leaf, raw: RawCluster)
    requires Placed(logical, leaf)
    requires GetBytes(leaf.text, raw.byteOffset, raw.byteOffset + Bytes(raw.text)) == Some(raw.text)
    ensures leaf.base + Units(leaf.text[..CharIndex(leaf.text, raw.byteOffset).value]) >= Units(logical) <==>
            EmptyAtEnd(logical, leaf, raw)
  {
    var i := CharIndex(leaf.text, raw.byteOffset).value;
    LeafEnds(logical, leaf);
    EndIndex(leaf.text);
    if i < |leaf.text| {
      StrictlyBefore(leaf.text, i);
    }
  }

  lemma LeafEnds(logical: string, leaf: Leaf)
    requires Placed(logical, leaf)
    ensures leaf.base + Units(leaf.text) <= Units(logical)
  {
    var p: nat :| PlacedAt(logical, leaf, p);
    UnitsAt(logical, leaf, p, |leaf.text|);
    UnitsWithin(logical, 0, p + |leaf.text|);
    assert leaf.text[..|leaf.text|] == leaf.text;
  }

  lemma WholeLeaf(leaf: Leaf)
    ensures GetBytes(leaf.text, Bytes(leaf.text), Bytes(leaf.text)) == Some("")
  {
    CharIndexComplete(leaf.text, |leaf.text|);
    assert leaf.text[..|leaf.text|] == leaf.text;
    assert leaf.text[|leaf.text|..|leaf.text|] == "";
  }

  lemma PanicInLeaf(logical: string, leaves: map<string, Leaf>, rtlUnits: seq<bool>, raw: RawCluster)
    requires |rtlUnits| == Units(logical) && raw.nodeId in leaves && Placed(logical, leaves[raw.nodeId])
    ensures MapCluster(leaves, rtlUnits, raw) == Err(IndexPanic) <==> EmptyAtEnd(logical, leaves[raw.nodeId], raw)
  {
    var leaf := leaves[raw.nodeId];
    PanicMeans(leaves, rtlUnits, raw);
    if IsGlyphText(leaf, raw) {
      EndOfLeaf(logical, leaf, raw);
    } else if EmptyAtEnd(logical, leaf, raw) {
      WholeLeaf(leaf);
    }
  }

  /** The cluster's text is the leaf's text at its offset. */
  predicate IsGlyphText(leaf: Leaf, raw: RawCluster) {
    GetBytes(leaf.text, raw.byteOffset, raw.byteOffset + Bytes(raw.text)) == Some(raw.text)
  }

  lemma PanicMeans(leaves: map<string, Leaf>, rtlUnits: seq<bool>, raw: RawCluster)
    requires raw.nodeId in leaves
    ensures MapCluster(leaves, rtlUnits, raw) == Err(IndexPanic) <==>
            IsGlyphText(leaves[raw.nodeId], raw)
            && leaves[raw.nodeId].base + Units(leaves[raw.nodeId].text[..CharIndex(leaves[raw.nodeId].text, raw.byteOffset).value]) >= |rtlUnits|
  {
  }

  /** The text layer panics on a cluster exactly when the cluster is empty and at the very end of the logical text. */
  lemma PanicExactlyAtTheEnd(items: seq<LeafItem>, rtlUnits: seq<bool>, raw: RawCluster)
    requires |rtlUnits| == Units(Assemble(items).logical)
    ensures MapCluster(Assemble(items).leaves, rtlUnits, raw) == Err(IndexPanic) <==>
            && raw.nodeId in Assemble(items).leaves
            && EmptyAtEnd(Assemble(items).logical, Assemble(items).leaves[raw.nodeId], raw)
  {
    if raw.nodeId in Assemble(items).leaves {
      LeafIsPlaced(items, raw.nodeId);
      PanicInLeaf(Assemble(items).logical, Assemble(items).leaves, rtlUnits, raw);
    }
  }

  lemma {:induction false} AtLeastOneUnit(s: string)
    ensures Units(s) >= |s|
  {
    if s != [] {
      AtLeastOneUnit(s[..|s| - 1]);
    }
  }
}
