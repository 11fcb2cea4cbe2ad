/** Hit regions: which root owns a glyph cluster, and the boxes that its clusters are merged into. */
module HitRegions {
  import opened Contracts
  import opened Unicode
  import opened TextMap

  datatype Fragment = Fragment(
    page: nat, startUtf16: nat, endUtf16: nat, x: real, y: real, width: real, height: real)

  datatype HitRegion = HitRegion(nodeId: string, semanticOrder: nat, fragments: seq<Fragment>)

  // ---- Roots ----

  function EntryRoots(es: seq<Entry>): seq<string> {
    if es == [] then [] else ["entry:" + es[0].id] + EntryRoots(es[1..])
  }

  function Roots(ss: seq<Section>): seq<string> {
    if ss == [] then []
    else
      ["section:" + ss[0].id] + (if ss[0].EntrySection? then EntryRoots(ss[0].entries) else []) + Roots(ss[1..])
  }

  /** Stable insertion by descending length in bytes. */
  function InsertRoot(sorted: seq<string>, root: string): seq<string> {
    if sorted == [] || Bytes(sorted[|sorted| - 1]) >= Bytes(root) then sorted + [root]
    else InsertRoot(sorted[..|sorted| - 1], root) + [sorted[|sorted| - 1]]
  }

  function SortRoots(roots: seq<string>): seq<string> {
    if roots == [] then [] else InsertRoot(SortRoots(roots[..|roots| - 1]), roots[|roots| - 1])
  }

  predicate Owns(root: string, nodeId: string) {
    root + ":" <= nodeId
  }

  /** The first root of the list that owns the node, else the node itself. */
  function RegionId(sorted: seq<string>, nodeId: string): string {
    if sorted == [] then nodeId
    else if Owns(sorted[0], nodeId) then sorted[0]
    else RegionId(sorted[1..], nodeId)
  }

  // ---- Fragments ----

  function Abs(r: real): real { if r < 0.0 then -r else r }
  function Min(a: real, b: real): real { if a <= b then a else b }
  function Max(a: real, b: real): real { if a <= b then b else a }

  /** The cluster continues the fragment on the same page, line and text position. */
  predicate Joins(f: Fragment, c: TextCluster) {
    && f.page == c.page
    && f.endUtf16 == c.startUtf16
    && Abs(f.y - c.y) < 0.01
    && Abs(f.height - c.height) < 0.01
    && Abs(f.x + f.width - c.x) < 0.1
  }

  function Extended(f: Fragment, c: TextCluster): Fragment {
    var right := Max(f.x + f.width, c.x + c.width);
    var left := Min(f.x, c.x);
    f.(x := left, width := right - left, endUtf16 := c.endUtf16)
  }

  function Single(c: TextCluster): Fragment {
    Fragment(c.page, c.startUtf16, c.endUtf16, c.x, c.y, c.width, c.height)
  }

  function AddCluster(fs: seq<Fragment>, c: TextCluster): seq<Fragment> {
    if fs != [] && Joins(fs[|fs| - 1], c) then fs[|fs| - 1 := Extended(fs[|fs| - 1], c)] else fs + [Single(c)]
  }

  function Fragments(cs: seq<TextCluster>): seq<Fragment> {
    if cs == [] then [] else AddCluster(Fragments(cs[..|cs| - 1]), cs[|cs| - 1])
  }

  // ---- Regions ----

  /** The clusters of one region, in order. */
  function Owned(sorted: seq<string>, cs: seq<TextCluster>, id: string): seq<TextCluster> {
    if cs == [] then []
    else
      var last := cs[|cs| - 1];
      Owned(sorted, cs[..|cs| - 1], id) + if RegionId(sorted, last.nodeId) == id then [last] else []
  }

  /** The region IDs by first appearance. */
  function FirstSeen(sorted: seq<string>, cs: seq<TextCluster>): seq<string> {
    if cs == [] then []
    else
      var before := FirstSeen(sorted, cs[..|cs| - 1]);
      var id := RegionId(sorted, cs[|cs| - 1].nodeId);
      if id in before then before else before + [id]
  }

  function RegionOf(sorted: seq<string>, cs: seq<TextCluster>, ids: seq<string>, i: nat): HitRegion
    requires i < |ids|
  {
    HitRegion(ids[i], i, Fragments(Owned(sorted, cs, ids[i])))
  }

  predicate AreRegions(sorted: seq<string>, cs: seq<TextCluster>, regions: seq<HitRegion>) {
    var ids := FirstSeen(sorted, cs);
    |regions| == |ids| && forall i :: 0 <= i < |ids| ==> regions[i] == RegionOf(sorted, cs, ids, i)
  }

  predicate IndexesIds(indices: map<string, nat>, ids: seq<string>) {
    && (forall id :: id in indices ==> indices[id] < |ids| && ids[indices[id]] == id)
    && (forall i :: 0 <= i < |ids| ==> ids[i] in indices && indices[ids[i]] == i)
  }

  /** The fragment list after one more cluster: its last fragment grows in place, or a new one starts. */
  method GrowFragments(fragments: seq<Fragment>, cluster: TextCluster) returns (grown: seq<Fragment>)
    ensures grown == AddCluster(fragments, cluster)
  {
    if fragments != [] {
      var previous := fragments[|fragments| - 1];
      var previousRight := previous.x + previous.width;
      if Joins(previous, cluster) {
        var right := Max(previousRight, cluster.x + cluster.width);
        previous := previous.(x := Min(previous.x, cluster.x));
        previous := previous.(width := right - previous.x);
        previous := previous.(endUtf16 := cluster.endUtf16);
        return fragments[|fragments| - 1 := previous];
      }
    }
    grown := fragments + [Single(cluster)];
  }

  /** One pass over the clusters; a region is opened when its first cluster is seen. */
  method BuildHitRegions(sections: seq<Section>, clusters: seq<TextCluster>) returns (regions: seq<HitRegion>)
    ensures AreRegions(SortRoots(Roots(sections)), clusters, regions)
  {
    var sorted := SortRoots(Roots(sections));
    regions := [];
    var indices: map<string, nat> := map[];
    for k := 0 to |clusters|
      invariant AreRegions(sorted, clusters[..k], regions)
      invariant IndexesIds(indices, FirstSeen(sorted, clusters[..k]))
    {
      regions, indices := PlaceCluster(sorted, clusters, k, regions, indices);
    }
    assert clusters[..|clusters|] == clusters;
  }

  method PlaceCluster(sorted: seq<string>, clusters: seq<TextCluster>, k: nat, before: seq<HitRegion>, known: map<string, nat>)
    returns (regions: seq<HitRegion>, indices: map<string, nat>)
    requires k < |clusters| && AreRegions(sorted, clusters[..k], before)
    requires IndexesIds(known, FirstSeen(sorted, clusters[..k]))
    ensures AreRegions(sorted, clusters[..k + 1], regions)
    ensures IndexesIds(indices, FirstSeen(sorted, clusters[..k + 1]))
  {
    regions, indices := before, known;
    ghost var cs := clusters[..k + 1];
    assert cs[..k] == clusters[..k];
    var id := RegionId(sorted, clusters[k].nodeId);
    if id !in indices {
      OpensNew(sorted, cs, before, known);
      indices := indices[id := |regions|];
      regions := regions + [HitRegion(id, |regions|, [])];
    } else {
      OpensOld(sorted, cs, before, known);
    }
    var index := indices[id];
    var fragments := GrowFragments(regions[index].fragments, clusters[k]);
    RegionGrows(sorted, cs, regions, index);
    regions := regions[index := regions[index].(fragments := fragments)];
  }

  /** The list already has the region of the last cluster, but not yet that cluster. */
  predicate Opened(sorted: seq<string>, cs: seq<TextCluster>, regions: seq<HitRegion>, index: nat)
    requires cs != []
  {
    var ids := FirstSeen(sorted, cs);
    && |regions| == |ids| && index < |ids| && ids[index] == RegionId(sorted, cs[|cs| - 1].nodeId)
    && forall i :: 0 <= i < |ids| ==> regions[i] == RegionOf(sorted, cs[..|cs| - 1], ids, i)
  }

  lemma OpensNew(sorted: seq<string>, cs: seq<TextCluster>, before: seq<HitRegion>, known: map<string, nat>)
    requires cs != [] && AreRegions(sorted, cs[..|cs| - 1], before)
    requires IndexesIds(known, FirstSeen(sorted, cs[..|cs| - 1])) && RegionId(sorted, cs[|cs| - 1].nodeId) !in known
    ensures var id := RegionId(sorted, cs[|cs| - 1].nodeId);
            && Opened(sorted, cs, before + [HitRegion(id, |before|, [])], |before|)
            && IndexesIds(known[id := |before|], FirstSeen(sorted, cs))
  {
    var id := RegionId(sorted, cs[|cs| - 1].nodeId);
    var seen := FirstSeen(sorted, cs[..|cs| - 1]);
    assert id !in seen;
    IndexesNext(known, seen, id);
    RegionsNext(sorted, cs, before, seen, id);
  }

  lemma IndexesNext(known: map<string, nat>, ids: seq<string>, id: string)
    requires IndexesIds(known, ids) && id !in known
    ensures IndexesIds(known[id := |ids|], ids + [id])
  {
  }

  lemma RegionsNext(sorted: seq<string>, cs: seq<TextCluster>, before: seq<HitRegion>, seen: seq<string>, id: string)
    requires cs != [] && AreRegions(sorted, cs[..|cs| - 1], before)
    requires seen == FirstSeen(sorted, cs[..|cs| - 1]) && id == RegionId(sorted, cs[|cs| - 1].nodeId) && id !in seen
    ensures Opened(sorted, cs, before + [HitRegion(id, |before|, [])], |before|)
  {
    NotYetOwned(sorted, cs[..|cs| - 1], id);
    forall i | 0 <= i < |seen| ensures before[i] == RegionOf(sorted, cs[..|cs| - 1], seen + [id], i) {
      assert before[i] == RegionOf(sorted, cs[..|cs| - 1], seen, i);
    }
  }

  lemma OpensOld(sorted: seq<string>, cs: seq<TextCluster>, before: seq<HitRegion>, known: map<string, nat>)
    requires cs != [] && AreRegions(sorted, cs[..|cs| - 1], before)
    requires IndexesIds(known, FirstSeen(sorted, cs[..|cs| - 1])) && RegionId(sorted, cs[|cs| - 1].nodeId) in known
    ensures Opened(sorted, cs, before, known[RegionId(sorted, cs[|cs| - 1].nodeId)])
    ensures IndexesIds(known, FirstSeen(sorted, cs))
  {
    assert FirstSeen(sorted, cs) == FirstSeen(sorted, cs[..|cs| - 1]);
  }

  lemma {:induction false} NotYetOwned(sorted: seq<string>, cs: seq<TextCluster>, id: string)
    requires id !in FirstSeen(sorted, cs)
    ensures Owned(sorted, cs, id) == []
  {
    if cs != [] {
      NotYetOwned(sorted, cs[..|cs| - 1], id);
    }
  }

  lemma RegionGrows(sorted: seq<string>, cs: seq<TextCluster>, regions: seq<HitRegion>, index: nat)
    requires cs != [] && Opened(sorted, cs, regions, index)
    ensures var grown := regions[index].(fragments := AddCluster(regions[index].fragments, cs[|cs| - 1]));
            AreRegions(sorted, cs, regions[index := grown])
  {
    var ids, init, last := FirstSeen(sorted, cs), cs[..|cs| - 1], cs[|cs| - 1];
    var own := Owned(sorted, init, ids[index]);
    assert regions[index] == RegionOf(sorted, init, ids, index);
    assert Owned(sorted, cs, ids[index]) == own + [last];
    assert (own + [last])[..|own|] == own;
    RegionIdsAreDistinct(sorted, cs);
    forall i | 0 <= i < |ids| && i != index ensures regions[i] == RegionOf(sorted, cs, ids, i) {
      assert regions[i] == RegionOf(sorted, init, ids, i);
      OtherOwned(sorted, cs, ids[i]);
    }
  }

  lemma OtherOwned(sorted: seq<string>, cs: seq<TextCluster>, id: string)
    requires cs != [] && id != RegionId(sorted, cs[|cs| - 1].nodeId)
    ensures Owned(sorted, cs, id) == Owned(sorted, cs[..|cs| - 1], id)
  {
  }

  // ---- The longest matching root owns a cluster ----

  ghost predicate HasOwner(roots: seq<string>, nodeId: string) {
    exists r :: r in roots && Owns(r, nodeId)
  }

  /** The longest root that owns the node; the node itself when no root does. */
  ghost predicate IsOwner(roots: seq<string>, nodeId: string, id: string) {
    if HasOwner(roots, nodeId)
    then id in roots && Owns(id, nodeId) && forall r :: r in roots && Owns(r, nodeId) ==> |r| <= |id|
    else id == nodeId
  }

  predicate Descending(sorted: seq<string>) {
    forall i, j :: 0 <= i < j < |sorted| ==> Bytes(sorted[i]) >= Bytes(sorted[j])
  }

  lemma {:induction false} InsertRootKeeps(sorted: seq<string>, root: string)
    ensures multiset(InsertRoot(sorted, root)) == multiset(sorted) + multiset{root}
  {
    if sorted != [] && Bytes(sorted[|sorted| - 1]) < Bytes(root) {
      InsertRootKeeps(sorted[..|sorted| - 1], root);
      BagLast(sorted);
    }
  }

  lemma {:induction false} InsertRootSorts(sorted: seq<string>, root: string)
    requires Descending(sorted)
    ensures Descending(InsertRoot(sorted, root))
  {
    if sorted != [] && Bytes(sorted[|sorted| - 1]) < Bytes(root) {
      InsertRootSorts(sorted[..|sorted| - 1], root);
      InsertRootAbove(sorted[..|sorted| - 1], root, Bytes(sorted[|sorted| - 1]));
    }
  }

  lemma {:induction false} InsertRootAbove(sorted: seq<string>, root: string, low: nat)
    requires Bytes(root) >= low && forall i :: 0 <= i < |sorted| ==> Bytes(sorted[i]) >= low
    ensures forall i :: 0 <= i < |InsertRoot(sorted, root)| ==> Bytes(InsertRoot(sorted, root)[i]) >= low
  {
    if sorted != [] && Bytes(sorted[|sorted| - 1]) < Bytes(root) {
      InsertRootAbove(sorted[..|sorted| - 1], root, low);
    }
  }

  lemma {:induction false} SortRootsSorts(roots: seq<string>)
    ensures Descending(SortRoots(roots)) && multiset(SortRoots(roots)) == multiset(roots)
  {
    if roots != [] {
      var init := SortRoots(roots[..|roots| - 1]);
      SortRootsSorts(roots[..|roots| - 1]);
      InsertRootSorts(init, roots[|roots| - 1]);
      InsertRootKeeps(init, roots[|roots| - 1]);
      BagLast(roots);
    }
  }

  lemma OwnerIsPrefix(root: string, nodeId: string)
    requires Owns(root, nodeId)
    ensures |root| < |nodeId| && root == nodeId[..|root|]
  {
  }

  /** Two owners of one node are prefixes of it, so the one with more bytes is the longer one. */
  lemma LongerInBytes(a: string, b: string, nodeId: string)
    requires Owns(a, nodeId) && Owns(b, nodeId) && Bytes(a) >= Bytes(b)
    ensures |b| <= |a|
  {
    OwnerIsPrefix(a, nodeId);
    OwnerIsPrefix(b, nodeId);
    if |a| < |b| {
      PrefixGrows(nodeId, |a|, |b|);
    }
  }

  lemma {:induction false} FirstOwnerIsLongest(sorted: seq<string>, nodeId: string)
    requires Descending(sorted)
    ensures IsOwner(sorted, nodeId, RegionId(sorted, nodeId))
  {
    if sorted != [] {
      var id := RegionId(sorted, nodeId);
      if Owns(sorted[0], nodeId) {
        forall r | r in sorted && Owns(r, nodeId) ensures |r| <= |id| {
          LongerInBytes(sorted[0], r, nodeId);
        }
      } else {
        FirstOwnerIsLongest(sorted[1..], nodeId);
        assert forall r :: r in sorted && Owns(r, nodeId) ==> r in sorted[1..];
      }
    }
  }

  /** A cluster's region is the longest root owning its node, or the node itself; no other answer qualifies. */
  lemma RegionIsLongestOwner(roots: seq<string>, nodeId: string, id: string)
    ensures IsOwner(roots, nodeId, id) <==> id == RegionId(SortRoots(roots), nodeId)
  {
    SortRootsSorts(roots);
    FirstOwnerIsLongest(SortRoots(roots), nodeId);
    SameMembers(roots, SortRoots(roots));
    SameOwner(roots, SortRoots(roots), nodeId, RegionId(SortRoots(roots), nodeId));
    if IsOwner(roots, nodeId, id) {
      OwnerIsUnique(roots, nodeId, id, RegionId(SortRoots(roots), nodeId));
    }
  }

  lemma SameMembers<T>(a: seq<T>, b: seq<T>)
    requires multiset(a) == multiset(b)
    ensures forall x :: x in a <==> x in b
  {
    forall x ensures x in a <==> x in b {
      assert x in a <==> x in multiset(a);
      assert x in b <==> x in multiset(b);
    }
  }

  lemma SameOwner(roots: seq<string>, sorted: seq<string>, nodeId: string, id: string)
    requires (forall r :: r in roots <==> r in sorted) && IsOwner(sorted, nodeId, id)
    ensures IsOwner(roots, nodeId, id)
  {
  }

  lemma OwnerIsUnique(roots: seq<string>, nodeId: string, a: string, b: string)
    requires IsOwner(roots, nodeId, a) && IsOwner(roots, nodeId, b)
    ensures a == b
  {
    if HasOwner(roots, nodeId) {
      assert a == nodeId[..|a|] && b == nodeId[..|b|];
    }
  }

  // ---- Region IDs are distinct and ordered by first appearance ----

  predicate DistinctIds(ids: seq<string>) {
    forall i, j :: 0 <= i < j < |ids| ==> ids[i] != ids[j]
  }

  predicate AllCovered(sorted: seq<string>, cs: seq<TextCluster>, ids: seq<string>) {
    forall k :: 0 <= k < |cs| ==> RegionId(sorted, cs[k].nodeId) in ids
  }

  /** The region's first cluster is at k: everything before it belongs to earlier regions. */
  predicate AppearsAt(sorted: seq<string>, cs: seq<TextCluster>, ids: seq<string>, i: nat, k: nat)
    requires i < |ids| && k < |cs|
  {
    RegionId(sorted, cs[k].nodeId) == ids[i] && forall m :: 0 <= m < k ==> RegionId(sorted, cs[m].nodeId) in ids[..i]
  }

  lemma {:induction false} RegionIdsAreDistinct(sorted: seq<string>, cs: seq<TextCluster>)
    ensures DistinctIds(FirstSeen(sorted, cs))
    ensures AllCovered(sorted, cs, FirstSeen(sorted, cs))
  {
    if cs != [] {
      RegionIdsAreDistinct(sorted, cs[..|cs| - 1]);
    }
  }

  lemma {:induction false} OrderIsFirstAppearance(sorted: seq<string>, cs: seq<TextCluster>, i: nat) returns (k: nat)
    requires i < |FirstSeen(sorted, cs)|
    ensures k < |cs| && AppearsAt(sorted, cs, FirstSeen(sorted, cs), i, k)
  {
    var init := cs[..|cs| - 1];
    var seen, ids := FirstSeen(sorted, init), FirstSeen(sorted, cs);
    assert seen <= ids;
    if i < |seen| {
      k := OrderIsFirstAppearance(sorted, init, i);
      assert seen[..i] == ids[..i];
    } else {
      k := |cs| - 1;
      RegionIdsAreDistinct(sorted, init);
      assert ids[..i] == seen;
    }
  }

  // ---- The regions partition the clusters ----

  /** All clusters of the listed regions, region by region. */
  function Gathered(sorted: seq<string>, cs: seq<TextCluster>, ids: seq<string>): seq<TextCluster> {
    if ids == [] then [] else Gathered(sorted, cs, ids[..|ids| - 1]) + Owned(sorted, cs, ids[|ids| - 1])
  }

  lemma {:induction false} GatheredGrows(sorted: seq<string>, cs: seq<TextCluster>, ids: seq<string>)
    requires cs != [] && DistinctIds(ids)
    ensures var init, last := cs[..|cs| - 1], cs[|cs| - 1];
            multiset(Gathered(sorted, cs, ids)) ==
            multiset(Gathered(sorted, init, ids)) +
            if RegionId(sorted, last.nodeId) in ids then multiset{last} else multiset{}
  {
    if ids != [] {
      GatheredGrows(sorted, cs, ids[..|ids| - 1]);
    }
  }

  lemma {:induction false} GatheredNothing(sorted: seq<string>, cs: seq<TextCluster>, ids: seq<string>)
    requires cs == []
    ensures Gathered(sorted, cs, ids) == []
  {
    if ids != [] {
      GatheredNothing(sorted, cs, ids[..|ids| - 1]);
    }
  }

  /** Whatever distinct list of IDs covers the clusters, its regions together hold each cluster exactly once. */
  lemma {:induction false} RegionsPartition(sorted: seq<string>, cs: seq<TextCluster>, ids: seq<string>)
    requires DistinctIds(ids)
    requires AllCovered(sorted, cs, ids)
    ensures multiset(Gathered(sorted, cs, ids)) == multiset(cs)
  {
    if cs == [] {
      GatheredNothing(sorted, cs, ids);
    } else {
      var init := cs[..|cs| - 1];
      assert RegionId(sorted, cs[|cs| - 1].nodeId) in ids;
      CoveredBefore(sorted, cs, ids);
      RegionsPartition(sorted, init, ids);
      GatheredGrows(sorted, cs, ids);
      BagLast(cs);
    }
  }

  lemma CoveredBefore(sorted: seq<string>, cs: seq<TextCluster>, ids: seq<string>)
    requires cs != [] && AllCovered(sorted, cs, ids)
    ensures AllCovered(sorted, cs[..|cs| - 1], ids)
  {
    var init := cs[..|cs| - 1];
    forall k | 0 <= k < |init| ensures RegionId(sorted, init[k].nodeId) in ids {
      assert init[k] == cs[k];
    }
  }

  /** The regions of a text map hold each cluster exactly once. */
  lemma EveryClusterInOneRegion(sorted: seq<string>, cs: seq<TextCluster>)
    ensures multiset(Gathered(sorted, cs, FirstSeen(sorted, cs))) == multiset(cs)
  {
    RegionIdsAreDistinct(sorted, cs);
    RegionsPartition(sorted, cs, FirstSeen(sorted, cs));
  }

  // ---- A region's fragments cover its clusters ----

  function Concat(groups: seq<seq<TextCluster>>): seq<TextCluster> {
    if groups == [] then [] else Concat(groups[..|groups| - 1]) + groups[|groups| - 1]
  }

  /** Consecutive clusters on one page, each starting where the one before ends. */
  predicate Chained(g: seq<TextCluster>) {
    forall k :: 0 < k < |g| ==> g[k - 1].endUtf16 == g[k].startUtf16 && g[k].page == g[0].page
  }

  predicate Inside(c: TextCluster, f: Fragment) {
    f.x <= c.x && c.x + c.width <= f.x + f.width && Abs(f.y - c.y) < 0.01 && Abs(f.height - c.height) < 0.01
  }

  predicate Touches(f: Fragment, g: seq<TextCluster>) {
    && (exists c :: c in g && c.x == f.x)
    && (exists c :: c in g && c.x + c.width == f.x + f.width)
  }

  /** The fragment is exactly the range and the horizontal hull of a non-empty chain of clusters. */
  predicate Covers(f: Fragment, g: seq<TextCluster>) {
    && g != [] && Chained(g)
    && f.page == g[0].page && f.startUtf16 == g[0].startUtf16 && f.endUtf16 == g[|g| - 1].endUtf16
    && f.y == g[0].y && f.height == g[0].height
    && (forall c :: c in g ==> Inside(c, f))
    && Touches(f, g)
  }

  predicate CoversAll(fs: seq<Fragment>, groups: seq<seq<TextCluster>>) {
    |fs| == |groups| && forall i :: 0 <= i < |fs| ==> Covers(fs[i], groups[i])
  }

  /** No fragment could have taken in the first cluster of the next one. */
  predicate Maximal(fs: seq<Fragment>, groups: seq<seq<TextCluster>>)
    requires CoversAll(fs, groups)
  {
    forall i :: 0 < i < |fs| ==> !Joins(fs[i - 1], groups[i][0])
  }

  lemma SingleCovers(c: TextCluster)
    ensures Covers(Single(c), [c])
  {
    assert c in [c];
  }

  lemma ExtendedCovers(f: Fragment, g: seq<TextCluster>, c: TextCluster)
    requires Covers(f, g) && Joins(f, c)
    ensures Covers(Extended(f, c), g + [c])
  {
    var e, all := Extended(f, c), g + [c];
    forall d | d in all ensures Inside(d, e) {
      if d in g {
        assert Inside(d, f);
      }
    }
    ExtendedTouches(f, g, c);
  }

  lemma ExtendedTouches(f: Fragment, g: seq<TextCluster>, c: TextCluster)
    requires Touches(f, g)
    ensures Touches(Extended(f, c), g + [c])
  {
    var l :| l in g && l.x == f.x;
    var r :| r in g && r.x + r.width == f.x + f.width;
    assert l in g + [c] && r in g + [c] && c in g + [c];
  }

  /**
   * The clusters split, in order, into one chain per fragment; each fragment is exactly its chain's range and hull,
   * and the split is as coarse as the joining rule allows.
   */
  lemma {:induction false} FragmentsCover(cs: seq<TextCluster>) returns (groups: seq<seq<TextCluster>>)
    ensures Concat(groups) == cs
    ensures CoversAll(Fragments(cs), groups) && Maximal(Fragments(cs), groups)
  {
    if cs == [] {
      groups := [];
    } else {
      var init, c := cs[..|cs| - 1], cs[|cs| - 1];
      var fs := Fragments(init);
      var gs := FragmentsCover(init);
      assert cs == init + [c];
      groups := AddToGroups(fs, gs, c);
    }
  }

  lemma AddToGroups(fs: seq<Fragment>, gs: seq<seq<TextCluster>>, c: TextCluster) returns (groups: seq<seq<TextCluster>>)
    requires CoversAll(fs, gs) && Maximal(fs, gs)
    ensures Concat(groups) == Concat(gs) + [c]
    ensures CoversAll(AddCluster(fs, c), groups) && Maximal(AddCluster(fs, c), groups)
  {
    var n := |fs|;
    if fs != [] && Joins(fs[n - 1], c) {
      groups := gs[n - 1 := gs[n - 1] + [c]];
      assert groups[..n - 1] == gs[..n - 1];
      GroupExtends(fs, gs, c, groups);
    } else {
      groups := gs + [[c]];
      assert groups[..n] == gs;
      SingleCovers(c);
      GroupStarts(fs, gs, c, groups);
    }
  }

  lemma GroupExtends(fs: seq<Fragment>, gs: seq<seq<TextCluster>>, c: TextCluster, groups: seq<seq<TextCluster>>)
    requires fs != [] && CoversAll(fs, gs) && Maximal(fs, gs) && Joins(fs[|fs| - 1], c)
    requires groups == gs[|gs| - 1 := gs[|gs| - 1] + [c]]
    ensures CoversAll(AddCluster(fs, c), groups) && Maximal(AddCluster(fs, c), groups)
  {
    var n, all := |fs|, AddCluster(fs, c);
    assert Covers(fs[n - 1], gs[n - 1]);
    ExtendedCovers(fs[n - 1], gs[n - 1], c);
    forall i | 0 <= i < n ensures Covers(all[i], groups[i]) {
      assert Covers(fs[i], gs[i]);
    }
    forall i | 0 < i < n ensures !Joins(all[i - 1], groups[i][0]) {
      assert !Joins(fs[i - 1], gs[i][0]);
      assert Covers(fs[i], gs[i]);
    }
  }

  lemma GroupStarts(fs: seq<Fragment>, gs: seq<seq<TextCluster>>, c: TextCluster, groups: seq<seq<TextCluster>>)
    requires CoversAll(fs, gs) && Maximal(fs, gs) && (fs != [] ==> !Joins(fs[|fs| - 1], c))
    requires groups == gs + [[c]] && Covers(Single(c), [c])
    ensures CoversAll(AddCluster(fs, c), groups) && Maximal(AddCluster(fs, c), groups)
  {
    var n, all := |fs|, AddCluster(fs, c);
    forall i | 0 <= i <= n ensures Covers(all[i], groups[i]) {
      if i < n {
        assert Covers(fs[i], gs[i]);
      }
    }
    forall i | 0 < i <= n ensures !Joins(all[i - 1], groups[i][0]) {
      if i < n {
        assert !Joins(fs[i - 1], gs[i][0]);
      }
    }
  }

  /** A unit lies in a fragment exactly when one of the fragment's clusters has it. */
  lemma {:induction false} FragmentUnits(f: Fragment, g: seq<TextCluster>, u: nat)
    requires Covers(f, g) && forall c :: c in g ==> c.startUtf16 <= c.endUtf16
    ensures f.startUtf16 <= u < f.endUtf16 <==> exists k :: 0 <= k < |g| && g[k].startUtf16 <= u < g[k].endUtf16
  {
    ChainUnits(g, u);
  }

  lemma {:induction false} ChainUnits(g: seq<TextCluster>, u: nat)
    requires g != [] && Chained(g) && forall c :: c in g ==> c.startUtf16 <= c.endUtf16
    ensures g[0].startUtf16 <= g[|g| - 1].endUtf16
    ensures g[0].startUtf16 <= u < g[|g| - 1].endUtf16 <==>
            exists k :: 0 <= k < |g| && g[k].startUtf16 <= u < g[k].endUtf16
  {
    if |g| > 1 {
      var init, last := g[..|g| - 1], g[|g| - 1];
      ChainUnits(init, u);
      if last.startUtf16 <= u < last.endUtf16 {
        assert g[|g| - 1] == last;
      }
      if k :| 0 <= k < |init| && init[k].startUtf16 <= u < init[k].endUtf16 {
        assert g[k] == init[k];
      }
      forall k | 0 <= k < |g| - 1 ensures g[k] == init[k] {}
    }
  }
}
