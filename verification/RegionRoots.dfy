/** The hit regions of a document, told by the IDs of its sections and entries. */
module RegionRoots {
  import opened Contracts
  import opened TextMap
  import opened HitRegions

  // ---- Which names are roots ----

  ghost predicate IsSectionRoot(ss: seq<Section>, root: string) {
    exists s :: s in ss && root == "section:" + s.id
  }

  ghost predicate IsEntryRoot(ss: seq<Section>, root: string) {
    exists s, e :: s in ss && s.EntrySection? && e in s.entries && root == "entry:" + e.id
  }

  ghost predicate IsRoot(ss: seq<Section>, root: string) {
    IsSectionRoot(ss, root) || IsEntryRoot(ss, root)
  }

  lemma {:induction false} EntryRootsAreEntries(es: seq<Entry>, root: string)
    ensures root in EntryRoots(es) <==> exists e :: e in es && root == "entry:" + e.id
  {
    if es != [] {
      EntryRootsAreEntries(es[1..], root);
      assert forall e :: e in es <==> e == es[0] || e in es[1..];
    }
  }

  /** The roots are the sections of both kinds and the entries of the entry sections, and nothing else. */
  lemma {:induction false} RootsAreSectionsAndEntries(ss: seq<Section>, root: string)
    ensures root in Roots(ss) <==> IsRoot(ss, root)
  {
    if ss != [] {
      RootsAreSectionsAndEntries(ss[1..], root);
      if ss[0].EntrySection? {
        EntryRootsAreEntries(ss[0].entries, root);
      }
      assert forall s :: s in ss <==> s == ss[0] || s in ss[1..];
    }
  }

  // ---- Which region a node lies in ----

  ghost predicate Reaches(ss: seq<Section>, root: string, nodeId: string) {
    IsRoot(ss, root) && root + ":" <= nodeId
  }

  /** The longest section or entry whose name and a colon begin the node's; without one, the node itself. */
  ghost predicate LiesIn(ss: seq<Section>, nodeId: string, id: string) {
    if exists root :: Reaches(ss, root, nodeId)
    then Reaches(ss, id, nodeId) && forall root :: Reaches(ss, root, nodeId) ==> |root| <= |id|
    else id == nodeId
  }

  lemma LiesInItsRegion(ss: seq<Section>, nodeId: string, id: string)
    ensures LiesIn(ss, nodeId, id) <==> id == RegionId(SortRoots(Roots(ss)), nodeId)
  {
    forall root ensures root in Roots(ss) && Owns(root, nodeId) <==> Reaches(ss, root, nodeId) {
      RootsAreSectionsAndEntries(ss, root);
    }
    RegionIsLongestOwner(Roots(ss), nodeId, id);
  }

  // ---- The regions of a document ----

  /** The clusters that lie in a region, in order. */
  ghost function ClustersIn(ss: seq<Section>, cs: seq<TextCluster>, id: string): seq<TextCluster> {
    if cs == [] then []
    else
      var last := cs[|cs| - 1];
      ClustersIn(ss, cs[..|cs| - 1], id) + if LiesIn(ss, last.nodeId, id) then [last] else []
  }

  lemma {:induction false} ClustersInAreOwned(ss: seq<Section>, cs: seq<TextCluster>, id: string)
    ensures Owned(SortRoots(Roots(ss)), cs, id) == ClustersIn(ss, cs, id)
  {
    if cs != [] {
      ClustersInAreOwned(ss, cs[..|cs| - 1], id);
      LiesInItsRegion(ss, cs[|cs| - 1].nodeId, id);
    }
  }

  ghost predicate HasRegion(regions: seq<HitRegion>, id: string) {
    exists i :: 0 <= i < |regions| && regions[i].nodeId == id
  }

  /** Each region is made of just the clusters that lie in it, regions are distinct, and a cluster's region is there. */
  lemma RegionsByName(ss: seq<Section>, cs: seq<TextCluster>, regions: seq<HitRegion>)
    requires AreRegions(SortRoots(Roots(ss)), cs, regions)
    ensures forall i :: 0 <= i < |regions| ==>
              regions[i].semanticOrder == i && regions[i].fragments == Fragments(ClustersIn(ss, cs, regions[i].nodeId))
    ensures forall i, j :: 0 <= i < j < |regions| ==> regions[i].nodeId != regions[j].nodeId
    ensures forall k, id :: 0 <= k < |cs| && LiesIn(ss, cs[k].nodeId, id) ==> HasRegion(regions, id)
  {
    var sorted := SortRoots(Roots(ss));
    var ids := FirstSeen(sorted, cs);
    RegionIdsAreDistinct(sorted, cs);
    forall i | 0 <= i < |regions|
      ensures regions[i].semanticOrder == i && regions[i].nodeId == ids[i]
      ensures regions[i].fragments == Fragments(ClustersIn(ss, cs, regions[i].nodeId))
    {
      assert regions[i] == RegionOf(sorted, cs, ids, i);
      ClustersInAreOwned(ss, cs, ids[i]);
    }
    forall k, id | 0 <= k < |cs| && LiesIn(ss, cs[k].nodeId, id) ensures HasRegion(regions, id) {
      LiesInItsRegion(ss, cs[k].nodeId, id);
      var i :| 0 <= i < |ids| && ids[i] == id;
      assert regions[i].nodeId == id;
    }
  }

  /** A cluster whose node's name begins with a section's lies in the section unless a longer root is there too. */
  lemma SectionRegion(ss: seq<Section>, s: Section, rest: string)
    requires s in ss
    requires forall root :: Reaches(ss, root, "section:" + s.id + ":" + rest) ==> |root| <= |"section:" + s.id|
    ensures forall id :: LiesIn(ss, "section:" + s.id + ":" + rest, id) <==> id == "section:" + s.id
  {
    assert IsSectionRoot(ss, "section:" + s.id);
    OnlyLongest(ss, "section:" + s.id, rest);
  }

  lemma EntryRegion(ss: seq<Section>, s: Section, e: Entry, rest: string)
    requires s in ss && s.EntrySection? && e in s.entries
    requires forall root :: Reaches(ss, root, "entry:" + e.id + ":" + rest) ==> |root| <= |"entry:" + e.id|
    ensures forall id :: LiesIn(ss, "entry:" + e.id + ":" + rest, id) <==> id == "entry:" + e.id
  {
    assert IsEntryRoot(ss, "entry:" + e.id);
    OnlyLongest(ss, "entry:" + e.id, rest);
  }

  lemma OnlyLongest(ss: seq<Section>, longest: string, rest: string)
    requires IsRoot(ss, longest)
    requires forall root :: Reaches(ss, root, longest + ":" + rest) ==> |root| <= |longest|
    ensures forall id :: LiesIn(ss, longest + ":" + rest, id) <==> id == longest
  {
    var nodeId := longest + ":" + rest;
    assert longest + ":" <= nodeId;
    assert Reaches(ss, longest, nodeId);
    LiesInItsRegion(ss, nodeId, longest);
    forall id ensures LiesIn(ss, nodeId, id) <==> id == longest {
      LiesInItsRegion(ss, nodeId, id);
    }
  }
}
