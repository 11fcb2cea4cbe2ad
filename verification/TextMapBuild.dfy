/** The text map as a whole: when the build succeeds, when it runs past the end, and what a successful one holds. */
module TextMapBuild {
  import opened Contracts
  import opened Unicode
  import opened TextMap

  // ---- When the build succeeds, and when it panics ----

  /** The cluster names a leaf, is the leaf's text at its offset, and is not empty at the very end of the logical text. */
  predicate IsMappable(a: Assembly, raw: RawCluster) {
    && raw.nodeId in a.leaves && IsGlyphText(a.leaves[raw.nodeId], raw)
    && !EmptyAtEnd(a.logical, a.leaves[raw.nodeId], raw)
  }

  predicate AllMappable(a: Assembly, raw: seq<RawCluster>) {
    forall i :: 0 <= i < |raw| ==> IsMappable(a, raw[i])
  }

  lemma MapsExactlyWhen(items: seq<LeafItem>, rtlUnits: seq<bool>, raw: RawCluster)
    requires |rtlUnits| == Units(Assemble(items).logical)
    ensures MapCluster(Assemble(items).leaves, rtlUnits, raw).Ok? <==> IsMappable(Assemble(items), raw)
  {
    PanicExactlyAtTheEnd(items, rtlUnits, raw);
  }

  lemma AllMappableNext(a: Assembly, raw: seq<RawCluster>)
    requires raw != []
    ensures AllMappable(a, raw) <==> AllMappable(a, raw[..|raw| - 1]) && IsMappable(a, raw[|raw| - 1])
  {
    var init := raw[..|raw| - 1];
    if AllMappable(a, init) && IsMappable(a, raw[|raw| - 1]) {
      forall i | 0 <= i < |raw| ensures IsMappable(a, raw[i]) {
        assert i < |init| ==> init[i] == raw[i];
      }
    }
  }

  /** The build succeeds exactly when every cluster can be mapped. */
  lemma {:induction false} BuildSucceedsExactlyWhen(items: seq<LeafItem>, rtlUnits: seq<bool>, raw: seq<RawCluster>)
    requires |rtlUnits| == Units(Assemble(items).logical)
    ensures MapClusters(Assemble(items).leaves, rtlUnits, raw).Ok? <==> AllMappable(Assemble(items), raw)
  {
    if raw != [] {
      BuildSucceedsExactlyWhen(items, rtlUnits, raw[..|raw| - 1]);
      MapsExactlyWhen(items, rtlUnits, raw[|raw| - 1]);
      AllMappableNext(Assemble(items), raw);
    }
  }

  predicate PanicsOn(a: Assembly, raw: RawCluster) {
    raw.nodeId in a.leaves && EmptyAtEnd(a.logical, a.leaves[raw.nodeId], raw)
  }

  /** The first cluster that cannot be mapped is an empty one at the very end. */
  predicate PanicsAt(a: Assembly, raw: seq<RawCluster>, i: nat) {
    i < |raw| && PanicsOn(a, raw[i]) && AllMappable(a, raw[..i])
  }

  ghost predicate Panics(a: Assembly, raw: seq<RawCluster>) {
    exists i: nat :: PanicsAt(a, raw, i)
  }

  lemma PanicsNext(a: Assembly, raw: seq<RawCluster>)
    requires raw != []
    ensures Panics(a, raw) <==> Panics(a, raw[..|raw| - 1]) || PanicsAt(a, raw, |raw| - 1)
  {
    var n := |raw| - 1;
    if i: nat :| PanicsAt(a, raw[..n], i) {
      assert raw[..n][..i] == raw[..i];
      assert PanicsAt(a, raw, i);
    }
    if i: nat :| PanicsAt(a, raw, i) {
      if i < n {
        assert raw[..n][..i] == raw[..i];
        assert PanicsAt(a, raw[..n], i);
      }
    }
  }

  /** The whole build runs past the direction flags exactly when its first unmappable cluster is empty and at the very end. */
  lemma {:induction false} BuildPanicsExactlyWhen(items: seq<LeafItem>, rtlUnits: seq<bool>, raw: seq<RawCluster>)
    requires |rtlUnits| == Units(Assemble(items).logical)
    ensures MapClusters(Assemble(items).leaves, rtlUnits, raw) == Err(IndexPanic) <==> Panics(Assemble(items), raw)
  {
    if raw != [] {
      var n := |raw| - 1;
      BuildPanicsExactlyWhen(items, rtlUnits, raw[..n]);
      BuildSucceedsExactlyWhen(items, rtlUnits, raw[..n]);
      PanicExactlyAtTheEnd(items, rtlUnits, raw[n]);
      PanicsNext(Assemble(items), raw);
    }
  }

  /** One leaf, and an empty cluster behind its text: the build runs past the end. */
  lemma PanicHappens(id: string, text: string, rtlUnits: seq<bool>, page: nat)
    requires text != "" && |rtlUnits| == Units(text)
    ensures MapClusters(Assemble([TextLeaf(id, text, None)]).leaves, rtlUnits,
                        [RawCluster(id, "", Bytes(text), page, 0.0, 0.0, 0.0, 0.0)]) == Err(IndexPanic)
  {
    var items := [TextLeaf(id, text, None)];
    var raw := [RawCluster(id, "", Bytes(text), page, 0.0, 0.0, 0.0, 0.0)];
    OneLeaf(id, text);
    assert raw[..0] == [];
    assert PanicsAt(Assemble(items), raw, 0);
    BuildPanicsExactlyWhen(items, rtlUnits, raw);
  }

  lemma OneLeaf(id: string, text: string)
    requires text != ""
    ensures Assemble([TextLeaf(id, text, None)]) == Assembly(text, false, map[id := Leaf(text, 0)])
  {
    var items := [TextLeaf(id, text, None)];
    assert items[..0] == [];
    assert Assemble(items[..0]) == Assembly("", false, map[]);
    assert "" + text == text;
  }

  // ---- What a successful build holds ----

  function Unnumbered(c: TextCluster): TextCluster { c.(logicalOrder := 0) }

  function AllUnnumbered(cs: seq<TextCluster>): (r: seq<TextCluster>)
    ensures |r| == |cs| && forall i :: 0 <= i < |r| ==> r[i] == Unnumbered(cs[i])
  {
    seq(|cs|, i requires 0 <= i < |cs| => Unnumbered(cs[i]))
  }

  /** The cluster of the result comes from this raw one, and cuts exactly its text out of the logical text, inside its leaf. */
  predicate IsExactFor(a: Assembly, rtlUnits: seq<bool>, c: TextCluster, raw: RawCluster) {
    && raw.nodeId in a.leaves && c.nodeId == raw.nodeId
    && MapCluster(a.leaves, rtlUnits, raw) == Ok(Unnumbered(c))
    && ExactRange(a.logical, a.leaves[raw.nodeId], c.startUtf16, c.endUtf16, raw.text)
  }

  ghost predicate HasRaw(a: Assembly, rtlUnits: seq<bool>, c: TextCluster, raw: seq<RawCluster>) {
    exists i :: 0 <= i < |raw| && IsExactFor(a, rtlUnits, c, raw[i])
  }

  predicate AllZero(cs: seq<TextCluster>) {
    forall c :: c in cs ==> c == Unnumbered(c)
  }

  lemma {:induction false} MappedAreZero(leaves: map<string, Leaf>, rtlUnits: seq<bool>, raw: seq<RawCluster>)
    requires MapClusters(leaves, rtlUnits, raw).Ok?
    ensures AllZero(MapClusters(leaves, rtlUnits, raw).value)
  {
    if raw != [] {
      MappedAreZero(leaves, rtlUnits, raw[..|raw| - 1]);
    }
  }

  lemma SortedMembers(cs: seq<TextCluster>)
    ensures |SortByStart(cs)| == |cs| && forall k :: 0 <= k < |cs| ==> SortByStart(cs)[k] in cs
  {
    SortIsStable(cs, 0);
    var sorted := SortByStart(cs);
    assert |sorted| == |multiset(sorted)|;
    forall k | 0 <= k < |sorted| ensures sorted[k] in cs {
      assert sorted[k] in multiset(sorted);
    }
  }

  lemma NumbersOnly(cs: seq<TextCluster>)
    requires AllZero(cs)
    ensures AllUnnumbered(Numbered(SortByStart(cs))) == SortByStart(cs)
  {
    SortedMembers(cs);
    var sorted, r := SortByStart(cs), AllUnnumbered(Numbered(SortByStart(cs)));
    forall k | 0 <= k < |sorted| ensures r[k] == sorted[k] {
      assert sorted[k] in cs;
    }
  }

  lemma OriginOf(items: seq<LeafItem>, rtlUnits: seq<bool>, raw: seq<RawCluster>, c: TextCluster, k: nat)
    requires MapClusters(Assemble(items).leaves, rtlUnits, raw).Ok?
    requires c in MapClusters(Assemble(items).leaves, rtlUnits, raw).value
    ensures HasRaw(Assemble(items), rtlUnits, c.(logicalOrder := k), raw)
  {
    var mapped := MapClusters(Assemble(items).leaves, rtlUnits, raw).value;
    EveryClusterMapped(Assemble(items).leaves, rtlUnits, raw);
    MappedAreZero(Assemble(items).leaves, rtlUnits, raw);
    var i :| 0 <= i < |mapped| && mapped[i] == c;
    ClusterIsExact(items, rtlUnits, raw[i]);
    assert IsExactFor(Assemble(items), rtlUnits, c.(logicalOrder := k), raw[i]);
  }

  /**
   * A successful build is exact as a whole: the mapped clusters, one per raw cluster, each once, sorted by start and
   * numbered in that order, and each cuts exactly the text of its raw cluster out of the logical text, inside its leaf.
   */
  lemma BuiltMapIsExact(items: seq<LeafItem>, rtlUnits: seq<bool>, raw: seq<RawCluster>)
    requires MapClusters(Assemble(items).leaves, rtlUnits, raw).Ok?
    ensures var mapped := MapClusters(Assemble(items).leaves, rtlUnits, raw).value;
            var result := Numbered(SortByStart(mapped));
            && |result| == |raw| && multiset(AllUnnumbered(result)) == multiset(mapped)
            && SortedByStart(AllUnnumbered(result))
            && (forall k :: 0 <= k < |result| ==> result[k].logicalOrder == k)
            && (forall k :: 0 <= k < |result| ==> HasRaw(Assemble(items), rtlUnits, result[k], raw))
  {
    var mapped := MapClusters(Assemble(items).leaves, rtlUnits, raw).value;
    var sorted := SortByStart(mapped);
    SortIsStable(mapped, 0);
    SortedMembers(mapped);
    MappedAreZero(Assemble(items).leaves, rtlUnits, raw);
    NumbersOnly(mapped);
    EveryClusterMapped(Assemble(items).leaves, rtlUnits, raw);
    forall k | 0 <= k < |sorted| ensures HasRaw(Assemble(items), rtlUnits, Numbered(sorted)[k], raw) {
      OriginOf(items, rtlUnits, raw, sorted[k], k);
    }
  }
}
