/** The logical text as a whole: what stands between two leaves, before the first and behind the last. */
module LogicalText {
  import opened Contracts
  import opened Unicode
  import opened TextMap

  // ---- What separates leaves ----

  function Breaks(items: seq<LeafItem>): nat {
    if items == [] then 0 else Breaks(items[..|items| - 1]) + if items[|items| - 1].BreakLeaf? then 1 else 0
  }

  /** As many line breaks. */
  function Lines(n: nat): string {
    seq(n, _ => '\n')
  }

  predicate HasLeaf(items: seq<LeafItem>) {
    exists i :: 0 <= i < |items| && IsLeaf(items[i])
  }

  /**
   * What stands between a leaf with this text and the next one: a line break for each break between them; without a
   * break, one line break if there is a boundary and the text does not end with one; else nothing.
   */
  function Separator(text: string, between: seq<LeafItem>): string
    requires text != ""
  {
    if Breaks(between) > 0 then Lines(Breaks(between))
    else if Boundary in between && text[|text| - 1] != '\n' then "\n"
    else ""
  }

  // ---- One stretch without leaves ----

  lemma MoreLines(n: nat)
    ensures Lines(n) + "\n" == Lines(n + 1)
  {
  }

  /** From the first assembly to the second only the line breaks of the items in between were added. */
  predicate OnlyBreaks(a: Assembly, b: Assembly, between: seq<LeafItem>) {
    && b.logical == a.logical + Lines(Breaks(between)) && b.leaves == a.leaves
    && (Breaks(between) == 0 ==> b.pending == (a.pending || Boundary in between))
  }

  /** Items without leaves only add their line breaks; without a break they remember whether there was a boundary. */
  lemma {:induction false} StretchAdds(items: seq<LeafItem>, i: nat, k: nat)
    requires i <= k <= |items| && !HasLeaf(items[i..k])
    ensures OnlyBreaks(Assemble(items[..i]), Assemble(items[..k]), items[i..k])
    decreases k
  {
    if i < k {
      StretchIsShorter(items, i, k);
      StretchAdds(items, i, k - 1);
      OneMoreItem(items, k - 1);
      OneMoreBreak(Assemble(items[..i]), Assemble(items[..k - 1]), items[i..k - 1], items[k - 1]);
      assert items[i..k] == items[i..k - 1] + [items[k - 1]];
    }
  }

  lemma OneMoreBreak(a: Assembly, b: Assembly, between: seq<LeafItem>, item: LeafItem)
    requires OnlyBreaks(a, b, between) && !IsLeaf(item)
    ensures OnlyBreaks(a, AssembleOne(b, item), between + [item])
  {
    assert (between + [item])[..|between|] == between;
    MoreLines(Breaks(between));
  }

  lemma StretchIsShorter(items: seq<LeafItem>, i: nat, k: nat)
    requires i < k <= |items| && !HasLeaf(items[i..k])
    ensures !HasLeaf(items[i..k - 1]) && !IsLeaf(items[k - 1])
  {
    var all, shorter := items[i..k], items[i..k - 1];
    forall m | 0 <= m < |shorter| ensures !IsLeaf(shorter[m]) {
      assert shorter[m] == all[m];
    }
    assert all[k - 1 - i] == items[k - 1];
  }

  lemma OneMoreItem(items: seq<LeafItem>, k: nat)
    requires k < |items|
    ensures Assemble(items[..k + 1]) == AssembleOne(Assemble(items[..k]), items[k])
  {
    assert items[..k + 1][..k] == items[..k];
  }

  // ---- Two successive leaves ----

  /** The assembly up to and with a leaf. */
  lemma LeafAdds(items: seq<LeafItem>, i: nat)
    requires i < |items| && IsLeaf(items[i])
    ensures var a, b := Assemble(items[..i]), Assemble(items[..i + 1]);
            && b.logical == BeforeLeaf(a) + items[i].text && !b.pending
            && items[i].nodeId in b.leaves && b.leaves[items[i].nodeId] == Leaf(items[i].text, Units(BeforeLeaf(a)))
  {
    OneMoreItem(items, i);
  }

  /** Between two leaves with none in between stands their separator. */
  lemma NextLeafAdds(items: seq<LeafItem>, i: nat, j: nat)
    requires i < j < |items| && IsLeaf(items[i]) && IsLeaf(items[j]) && !HasLeaf(items[i + 1..j])
    ensures BeforeLeaf(Assemble(items[..j])) == Assemble(items[..i + 1]).logical + Separator(items[i].text, items[i + 1..j])
  {
    LeafAdds(items, i);
    StretchAdds(items, i + 1, j);
    var a, b := Assemble(items[..i + 1]), Assemble(items[..j]);
    LastCharOf(BeforeLeaf(Assemble(items[..i])), items[i].text);
    SeparatorComes(a, b, items[i].text, items[i + 1..j]);
  }

  lemma LastCharOf(front: string, text: string)
    requires text != ""
    ensures (front + text)[|front + text| - 1] == text[|text| - 1]
  {
  }

  lemma SeparatorComes(a: Assembly, b: Assembly, text: string, between: seq<LeafItem>)
    requires text != "" && a.logical != "" && a.logical[|a.logical| - 1] == text[|text| - 1] && !a.pending
    requires b.logical == a.logical + Lines(Breaks(between))
    requires Breaks(between) == 0 ==> b.pending == (Boundary in between)
    ensures BeforeLeaf(b) == a.logical + Separator(text, between)
  {
    var n := Breaks(between);
    if n > 0 {
      LastCharOf(a.logical, Lines(n));
    } else {
      assert b.logical == a.logical;
    }
  }

  // ---- The whole text ----

  /** Later items neither change the text so far nor the leaves recorded so far. */
  lemma {:induction false} WholeGrows(items: seq<LeafItem>, k: nat)
    requires k <= |items|
    ensures Assemble(items[..k]).logical <= Assemble(items).logical
    ensures forall id :: id in Assemble(items[..k]).leaves && (forall m :: k <= m < |items| && IsLeaf(items[m]) ==> items[m].nodeId != id)
              ==> id in Assemble(items).leaves && Assemble(items).leaves[id] == Assemble(items[..k]).leaves[id]
    decreases |items|
  {
    if k == |items| {
      assert items[..k] == items;
    } else {
      var n := |items| - 1;
      assert items[..n][..k] == items[..k];
      WholeGrows(items[..n], k);
      Extends(Assemble(items[..n]), items[n]);
    }
  }

  lemma LeafStays(items: seq<LeafItem>, i: nat)
    requires DistinctLeaves(items) && i < |items| && IsLeaf(items[i])
    ensures var a, id := Assemble(items), items[i].nodeId;
            && id in a.leaves && a.leaves[id] == Leaf(items[i].text, Units(BeforeLeaf(Assemble(items[..i]))))
            && BeforeLeaf(Assemble(items[..i])) + items[i].text <= a.logical
  {
    LeafAdds(items, i);
    WholeGrows(items, i + 1);
  }

  /** The first leaf stands at character p, then comes the separator, then the second leaf; the bases count the units before them. */
  predicate AreSeparatedAt(a: Assembly, first: LeafItem, second: LeafItem, separator: string, p: nat)
    requires first.TextLeaf? && second.TextLeaf?
  {
    var q := p + |first.text|;
    var r := q + |separator|;
    && r + |second.text| <= |a.logical|
    && a.logical[p..q] == first.text && a.logical[q..r] == separator && a.logical[r..r + |second.text|] == second.text
    && first.nodeId in a.leaves && a.leaves[first.nodeId] == Leaf(first.text, Units(a.logical[..p]))
    && second.nodeId in a.leaves && a.leaves[second.nodeId] == Leaf(second.text, Units(a.logical[..r]))
  }

  lemma SeparatedBehind(a: Assembly, front: string, first: LeafItem, separator: string, second: LeafItem)
    requires first.TextLeaf? && second.TextLeaf? && front + first.text + separator + second.text <= a.logical
    requires first.nodeId in a.leaves && a.leaves[first.nodeId] == Leaf(first.text, Units(front))
    requires second.nodeId in a.leaves && a.leaves[second.nodeId] == Leaf(second.text, Units(front + first.text + separator))
    ensures AreSeparatedAt(a, first, second, separator, |front|)
  {
    SlicesOf(a.logical, front, first.text, separator, second.text);
  }

  /** Two successive leaves of the text, with a line break for each break between them, or one for a boundary, or nothing. */
  lemma LeavesAreSeparated(items: seq<LeafItem>, i: nat, j: nat) returns (p: nat)
    requires DistinctLeaves(items)
    requires i < j < |items| && IsLeaf(items[i]) && IsLeaf(items[j]) && !HasLeaf(items[i + 1..j])
    ensures AreSeparatedAt(Assemble(items), items[i], items[j], Separator(items[i].text, items[i + 1..j]), p)
  {
    var front := BeforeLeaf(Assemble(items[..i]));
    LeafStays(items, i);
    LeafStays(items, j);
    LeafAdds(items, i);
    NextLeafAdds(items, i, j);
    SeparatedBehind(Assemble(items), front, items[i], Separator(items[i].text, items[i + 1..j]), items[j]);
    p := |front|;
  }

  lemma SlicesOf(whole: string, a: string, b: string, c: string, d: string)
    requires a + b + c + d <= whole
    ensures var p, q, r := |a|, |a| + |b|, |a| + |b| + |c|;
            && whole[..p] == a && whole[p..q] == b && whole[q..r] == c && whole[r..r + |d|] == d && whole[..r] == a + b + c
  {
    assert whole[..|a + b + c + d|] == a + b + c + d;
  }

  /** Before the first leaf stand only the line breaks of the breaks before it. */
  lemma FirstLeafStands(items: seq<LeafItem>, i: nat)
    requires DistinctLeaves(items) && i < |items| && IsLeaf(items[i]) && !HasLeaf(items[..i])
    ensures var a, n := Assemble(items), Breaks(items[..i]);
            && n + |items[i].text| <= |a.logical|
            && a.logical[..n] == Lines(n) && a.logical[n..n + |items[i].text|] == items[i].text
            && items[i].nodeId in a.leaves && a.leaves[items[i].nodeId] == Leaf(items[i].text, Units(Lines(n)))
  {
    LeafStays(items, i);
    NothingBefore(items, i);
    FrontSlices(Assemble(items).logical, Lines(Breaks(items[..i])), items[i].text);
  }

  lemma NothingBefore(items: seq<LeafItem>, i: nat)
    requires i <= |items| && !HasLeaf(items[..i])
    ensures Assemble(items[..i]).logical == Lines(Breaks(items[..i])) == BeforeLeaf(Assemble(items[..i]))
  {
    assert items[0..i] == items[..i] && items[..0] == [];
    StretchAdds(items, 0, i);
    assert Assemble(items[..0]).logical == "";
    assert "" + Lines(Breaks(items[..i])) == Lines(Breaks(items[..i]));
  }

  lemma FrontSlices(whole: string, a: string, b: string)
    requires a + b <= whole
    ensures whole[..|a|] == a && whole[|a|..|a| + |b|] == b
  {
    assert whole[..|a + b|] == a + b;
  }

  /** Behind the last leaf stand only the line breaks of the breaks behind it; its base counts the units before it. */
  lemma LastLeafEnds(items: seq<LeafItem>, i: nat) returns (front: string)
    requires DistinctLeaves(items) && i < |items| && IsLeaf(items[i]) && !HasLeaf(items[i + 1..])
    ensures Assemble(items).logical == front + items[i].text + Lines(Breaks(items[i + 1..]))
    ensures items[i].nodeId in Assemble(items).leaves
            && Assemble(items).leaves[items[i].nodeId] == Leaf(items[i].text, Units(front))
  {
    front := BeforeLeaf(Assemble(items[..i]));
    LeafStays(items, i);
    LeafAdds(items, i);
    NothingBehind(items, i + 1);
  }

  lemma NothingBehind(items: seq<LeafItem>, i: nat)
    requires i <= |items| && !HasLeaf(items[i..])
    ensures Assemble(items).logical == Assemble(items[..i]).logical + Lines(Breaks(items[i..]))
  {
    assert items[i..|items|] == items[i..] && items[..|items|] == items;
    StretchAdds(items, i, |items|);
  }

  /** Without any leaf there are only the line breaks of the breaks. */
  lemma NoLeafNoText(items: seq<LeafItem>)
    requires !HasLeaf(items)
    ensures Assemble(items).logical == Lines(Breaks(items)) && Assemble(items).leaves == map[]
  {
    assert items[0..|items|] == items && items[..|items|] == items && items[..0] == [];
    StretchAdds(items, 0, |items|);
  }
}
