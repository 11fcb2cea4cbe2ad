/** The section list under the client's commands: progress, reflection and completion. */
module SyncSections {
  import opened Contracts
  import opened Documents
  import opened Domain
  import opened DocumentBridge
  import opened SectionEdits
  import opened EntryEdits
  import opened SyncCost
  import opened SyncSteps

  // ---- When a section list can be brought to the desired one ----

  predicate Present(m: map<Id, Section>, ds: seq<Section>) {
    forall k :: 0 <= k < |ds| ==> ds[k].id in m
  }

  predicate KindsMatch(m: map<Id, Section>, ds: seq<Section>) {
    forall k :: 0 <= k < |ds| ==> (ds[k].id in m ==> SameKind(m[ds[k].id], ds[k]))
  }

  predicate NoObstacle(m: map<Id, Section>, ds: seq<Section>) {
    forall k :: 0 <= k < |ds| ==> (ds[k].id in m ==> Reachable(m[ds[k].id], ds[k]))
  }

  /** The section ds[k] wants no entry that the current document keeps in the later section ds[j]. */
  predicate Clear(m: map<Id, Section>, ds: seq<Section>, k: nat, j: nat)
    requires k < |ds| && j < |ds|
  {
    ds[j].id in m ==> EntryIds(ds[k]) !! Known(m[ds[j].id]).Keys
  }

  /** No entry has to move to an earlier section: it would be added there before its old place is emptied. */
  predicate NoEarlierMove(m: map<Id, Section>, ds: seq<Section>) {
    forall k, j :: 0 <= k < j < |ds| ==> Clear(m, ds, k, j)
  }

  /** Same sections of the same kinds, removable differences only, and no entry moving to an earlier section. */
  predicate SectionsSyncable(cs: seq<Section>, ds: seq<Section>) {
    var m := SectionsById(cs);
    |cs| == |ds| && Present(m, ds) && KindsMatch(m, ds) && NoObstacle(m, ds) && NoEarlierMove(m, ds)
  }

  // ---- Distance ----

  function SectionCostOf(m: map<Id, Section>): Section -> nat {
    (d: Section) => if d.id in m then SectionCost(m[d.id], d) else 0
  }

  function OrderGap(cs: seq<Section>, ds: seq<Section>): nat {
    |ds| - Agreeing(SectionIdSeq(cs), SectionIdSeq(ds))
  }

  function SectionsCost(cs: seq<Section>, ds: seq<Section>): nat {
    Sum(SectionCostOf(SectionsById(cs)), ds) + OrderGap(cs, ds)
  }

  // ---- Every current section is a desired one ----

  function IdSet(ss: seq<Section>): set<Id> {
    set s | s in ss :: s.id
  }

  lemma {:induction false} IdSetSize(ss: seq<Section>)
    requires forall i, j :: 0 <= i < j < |ss| ==> ss[i].id != ss[j].id
    ensures |IdSet(ss)| == |ss|
  {
    if ss != [] {
      var init, last := ss[..|ss| - 1], ss[|ss| - 1];
      IdSetSize(init);
      assert forall s :: s in ss <==> s in init || s == last;
      assert IdSet(ss) == IdSet(init) + {last.id};
      forall s | s in init ensures s.id != last.id {
        var i :| 0 <= i < |init| && init[i] == s;
      }
    }
  }

  lemma SubsetOfSameSize(a: set<Id>, b: set<Id>)
    requires a <= b && |a| == |b|
    ensures a == b
  {
    assert a + (b - a) == b;
  }

  lemma Covered(cs: seq<Section>, ds: seq<Section>, j: nat) returns (k: nat)
    requires ValidSections(cs) && ValidSections(ds) && |cs| == |ds|
    requires Present(SectionsById(cs), ds) && j < |cs|
    ensures k < |ds| && ds[k].id == cs[j].id
  {
    IdSetSize(cs);
    IdSetSize(ds);
    ByIdSound(cs);
    forall x | x in IdSet(ds) ensures x in IdSet(cs) {
      var s :| s in ds && s.id == x;
      var i :| 0 <= i < |ds| && ds[i] == s;
      assert cs[FindSection(cs, x)] in cs;
    }
    SubsetOfSameSize(IdSet(ds), IdSet(cs));
    assert cs[j] in cs && cs[j].id in IdSet(ds);
    var s :| s in ds && s.id == cs[j].id;
    k :| 0 <= k < |ds| && ds[k] == s;
  }

  // ---- Where a command comes from ----

  /** The command is a local step on cs[i] towards ds[k]; additions and removals come only after the earlier sections are done. */
  predicate Source(cs: seq<Section>, ds: seq<Section>, c: DomainCommand, k: nat, i: nat) {
    && k < |ds| && i < |cs| && cs[i].id == ds[k].id
    && LocalStep(cs[i], ds[k], c)
    && (c.AddEntry? || c.DeleteEntry? ==> EarlierDone(cs, ds, k))
  }

  predicate EarlierDone(cs: seq<Section>, ds: seq<Section>, k: nat)
    requires k <= |ds|
  {
    var m := SectionsById(cs);
    forall j :: 0 <= j < k ==> (ds[j].id in m ==> Known(m[ds[j].id]).Keys == EntryIds(ds[j]))
  }

  lemma CurrentOf(cs: seq<Section>, id: Id) returns (i: nat)
    requires ValidSections(cs) && id in SectionsById(cs)
    ensures i < |cs| && cs[i].id == id && SectionsById(cs)[id] == cs[i]
  {
    ByIdSound(cs);
    i := FindSection(cs, id);
    assert SectionsById(cs)[cs[i].id] == cs[i];
  }

  lemma ByIdAt(ss: seq<Section>, i: nat)
    requires ValidSections(ss) && i < |ss|
    ensures ss[i].id in SectionsById(ss) && SectionsById(ss)[ss[i].id] == ss[i]
  {
    ByIdSound(ss);
  }

  lemma EarlierAreDone(cs: seq<Section>, ds: seq<Section>, k: nat)
    requires ValidSections(cs) && ValidSections(ds) && k <= |ds|
    requires forall j :: 0 <= j < k ==> ContentOf(SectionsById(cs))(ds[j]).None?
    ensures EarlierDone(cs, ds, k)
  {
    var m := SectionsById(cs);
    forall j | 0 <= j < k && ds[j].id in m ensures Known(m[ds[j].id]).Keys == EntryIds(ds[j]) {
      var i := CurrentOf(cs, ds[j].id);
      assert ContentOf(m)(ds[j]).None?;
      ContentDone(cs[i], ds[j]);
    }
  }

  lemma MakeSource(cs: seq<Section>, ds: seq<Section>, c: DomainCommand, k: nat, i: nat)
    requires k < |ds| && i < |cs| && cs[i].id == ds[k].id
    requires LocalStep(cs[i], ds[k], c)
    requires c.AddEntry? || c.DeleteEntry? ==> EarlierDone(cs, ds, k)
    ensures Source(cs, ds, c, k, i)
  {
  }

  lemma ContentSource(cs: seq<Section>, ds: seq<Section>, c: DomainCommand) returns (k: nat, i: nat)
    requires ValidSections(cs) && ValidSections(ds)
    requires FirstSome(ContentOf(SectionsById(cs)), ds) == Some(c)
    ensures Source(cs, ds, c, k, i)
  {
    var f := ContentOf(SectionsById(cs));
    k := FirstSomeAt(f, ds);
    i := CurrentOf(cs, ds[k].id);
    ContentIsLocal(cs[i], ds[k], c);
    EarlierAreDone(cs, ds, k);
    MakeSource(cs, ds, c, k, i);
  }

  lemma HeadingSource(cs: seq<Section>, ds: seq<Section>, c: DomainCommand) returns (k: nat, i: nat)
    requires ValidSections(cs)
    requires FirstSome(HeadingOf(SectionsById(cs)), ds) == Some(c)
    ensures Source(cs, ds, c, k, i)
  {
    var f := HeadingOf(SectionsById(cs));
    k := FirstSomeAt(f, ds);
    i := CurrentOf(cs, ds[k].id);
    HeadingIsLocal(cs[i], ds[k], c);
    MakeSource(cs, ds, c, k, i);
  }

  lemma OrderSource(cs: seq<Section>, ds: seq<Section>, c: DomainCommand) returns (k: nat, i: nat)
    requires ValidSections(cs) && ValidSections(ds)
    requires FirstSome(ContentOf(SectionsById(cs)), ds).None?
    requires FirstSome(EntryOrderOf(SectionsById(cs)), ds) == Some(c)
    requires c.MoveEntry? ==> c.sectionId in SectionsById(cs)
    ensures Source(cs, ds, c, k, i)
  {
    var m := SectionsById(cs);
    var f := EntryOrderOf(m);
    k := FirstSomeAt(f, ds);
    assert f(ds[k]) == EntryOrderCommand(if ds[k].id in m then m[ds[k].id] else NoSection, ds[k]);
    i := CurrentOf(cs, ds[k].id);
    FirstSomeNone(ContentOf(m), ds);
    assert ContentOf(m)(ds[k]).None?;
    ContentDone(cs[i], ds[k]);
    OrderIsLocal(cs[i], ds[k], c);
    MakeSource(cs, ds, c, k, i);
  }

  /** Apart from section moves, every section command has a source. */
  lemma CommandSource(cs: seq<Section>, ds: seq<Section>, c: DomainCommand) returns (k: nat, i: nat)
    requires ValidSections(cs) && ValidSections(ds)
    requires SectionsCommand(cs, ds) == Some(c) && !c.MoveSection?
    requires c.MoveEntry? ==> c.sectionId in SectionsById(cs)
    ensures Source(cs, ds, c, k, i)
  {
    var m := SectionsById(cs);
    if FirstSome(ContentOf(m), ds).Some? {
      k, i := ContentSource(cs, ds, c);
    } else if FirstSome(HeadingOf(m), ds).Some? {
      k, i := HeadingSource(cs, ds, c);
    } else {
      k, i := OrderSource(cs, ds, c);
    }
  }

  // ---- One section replaced ----

  lemma ReachAfter(m: map<Id, Section>, ds: seq<Section>, k: nat, t: Section)
    requires ValidSections(ds) && k < |ds| && ds[k].id in m && t.id == ds[k].id
    requires SameKind(t, m[t.id]) && SameObstacles(m[t.id], t, ds[k])
    ensures var n := m[t.id := t];
            && (Present(n, ds) <==> Present(m, ds))
            && (KindsMatch(n, ds) <==> KindsMatch(m, ds))
            && (NoObstacle(n, ds) <==> NoObstacle(m, ds))
  {
    var n := m[t.id := t];
    forall j | 0 <= j < |ds| && j != k ensures ds[j].id != t.id {
      assert ds[if j < k then j else k].id != ds[if j < k then k else j].id;
    }
    assert KindsMatch(n, ds) <==> KindsMatch(m, ds) by {
      if KindsMatch(n, ds) {
        assert SameKind(n[ds[k].id], ds[k]);
        forall j | 0 <= j < |ds| && ds[j].id in m ensures SameKind(m[ds[j].id], ds[j]) {
          assert ds[j].id in n && SameKind(n[ds[j].id], ds[j]);
        }
      }
      if KindsMatch(m, ds) {
        assert SameKind(m[ds[k].id], ds[k]);
      }
    }
    assert NoObstacle(n, ds) <==> NoObstacle(m, ds) by {
      if NoObstacle(n, ds) {
        assert Reachable(n[ds[k].id], ds[k]);
        forall j | 0 <= j < |ds| && ds[j].id in m ensures Reachable(m[ds[j].id], ds[j]) {
          assert ds[j].id in n && Reachable(n[ds[j].id], ds[j]);
        }
      }
      if NoObstacle(m, ds) {
        assert Reachable(m[ds[k].id], ds[k]);
      }
    }
  }

  /** An added or removed entry is foreign to every earlier desired section. */
  lemma ForeignToEarlier(cs: seq<Section>, ds: seq<Section>, c: DomainCommand, k: nat, i: nat, j: nat)
    requires ValidSections(cs) && ValidSections(ds) && Present(SectionsById(cs), ds)
    requires Source(cs, ds, c, k, i) && j < k && LocalEdit(cs[i], c).Some?
    ensures c.AddEntry? ==> c.entry.id !in EntryIds(ds[j])
    ensures c.DeleteEntry? ==> c.entryId !in EntryIds(ds[j])
  {
    assert KeysStep(cs[i], LocalEdit(cs[i], c).value, ds[k], c);
    if c.AddEntry? {
      assert EntryIds(ds[j]) !! EntryIds(ds[k]);
    }
    if c.DeleteEntry? {
      var h := CurrentOf(cs, ds[j].id);
      assert EarlierDone(cs, ds, k);
      assert Known(cs[h]).Keys == EntryIds(ds[j]);
      assert ds[j].id != ds[k].id;
      DisjointKnown(cs, h, i);
    }
  }

  lemma DisjointKnown(cs: seq<Section>, h: nat, i: nat)
    requires ValidSections(cs) && h < |cs| && i < |cs| && h != i
    ensures Known(cs[h]).Keys !! Known(cs[i]).Keys
  {
    KnownFacts(cs[h]);
    KnownFacts(cs[i]);
    assert EntryIds(cs[if h < i then h else i]) !! EntryIds(cs[if h < i then i else h]);
  }

  lemma ClearPair(cs: seq<Section>, ds: seq<Section>, c: DomainCommand, k: nat, i: nat, a: nat, b: nat)
    requires ValidSections(cs) && ValidSections(ds) && Present(SectionsById(cs), ds)
    requires Source(cs, ds, c, k, i) && LocalEdit(cs[i], c).Some?
    requires a < b < |ds|
    ensures var t := LocalEdit(cs[i], c).value;
            Clear(SectionsById(cs)[cs[i].id := t], ds, a, b) <==> Clear(SectionsById(cs), ds, a, b)
  {
    var t := LocalEdit(cs[i], c).value;
    if b == k {
      ByIdAt(cs, i);
      ForeignToEarlier(cs, ds, c, k, i, a);
      assert KeysStep(cs[i], t, ds[k], c);
    } else {
      OthersDiffer(ds, k);
    }
  }

  lemma ClearAfter(cs: seq<Section>, ds: seq<Section>, c: DomainCommand, k: nat, i: nat)
    requires ValidSections(cs) && ValidSections(ds) && Present(SectionsById(cs), ds)
    requires Source(cs, ds, c, k, i) && LocalEdit(cs[i], c).Some?
    ensures var t := LocalEdit(cs[i], c).value;
            NoEarlierMove(SectionsById(cs)[cs[i].id := t], ds) <==> NoEarlierMove(SectionsById(cs), ds)
  {
    var m := SectionsById(cs);
    var n := m[cs[i].id := LocalEdit(cs[i], c).value];
    forall a: nat, b: nat | a < b < |ds| ensures Clear(n, ds, a, b) <==> Clear(m, ds, a, b) {
      ClearPair(cs, ds, c, k, i, a, b);
    }
    if NoEarlierMove(n, ds) {
      ClearTransfers(n, m, ds);
    }
    if NoEarlierMove(m, ds) {
      ClearTransfers(m, n, ds);
    }
  }

  lemma ClearTransfers(n: map<Id, Section>, m: map<Id, Section>, ds: seq<Section>)
    requires forall a: nat, b: nat :: a < b < |ds| ==> (Clear(n, ds, a, b) <==> Clear(m, ds, a, b))
    requires NoEarlierMove(n, ds)
    ensures NoEarlierMove(m, ds)
  {
    forall a, b | 0 <= a < b < |ds| ensures Clear(m, ds, a, b) {
      assert Clear(n, ds, a, b);
    }
  }

  /** A local step neither adds nor removes a reason for the list to be out of reach. */
  lemma LocalKeepsSyncable(cs: seq<Section>, ds: seq<Section>, c: DomainCommand, k: nat, i: nat)
    requires ValidSections(cs) && ValidSections(ds) && Present(SectionsById(cs), ds)
    requires Source(cs, ds, c, k, i) && LocalEdit(cs[i], c).Some?
    ensures SectionsSyncable(cs[i := LocalEdit(cs[i], c).value], ds) <==> SectionsSyncable(cs, ds)
  {
    var t := LocalEdit(cs[i], c).value;
    assert GoodStep(cs[i], t, ds[k]);
    ReplaceById(cs, i, t);
    ByIdSound(cs);
    ReachAfter(SectionsById(cs), ds, k, t);
    ClearAfter(cs, ds, c, k, i);
  }

  lemma LocalStaysValid(cs: seq<Section>, ds: seq<Section>, c: DomainCommand, k: nat, i: nat)
    requires ValidSections(cs) && ValidSections(ds) && SectionsSyncable(cs, ds)
    requires Source(cs, ds, c, k, i) && LocalEdit(cs[i], c).Some?
    ensures ValidSections(cs[i := LocalEdit(cs[i], c).value])
  {
    var t := LocalEdit(cs[i], c).value;
    assert GoodStep(cs[i], t, ds[k]) && KeysStep(cs[i], t, ds[k], c);
    forall j | 0 <= j < |cs| && j != i ensures EntryIds(t) !! EntryIds(cs[j]) {
      KnownFacts(t);
      KnownFacts(cs[j]);
      DisjointKnown(cs, i, j);
      if c.AddEntry? {
        NewEntryIsNowhere(cs, ds, c, k, i, j);
      }
    }
    ReplaceValid(cs, i, t);
  }

  lemma NewEntryIsNowhere(cs: seq<Section>, ds: seq<Section>, c: DomainCommand, k: nat, i: nat, j: nat)
    requires ValidSections(cs) && ValidSections(ds) && SectionsSyncable(cs, ds)
    requires Source(cs, ds, c, k, i) && LocalEdit(cs[i], c).Some? && c.AddEntry?
    requires j < |cs| && j != i
    ensures c.entry.id !in Known(cs[j])
  {
    var h := Covered(cs, ds, j);
    ByIdSound(cs);
    assert SectionsById(cs)[cs[j].id] == cs[j];
    assert KeysStep(cs[i], LocalEdit(cs[i], c).value, ds[k], c);
    assert cs[if i < j then i else j].id != cs[if i < j then j else i].id;
    WantedIsNowhere(cs, ds, k, h, c.entry.id);
  }

  lemma WantedIsNowhere(cs: seq<Section>, ds: seq<Section>, k: nat, h: nat, id: Id)
    requires ValidSections(ds) && k < |ds| && h < |ds| && h != k && ds[h].id in SectionsById(cs)
    requires NoEarlierMove(SectionsById(cs), ds) && EarlierDone(cs, ds, k)
    requires id in EntryIds(ds[k])
    ensures id !in Known(SectionsById(cs)[ds[h].id])
  {
    if h < k {
      assert EntryIds(ds[h]) !! EntryIds(ds[k]);
    } else {
      assert Clear(SectionsById(cs), ds, k, h);
    }
  }

  lemma LocalGetsCloser(cs: seq<Section>, ds: seq<Section>, c: DomainCommand, k: nat, i: nat)
    requires ValidSections(cs) && ValidSections(ds) && SectionsSyncable(cs, ds)
    requires Source(cs, ds, c, k, i) && LocalEdit(cs[i], c).Some?
    ensures SectionsCost(cs[i := LocalEdit(cs[i], c).value], ds) < SectionsCost(cs, ds)
  {
    ByIdSound(cs);
    var t := LocalEdit(cs[i], c).value;
    assert GoodStep(cs[i], t, ds[k]);
    assert SameKind(cs[i], ds[k]) && Reachable(cs[i], ds[k]) by {
      assert SectionsById(cs)[ds[k].id] == cs[i];
    }
    ReplacementCloser(cs, ds, k, i, t);
  }

  lemma ReplacementCloser(cs: seq<Section>, ds: seq<Section>, k: nat, i: nat, t: Section)
    requires ValidSections(cs) && ValidSections(ds) && k < |ds| && i < |cs|
    requires t.id == cs[i].id == ds[k].id
    requires SectionCost(t, ds[k]) < SectionCost(cs[i], ds[k])
    ensures SectionsCost(cs[i := t], ds) < SectionsCost(cs, ds)
  {
    var m := SectionsById(cs);
    ReplaceById(cs, i, t);
    ByIdAt(cs, i);
    OthersDiffer(ds, k);
    CloserSum(m, ds, k, t);
    GapUnchanged(cs, ds, i, t);
  }

  lemma GapUnchanged(cs: seq<Section>, ds: seq<Section>, i: nat, t: Section)
    requires i < |cs| && t.id == cs[i].id
    ensures OrderGap(cs[i := t], ds) == OrderGap(cs, ds)
  {
    assert SectionIdSeq(cs[i := t]) == SectionIdSeq(cs);
  }

  lemma CloserSum(m: map<Id, Section>, ds: seq<Section>, k: nat, t: Section)
    requires k < |ds| && ds[k].id == t.id && t.id in m
    requires forall j :: 0 <= j < |ds| && j != k ==> ds[j].id != t.id
    requires SectionCost(t, ds[k]) < SectionCost(m[t.id], ds[k])
    ensures Sum(SectionCostOf(m[t.id := t]), ds) < Sum(SectionCostOf(m), ds)
  {
    SumLess(SectionCostOf(m[t.id := t]), SectionCostOf(m), ds, k);
  }

  lemma OthersDiffer(ds: seq<Section>, k: nat)
    requires ValidSections(ds) && k < |ds|
    ensures forall j :: 0 <= j < |ds| && j != k ==> ds[j].id != ds[k].id
  {
    forall j | 0 <= j < |ds| && j != k ensures ds[j].id != ds[k].id {
      assert ds[if j < k then j else k].id != ds[if j < k then k else j].id;
    }
  }
}
