/** Moving a section: the list keeps its sections and agrees with the desired order for longer. */
module SyncOrder {
  import opened Contracts
  import opened Documents
  import opened Domain
  import opened DocumentBridge
  import opened SectionEdits
  import opened EntryEdits
  import opened SyncCost
  import opened SyncSections

  function MovedTo(ss: seq<Section>, i: nat, index: nat): seq<Section>
    requires i < |ss| && index < |ss|
  {
    Insert(Remove(ss, i), index, ss[i])
  }

  /** Where the section now at p used to be. */
  function Origin(i: nat, index: nat, p: nat): nat {
    if p == index then i
    else
      var q := if p < index then p else p - 1;
      if q < i then q else q + 1
  }

  /** Where the section formerly at j is now. */
  function Target(i: nat, index: nat, j: nat): nat {
    if j == i then index
    else
      var q := if j < i then j else j - 1;
      if q < index then q else q + 1
  }

  lemma MovedAt(ss: seq<Section>, i: nat, index: nat, p: nat)
    requires i < |ss| && index < |ss| && p < |ss|
    ensures Origin(i, index, p) < |ss| && MovedTo(ss, i, index)[p] == ss[Origin(i, index, p)]
    ensures Target(i, index, Origin(i, index, p)) == p
    ensures Target(i, index, p) < |ss| && Origin(i, index, Target(i, index, p)) == p
  {
  }

  lemma MovedValid(ss: seq<Section>, i: nat, index: nat)
    requires ValidSections(ss) && i < |ss| && index < |ss|
    ensures ValidSections(MovedTo(ss, i, index))
  {
    var r := MovedTo(ss, i, index);
    forall p | 0 <= p < |r| ensures ValidSection(r[p]) {
      MovedAt(ss, i, index, p);
    }
    forall p, q | 0 <= p < q < |r| ensures r[p].id != r[q].id && EntryIds(r[p]) !! EntryIds(r[q]) {
      MovedAt(ss, i, index, p);
      MovedAt(ss, i, index, q);
      var a, b := Origin(i, index, p), Origin(i, index, q);
      assert ss[if a < b then a else b].id != ss[if a < b then b else a].id;
      assert EntryIds(ss[if a < b then a else b]) !! EntryIds(ss[if a < b then b else a]);
    }
  }

  lemma MovedById(ss: seq<Section>, i: nat, index: nat)
    requires ValidSections(ss) && i < |ss| && index < |ss|
    ensures SectionsById(MovedTo(ss, i, index)) == SectionsById(ss)
  {
    var r := MovedTo(ss, i, index);
    MovedValid(ss, i, index);
    ByIdSound(ss);
    var m := SectionsById(ss);
    forall p | 0 <= p < |r| ensures r[p].id in m && m[r[p].id] == r[p] {
      MovedAt(ss, i, index, p);
    }
    forall x | x in m ensures FindSection(r, x) < |r| {
      var j := FindSection(ss, x);
      MovedAt(ss, i, index, j);
      MovedAt(ss, i, index, Target(i, index, j));
      assert r[Target(i, index, j)].id == x;
    }
    ByIdUnique(r, m);
  }

  lemma MovedIds(ss: seq<Section>, i: nat, index: nat)
    requires i < |ss| && index < |ss|
    ensures SectionIdSeq(MovedTo(ss, i, index)) == Insert(Remove(SectionIdSeq(ss), i), index, SectionIdSeq(ss)[i])
  {
    assert SectionIdSeq(Remove(ss, i)) == Remove(SectionIdSeq(ss), i);
  }

  /** An accepted section move changes the order only, and keeps what is in reach. */
  lemma MoveKeepsSyncable(cs: seq<Section>, ds: seq<Section>, c: DomainCommand, r: seq<Section>)
    requires ValidSections(cs) && c.MoveSection? && EditSections(cs, c) == Ok(r)
    ensures ValidSections(r) && SectionsById(r) == SectionsById(cs) && |r| == |cs|
    ensures SectionsSyncable(r, ds) <==> SectionsSyncable(cs, ds)
  {
    var i := FindSection(cs, c.sectionId);
    assert r == MovedTo(cs, i, c.index);
    MovedValid(cs, i, c.index);
    MovedById(cs, i, c.index);
  }

  /** The chosen section move is accepted and lengthens the agreeing prefix. */
  lemma MoveGetsCloser(cs: seq<Section>, ds: seq<Section>, c: DomainCommand)
    requires ValidSections(cs) && ValidSections(ds) && SectionsSyncable(cs, ds)
    requires SectionOrderCommand(cs, ds) == Some(c)
    ensures EditSections(cs, c).Ok? && SectionsCost(EditSections(cs, c).value, ds) < SectionsCost(cs, ds)
  {
    var a, b := SectionIdSeq(cs), SectionIdSeq(ds);
    var n := Agreeing(a, b);
    var i := CurrentOf(cs, ds[n].id);
    SectionIsUnique(cs, i);
    var r := MovedTo(cs, i, n);
    assert EditSections(cs, c) == Ok(r);
    MovedById(cs, i, n);
    MovedIds(cs, i, n);
    UniqueSectionIdSeq(ds);
    ShiftAgrees(a, i, b);
  }

  lemma UniqueSectionIdSeq(ss: seq<Section>)
    requires ValidSections(ss)
    ensures forall i, j :: 0 <= i < j < |ss| ==> SectionIdSeq(ss)[i] != SectionIdSeq(ss)[j]
  {
  }
}
