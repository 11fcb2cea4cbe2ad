/** Every section command the client chooses is a good step on the section it names. */
module SyncSteps {
  import opened Contracts
  import opened Documents
  import opened Domain
  import opened DocumentBridge
  import opened SectionEdits
  import opened EntryEdits
  import opened SyncCost

  /** The command fits a section of the right kind, and where it fits it is a good step. */
  predicate LocalStep(b: Section, d: Section, c: DomainCommand) {
    && IsLocal(c) && Targets(c, b)
    && (SameKind(b, d) ==> LocalEdit(b, c).Some?)
    && (LocalEdit(b, c).Some? ==> GoodStep(b, LocalEdit(b, c).value, d) && KeysStep(b, LocalEdit(b, c).value, d, c))
  }

  lemma MakeLocalStep(b: Section, d: Section, c: DomainCommand, t: Section)
    requires IsLocal(c) && Targets(c, b) && LocalEdit(b, c) == Some(t)
    requires GoodStep(b, t, d) && KeysStep(b, t, d, c)
    ensures LocalStep(b, d, c)
  {
  }

  lemma MisfitStep(b: Section, d: Section, c: DomainCommand)
    requires IsLocal(c) && Targets(c, b) && LocalEdit(b, c).None? && !SameKind(b, d)
    ensures LocalStep(b, d, c)
  {
  }

  /** The entry as the host finds it is the entry in the table. */
  lemma FoundIsKnown(b: Section, id: Id)
    requires ValidSection(b) && id in Known(b)
    ensures HasEntry(b, id) && b.EntrySection?
    ensures b.entries[FindEntry(b.entries, id)] == Known(b)[id] && Known(b)[id].id == id
    ensures GoodBody(Known(b)[id].body)
  {
    KnownFacts(b);
    var k := FindEntry(b.entries, id);
    assert b.entries[k].id in Known(b);
    assert b.entries[k] in b.entries;
  }

  lemma SummaryIsLocal(b: Section, d: Section)
    requires ValidSection(b) && ValidSection(d) && b.id == d.id && d.SummarySection?
    requires !(b.SummarySection? && b.body == d.body)
    ensures LocalStep(b, d, SetSummaryBody(d.id, d.body))
  {
    if b.SummarySection? {
      var t := b.(body := d.body);
      assert Known(t) == map[] && Known(b) == map[];
      assert EntriesOf(t) == [] && EntriesOf(b) == [] && EntriesOf(d) == [];
      assert SameObstacles(b, t, d);
      MakeLocalStep(b, d, SetSummaryBody(d.id, d.body), t);
    }
  }

  lemma AddIsLocal(b: Section, d: Section, k: nat)
    requires ValidSection(b) && ValidSection(d) && b.id == d.id && d.EntrySection?
    requires k < |d.entries| && d.entries[k].id !in Known(b)
    ensures LocalStep(b, d, AddEntry(d.id, d.entries[k]))
  {
    var c := AddEntry(d.id, d.entries[k]);
    if b.EntrySection? {
      EntryIdsAt(d, k);
      AddStep(b, d, k);
      MakeLocalStep(b, d, c, b.(entries := b.entries + [d.entries[k]]));
    } else {
      MisfitStep(b, d, c);
    }
  }

  lemma FieldsIsLocal(b: Section, d: Section, k: nat)
    requires ValidSection(b) && ValidSection(d) && d.EntrySection?
    requires k < |d.entries| && d.entries[k].id in Known(b)
    requires Known(b)[d.entries[k].id].texts != d.entries[k].texts
    ensures var e := d.entries[k];
            LocalStep(b, d, UpdateEntryFields(e.id, ChangedTexts(Known(b)[e.id].texts, e.texts)))
  {
    var e := d.entries[k];
    var x := Known(b)[e.id];
    FoundIsKnown(b, e.id);
    var r := PatchEntry(x, ChangedTexts(x.texts, e.texts));
    EntryPatchIsExact(x, e.texts);
    assert FieldsReachable(x.texts, e.texts) ==> FieldsReachable(r.texts, e.texts) by {
      SelfReachable(e.texts);
    }
    assert Closer(Known(b), r, e);
    TouchStep(b, d, k, r);
    MakeLocalStep(b, d, UpdateEntryFields(e.id, ChangedTexts(x.texts, e.texts)),
                  b.(entries := b.entries[FindEntry(b.entries, r.id) := r]));
  }

  lemma BodyIsLocal(b: Section, d: Section, k: nat)
    requires ValidSection(b) && ValidSection(d) && d.EntrySection?
    requires k < |d.entries| && d.entries[k].id in Known(b)
    requires Known(b)[d.entries[k].id].texts == d.entries[k].texts
    requires Known(b)[d.entries[k].id].body != d.entries[k].body
    ensures LocalStep(b, d, SetEntryBody(d.entries[k].id, d.entries[k].body))
  {
    var e := d.entries[k];
    FoundIsKnown(b, e.id);
    var r := Known(b)[e.id].(body := e.body);
    assert e in d.entries;
    SelfReachable(e.texts);
    assert Closer(Known(b), r, e);
    TouchStep(b, d, k, r);
    MakeLocalStep(b, d, SetEntryBody(e.id, e.body), b.(entries := b.entries[FindEntry(b.entries, r.id) := r]));
  }

  lemma DeleteIsLocal(b: Section, d: Section, id: Id)
    requires ValidSection(b) && ValidSection(d) && d.EntrySection?
    requires id in Known(b) && id !in EntryIds(d) && EntryIds(d) <= Known(b).Keys
    ensures LocalStep(b, d, DeleteEntry(id))
  {
    FoundIsKnown(b, id);
    DeleteStep(b, d, id);
    MakeLocalStep(b, d, DeleteEntry(id), DropFrom(b, id));
  }

  /** Nothing left to add or fix: every desired entry is there with its texts and body. */
  predicate Upserted(b: Section, d: Section) {
    forall e :: e in EntriesOf(d) ==> e.id in Known(b) && Known(b)[e.id].texts == e.texts && Known(b)[e.id].body == e.body
  }

  lemma UpsertedWhenSilent(b: Section, d: Section)
    requires FirstSome(UpsertOf(Known(b), d.id), EntriesOf(d)).None?
    ensures Upserted(b, d)
    ensures EntryIds(d) <= Known(b).Keys
  {
    FirstSomeNone(UpsertOf(Known(b), d.id), EntriesOf(d));
    forall e | e in EntriesOf(d)
      ensures e.id in Known(b) && Known(b)[e.id].texts == e.texts && Known(b)[e.id].body == e.body
    {
      var i :| 0 <= i < |EntriesOf(d)| && EntriesOf(d)[i] == e;
      assert UpsertOf(Known(b), d.id)(e).None?;
    }
  }

  lemma ContentIsLocal(b: Section, d: Section, c: DomainCommand)
    requires ValidSection(b) && ValidSection(d) && b.id == d.id
    requires ContentCommand(b, d) == Some(c)
    ensures LocalStep(b, d, c)
  {
    if d.SummarySection? {
      SummaryIsLocal(b, d);
      return;
    }
    var upsert := UpsertOf(Known(b), d.id);
    if FirstSome(upsert, d.entries).Some? {
      var k := FirstSomeAt(upsert, d.entries);
      var e := d.entries[k];
      assert upsert(e) == UpsertCommand(Known(b), d.id, e);
      if e.id !in Known(b) {
        AddIsLocal(b, d, k);
      } else if Known(b)[e.id].texts != e.texts {
        FieldsIsLocal(b, d, k);
      } else {
        BodyIsLocal(b, d, k);
      }
    } else {
      UpsertedWhenSilent(b, d);
      var surplus := SurplusOf(EntryIds(d));
      var k := FirstSomeAt(surplus, EntriesOf(b));
      KnownFacts(b);
      assert EntriesOf(b)[k].id in Known(b);
      DeleteIsLocal(b, d, EntriesOf(b)[k].id);
    }
  }

  /** A section without a content command holds exactly the desired entries and body. */
  lemma ContentDone(b: Section, d: Section)
    requires ValidSection(b) && ValidSection(d)
    requires ContentCommand(b, d).None?
    ensures Known(b).Keys == EntryIds(d)
    ensures Upserted(b, d)
    ensures d.SummarySection? ==> b.SummarySection? && b.body == d.body
  {
    KnownFacts(b);
    if d.EntrySection? {
      UpsertedWhenSilent(b, d);
      var surplus := SurplusOf(EntryIds(d));
      FirstSomeNone(surplus, EntriesOf(b));
      forall x | x in Known(b) ensures x in EntryIds(d) {
        var i := FindEntry(EntriesOf(b), x);
        assert surplus(EntriesOf(b)[i]).None?;
      }
    }
  }

  lemma HeadingIsLocal(b: Section, d: Section, c: DomainCommand)
    requires ValidSection(b) && b.id == d.id && HeadingCommand(b, d) == Some(c)
    ensures LocalStep(b, d, c)
  {
    var t := LocalEdit(b, c).value;
    assert Known(t) == Known(b) && Ids(t) == Ids(b) && EntriesOf(t) == EntriesOf(b);
    SameReach(b, t, d);
    HeadingCost(b, t, d);
    MakeGoodStep(b, t, d);
    MakeLocalStep(b, d, c, t);
  }

  lemma HeadingCost(b: Section, t: Section, d: Section)
    requires Known(t) == Known(b) && Ids(t) == Ids(b)
    requires SameKind(t, b) && (b.SummarySection? ==> t.body == b.body)
    requires Bit(t.visible != d.visible) + Bit(t.title != d.title) < Bit(b.visible != d.visible) + Bit(b.title != d.title)
    ensures SectionCost(t, d) < SectionCost(b, d)
  {
  }

  lemma OrderIsLocal(b: Section, d: Section, c: DomainCommand)
    requires ValidSection(b) && ValidSection(d) && b.id == d.id && Known(b).Keys == EntryIds(d)
    requires EntryOrderCommand(b, d) == Some(c)
    ensures LocalStep(b, d, c)
  {
    var n := Agreeing(Ids(b), Ids(d));
    EntryIdsAt(d, n);
    FoundIsKnown(b, d.entries[n].id);
    ShiftStep(b, d, n, d.entries[n].id);
    MakeLocalStep(b, d, c, Shifted(b, d.entries[n].id, n));
  }
}
