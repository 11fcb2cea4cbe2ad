/** When draft synchronisation converges: exactly when the desired document can be reached by the client's commands. */
module Convergence {
  import opened Contracts
  import opened Documents
  import opened Domain
  import opened DocumentBridge
  import opened SectionEdits
  import opened EntryEdits
  import opened SyncCost
  import opened SyncSteps
  import opened SyncSections
  import opened SyncOrder

  /**
   * What a caller can check beforehand: the desired document is valid, the parts no command touches agree,
   * the basic information loses no text but the avatar, and the sections are within reach.
   */
  predicate Syncable(c: ResumeDocument, d: ResumeDocument) {
    && Valid(d)
    && c.documentId == d.documentId && c.schemaVersion == d.schemaVersion && c.sourceRef == d.sourceRef
    && BasicReachable(c.basic.texts, d.basic.texts)
    && SectionsSyncable(c.sections, d.sections)
  }

  /** An upper bound on the number of commands still needed. */
  function StepBound(c: ResumeDocument, d: ResumeDocument): nat {
    Bit(c.title != d.title) + Bit(c.basic != d.basic) + SectionsCost(c.sections, d.sections)
    + Bit(c.presentation != d.presentation) + Bit(c.legacyExtensions != d.legacyExtensions)
  }

  /** The client reaches the desired document with at most n accepted commands. */
  predicate Reaches(c: ResumeDocument, d: ResumeDocument, n: nat)
    decreases n
  {
    c == d ||
    (n > 0 && NextCommand(c, d).Some? &&
     Apply(c, NextCommand(c, d).value).Ok? && Reaches(Apply(c, NextCommand(c, d).value).value, d, n - 1))
  }

  // ---- Section commands ----

  lemma SectionsProgress(cs: seq<Section>, ds: seq<Section>, c: DomainCommand)
    requires ValidSections(cs) && ValidSections(ds) && SectionsSyncable(cs, ds)
    requires SectionsCommand(cs, ds) == Some(c)
    ensures EditSections(cs, c).Ok?
    ensures var r := EditSections(cs, c).value;
            ValidSections(r) && SectionsSyncable(r, ds) && SectionsCost(r, ds) < SectionsCost(cs, ds)
  {
    if c.MoveSection? {
      OnlyOrderMoves(cs, ds, c);
      MoveGetsCloser(cs, ds, c);
      MoveKeepsSyncable(cs, ds, c, EditSections(cs, c).value);
    } else {
      MoveEntryHasSection(cs, ds, c);
      var k, i := CommandSource(cs, ds, c);
      ByIdAt(cs, i);
      assert SameKind(cs[i], ds[k]);
      LocalEffect(cs, i, c);
      LocalStaysValid(cs, ds, c, k, i);
      LocalKeepsSyncable(cs, ds, c, k, i);
      LocalGetsCloser(cs, ds, c, k, i);
    }
  }

  /** Section moves come from the section-order phase alone. */
  lemma OnlyOrderMoves(cs: seq<Section>, ds: seq<Section>, c: DomainCommand)
    requires ValidSections(cs) && ValidSections(ds)
    requires SectionsCommand(cs, ds) == Some(c) && c.MoveSection?
    ensures SectionOrderCommand(cs, ds) == Some(c)
  {
    var m := SectionsById(cs);
    if FirstSome(ContentOf(m), ds).Some? {
      var k, i := ContentSource(cs, ds, c);
      assert false;
    } else if FirstSome(HeadingOf(m), ds).Some? {
      var k := FirstSomeAt(HeadingOf(m), ds);
      assert false;
    } else if SectionOrderCommand(cs, ds).None? {
      var k := FirstSomeAt(EntryOrderOf(m), ds);
      assert false;
    }
  }

  /** An entry move names the desired section it was chosen for. */
  lemma MoveEntryNamesDesired(cs: seq<Section>, ds: seq<Section>, c: DomainCommand) returns (k: nat)
    requires ValidSections(cs) && ValidSections(ds)
    requires SectionsCommand(cs, ds) == Some(c) && c.MoveEntry?
    ensures k < |ds| && ds[k].id == c.sectionId
  {
    var m := SectionsById(cs);
    if FirstSome(ContentOf(m), ds).Some? {
      NoMoveInContent(m, ds, c);
    } else if FirstSome(HeadingOf(m), ds).Some? {
      NoMoveInHeadings(m, ds, c);
    }
    k := FirstSomeAt(EntryOrderOf(m), ds);
    OrderNamesSection(m, ds[k], c);
  }

  lemma NoMoveInContent(m: map<Id, Section>, ds: seq<Section>, c: DomainCommand)
    requires FirstSome(ContentOf(m), ds) == Some(c)
    ensures !c.MoveEntry?
  {
    var k := FirstSomeAt(ContentOf(m), ds);
    ContentNeverMoves(m[ds[k].id], ds[k], c);
  }

  lemma ContentNeverMoves(b: Section, d: Section, c: DomainCommand)
    requires ContentCommand(b, d) == Some(c)
    ensures !c.MoveEntry?
  {
    if d.EntrySection? {
      var upsert, surplus := UpsertOf(EntriesById(EntriesOf(b)), d.id), SurplusOf(EntryIds(d));
      if FirstSome(upsert, d.entries).Some? {
        var i := FirstSomeAt(upsert, d.entries);
      } else {
        var i := FirstSomeAt(surplus, EntriesOf(b));
      }
    }
  }

  lemma NoMoveInHeadings(m: map<Id, Section>, ds: seq<Section>, c: DomainCommand)
    requires FirstSome(HeadingOf(m), ds) == Some(c)
    ensures !c.MoveEntry?
  {
    var k := FirstSomeAt(HeadingOf(m), ds);
  }

  lemma OrderNamesSection(m: map<Id, Section>, d: Section, c: DomainCommand)
    requires EntryOrderOf(m)(d) == Some(c)
    ensures c.MoveEntry? && c.sectionId == d.id
  {
  }

  lemma MoveEntryHasSection(cs: seq<Section>, ds: seq<Section>, c: DomainCommand)
    requires ValidSections(cs) && ValidSections(ds) && Present(SectionsById(cs), ds)
    requires SectionsCommand(cs, ds) == Some(c)
    ensures c.MoveEntry? ==> c.sectionId in SectionsById(cs)
  {
    if c.MoveEntry? {
      var k := MoveEntryNamesDesired(cs, ds, c);
    }
  }

  /** The host moves an entry only into a section that exists. */
  lemma AcceptedMoveHasSection(cs: seq<Section>, c: DomainCommand)
    requires ValidSections(cs) && c.MoveEntry? && EditSections(cs, c).Ok?
    ensures c.sectionId in SectionsById(cs)
  {
    MoveFindsSection(cs, c.entryId, c.sectionId, c.index);
    ByIdAt(cs, FindSection(cs, c.sectionId));
  }

  lemma MoveFindsSection(cs: seq<Section>, id: Id, sectionId: Id, index: nat)
    requires MoveEntryTo(cs, id, sectionId, index).Ok?
    ensures FindSection(cs, sectionId) < |cs|
  {
    var h := FindHome(cs, id);
    var i := FindSection(TakenOut(cs, h, id), sectionId);
    SameIdsTakenOut(cs, h, id);
    assert cs[i].id == sectionId;
  }

  lemma SameIdsTakenOut(cs: seq<Section>, h: nat, id: Id)
    requires h < |cs| && HasEntry(cs[h], id)
    ensures var rest := TakenOut(cs, h, id); |rest| == |cs| && forall i :: 0 <= i < |cs| ==> rest[i].id == cs[i].id
  {
  }

  /** If the list is in reach after an accepted command, it was in reach before. */
  lemma SectionsReflect(cs: seq<Section>, ds: seq<Section>, c: DomainCommand, r: seq<Section>)
    requires ValidSections(cs) && ValidSections(ds)
    requires SectionsCommand(cs, ds) == Some(c) && EditSections(cs, c) == Ok(r)
    requires SectionsSyncable(r, ds)
    ensures SectionsSyncable(cs, ds)
  {
    if c.MoveSection? {
      MoveKeepsSyncable(cs, ds, c, r);
    } else {
      if c.MoveEntry? {
        AcceptedMoveHasSection(cs, c);
      }
      var k, i := CommandSource(cs, ds, c);
      LocalEffect(cs, i, c);
      var t := LocalEdit(cs[i], c).value;
      assert GoodStep(cs[i], t, ds[k]);
      ReplaceById(cs, i, t);
      ByIdAt(cs, i);
      LocalKeepsSyncable(cs, ds, c, k, i);
    }
  }

  // ---- Silence means equality ----

  lemma LaterIdIsNew(b: Section, d: Section, n: nat)
    requires ValidSection(b) && n == |EntriesOf(d)| < |EntriesOf(b)|
    requires forall k :: 0 <= k < n ==> EntriesOf(d)[k].id == EntriesOf(b)[k].id
    ensures EntriesOf(b)[n].id !in EntryIds(d)
  {
    KnownFacts(b);
  }

  /** With the same entry IDs, agreeing to the end of the desired list means the same length. */
  lemma SameLength(b: Section, d: Section)
    requires ValidSection(b) && Known(b).Keys == EntryIds(d)
    requires Agreeing(Ids(b), Ids(d)) == |EntriesOf(d)|
    ensures Ids(b) == Ids(d)
  {
    var n := |EntriesOf(d)|;
    KnownFacts(b);
    forall k | 0 <= k < n ensures k < |EntriesOf(b)| && EntriesOf(d)[k].id == EntriesOf(b)[k].id {
      assert Ids(b)[k] == Ids(d)[k];
    }
    if |EntriesOf(b)| > n {
      LaterIdIsNew(b, d, n);
    }
  }

  lemma SectionDone(b: Section, d: Section)
    requires ValidSection(b) && ValidSection(d) && b.id == d.id && SameKind(b, d)
    requires ContentCommand(b, d).None? && HeadingCommand(b, d).None? && EntryOrderCommand(b, d).None?
    ensures b == d
  {
    ContentDone(b, d);
    if d.EntrySection? {
      SameLength(b, d);
      assert |b.entries| == |Ids(b)| == |Ids(d)| == |d.entries|;
      forall k | 0 <= k < |d.entries| ensures b.entries[k] == d.entries[k] {
        SameEntry(b, d, k);
      }
      assert b.entries == d.entries;
    }
  }

  lemma SameEntry(b: Section, d: Section, k: nat)
    requires ValidSection(b) && b.EntrySection? && d.EntrySection?
    requires Upserted(b, d) && Ids(b) == Ids(d) && k < |b.entries| && k < |d.entries|
    ensures b.entries[k] == d.entries[k]
  {
    KnownFacts(b);
    assert b.entries[k].id == Ids(b)[k] == Ids(d)[k] == d.entries[k].id;
    assert d.entries[k] in EntriesOf(d);
    assert Known(b)[EntriesOf(b)[k].id] == EntriesOf(b)[k];
  }

  lemma SectionsDone(cs: seq<Section>, ds: seq<Section>)
    requires ValidSections(cs) && ValidSections(ds) && SectionsSyncable(cs, ds)
    requires SectionsCommand(cs, ds).None?
    ensures cs == ds
  {
    var m := SectionsById(cs);
    FirstSomeNone(ContentOf(m), ds);
    FirstSomeNone(HeadingOf(m), ds);
    FirstSomeNone(EntryOrderOf(m), ds);
    forall k | 0 <= k < |ds| ensures cs[k] == ds[k] {
      assert SectionIdSeq(cs)[k] == SectionIdSeq(ds)[k];
      ByIdAt(cs, k);
      assert ContentOf(m)(ds[k]).None? && HeadingOf(m)(ds[k]).None? && EntryOrderOf(m)(ds[k]).None?;
      assert SameKind(cs[k], ds[k]);
      SectionDone(cs[k], ds[k]);
    }
  }

  // ---- Whole documents ----

  /** A valid edit is what the host answers. */
  lemma AcceptedEdit(c: ResumeDocument, command: DomainCommand)
    requires Edit(c, command).Ok? && Valid(Edit(c, command).value)
    ensures Apply(c, command) == Edit(c, command)
  {
    ValidatorIsExact(Edit(c, command).value);
  }

  lemma IsSectionCommand(cs: seq<Section>, ds: seq<Section>, c: DomainCommand, doc: ResumeDocument)
    requires ValidSections(cs) && ValidSections(ds) && doc.sections == cs
    requires SectionsCommand(cs, ds) == Some(c)
    ensures Edit(doc, c) == OnSections(EditSections(cs, c), doc)
  {
    var m := SectionsById(cs);
    if FirstSome(ContentOf(m), ds).Some? {
      var k, i := ContentSource(cs, ds, c);
    } else if FirstSome(HeadingOf(m), ds).Some? {
      var k := FirstSomeAt(HeadingOf(m), ds);
    } else if SectionOrderCommand(cs, ds).None? {
      var k := FirstSomeAt(EntryOrderOf(m), ds);
    }
  }

  /** The client falls silent only at equality. */
  lemma SilentOnlyWhenEqual(c: ResumeDocument, d: ResumeDocument)
    requires Valid(c) && Syncable(c, d) && NextCommand(c, d).None?
    ensures c == d
  {
    SectionsDone(c.sections, d.sections);
  }

  /** The next document is valid, still syncable and nearer. */
  predicate Advances(c: ResumeDocument, r: ResumeDocument, d: ResumeDocument) {
    Valid(r) && Syncable(r, d) && StepBound(r, d) < StepBound(c, d)
  }

  lemma TitleAdvances(c: ResumeDocument, d: ResumeDocument)
    requires Valid(c) && Syncable(c, d) && c.title != d.title
    ensures Edit(c, SetDocumentTitle(d.title)) == Ok(c.(title := d.title)) && Advances(c, c.(title := d.title), d)
  {
  }

  lemma BasicAdvances(c: ResumeDocument, d: ResumeDocument)
    requires Valid(c) && Syncable(c, d) && c.basic != d.basic
    ensures Edit(c, UpdateBasic(BasicPatchFrom(c.basic, d.basic).value)) == Ok(c.(basic := d.basic))
    ensures Advances(c, c.(basic := d.basic), d)
  {
    BasicPatchIsExact(c.basic, d.basic);
    NothingToReach(d.basic.texts);
  }

  lemma NothingToReach(texts: map<BasicText, string>)
    ensures BasicReachable(texts, texts)
  {
  }

  lemma SectionsAdvance(c: ResumeDocument, d: ResumeDocument, command: DomainCommand)
    requires Valid(c) && Syncable(c, d) && SectionsCommand(c.sections, d.sections) == Some(command)
    ensures Edit(c, command).Ok? && Advances(c, Edit(c, command).value, d)
  {
    SectionsProgress(c.sections, d.sections, command);
    IsSectionCommand(c.sections, d.sections, command, c);
  }

  lemma TailAdvances(c: ResumeDocument, d: ResumeDocument)
    requires Valid(c) && Syncable(c, d)
    ensures c.presentation != d.presentation ==> Advances(c, c.(presentation := d.presentation), d)
    ensures c.legacyExtensions != d.legacyExtensions ==> Advances(c, c.(legacyExtensions := d.legacyExtensions), d)
  {
  }

  /** Which phase the command comes from. */
  predicate FromPhase(c: ResumeDocument, d: ResumeDocument, command: DomainCommand) {
    if c.title != d.title then command == SetDocumentTitle(d.title)
    else if c.basic != d.basic then command == UpdateBasic(BasicPatchFrom(c.basic, d.basic).value)
    else if SectionsCommand(c.sections, d.sections).Some? then command == SectionsCommand(c.sections, d.sections).value
    else if c.presentation != d.presentation then command == SetLayout(d.presentation)
    else c.legacyExtensions != d.legacyExtensions && command == SetLegacyExtensions(d.legacyExtensions)
  }

  lemma PhaseOf(c: ResumeDocument, d: ResumeDocument)
    requires NextCommand(c, d).Some?
    ensures FromPhase(c, d, NextCommand(c, d).value)
  {
  }

  lemma EditAdvances(c: ResumeDocument, d: ResumeDocument, command: DomainCommand)
    requires Valid(c) && Syncable(c, d) && FromPhase(c, d, command)
    ensures Edit(c, command).Ok? && Advances(c, Edit(c, command).value, d)
  {
    if c.title != d.title {
      TitleAdvances(c, d);
    } else if c.basic != d.basic {
      BasicAdvances(c, d);
    } else if SectionsCommand(c.sections, d.sections).Some? {
      SectionsAdvance(c, d, command);
    } else {
      LastAdvances(c, d, command);
    }
  }

  lemma LastAdvances(c: ResumeDocument, d: ResumeDocument, command: DomainCommand)
    requires Valid(c) && Syncable(c, d)
    requires if c.presentation != d.presentation then command == SetLayout(d.presentation)
             else c.legacyExtensions != d.legacyExtensions && command == SetLegacyExtensions(d.legacyExtensions)
    ensures Edit(c, command).Ok? && Advances(c, Edit(c, command).value, d)
  {
    LayoutEdit(c, d.presentation);
    ExtensionsEdit(c, d.legacyExtensions);
    TailAdvances(c, d);
  }

  lemma LayoutEdit(c: ResumeDocument, layout: Presentation)
    ensures Edit(c, SetLayout(layout)) == Ok(c.(presentation := layout))
  {
  }

  lemma ExtensionsEdit(c: ResumeDocument, extensions: map<string, Json>)
    ensures Edit(c, SetLegacyExtensions(extensions)) == Ok(c.(legacyExtensions := extensions))
  {
  }

  /** While the documents differ, the chosen command is accepted, keeps the goal in reach and lowers the bound. */
  lemma Progress(c: ResumeDocument, d: ResumeDocument)
    requires Valid(c) && Syncable(c, d) && c != d
    ensures NextCommand(c, d).Some?
    ensures var r := Apply(c, NextCommand(c, d).value); r.Ok? && Advances(c, r.value, d)
  {
    if NextCommand(c, d).None? {
      SilentOnlyWhenEqual(c, d);
      assert false;
    }
    var command := NextCommand(c, d).value;
    PhaseOf(c, d);
    EditAdvances(c, d, command);
    AcceptedEdit(c, command);
  }

  lemma SectionsReflectWhole(c: ResumeDocument, d: ResumeDocument, command: DomainCommand, r: ResumeDocument)
    requires Valid(c) && SectionsCommand(c.sections, d.sections) == Some(command)
    requires Edit(c, command) == Ok(r) && Syncable(r, d)
    ensures Syncable(c, d)
  {
    IsSectionCommand(c.sections, d.sections, command, c);
    SectionsReflect(c.sections, d.sections, command, r.sections);
  }

  lemma BasicReflect(c: ResumeDocument, d: ResumeDocument)
    requires c.basic != d.basic
    requires Syncable(c.(basic := PatchBasic(c.basic, BasicPatchFrom(c.basic, d.basic).value)), d)
    ensures Syncable(c, d)
  {
    BasicPatchIsExact(c.basic, d.basic);
  }

  /** What a document is worth as a start depends only on its identity, its basic information and its sections. */
  predicate SameStart(c: ResumeDocument, r: ResumeDocument) {
    c.documentId == r.documentId && c.schemaVersion == r.schemaVersion && c.sourceRef == r.sourceRef
    && c.basic == r.basic && c.sections == r.sections
  }

  lemma SameStartReflects(c: ResumeDocument, r: ResumeDocument, d: ResumeDocument)
    requires SameStart(c, r) && Syncable(r, d)
    ensures Syncable(c, d)
  {
  }

  lemma OuterEdit(c: ResumeDocument, command: DomainCommand, r: ResumeDocument)
    requires command.SetDocumentTitle? || command.SetLayout? || command.SetLegacyExtensions?
    requires Edit(c, command) == Ok(r)
    ensures SameStart(c, r)
  {
  }

  lemma BasicEdit(c: ResumeDocument, patch: BasicPatch)
    ensures Edit(c, UpdateBasic(patch)) == Ok(c.(basic := PatchBasic(c.basic, patch)))
  {
  }

  lemma EditReflects(c: ResumeDocument, d: ResumeDocument, command: DomainCommand, r: ResumeDocument)
    requires Valid(c) && FromPhase(c, d, command) && Edit(c, command) == Ok(r) && Syncable(r, d)
    ensures Syncable(c, d)
  {
    if c.title == d.title && c.basic != d.basic {
      BasicEdit(c, BasicPatchFrom(c.basic, d.basic).value);
      BasicReflect(c, d);
    } else if c.title == d.title && SectionsCommand(c.sections, d.sections).Some? {
      SectionsReflectWhole(c, d, command, r);
    } else {
      OuterEdit(c, command, r);
      SameStartReflects(c, r, d);
    }
  }

  /** If the goal is in reach after an accepted command, it was in reach before. */
  lemma Reflect(c: ResumeDocument, d: ResumeDocument)
    requires Valid(c) && NextCommand(c, d).Some? && Apply(c, NextCommand(c, d).value).Ok?
    requires Syncable(Apply(c, NextCommand(c, d).value).value, d)
    ensures Syncable(c, d)
  {
    PhaseOf(c, d);
    EditReflects(c, d, NextCommand(c, d).value, Apply(c, NextCommand(c, d).value).value);
  }

  lemma SyncableItself(d: ResumeDocument)
    requires Valid(d)
    ensures Syncable(d, d)
  {
    var m := SectionsById(d.sections);
    ByIdSound(d.sections);
    forall k | 0 <= k < |d.sections| ensures Reachable(m[d.sections[k].id], d.sections[k]) {
      SelfReach(d.sections[k]);
    }
    forall k: nat, j: nat | k < j < |d.sections| ensures Clear(m, d.sections, k, j) {
      KnownFacts(d.sections[j]);
      assert EntryIds(d.sections[k]) !! EntryIds(d.sections[j]);
    }
  }

  lemma SelfReach(s: Section)
    requires ValidSection(s)
    ensures Reachable(s, s)
  {
    KnownFacts(s);
    forall e | e in EntriesOf(s) && e.id in Known(s) ensures FieldsReachable(Known(s)[e.id].texts, e.texts) {
      var i :| 0 <= i < |EntriesOf(s)| && EntriesOf(s)[i] == e;
      SelfReachable(e.texts);
    }
  }

  // ---- The theorems ----

  /** Every goal in reach is reached within the step bound. */
  lemma {:induction false} ReachedWithinBound(c: ResumeDocument, d: ResumeDocument, n: nat)
    requires Valid(c) && Syncable(c, d) && StepBound(c, d) <= n
    ensures Reaches(c, d, n)
    decreases n
  {
    if c != d {
      Progress(c, d);
      ReachedWithinBound(Apply(c, NextCommand(c, d).value).value, d, n - 1);
    }
  }

  /** Whatever is reached, in any number of steps, was in reach. */
  lemma {:induction false} ReachedWasSyncable(c: ResumeDocument, d: ResumeDocument, n: nat)
    requires Valid(c) && Reaches(c, d, n)
    ensures Syncable(c, d)
    decreases n
  {
    if c == d {
      SyncableItself(d);
    } else {
      ReachedWasSyncable(Apply(c, NextCommand(c, d).value).value, d, n - 1);
      Reflect(c, d);
    }
  }

  ghost predicate Converges(c: ResumeDocument, d: ResumeDocument) {
    exists n: nat :: Reaches(c, d, n)
  }

  lemma ConvergesIn(c: ResumeDocument, d: ResumeDocument, n: nat)
    requires Reaches(c, d, n)
    ensures Converges(c, d)
  {
  }

  /** Draft synchronisation from a valid document converges if and only if the goal is syncable. */
  lemma SyncConvergesExactly(c: ResumeDocument, d: ResumeDocument)
    requires Valid(c)
    ensures Converges(c, d) <==> Syncable(c, d)
  {
    if Syncable(c, d) {
      ReachedWithinBound(c, d, StepBound(c, d));
      ConvergesIn(c, d, StepBound(c, d));
    }
    if Converges(c, d) {
      var n: nat :| Reaches(c, d, n);
      ReachedWasSyncable(c, d, n);
    }
  }
}
