/** Edits that stay inside one section: what the host does with them, seen from that section. */
module SectionEdits {
  import opened Contracts
  import opened Documents
  import opened Domain
  import opened DocumentBridge

  // ---- Lookup tables of valid lists ----

  lemma {:induction false} ByIdSound(ss: seq<Section>)
    requires forall i, j :: 0 <= i < j < |ss| ==> ss[i].id != ss[j].id
    ensures forall i :: 0 <= i < |ss| ==> ss[i].id in SectionsById(ss) && SectionsById(ss)[ss[i].id] == ss[i]
    ensures forall x :: x in SectionsById(ss) ==> FindSection(ss, x) < |ss|
  {
    ByIdOnlyFound(ss);
    if ss != [] {
      var n := |ss| - 1;
      var init := ss[..n];
      ByIdSound(init);
      forall i | 0 <= i < |ss| ensures ss[i].id in SectionsById(ss) && SectionsById(ss)[ss[i].id] == ss[i] {
        if i < n {
          assert init[i] == ss[i];
        }
      }
    }
  }

  lemma {:induction false} ByIdOnlyFound(ss: seq<Section>)
    ensures forall x :: x in SectionsById(ss) ==> FindSection(ss, x) < |ss|
  {
    if ss != [] {
      var init := ss[..|ss| - 1];
      ByIdOnlyFound(init);
      forall x | x in SectionsById(ss) ensures FindSection(ss, x) < |ss| {
        var i := if x == ss[|ss| - 1].id then |ss| - 1 else FindSection(init, x);
        assert ss[i].id == x;
      }
    }
  }

  lemma {:induction false} EntriesByIdSound(es: seq<Entry>)
    requires UniqueEntries(es)
    ensures forall i :: 0 <= i < |es| ==> es[i].id in EntriesById(es) && EntriesById(es)[es[i].id] == es[i]
    ensures forall x :: x in EntriesById(es) ==> FindEntry(es, x) < |es|
  {
    EntriesByIdOnlyFound(es);
    if es != [] {
      var n := |es| - 1;
      var init := es[..n];
      EntriesByIdSound(init);
      forall i | 0 <= i < |es| ensures es[i].id in EntriesById(es) && EntriesById(es)[es[i].id] == es[i] {
        if i < n {
          assert init[i] == es[i];
        }
      }
    }
  }

  lemma {:induction false} EntriesByIdOnlyFound(es: seq<Entry>)
    ensures forall x :: x in EntriesById(es) ==> FindEntry(es, x) < |es|
  {
    if es != [] {
      var init := es[..|es| - 1];
      EntriesByIdOnlyFound(init);
      forall x | x in EntriesById(es) ensures FindEntry(es, x) < |es| {
        var i := if x == es[|es| - 1].id then |es| - 1 else FindEntry(init, x);
        assert es[i].id == x;
      }
    }
  }

  /** The entries of a section by ID. */
  function Known(s: Section): map<Id, Entry> {
    EntriesById(EntriesOf(s))
  }

  lemma KnownFacts(s: Section)
    requires ValidSection(s)
    ensures Known(s).Keys == EntryIds(s)
    ensures forall i :: 0 <= i < |EntriesOf(s)| ==> EntriesOf(s)[i].id in Known(s) && Known(s)[EntriesOf(s)[i].id] == EntriesOf(s)[i]
    ensures forall x :: x in Known(s) <==> HasEntry(s, x)
    ensures forall x :: x in Known(s) ==> Known(s)[x].id == x
  {
    var es := EntriesOf(s);
    EntriesByIdSound(es);
    forall x ensures x in Known(s) <==> HasEntry(s, x) {
      if HasEntry(s, x) {
        assert es[FindEntry(es, x)].id == x;
      }
    }
    forall x ensures x in EntryIds(s) <==> x in Known(s) {
      if x in EntryIds(s) {
        var e :| e in es && e.id == x;
        var i :| 0 <= i < |es| && es[i] == e;
      }
      if x in Known(s) {
        var i := FindEntry(es, x);
        assert es[i] in es;
      }
    }
    forall x | x in Known(s) ensures Known(s)[x].id == x {
      var i := FindEntry(es, x);
      assert Known(s)[es[i].id] == es[i];
    }
  }

  predicate IsTableOf(m: map<Id, Section>, ss: seq<Section>) {
    && (forall i :: 0 <= i < |ss| ==> ss[i].id in m && m[ss[i].id] == ss[i])
    && (forall x :: x in m ==> FindSection(ss, x) < |ss|)
  }

  lemma TableAt(ss: seq<Section>, m: map<Id, Section>, x: Id)
    requires IsTableOf(m, ss)
    ensures x in m <==> FindSection(ss, x) < |ss|
    ensures x in m ==> m[x] == ss[FindSection(ss, x)]
  {
    var i := FindSection(ss, x);
    if i < |ss| {
      assert ss[i].id == x;
    }
  }

  /** A table with the right keys and sections is the table of the list. */
  lemma ByIdUnique(ss: seq<Section>, m: map<Id, Section>)
    requires forall i, j :: 0 <= i < j < |ss| ==> ss[i].id != ss[j].id
    requires IsTableOf(m, ss)
    ensures SectionsById(ss) == m
  {
    ByIdSound(ss);
    TablesAgree(ss, SectionsById(ss), m);
  }

  lemma TablesAgree(ss: seq<Section>, a: map<Id, Section>, b: map<Id, Section>)
    requires IsTableOf(a, ss) && IsTableOf(b, ss)
    ensures a == b
  {
    forall x ensures x in a <==> x in b {
      TableAt(ss, a, x);
      TableAt(ss, b, x);
    }
    forall x | x in a ensures a[x] == b[x] {
      TableAt(ss, a, x);
      TableAt(ss, b, x);
    }
  }

  // ---- The one-section view of a command ----

  predicate IsLocal(c: DomainCommand) {
    c.RenameSection? || c.SetSectionVisibility? || c.SetSummaryBody? || c.AddEntry?
    || c.UpdateEntryFields? || c.SetEntryBody? || c.DeleteEntry? || c.MoveEntry?
  }

  /** The command addresses this section, or an entry that this section holds. */
  predicate Targets(c: DomainCommand, s: Section)
    requires IsLocal(c)
  {
    match c
    case MoveEntry(id, sectionId, _) => sectionId == s.id && HasEntry(s, id)
    case UpdateEntryFields(id, _) => HasEntry(s, id)
    case SetEntryBody(id, _) => HasEntry(s, id)
    case DeleteEntry(id) => HasEntry(s, id)
    case RenameSection(id, _) => id == s.id
    case SetSectionVisibility(id, _) => id == s.id
    case SetSummaryBody(id, _) => id == s.id
    case AddEntry(id, _) => id == s.id
  }

  /** The section after the command, or nothing when the command does not fit the section. */
  function LocalEdit(s: Section, c: DomainCommand): Option<Section>
    requires IsLocal(c) && Targets(c, s)
  {
    match c
    case RenameSection(_, title) => Some(s.(title := title))
    case SetSectionVisibility(_, visible) => Some(s.(visible := visible))
    case SetSummaryBody(_, body) => if s.EntrySection? then None else Some(s.(body := body))
    case AddEntry(_, entry) => if s.SummarySection? then None else Some(s.(entries := s.entries + [entry]))
    case UpdateEntryFields(id, fields) =>
      var k := FindEntry(s.entries, id);
      Some(s.(entries := s.entries[k := PatchEntry(s.entries[k], fields)]))
    case SetEntryBody(id, body) =>
      var k := FindEntry(s.entries, id);
      Some(s.(entries := s.entries[k := s.entries[k].(body := body)]))
    case DeleteEntry(id) => Some(DropFrom(s, id))
    case MoveEntry(id, _, index) => if index >= |s.entries| then None else Some(Shifted(s, id, index))
  }

  /** The section with one of its entries moved to the index. */
  function Shifted(s: Section, id: Id, index: nat): Section
    requires HasEntry(s, id) && index < |s.entries|
  {
    var k := FindEntry(s.entries, id);
    s.(entries := Insert(Remove(s.entries, k), index, s.entries[k]))
  }

  lemma HomeIsUnique(ss: seq<Section>, i: nat, id: Id)
    requires ValidSections(ss) && i < |ss| && HasEntry(ss[i], id)
    ensures FindHome(ss, id) == i
  {
    forall j | 0 <= j < |ss| && j != i ensures !HasEntry(ss[j], id) {
      KnownFacts(ss[i]);
      KnownFacts(ss[j]);
      assert id in EntryIds(ss[i]);
      assert EntryIds(ss[i]) !! EntryIds(ss[j]) by {
        if i < j {
          assert EntryIds(ss[i]) !! EntryIds(ss[j]);
        } else {
          assert EntryIds(ss[j]) !! EntryIds(ss[i]);
        }
      }
    }
    FirstHome(ss, i, id);
  }

  lemma SectionIsUnique(ss: seq<Section>, i: nat)
    requires ValidSections(ss) && i < |ss|
    ensures FindSection(ss, ss[i].id) == i
  {
  }

  lemma {:induction false} WithoutAbsent(es: seq<Entry>, id: Id)
    requires FindEntry(es, id) == |es|
    ensures Without(es, id) == es
  {
    if es != [] {
      WithoutAbsent(es[1..], id);
    }
  }

  lemma DropIsLocal(ss: seq<Section>, i: nat, id: Id)
    requires ValidSections(ss) && i < |ss| && HasEntry(ss[i], id)
    ensures DropEntry(ss, id) == ss[i := DropFrom(ss[i], id)]
  {
    HomeIsUnique(ss, i, id);
    forall j | 0 <= j < |ss| && j != i ensures DropFrom(ss[j], id) == ss[j] {
      if HasEntry(ss[j], id) {
        HomeIsUnique(ss, j, id);
      }
      WithoutAbsent(EntriesOf(ss[j]), id);
    }
  }

  /** On valid sections the host's answer is the one-section answer. */
  lemma LocalEffect(ss: seq<Section>, i: nat, c: DomainCommand)
    requires ValidSections(ss) && i < |ss|
    requires IsLocal(c) && Targets(c, ss[i])
    ensures EditSections(ss, c) ==
            if LocalEdit(ss[i], c).None? then Err(Validation) else Ok(ss[i := LocalEdit(ss[i], c).value])
  {
    if c.DeleteEntry? {
      DeleteEffect(ss, i, c);
    } else if c.MoveEntry? {
      MoveEffect(ss, i, c);
    } else if c.UpdateEntryFields? || c.SetEntryBody? {
      EntryEffect(ss, i, c);
    } else {
      SectionIsUnique(ss, i);
    }
  }

  lemma DeleteEffect(ss: seq<Section>, i: nat, c: DomainCommand)
    requires ValidSections(ss) && i < |ss| && c.DeleteEntry? && Targets(c, ss[i])
    ensures EditSections(ss, c) == Ok(ss[i := LocalEdit(ss[i], c).value])
  {
    HomeIsUnique(ss, i, c.entryId);
    DropIsLocal(ss, i, c.entryId);
  }

  lemma MoveEffect(ss: seq<Section>, i: nat, c: DomainCommand)
    requires ValidSections(ss) && i < |ss| && c.MoveEntry? && Targets(c, ss[i])
    ensures EditSections(ss, c) ==
            if LocalEdit(ss[i], c).None? then Err(Validation) else Ok(ss[i := LocalEdit(ss[i], c).value])
  {
    HomeIsUnique(ss, i, c.entryId);
    MoveIsLocal(ss, i, c.entryId, c.sectionId, c.index);
  }

  lemma EntryEffect(ss: seq<Section>, i: nat, c: DomainCommand)
    requires ValidSections(ss) && i < |ss| && (c.UpdateEntryFields? || c.SetEntryBody?) && Targets(c, ss[i])
    ensures EditSections(ss, c) == Ok(ss[i := LocalEdit(ss[i], c).value])
  {
    HomeIsUnique(ss, i, c.entryId);
  }

  lemma SectionStaysPut(ss: seq<Section>, i: nat, s: Section)
    requires ValidSections(ss) && i < |ss| && s.id == ss[i].id
    ensures FindSection(ss[i := s], s.id) == i
  {
    var r := ss[i := s];
    assert r[i].id == s.id;
    forall k | 0 <= k < i ensures r[k].id != s.id {
      assert r[k] == ss[k];
      assert ss[k].id != ss[i].id;
    }
  }

  lemma MoveIsLocal(ss: seq<Section>, i: nat, id: Id, sectionId: Id, index: nat)
    requires ValidSections(ss) && i < |ss| && HasEntry(ss[i], id) && sectionId == ss[i].id
    ensures MoveEntryTo(ss, id, sectionId, index) ==
            if index >= |ss[i].entries| then Err(Validation) else Ok(ss[i := Shifted(ss[i], id, index)])
  {
    HomeIsUnique(ss, i, id);
    var s := ss[i];
    var k := FindEntry(s.entries, id);
    var shorter := s.(entries := Remove(s.entries, k));
    SectionStaysPut(ss, i, shorter);
    var rest := TakenOut(ss, i, id);
    assert rest == ss[i := shorter];
    if index < |s.entries| {
      var moved := Shifted(s, id, index);
      assert rest[i := moved] == ss[i := moved];
    }
  }

  /** Replacing a section keeps the list valid when its entry IDs stay clear of the others. */
  lemma ReplaceValid(ss: seq<Section>, i: nat, s: Section)
    requires ValidSections(ss) && i < |ss|
    requires ValidSection(s) && s.id == ss[i].id
    requires forall j :: 0 <= j < |ss| && j != i ==> EntryIds(s) !! EntryIds(ss[j])
    ensures ValidSections(ss[i := s])
  {
    var r := ss[i := s];
    forall a, b | 0 <= a < b < |r| ensures r[a].id != r[b].id && EntryIds(r[a]) !! EntryIds(r[b]) {
      assert ss[a].id != ss[b].id;
      if a != i && b != i {
        assert EntryIds(ss[a]) !! EntryIds(ss[b]);
      }
    }
  }

  lemma ReplaceById(ss: seq<Section>, i: nat, s: Section)
    requires ValidSections(ss) && i < |ss| && s.id == ss[i].id
    ensures SectionsById(ss[i := s]) == SectionsById(ss)[s.id := s]
  {
    var r, m := ss[i := s], SectionsById(ss)[s.id := s];
    ByIdSound(ss);
    forall a, b | 0 <= a < b < |r| ensures r[a].id != r[b].id {
      assert ss[a].id != ss[b].id;
    }
    ReplacedTable(ss, SectionsById(ss), i, s);
    ByIdUnique(r, m);
  }

  lemma ReplacedTable(ss: seq<Section>, m: map<Id, Section>, i: nat, s: Section)
    requires IsTableOf(m, ss) && i < |ss| && s.id == ss[i].id
    requires forall k :: 0 <= k < |ss| && k != i ==> ss[k].id != s.id
    ensures IsTableOf(m[s.id := s], ss[i := s])
  {
    var r := ss[i := s];
    forall k | 0 <= k < |r| ensures r[k].id in m[s.id := s] && m[s.id := s][r[k].id] == r[k] {
      assert k != i ==> r[k] == ss[k];
    }
    forall x | x in m[s.id := s] ensures FindSection(r, x) < |r| {
      assert r[if x == s.id then i else FindSection(ss, x)].id == x;
    }
  }
}
