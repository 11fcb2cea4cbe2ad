/** What each command of the host does to a valid document, place by place, and which commands it refuses. */
module CommandEffects {
  import opened Contracts
  import opened Strings
  import opened Documents
  import opened Domain
  import opened SectionEdits

  // ---- Places ----

  predicate IsSectionAt(ss: seq<Section>, i: nat, id: Id) {
    i < |ss| && ss[i].id == id
  }

  /** The k-th entry of the i-th section has this ID. */
  predicate IsEntryAt(ss: seq<Section>, i: nat, k: nat, id: Id) {
    i < |ss| && ss[i].EntrySection? && k < |ss[i].entries| && ss[i].entries[k].id == id
  }

  /** Only the i-th section is another one. */
  predicate IsOnlyAt(ss: seq<Section>, tt: seq<Section>, i: nat, x: Section) {
    i < |ss| && |tt| == |ss| && tt[i] == x && forall j :: 0 <= j < |ss| && j != i ==> tt[j] == ss[j]
  }

  /** Only the k-th entry of the i-th section is another one. */
  predicate IsOnlyEntryAt(ss: seq<Section>, tt: seq<Section>, i: nat, k: nat, e: Entry) {
    && i < |ss| && |tt| == |ss| && ss[i].EntrySection? && tt[i].EntrySection?
    && IsOnlyAt(ss, tt, i, ss[i].(entries := tt[i].entries))
    && |tt[i].entries| == |ss[i].entries| && k < |ss[i].entries| && tt[i].entries[k] == e
    && forall j :: 0 <= j < |ss[i].entries| && j != k ==> tt[i].entries[j] == ss[i].entries[j]
  }

  /** The second list is the first without its i-th element. */
  predicate IsLess<T(==)>(s: seq<T>, i: nat, t: seq<T>) {
    i < |s| && t == s[..i] + s[i + 1..]
  }

  /** With its element at the index taken away the second list is the first with its i-th element taken away, and that is the element. */
  predicate IsMoved<T(==)>(s: seq<T>, i: nat, t: seq<T>, index: nat) {
    i < |s| && index < |t| && t[index] == s[i] && t[..index] + t[index + 1..] == s[..i] + s[i + 1..]
  }

  predicate IsInserted<T(==)>(s: seq<T>, t: seq<T>, index: nat, x: T) {
    index < |t| && t[index] == x && t[..index] + t[index + 1..] == s
  }

  // ---- What the commands mean ----

  /** The text under the key is this one, or there is none. */
  predicate HasText<F(==)>(texts: map<F, string>, f: F, text: Option<string>) {
    if text.Some? then f in texts && texts[f] == text.value else f !in texts
  }

  function TextOf<F(==)>(texts: map<F, string>, f: F): Option<string> {
    if f in texts then Some(texts[f]) else None
  }

  /** Given texts replace those of the entry; an empty college or mode removes it; everything else stays. */
  ghost predicate AreFieldsSet(e: Entry, fields: map<EntryField, string>, x: Entry) {
    && x.id == e.id && x.body == e.body
    && forall f :: HasText(x.texts, f, if f !in fields then TextOf(e.texts, f)
                                       else if (f == College || f == Mode) && fields[f] == "" then None
                                       else Some(fields[f]))
  }

  /** Given texts replace those of the document; the empty avatar removes it; everything else stays. */
  ghost predicate IsBasicPatched(b: BasicInfo, patch: BasicPatch, x: BasicInfo) {
    && (forall t :: HasText(x.texts, t, if t !in patch.texts then TextOf(b.texts, t)
                                       else if t == AvatarAssetId && patch.texts[t] == "" then None
                                       else Some(patch.texts[t])))
    && x.ageMode == (if patch.ageMode.Some? then patch.ageMode.value else b.ageMode)
  }

  /** Exactly the named fields are as in the values, absent ones included; all others stay. */
  ghost predicate AreRestored(b: BasicInfo, fields: seq<BasicField>, values: BasicInfo, x: BasicInfo) {
    && (forall t :: HasText(x.texts, t, if TextField(t) in fields then TextOf(values.texts, t) else TextOf(b.texts, t)))
    && x.ageMode == (if AgeModeField in fields then values.ageMode else b.ageMode)
  }

  /** The entry leaves its place and stands at the index of the section it is moved to; nothing else moves. */
  predicate IsEntryMoved(ss: seq<Section>, tt: seq<Section>, i: nat, k: nat, j: nat, index: nat) {
    && i < |ss| && j < |ss| && |tt| == |ss|
    && ss[i].EntrySection? && ss[j].EntrySection? && tt[i].EntrySection? && tt[j].EntrySection? && k < |ss[i].entries|
    && tt[i] == ss[i].(entries := tt[i].entries) && tt[j] == ss[j].(entries := tt[j].entries)
    && (forall m :: 0 <= m < |ss| && m != i && m != j ==> tt[m] == ss[m])
    && if i == j then IsMoved(ss[i].entries, k, tt[i].entries, index)
       else IsLess(ss[i].entries, k, tt[i].entries) && IsInserted(ss[j].entries, tt[j].entries, index, ss[i].entries[k])
  }

  /** The sections after a command that addresses sections or entries. */
  ghost predicate SectionsMean(ss: seq<Section>, c: DomainCommand, tt: seq<Section>) {
    match c
    case RenameSection(id, title) => exists i: nat :: IsSectionAt(ss, i, id) && IsOnlyAt(ss, tt, i, ss[i].(title := title))
    case SetSectionVisibility(id, visible) => exists i: nat :: IsSectionAt(ss, i, id) && IsOnlyAt(ss, tt, i, ss[i].(visible := visible))
    case SetSummaryBody(id, body) =>
      exists i: nat :: IsSectionAt(ss, i, id) && ss[i].SummarySection? && IsOnlyAt(ss, tt, i, ss[i].(body := body))
    case AddEntry(id, entry) =>
      exists i: nat :: IsSectionAt(ss, i, id) && ss[i].EntrySection? && IsOnlyAt(ss, tt, i, ss[i].(entries := ss[i].entries + [entry]))
    case MoveSection(id, index) => exists i: nat :: IsSectionAt(ss, i, id) && IsMoved(ss, i, tt, index)
    case SetEntryBody(id, body) =>
      exists i: nat, k: nat :: IsEntryAt(ss, i, k, id) && IsOnlyEntryAt(ss, tt, i, k, ss[i].entries[k].(body := body))
    case UpdateEntryFields(id, fields) =>
      exists i: nat, k: nat, x :: IsEntryAt(ss, i, k, id) && AreFieldsSet(ss[i].entries[k], fields, x) && IsOnlyEntryAt(ss, tt, i, k, x)
    case DeleteEntry(id) =>
      exists i: nat, k: nat :: IsEntryAt(ss, i, k, id) && i < |tt| && tt[i].EntrySection? && IsLess(ss[i].entries, k, tt[i].entries)
                     && IsOnlyAt(ss, tt, i, ss[i].(entries := tt[i].entries))
    case MoveEntry(id, sectionId, index) =>
      exists i: nat, k: nat, j: nat :: IsEntryAt(ss, i, k, id) && IsSectionAt(ss, j, sectionId) && IsEntryMoved(ss, tt, i, k, j, index)
    case _ => false
  }

  /** The command turns the first document into the second, and what it does not speak of stays. */
  ghost predicate Means(d: ResumeDocument, c: DomainCommand, r: ResumeDocument) {
    match c
    case SetDocumentTitle(title) => !IsBlank(title) && r == d.(title := title)
    case UpdateBasic(patch) => r == d.(basic := r.basic) && IsBasicPatched(d.basic, patch, r.basic)
    case RestoreBasicFields(fields, values) =>
      fields != [] && r == d.(basic := r.basic) && AreRestored(d.basic, fields, values, r.basic)
    case SetLayout(layout) => r == d.(presentation := layout)
    case SetLegacyExtensions(extensions) => r == d.(legacyExtensions := extensions)
    case _ => r == d.(sections := r.sections) && SectionsMean(d.sections, c, r.sections)
  }

  // ---- Texts by key ----

  lemma SameTexts<F>(a: map<F, string>, b: map<F, string>)
    requires forall f :: TextOf(a, f) == TextOf(b, f)
    ensures a == b
  {
    forall f ensures (f in a <==> f in b) && (f in a ==> a[f] == b[f]) {
      assert TextOf(a, f) == TextOf(b, f);
    }
  }

  lemma PatchedEntryIs(e: Entry, fields: map<EntryField, string>, x: Entry)
    ensures AreFieldsSet(e, fields, x) <==> x == PatchEntry(e, fields)
  {
    var p := PatchEntry(e, fields);
    assert AreFieldsSet(e, fields, p);
    if AreFieldsSet(e, fields, x) {
      forall f ensures TextOf(x.texts, f) == TextOf(p.texts, f) {
        var text := if f !in fields then TextOf(e.texts, f)
                    else if (f == College || f == Mode) && fields[f] == "" then None else Some(fields[f]);
        assert HasText(x.texts, f, text) && HasText(p.texts, f, text);
      }
      SameTexts(x.texts, p.texts);
    }
  }

  lemma PatchedBasicIs(b: BasicInfo, patch: BasicPatch, x: BasicInfo)
    ensures IsBasicPatched(b, patch, x) <==> x == PatchBasic(b, patch)
  {
    var p := PatchBasic(b, patch);
    assert IsBasicPatched(b, patch, p);
    if IsBasicPatched(b, patch, x) {
      forall t ensures TextOf(x.texts, t) == TextOf(p.texts, t) {
        var text := if t !in patch.texts then TextOf(b.texts, t)
                    else if t == AvatarAssetId && patch.texts[t] == "" then None else Some(patch.texts[t]);
        assert HasText(x.texts, t, text) && HasText(p.texts, t, text);
      }
      SameTexts(x.texts, p.texts);
    }
  }

  lemma {:induction false} RestoreAllRestores(b: BasicInfo, fields: seq<BasicField>, values: BasicInfo)
    ensures AreRestored(b, fields, values, RestoreAll(b, fields, values))
  {
    if fields != [] {
      var init, last := fields[..|fields| - 1], fields[|fields| - 1];
      var before := RestoreAll(b, init, values);
      RestoreAllRestores(b, init, values);
      assert forall f :: f in fields <==> f in init || f == last;
      forall t
        ensures HasText(RestoreAll(b, fields, values).texts, t,
                        if TextField(t) in fields then TextOf(values.texts, t) else TextOf(b.texts, t))
      {
        assert HasText(before.texts, t, if TextField(t) in init then TextOf(values.texts, t) else TextOf(b.texts, t));
      }
    }
  }

  lemma RestoredIs(b: BasicInfo, fields: seq<BasicField>, values: BasicInfo, x: BasicInfo)
    ensures AreRestored(b, fields, values, x) <==> x == RestoreAll(b, fields, values)
  {
    var p := RestoreAll(b, fields, values);
    RestoreAllRestores(b, fields, values);
    if AreRestored(b, fields, values, x) {
      forall t ensures TextOf(x.texts, t) == TextOf(p.texts, t) {
        var text := if TextField(t) in fields then TextOf(values.texts, t) else TextOf(b.texts, t);
        assert HasText(x.texts, t, text) && HasText(p.texts, t, text);
      }
      SameTexts(x.texts, p.texts);
    }
  }

  // ---- Where things are ----

  lemma OnlyAtIs(ss: seq<Section>, tt: seq<Section>, i: nat, x: Section)
    requires i < |ss|
    ensures IsOnlyAt(ss, tt, i, x) <==> tt == ss[i := x]
  {
  }

  lemma SectionPlace(ss: seq<Section>, id: Id)
    requires ValidSections(ss)
    ensures FindSection(ss, id) < |ss| ==> IsSectionAt(ss, FindSection(ss, id), id)
    ensures forall i: nat :: IsSectionAt(ss, i, id) ==> i == FindSection(ss, id)
  {
    forall i: nat | IsSectionAt(ss, i, id) ensures i == FindSection(ss, id) {
      SectionIsUnique(ss, i);
    }
  }

  lemma EntryPlace(ss: seq<Section>, i: nat, k: nat, id: Id)
    requires ValidSections(ss) && IsEntryAt(ss, i, k, id)
    ensures FindHome(ss, id) == i && FindEntry(ss[i].entries, id) == k
  {
    assert EntriesOf(ss[i]) == ss[i].entries && ValidSection(ss[i]);
    EntryIsUnique(ss[i].entries, k);
    HomeIsUnique(ss, i, id);
  }

  lemma EntryIsUnique(es: seq<Entry>, k: nat)
    requires UniqueEntries(es) && k < |es|
    ensures FindEntry(es, es[k].id) == k
  {
  }

  lemma HomePlace(ss: seq<Section>, id: Id)
    requires FindHome(ss, id) < |ss|
    ensures ss[FindHome(ss, id)].EntrySection?
    ensures var h := FindHome(ss, id); IsEntryAt(ss, h, FindEntry(ss[h].entries, id), id)
  {
  }

  lemma OnlyEntryAtIs(ss: seq<Section>, tt: seq<Section>, i: nat, k: nat, e: Entry)
    requires i < |ss| && ss[i].EntrySection? && k < |ss[i].entries|
    ensures IsOnlyEntryAt(ss, tt, i, k, e) <==> tt == ss[i := ss[i].(entries := ss[i].entries[k := e])]
  {
    if IsOnlyEntryAt(ss, tt, i, k, e) {
      assert tt[i].entries == ss[i].entries[k := e];
      OnlyAtIs(ss, tt, i, ss[i].(entries := tt[i].entries));
    }
  }

  lemma MovedIs<T>(s: seq<T>, i: nat, t: seq<T>, index: nat)
    requires i < |s| && index < |s|
    ensures IsMoved(s, i, t, index) <==> t == Insert(Remove(s, i), index, s[i])
  {
    InsertedIs(Remove(s, i), t, index, s[i]);
  }

  lemma MovedFits<T>(s: seq<T>, i: nat, t: seq<T>, index: nat)
    ensures IsMoved(s, i, t, index) ==> index < |s|
  {
    if IsMoved(s, i, t, index) {
      assert |t[..index] + t[index + 1..]| == |s[..i] + s[i + 1..]|;
    }
  }

  lemma InsertedIs<T>(s: seq<T>, t: seq<T>, index: nat, x: T)
    requires index <= |s|
    ensures IsInserted(s, t, index, x) <==> t == Insert(s, index, x)
  {
    if IsInserted(s, t, index, x) {
      assert |t| == |s| + 1;
      assert s[..index] == t[..index] && s[index..] == t[index + 1..];
      assert t == t[..index] + [t[index]] + t[index + 1..];
    }
    var u := Insert(s, index, x);
    assert u[..index] == s[..index] && u[index + 1..] == s[index..];
    assert s == s[..index] + s[index..];
  }

  lemma InsertedFits<T>(s: seq<T>, t: seq<T>, index: nat, x: T)
    requires IsInserted(s, t, index, x)
    ensures index <= |s| && |t| == |s| + 1
  {
  }

  // ---- Commands on one section ----

  lemma SectionCommandMeans(ss: seq<Section>, c: DomainCommand, tt: seq<Section>)
    requires ValidSections(ss) && (c.RenameSection? || c.SetSectionVisibility? || c.SetSummaryBody? || c.AddEntry?)
    ensures EditSections(ss, c) == Ok(tt) <==> SectionsMean(ss, c, tt)
  {
    var i := FindSection(ss, c.sectionId);
    SectionPlace(ss, c.sectionId);
    if i < |ss| {
      match c
      case RenameSection(_, title) => OnlyAtIs(ss, tt, i, ss[i].(title := title));
      case SetSectionVisibility(_, visible) => OnlyAtIs(ss, tt, i, ss[i].(visible := visible));
      case SetSummaryBody(_, body) =>
        if ss[i].SummarySection? {
          OnlyAtIs(ss, tt, i, ss[i].(body := body));
        }
      case AddEntry(_, entry) =>
        if ss[i].EntrySection? {
          OnlyAtIs(ss, tt, i, ss[i].(entries := ss[i].entries + [entry]));
        }
    }
  }

  lemma MoveSectionMeans(ss: seq<Section>, id: Id, index: nat, tt: seq<Section>)
    requires ValidSections(ss)
    ensures EditSections(ss, MoveSection(id, index)) == Ok(tt) <==> SectionsMean(ss, MoveSection(id, index), tt)
  {
    var i := FindSection(ss, id);
    SectionPlace(ss, id);
    if i < |ss| && index < |ss| {
      MovedIs(ss, i, tt, index);
    } else if i < |ss| {
      MovedFits(ss, i, tt, index);
    }
  }

  // ---- Commands on one entry ----

  /** The place of the entry that is found is the only one with this ID. */
  lemma FoundPlace(ss: seq<Section>, id: Id) returns (i: nat, k: nat)
    requires FindHome(ss, id) < |ss|
    ensures IsEntryAt(ss, i, k, id) && i == FindHome(ss, id) && k == FindEntry(ss[i].entries, id)
  {
    HomePlace(ss, id);
    i := FindHome(ss, id);
    k := FindEntry(ss[i].entries, id);
  }

  lemma SetBodyMeans(ss: seq<Section>, id: Id, body: seq<RichBlock>, tt: seq<Section>)
    requires ValidSections(ss)
    ensures EditSections(ss, SetEntryBody(id, body)) == Ok(tt) <==> SectionsMean(ss, SetEntryBody(id, body), tt)
  {
    if EditSections(ss, SetEntryBody(id, body)) == Ok(tt) {
      var i, k := FoundPlace(ss, id);
      OnlyEntryAtIs(ss, tt, i, k, ss[i].entries[k].(body := body));
    }
    if SectionsMean(ss, SetEntryBody(id, body), tt) {
      var i: nat, k: nat :| IsEntryAt(ss, i, k, id) && IsOnlyEntryAt(ss, tt, i, k, ss[i].entries[k].(body := body));
      EntryPlace(ss, i, k, id);
      OnlyEntryAtIs(ss, tt, i, k, ss[i].entries[k].(body := body));
    }
  }

  lemma SetFieldsMeans(ss: seq<Section>, id: Id, fields: map<EntryField, string>, tt: seq<Section>)
    requires ValidSections(ss)
    ensures EditSections(ss, UpdateEntryFields(id, fields)) == Ok(tt) <==> SectionsMean(ss, UpdateEntryFields(id, fields), tt)
  {
    if EditSections(ss, UpdateEntryFields(id, fields)) == Ok(tt) {
      var i, k := FoundPlace(ss, id);
      var x := PatchEntry(ss[i].entries[k], fields);
      PatchedEntryIs(ss[i].entries[k], fields, x);
      OnlyEntryAtIs(ss, tt, i, k, x);
    }
    if SectionsMean(ss, UpdateEntryFields(id, fields), tt) {
      var i: nat, k: nat, x :| IsEntryAt(ss, i, k, id) && AreFieldsSet(ss[i].entries[k], fields, x) && IsOnlyEntryAt(ss, tt, i, k, x);
      EntryPlace(ss, i, k, id);
      PatchedEntryIs(ss[i].entries[k], fields, x);
      OnlyEntryAtIs(ss, tt, i, k, x);
    }
  }

  lemma {:induction false} WithoutOne(es: seq<Entry>, k: nat, id: Id)
    requires UniqueEntries(es) && k < |es| && es[k].id == id
    ensures Without(es, id) == es[..k] + es[k + 1..]
  {
    if k == 0 {
      forall j | 0 <= j < |es[1..]| ensures es[1..][j].id != id {
        assert es[0].id != es[j + 1].id;
      }
      assert FindEntry(es[1..], id) == |es[1..]|;
      WithoutAbsent(es[1..], id);
    } else {
      assert es[0].id != es[k].id;
      WithoutOne(es[1..], k - 1, id);
      assert es[..k] == [es[0]] + es[1..][..k - 1];
      assert es[1..][k..] == es[k + 1..];
    }
  }

  lemma DropMeans(ss: seq<Section>, i: nat, k: nat, id: Id)
    requires ValidSections(ss) && IsEntryAt(ss, i, k, id)
    ensures DropEntry(ss, id) == ss[i := ss[i].(entries := ss[i].entries[..k] + ss[i].entries[k + 1..])]
  {
    EntryPlace(ss, i, k, id);
    DropIsLocal(ss, i, id);
    assert EntriesOf(ss[i]) == ss[i].entries && ValidSection(ss[i]);
    WithoutOne(ss[i].entries, k, id);
  }

  /** The list without the one entry, put in place. */
  lemma LessAtIs(ss: seq<Section>, tt: seq<Section>, i: nat, k: nat)
    requires i < |ss| && ss[i].EntrySection? && k < |ss[i].entries|
    ensures (i < |tt| && tt[i].EntrySection? && IsLess(ss[i].entries, k, tt[i].entries)
             && IsOnlyAt(ss, tt, i, ss[i].(entries := tt[i].entries)))
            <==> tt == ss[i := ss[i].(entries := ss[i].entries[..k] + ss[i].entries[k + 1..])]
  {
    if i < |tt| && tt[i].EntrySection? {
      OnlyAtIs(ss, tt, i, ss[i].(entries := tt[i].entries));
    }
  }

  lemma DeleteMeans(ss: seq<Section>, id: Id, tt: seq<Section>)
    requires ValidSections(ss)
    ensures EditSections(ss, DeleteEntry(id)) == Ok(tt) <==> SectionsMean(ss, DeleteEntry(id), tt)
  {
    if EditSections(ss, DeleteEntry(id)) == Ok(tt) {
      var i, k := FoundPlace(ss, id);
      DropMeans(ss, i, k, id);
      LessAtIs(ss, tt, i, k);
    }
    if SectionsMean(ss, DeleteEntry(id), tt) {
      var i: nat, k: nat :| IsEntryAt(ss, i, k, id) && i < |tt| && tt[i].EntrySection? && IsLess(ss[i].entries, k, tt[i].entries)
                            && IsOnlyAt(ss, tt, i, ss[i].(entries := tt[i].entries));
      EntryPlace(ss, i, k, id);
      DropMeans(ss, i, k, id);
      LessAtIs(ss, tt, i, k);
    }
  }

  // ---- The move of an entry ----

  /** The move from one place to a section that can be found. */
  function Moved(ss: seq<Section>, i: nat, k: nat, j: nat, index: nat): seq<Section>
    requires i < |ss| && j < |ss| && ss[i].EntrySection? && ss[j].EntrySection? && k < |ss[i].entries|
    requires index <= |ss[j].entries| - if i == j then 1 else 0
  {
    var rest := Remove(ss[i].entries, k);
    if i == j then ss[i := ss[i].(entries := Insert(rest, index, ss[i].entries[k]))]
    else ss[i := ss[i].(entries := rest)][j := ss[j].(entries := Insert(ss[j].entries, index, ss[i].entries[k]))]
  }

  lemma EntryMovedIs(ss: seq<Section>, tt: seq<Section>, i: nat, k: nat, j: nat, index: nat)
    requires i < |ss| && j < |ss| && ss[i].EntrySection? && ss[j].EntrySection? && k < |ss[i].entries|
    requires index <= |ss[j].entries| - if i == j then 1 else 0
    ensures IsEntryMoved(ss, tt, i, k, j, index) <==> tt == Moved(ss, i, k, j, index)
  {
    if i == j {
      if |tt| == |ss| && tt[i].EntrySection? {
        MovedIs(ss[i].entries, k, tt[i].entries, index);
      }
    } else if |tt| == |ss| && tt[i].EntrySection? && tt[j].EntrySection? {
      InsertedIs(ss[j].entries, tt[j].entries, index, ss[i].entries[k]);
    }
  }

  lemma EntryMovedFits(ss: seq<Section>, tt: seq<Section>, i: nat, k: nat, j: nat, index: nat)
    requires IsEntryMoved(ss, tt, i, k, j, index)
    ensures index <= |ss[j].entries| - if i == j then 1 else 0
  {
    if i == j {
      assert |tt[i].entries[..index] + tt[i].entries[index + 1..]| == |tt[i].entries| - 1;
    } else {
      InsertedFits(ss[j].entries, tt[j].entries, index, ss[i].entries[k]);
    }
  }

  lemma MoveToIs(ss: seq<Section>, i: nat, k: nat, j: nat, id: Id, sectionId: Id, index: nat)
    requires ValidSections(ss) && IsEntryAt(ss, i, k, id) && IsSectionAt(ss, j, sectionId)
    ensures MoveEntryTo(ss, id, sectionId, index) ==
            if ss[j].SummarySection? || index > |ss[j].entries| - (if i == j then 1 else 0) then Err(Validation)
            else Ok(Moved(ss, i, k, j, index))
  {
    EntryPlace(ss, i, k, id);
    SectionIsUnique(ss, j);
    MoveFromTo(ss, i, k, j, id, sectionId, index);
  }

  lemma MoveFromTo(ss: seq<Section>, i: nat, k: nat, j: nat, id: Id, sectionId: Id, index: nat)
    requires IsEntryAt(ss, i, k, id) && FindHome(ss, id) == i && FindEntry(ss[i].entries, id) == k
    requires j < |ss| && FindSection(ss, sectionId) == j
    ensures MoveEntryTo(ss, id, sectionId, index) ==
            if ss[j].SummarySection? || index > |ss[j].entries| - (if i == j then 1 else 0) then Err(Validation)
            else Ok(Moved(ss, i, k, j, index))
  {
    var rest := TakenOut(ss, i, id);
    assert rest == ss[i := ss[i].(entries := Remove(ss[i].entries, k))];
    SamePlaceByIds(ss, rest, sectionId, j);
    if i == j && index < |ss[i].entries| {
      var x := ss[i].(entries := Insert(Remove(ss[i].entries, k), index, ss[i].entries[k]));
      assert rest[i := x] == ss[i := x];
    }
  }

  lemma SamePlaceByIds(ss: seq<Section>, tt: seq<Section>, id: Id, j: nat)
    requires |ss| == |tt| && (forall m :: 0 <= m < |ss| ==> tt[m].id == ss[m].id) && FindSection(ss, id) == j
    ensures FindSection(tt, id) == j
  {
  }

  lemma MoveEntryMeans(ss: seq<Section>, id: Id, sectionId: Id, index: nat, tt: seq<Section>)
    requires ValidSections(ss)
    ensures EditSections(ss, MoveEntry(id, sectionId, index)) == Ok(tt) <==> SectionsMean(ss, MoveEntry(id, sectionId, index), tt)
  {
    if MoveEntryTo(ss, id, sectionId, index) == Ok(tt) {
      MovedMeans(ss, id, sectionId, index, tt);
    }
    if SectionsMean(ss, MoveEntry(id, sectionId, index), tt) {
      var i: nat, k: nat, j: nat :| IsEntryAt(ss, i, k, id) && IsSectionAt(ss, j, sectionId) && IsEntryMoved(ss, tt, i, k, j, index);
      MeansMoved(ss, i, k, j, id, sectionId, index, tt);
    }
  }

  lemma MeansMoved(ss: seq<Section>, i: nat, k: nat, j: nat, id: Id, sectionId: Id, index: nat, tt: seq<Section>)
    requires ValidSections(ss)
    requires IsEntryAt(ss, i, k, id) && IsSectionAt(ss, j, sectionId) && IsEntryMoved(ss, tt, i, k, j, index)
    ensures MoveEntryTo(ss, id, sectionId, index) == Ok(tt)
  {
    EntryMovedFits(ss, tt, i, k, j, index);
    MoveToIs(ss, i, k, j, id, sectionId, index);
    EntryMovedIs(ss, tt, i, k, j, index);
  }

  lemma MovedMeans(ss: seq<Section>, id: Id, sectionId: Id, index: nat, tt: seq<Section>)
    requires ValidSections(ss) && MoveEntryTo(ss, id, sectionId, index) == Ok(tt)
    ensures SectionsMean(ss, MoveEntry(id, sectionId, index), tt)
  {
    var i, j := FindHome(ss, id), FindSection(ss, sectionId);
    HomePlace(ss, id);
    var k := FindEntry(ss[i].entries, id);
    SameSectionFound(ss, i, id, sectionId);
    MoveToIs(ss, i, k, j, id, sectionId, index);
    EntryMovedIs(ss, tt, i, k, j, index);
  }

  /** Taking an entry out moves no section. */
  lemma SameSectionFound(ss: seq<Section>, i: nat, id: Id, sectionId: Id)
    requires i < |ss| && HasEntry(ss[i], id)
    ensures FindSection(TakenOut(ss, i, id), sectionId) == FindSection(ss, sectionId)
  {
    var rest := TakenOut(ss, i, id);
    assert forall m :: 0 <= m < |ss| ==> rest[m].id == ss[m].id;
    SamePlaceByIds(ss, rest, sectionId, FindSection(ss, sectionId));
  }

  // ---- All commands ----

  lemma SectionsCommandMeans(ss: seq<Section>, c: DomainCommand, tt: seq<Section>)
    requires ValidSections(ss)
    requires !c.SetDocumentTitle? && !c.UpdateBasic? && !c.RestoreBasicFields? && !c.SetLayout? && !c.SetLegacyExtensions?
    ensures EditSections(ss, c) == Ok(tt) <==> SectionsMean(ss, c, tt)
  {
    match c
    case MoveSection(id, index) => MoveSectionMeans(ss, id, index, tt);
    case SetEntryBody(id, body) => SetBodyMeans(ss, id, body, tt);
    case UpdateEntryFields(id, fields) => SetFieldsMeans(ss, id, fields, tt);
    case DeleteEntry(id) => DeleteMeans(ss, id, tt);
    case MoveEntry(id, sectionId, index) => MoveEntryMeans(ss, id, sectionId, index, tt);
    case _ => SectionCommandMeans(ss, c, tt);
  }

  lemma EditMeans(d: ResumeDocument, c: DomainCommand, r: ResumeDocument)
    requires Valid(d)
    ensures Edit(d, c) == Ok(r) <==> Means(d, c, r)
  {
    match c
    case SetDocumentTitle(_) =>
    case SetLayout(_) =>
    case SetLegacyExtensions(_) =>
    case UpdateBasic(patch) => PatchedBasicIs(d.basic, patch, r.basic);
    case RestoreBasicFields(fields, values) => RestoredIs(d.basic, fields, values, r.basic);
    case _ => SectionsCommandMeans(d.sections, c, r.sections);
  }

  /** The host accepts a command on a valid document with this result if and only if the command means it and it is valid. */
  lemma EveryCommandMeans(d: ResumeDocument, c: DomainCommand, r: ResumeDocument)
    requires Valid(d)
    ensures Apply(d, c) == Ok(r) <==> Means(d, c, r) && Valid(r)
  {
    EditMeans(d, c, r);
    if Edit(d, c).Ok? {
      ValidatorIsExact(Edit(d, c).value);
    }
  }

  // ---- Refusals ----

  /** The section or the entry that the command addresses is not there. */
  ghost predicate IsMissing(ss: seq<Section>, c: DomainCommand) {
    match c
    case RenameSection(id, _) => forall i: nat :: !IsSectionAt(ss, i, id)
    case SetSectionVisibility(id, _) => forall i: nat :: !IsSectionAt(ss, i, id)
    case MoveSection(id, _) => forall i: nat :: !IsSectionAt(ss, i, id)
    case SetSummaryBody(id, _) => forall i: nat :: !IsSectionAt(ss, i, id)
    case AddEntry(id, _) => forall i: nat :: !IsSectionAt(ss, i, id)
    case SetEntryBody(id, _) => forall i: nat, k: nat :: !IsEntryAt(ss, i, k, id)
    case UpdateEntryFields(id, _) => forall i: nat, k: nat :: !IsEntryAt(ss, i, k, id)
    case DeleteEntry(id) => forall i: nat, k: nat :: !IsEntryAt(ss, i, k, id)
    case MoveEntry(id, sectionId, _) =>
      (forall i: nat, k: nat :: !IsEntryAt(ss, i, k, id)) || forall j: nat :: !IsSectionAt(ss, j, sectionId)
    case _ => false
  }

  lemma SectionMissing(ss: seq<Section>, id: Id)
    ensures FindSection(ss, id) == |ss| <==> forall i: nat :: !IsSectionAt(ss, i, id)
  {
    if FindSection(ss, id) < |ss| {
      assert IsSectionAt(ss, FindSection(ss, id), id);
    }
  }

  lemma EntryMissing(ss: seq<Section>, id: Id)
    ensures FindHome(ss, id) == |ss| <==> forall i: nat, k: nat :: !IsEntryAt(ss, i, k, id)
  {
    if FindHome(ss, id) < |ss| {
      HomePlace(ss, id);
    } else {
      forall i: nat, k: nat ensures !IsEntryAt(ss, i, k, id) {
        assert i < |ss| ==> !HasEntry(ss[i], id);
      }
    }
  }

  lemma MoveNotFound(ss: seq<Section>, id: Id, sectionId: Id, index: nat)
    ensures MoveEntryTo(ss, id, sectionId, index) == Err(NotFound) <==> IsMissing(ss, MoveEntry(id, sectionId, index))
  {
    EntryMissing(ss, id);
    SectionMissing(ss, sectionId);
    if FindHome(ss, id) < |ss| {
      SameSectionFound(ss, FindHome(ss, id), id, sectionId);
    }
  }

  lemma OnEntryNotFound(ss: seq<Section>, c: DomainCommand)
    requires c.SetEntryBody? || c.UpdateEntryFields? || c.DeleteEntry?
    ensures EditSections(ss, c) == Err(NotFound) <==> IsMissing(ss, c)
  {
    EntryMissing(ss, c.entryId);
  }

  lemma OnSectionNotFound(ss: seq<Section>, c: DomainCommand)
    requires c.RenameSection? || c.SetSectionVisibility? || c.MoveSection? || c.SetSummaryBody? || c.AddEntry?
    ensures EditSections(ss, c) == Err(NotFound) <==> IsMissing(ss, c)
  {
    SectionMissing(ss, c.sectionId);
  }

  lemma EditNotFound(d: ResumeDocument, c: DomainCommand)
    ensures Edit(d, c) == Err(NotFound) <==> IsMissing(d.sections, c)
  {
    if c.MoveEntry? {
      MoveNotFound(d.sections, c.entryId, c.sectionId, c.index);
    } else if c.SetEntryBody? || c.UpdateEntryFields? || c.DeleteEntry? {
      OnEntryNotFound(d.sections, c);
    } else if c.RenameSection? || c.SetSectionVisibility? || c.MoveSection? || c.SetSummaryBody? || c.AddEntry? {
      OnSectionNotFound(d.sections, c);
    }
  }

  predicate IsRefusal(problem: Option<ErrorCode>) {
    problem.Some? ==> problem.value == Validation || problem.value == ResourceLimit
  }

  lemma {:induction false} InlinesRefuse(es: seq<Inline>)
    ensures IsRefusal(InlinesError(es))
  {
    if es != [] {
      if es[0].Link? {
        InlinesRefuse(es[0].children);
      }
      InlinesRefuse(es[1..]);
    }
  }

  lemma {:induction false} BlockRefuses(b: RichBlock, depth: nat)
    ensures IsRefusal(BlockError(b, depth))
    decreases b, 0
  {
    match b
    case Paragraph(inlines) => InlinesRefuse(inlines);
    case List(_, _, items) => ItemsRefuse(items, depth + 1);
  }

  lemma {:induction false} ItemsRefuse(items: seq<ListItem>, depth: nat)
    ensures IsRefusal(ItemsError(items, depth))
    decreases items, 0
  {
    if items != [] {
      BodyRefuses(items[0].blocks, depth);
      ItemsRefuse(items[1..], depth);
    }
  }

  lemma {:induction false} BodyRefuses(blocks: seq<RichBlock>, depth: nat)
    ensures IsRefusal(BodyError(blocks, depth))
    decreases blocks, 1
  {
    if blocks != [] {
      BlockRefuses(blocks[0], depth);
      BodyRefuses(blocks[1..], depth);
    }
  }

  lemma {:induction false} EntriesRefuse(es: seq<Entry>, seen: set<Id>)
    ensures IsRefusal(EntriesError(es, seen))
  {
    if es != [] {
      BodyRefuses(es[0].body, 0);
      EntriesRefuse(es[1..], seen + {es[0].id});
    }
  }

  lemma SectionRefuses(s: Section, seen: set<Id>)
    ensures IsRefusal(SectionError(s, seen))
  {
    match s
    case EntrySection(_, _, _, _, entries) => EntriesRefuse(entries, seen);
    case SummarySection(_, _, _, _, body) => BodyRefuses(body, 0);
  }

  lemma {:induction false} SectionsRefuse(ss: seq<Section>, seenSections: set<Id>, seenEntries: set<Id>)
    ensures IsRefusal(SectionsError(ss, seenSections, seenEntries))
  {
    if ss != [] {
      SectionRefuses(ss[0], seenEntries);
      SectionsRefuse(ss[1..], seenSections + {ss[0].id}, seenEntries + EntryIds(ss[0]));
    }
  }

  /** A command is refused as not found exactly when what it addresses is not there; any other refusal is of its contents. */
  lemma EveryRefusalMeans(d: ResumeDocument, c: DomainCommand)
    requires Apply(d, c).Err?
    ensures Apply(d, c).error == NotFound <==> IsMissing(d.sections, c)
    ensures Apply(d, c).error in {NotFound, Validation, ResourceLimit}
  {
    EditNotFound(d, c);
    if Edit(d, c).Ok? {
      SectionsRefuse(Edit(d, c).value.sections, {}, {});
    }
  }
}
