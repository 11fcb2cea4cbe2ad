/** What any snapshot is converted to, and when the conversion has nothing to report. */
module SnapshotMeaning {
  import opened Contracts
  import opened Strings
  import opened Unicode
  import opened RichText
  import opened Snapshot
  import opened SnapshotRoundTrip

  // ---- One module ----

  predicate HasBlank(ls: seq<LegacyEntry>) {
    exists i :: 0 <= i < |ls| && IsJsBlank(ls[i].id)
  }

  function IdsOf(ls: seq<LegacyEntry>): set<Id> {
    set l | l in ls :: l.id
  }

  predicate AreDifferent(ls: seq<LegacyEntry>, seen: set<Id>) {
    && (forall i :: 0 <= i < |ls| ==> ls[i].id !in seen)
    && (forall i, j :: 0 <= i < j < |ls| ==> ls[i].id != ls[j].id)
  }

  predicate AreComplete(ls: seq<LegacyEntry>, dom: string -> Dom) {
    forall i :: 0 <= i < |ls| ==> IsComplete(ls[i].html, dom)
  }

  predicate IsComplete(html: string, dom: string -> Dom) {
    ReadHtml(html, dom(html)).complete
  }

  predicate AreEntriesOf(es: seq<Entry>, ls: seq<LegacyEntry>, dom: string -> Dom) {
    |es| == |ls| && forall i :: 0 <= i < |ls| ==> es[i] == Entry(ls[i].id, ls[i].texts, ReadHtml(ls[i].html, dom(ls[i].html)).blocks)
  }

  lemma NoBodyProblems(html: string, dom: string -> Dom, path: string)
    ensures BodyProblems(ReadHtml(html, dom(html)).issues, path) == [] <==> IsComplete(html, dom)
  {
  }

  lemma IdsMore(ls: seq<LegacyEntry>, l: LegacyEntry)
    ensures IdsOf(ls + [l]) == IdsOf(ls) + {l.id}
  {
    forall id ensures id in IdsOf(ls + [l]) <==> id in IdsOf(ls) || id == l.id {
      if id in IdsOf(ls) {
        var x :| x in ls && x.id == id;
        assert x in ls + [l];
      }
      assert l in ls + [l];
    }
  }

  lemma DifferentMore(ls: seq<LegacyEntry>, l: LegacyEntry, seen: set<Id>)
    ensures AreDifferent(ls + [l], seen) <==> AreDifferent(ls, seen) && l.id !in seen && l.id !in IdsOf(ls)
  {
    var n, all := |ls|, ls + [l];
    if AreDifferent(all, seen) {
      forall x | x in ls ensures x.id != l.id {
        var i :| 0 <= i < n && ls[i] == x;
        assert all[i].id != all[n].id;
      }
      assert forall i :: 0 <= i < n ==> ls[i] == all[i];
      assert all[n].id !in seen;
    }
    if AreDifferent(ls, seen) && l.id !in seen && l.id !in IdsOf(ls) {
      forall i | 0 <= i < n ensures all[i].id != l.id {
        assert ls[i] in ls;
      }
    }
  }

  /** The entries of a module: none with a blank ID; no problems when IDs are new and bodies complete. */
  predicate IsConverted(r: Option<Converted>, ls: seq<LegacyEntry>, seen: set<Id>, dom: string -> Dom) {
    && (r.None? <==> HasBlank(ls))
    && (r.Some? ==>
          && AreEntriesOf(r.value.entries, ls, dom) && r.value.seen == seen + IdsOf(ls)
          && (r.value.problems == [] <==> AreDifferent(ls, seen) && AreComplete(ls, dom)))
  }

  lemma BlankMore(ls: seq<LegacyEntry>, l: LegacyEntry)
    ensures HasBlank(ls + [l]) <==> HasBlank(ls) || IsJsBlank(l.id)
  {
    if HasBlank(ls) {
      var i :| 0 <= i < |ls| && IsJsBlank(ls[i].id);
      assert (ls + [l])[i] == ls[i];
    }
    assert (ls + [l])[|ls|] == l;
  }

  lemma CompleteMore(ls: seq<LegacyEntry>, l: LegacyEntry, dom: string -> Dom)
    ensures AreComplete(ls + [l], dom) <==> AreComplete(ls, dom) && IsComplete(l.html, dom)
  {
    assert forall i :: 0 <= i < |ls| ==> ls[i] == (ls + [l])[i];
    assert (ls + [l])[|ls|] == l;
  }

  lemma EntriesMore(es: seq<Entry>, ls: seq<LegacyEntry>, l: LegacyEntry, dom: string -> Dom)
    requires AreEntriesOf(es, ls, dom)
    ensures AreEntriesOf(es + [FromLegacy(l, dom)], ls + [l], dom)
  {
  }

  lemma ProblemsMore(l: LegacyEntry, path: string, seen: set<Id>, dom: string -> Dom)
    ensures EntryProblems(l, path, seen, dom) == [] <==> l.id !in seen && IsComplete(l.html, dom)
  {
    NoBodyProblems(l.html, dom, path + ".html");
  }

  lemma ConvertLast(ls: seq<LegacyEntry>, init: seq<LegacyEntry>, l: LegacyEntry, key: Key, seen: set<Id>, dom: string -> Dom)
    requires ls == init + [l]
    ensures var before := ConvertEntries(init, key, seen, dom);
            ConvertEntries(ls, key, seen, dom) ==
            if before.None? || IsJsBlank(l.id) then None
            else Some(Converted(before.value.entries + [FromLegacy(l, dom)], before.value.seen + {l.id},
                                before.value.problems + EntryProblems(l, EntryPath(key, |init|), before.value.seen, dom)))
  {
    assert ls[..|ls| - 1] == init;
  }

  lemma ConvertOneMore(ls: seq<LegacyEntry>, init: seq<LegacyEntry>, l: LegacyEntry, key: Key, seen: set<Id>, dom: string -> Dom)
    requires ls == init + [l] && IsConverted(ConvertEntries(init, key, seen, dom), init, seen, dom)
    ensures IsConverted(ConvertEntries(ls, key, seen, dom), ls, seen, dom)
  {
    ConvertLast(ls, init, l, key, seen, dom);
    BlankMore(init, l);
    if !HasBlank(ls) {
      var before := ConvertEntries(init, key, seen, dom).value;
      IdsMore(init, l);
      DifferentMore(init, l, seen);
      CompleteMore(init, l, dom);
      EntriesMore(before.entries, init, l, dom);
      ProblemsMore(l, EntryPath(key, |init|), before.seen, dom);
    }
  }

  lemma {:induction false} EntriesAreConverted(ls: seq<LegacyEntry>, key: Key, seen: set<Id>, dom: string -> Dom)
    ensures IsConverted(ConvertEntries(ls, key, seen, dom), ls, seen, dom)
  {
    if ls != [] {
      EntriesAreConverted(ls[..|ls| - 1], key, seen, dom);
      assert ls == ls[..|ls| - 1] + [ls[|ls| - 1]];
      ConvertOneMore(ls, ls[..|ls| - 1], ls[|ls| - 1], key, seen, dom);
    } else {
      assert seen + IdsOf(ls) == seen;
    }
  }

  // ---- All modules ----

  /** The section of a key: its ID by the key's name, its title, whether it is listed, and its entries or its body. */
  predicate IsSectionOf(x: Section, key: Key, s: WorkspaceSnapshot, dom: string -> Dom) {
    && x.id == "legacy-section:" + KeyName(key) && x.visible == (key in s.order)
    && match key
       case SummaryKey =>
         x.SummarySection? && x.kindName == "summary" && x.title == s.summaryTitle && x.body == ReadHtml(s.summary, dom(s.summary)).blocks
       case ModuleKey(kind) =>
         && x.EntrySection? && x.kind == kind && x.title == (if kind in s.names then s.names[kind] else "")
         && AreEntriesOf(x.entries, EntriesOf(s, key), dom)
  }

  /** The entries of a module; a missing one has none. */
  function EntriesOf(s: WorkspaceSnapshot, key: Key): seq<LegacyEntry> {
    if key.ModuleKey? && key.kind in s.modules then s.modules[key.kind] else []
  }

  predicate KeyIsComplete(s: WorkspaceSnapshot, key: Key, dom: string -> Dom) {
    match key
    case SummaryKey => IsComplete(s.summary, dom)
    case ModuleKey(_) => AreComplete(EntriesOf(s, key), dom)
  }

  function IdsBefore(s: WorkspaceSnapshot, keys: seq<Key>): set<Id> {
    if keys == [] then {} else IdsBefore(s, keys[..|keys| - 1]) + IdsOf(EntriesOf(s, keys[|keys| - 1]))
  }

  /** All entry IDs of these modules are different, and all their bodies are read completely. */
  predicate AllWell(s: WorkspaceSnapshot, keys: seq<Key>, dom: string -> Dom) {
    if keys == [] then true
    else
      var init, key := keys[..|keys| - 1], keys[|keys| - 1];
      AllWell(s, init, dom) && AreDifferent(EntriesOf(s, key), IdsBefore(s, init)) && KeyIsComplete(s, key, dom)
  }

  predicate AnyBlank(s: WorkspaceSnapshot, keys: seq<Key>) {
    exists key :: key in keys && HasBlank(EntriesOf(s, key))
  }

  predicate AreSectionsOf(xs: seq<Section>, keys: seq<Key>, s: WorkspaceSnapshot, dom: string -> Dom) {
    |xs| == |keys| && forall i :: 0 <= i < |keys| ==> IsSectionOf(xs[i], keys[i], s, dom)
  }

  predicate AreConverted(r: Option<Sections>, s: WorkspaceSnapshot, keys: seq<Key>, dom: string -> Dom) {
    && (r.None? <==> AnyBlank(s, keys))
    && (r.Some? ==>
          && AreSectionsOf(r.value.sections, keys, s, dom) && r.value.seen == IdsBefore(s, keys)
          && (r.value.problems == [] <==> Unique(s.order) == s.order && AllWell(s, keys, dom)))
  }

  /** One key: its section, its IDs and its problems are added, unless an ID is blank. */
  lemma KeyIsConverted(s: WorkspaceSnapshot, key: Key, before: Sections, dom: string -> Dom)
    ensures var r, ls := ConvertKey(s, key, before, dom), EntriesOf(s, key);
            && (r.None? <==> HasBlank(ls))
            && (r.Some? ==>
                  && |r.value.sections| == |before.sections| + 1 && r.value.sections[..|before.sections|] == before.sections
                  && IsSectionOf(r.value.sections[|before.sections|], key, s, dom) && r.value.seen == before.seen + IdsOf(ls)
                  && (r.value.problems == [] <==> before.problems == [] && AreDifferent(ls, before.seen) && KeyIsComplete(s, key, dom)))
  {
    EntriesAreConverted(EntriesOf(s, key), key, before.seen, dom);
    NoBodyProblems(s.summary, dom, "resume.summary");
    if key.SummaryKey? {
      assert before.seen + IdsOf([]) == before.seen;
    }
  }

  lemma KeysMore(s: WorkspaceSnapshot, keys: seq<Key>, init: seq<Key>, key: Key, dom: string -> Dom)
    requires keys == init + [key] && AreConverted(ConvertKeys(s, init, dom), s, init, dom)
    ensures AreConverted(ConvertKeys(s, keys, dom), s, keys, dom)
  {
    assert keys[..|keys| - 1] == init;
    assert AnyBlank(s, keys) <==> AnyBlank(s, init) || HasBlank(EntriesOf(s, key)) by {
      assert forall k :: k in keys <==> k in init || k == key;
    }
    if !AnyBlank(s, init) {
      KeyIsConverted(s, key, ConvertKeys(s, init, dom).value, dom);
    }
  }

  lemma {:induction false} KeysAreConverted(s: WorkspaceSnapshot, keys: seq<Key>, dom: string -> Dom)
    ensures AreConverted(ConvertKeys(s, keys, dom), s, keys, dom)
  {
    if keys != [] {
      var init, key := keys[..|keys| - 1], keys[|keys| - 1];
      KeysAreConverted(s, init, dom);
      InitAndLast(keys);
      KeysMore(s, keys, init, key, dom);
    }
  }

  // ---- The whole snapshot ----

  lemma {:induction false} UniqueWhenDistinct(order: seq<Key>)
    ensures Unique(order) == order <==> AreDistinct(order)
  {
    if order != [] {
      var init, last := order[..|order| - 1], order[|order| - 1];
      UniqueWhenDistinct(init);
      UniqueMembers(init, last);
      UniqueIsDistinct(order);
      assert order == init + [last];
    }
  }

  /**
   * A snapshot is converted exactly when document ID and title are not blank and no entry has a blank ID; then it has
   * the eleven sections by their keys, listed ones first.
   */
  lemma InspectedExactlyWhen(s: WorkspaceSnapshot, documentId: Id, dom: string -> Dom)
    ensures var r := Inspect(s, documentId, dom);
            && (r.Some? <==> !IsJsBlank(documentId) && !IsJsBlank(s.title) && forall key :: !HasBlank(EntriesOf(s, key)))
            && (r.Some? ==>
                  && r.value.title == s.title && r.value.texts == s.texts && r.value.ageMode == s.ageMode
                  && AreSectionsOf(r.value.sections, OrderedKeys(s.order), s, dom))
  {
    var keys := OrderedKeys(s.order);
    KeysAreConverted(s, keys, dom);
    forall key ensures key in keys {
      KeyIsListed(key, s.order);
    }
  }

  /** Nothing is reported exactly when no section is listed twice, all entry IDs are different and all bodies are complete. */
  lemma NothingReportedExactlyWhen(s: WorkspaceSnapshot, documentId: Id, dom: string -> Dom)
    requires Inspect(s, documentId, dom).Some?
    ensures Inspect(s, documentId, dom).value.problems == [] <==>
            AreDistinct(s.order) && AllWell(s, OrderedKeys(s.order), dom)
  {
    KeysAreConverted(s, OrderedKeys(s.order), dom);
    UniqueWhenDistinct(s.order);
  }

  // ---- Any document as a snapshot ----

  /** What the sections do not touch is as it was. */
  predicate IsUntouched(before: WorkspaceSnapshot, after: WorkspaceSnapshot, ss: seq<Section>) {
    && after.title == before.title && after.texts == before.texts && after.ageMode == before.ageMode
    && (!HasKey(ss, SummaryKey) ==> after.summary == before.summary && after.summaryTitle == before.summaryTitle)
    && forall kind :: !HasKey(ss, ModuleKey(kind)) ==> IsSameModule(before, after, kind)
  }

  predicate IsSameModule(before: WorkspaceSnapshot, after: WorkspaceSnapshot, kind: ModuleKind) {
    && (kind in after.modules <==> kind in before.modules) && (kind in after.names <==> kind in before.names)
    && (kind in before.modules ==> after.modules[kind] == before.modules[kind])
    && (kind in before.names ==> after.names[kind] == before.names[kind])
  }

  lemma HasKeyMore(ss: seq<Section>, x: Section, key: Key)
    ensures HasKey(ss + [x], key) <==> HasKey(ss, key) || KeyOf(x) == key
  {
    if HasKey(ss, key) {
      var i :| 0 <= i < |ss| && KeyOf(ss[i]) == key;
      assert (ss + [x])[i] == ss[i];
    }
    assert (ss + [x])[|ss|] == x;
  }

  lemma {:induction false} OthersAreUntouched(s: WorkspaceSnapshot, ss: seq<Section>)
    requires AddSections(s, ss).Ok?
    ensures IsUntouched(s, AddSections(s, ss).value, ss)
  {
    if ss != [] {
      var init, x := ss[..|ss| - 1], ss[|ss| - 1];
      OthersAreUntouched(s, init);
      InitAndLast(ss);
      StillUntouched(s, AddSections(s, init).value, ss, init, x);
    }
  }

  lemma InitAndLast<T>(s: seq<T>)
    requires s != []
    ensures s == s[..|s| - 1] + [s[|s| - 1]]
  {
  }

  lemma StillUntouched(before: WorkspaceSnapshot, after: WorkspaceSnapshot, ss: seq<Section>, init: seq<Section>, x: Section)
    requires ss == init + [x] && IsUntouched(before, after, init) && AddSection(after, x).Ok?
    ensures IsUntouched(before, AddSection(after, x).value, ss)
  {
    var next := AddSection(after, x).value;
    HasKeyMore(init, x, SummaryKey);
    forall kind | !HasKey(ss, ModuleKey(kind)) ensures IsSameModule(before, next, kind) {
      HasKeyMore(init, x, ModuleKey(kind));
      assert IsSameModule(before, after, kind);
    }
  }

  /** A module or summary that the document does not have is empty in the snapshot, under its built-in title. */
  lemma MissingSectionsAreEmpty(d: ResumeDocument, titles: map<ModuleKind, string>, defaultTitle: string)
    requires SnapshotOf(d, titles, defaultTitle).Ok?
    ensures var s := SnapshotOf(d, titles, defaultTitle).value;
            && s.title == d.title && s.texts == d.basic.texts - {AvatarAssetId} && s.ageMode == d.basic.ageMode
            && s.order == VisibleKeys(d.sections)
            && (!HasKey(d.sections, SummaryKey) ==> s.summary == "" && s.summaryTitle == defaultTitle)
            && (forall kind :: !HasKey(d.sections, ModuleKey(kind)) ==> kind in s.modules && s.modules[kind] == [])
            && (forall kind :: !HasKey(d.sections, ModuleKey(kind)) && kind in titles ==> kind in s.names && s.names[kind] == titles[kind])
  {
    var start := EmptySnapshot(d, titles, defaultTitle);
    OthersAreUntouched(start, d.sections);
    OrderIsVisible(start, d.sections);
    assert [] + VisibleKeys(d.sections) == VisibleKeys(d.sections);
    forall kind ensures kind in start.modules && start.modules[kind] == [] {
      match kind
      case Education => case Skills => case Work => case Projects => case Orgs =>
      case Research => case Awards => case Other => case Portfolio => case Custom =>
    }
    forall kind | !HasKey(d.sections, ModuleKey(kind)) ensures IsSameModule(start, SnapshotOf(d, titles, defaultTitle).value, kind) {}
  }
}
