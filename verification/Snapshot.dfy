/** Documents as workspace snapshots and back: what the trip keeps, and how it reorders sections. */
module Snapshot {
  import opened Contracts
  import opened Strings
  import opened Unicode
  import opened RichText
  import opened RichTextWriter
  import opened RichTextRoundTrip

  // ---- Snapshots ----

  datatype Key = ModuleKey(kind: ModuleKind) | SummaryKey

  const KEYS: seq<Key> := [
    ModuleKey(Education), ModuleKey(Skills), ModuleKey(Work), ModuleKey(Projects), ModuleKey(Orgs),
    ModuleKey(Research), ModuleKey(Awards), ModuleKey(Other), ModuleKey(Portfolio), ModuleKey(Custom), SummaryKey]

  function KeyName(key: Key): string {
    match key
    case ModuleKey(Education) => "education" case ModuleKey(Skills) => "skills" case ModuleKey(Work) => "work"
    case ModuleKey(Projects) => "projects" case ModuleKey(Orgs) => "orgs" case ModuleKey(Research) => "research"
    case ModuleKey(Awards) => "awards" case ModuleKey(Other) => "other" case ModuleKey(Portfolio) => "portfolio"
    case ModuleKey(Custom) => "custom" case SummaryKey => "summary"
  }

  /** An entry with its body as HTML. */
  datatype LegacyEntry = LegacyEntry(id: Id, texts: map<EntryField, string>, html: string)

  /** The workspace snapshot; presentation, layout and avatar are not part of it here. */
  datatype WorkspaceSnapshot = WorkspaceSnapshot(
    title: string, texts: map<BasicText, string>, ageMode: AgeMode,
    modules: map<ModuleKind, seq<LegacyEntry>>, names: map<ModuleKind, string>,
    summary: string, summaryTitle: string, order: seq<Key>)

  function KeyOf(section: Section): Key {
    match section
    case EntrySection(_, kind, _, _, _) => ModuleKey(kind)
    case SummarySection(_, _, _, _, _) => SummaryKey
  }

  // ---- Document to snapshot ----

  function ToLegacy(e: Entry): Result<LegacyEntry, RenderError> {
    match RenderBlocks(e.body)
    case Err(error) => Err(error)
    case Ok(html) => Ok(LegacyEntry(e.id, e.texts, html))
  }

  function AllToLegacy(es: seq<Entry>): Result<seq<LegacyEntry>, RenderError> {
    if es == [] then Ok([])
    else
      match ToLegacy(es[0])
      case Err(error) => Err(error)
      case Ok(first) =>
        match AllToLegacy(es[1..])
        case Err(error) => Err(error)
        case Ok(rest) => Ok([first] + rest)
  }

  function AddSection(s: WorkspaceSnapshot, section: Section): Result<WorkspaceSnapshot, RenderError> {
    var order := if section.visible then s.order + [KeyOf(section)] else s.order;
    match section
    case SummarySection(_, _, title, _, body) =>
      (match RenderBlocks(body)
       case Err(error) => Err(error)
       case Ok(html) => Ok(s.(order := order, summaryTitle := title, summary := html)))
    case EntrySection(_, kind, title, _, entries) =>
      (match AllToLegacy(entries)
       case Err(error) => Err(error)
       case Ok(legacy) =>
         Ok(s.(order := order, names := s.names[kind := title], modules := s.modules[kind := legacy])))
  }

  function AddSections(s: WorkspaceSnapshot, sections: seq<Section>): Result<WorkspaceSnapshot, RenderError> {
    if sections == [] then Ok(s)
    else
      match AddSections(s, sections[..|sections| - 1])
      case Err(error) => Err(error)
      case Ok(before) => AddSection(before, sections[|sections| - 1])
  }

  /** The snapshot before any section: no entries, the built-in titles (given), the avatar left out. */
  function EmptySnapshot(d: ResumeDocument, titles: map<ModuleKind, string>, summaryTitle: string): WorkspaceSnapshot {
    WorkspaceSnapshot(d.title, d.basic.texts - {AvatarAssetId}, d.basic.ageMode,
                      map[Education := [], Skills := [], Work := [], Projects := [], Orgs := [],
                          Research := [], Awards := [], Other := [], Portfolio := [], Custom := []],
                      titles, "", summaryTitle, [])
  }

  function SnapshotOf(d: ResumeDocument, titles: map<ModuleKind, string>, summaryTitle: string): Result<WorkspaceSnapshot, RenderError> {
    AddSections(EmptySnapshot(d, titles, summaryTitle), d.sections)
  }

  method SnapshotFromDocument(d: ResumeDocument, titles: map<ModuleKind, string>, defaultTitle: string)
    returns (result: Result<WorkspaceSnapshot, RenderError>)
    ensures result == SnapshotOf(d, titles, defaultTitle)
  {
    var s := EmptySnapshot(d, titles, defaultTitle);
    for i := 0 to |d.sections|
      invariant AddSections(EmptySnapshot(d, titles, defaultTitle), d.sections[..i]) == Ok(s)
    {
      assert d.sections[..i + 1][..i] == d.sections[..i];
      var section := d.sections[i];
      var failed: Option<RenderError> := None;
      if section.visible {
        s := s.(order := s.order + [KeyOf(section)]);
      }
      match section {
        case SummarySection(_, _, title, _, body) =>
          var html := RenderBlocks(body);
          if html.Ok? {
            s := s.(summaryTitle := title, summary := html.value);
          } else {
            failed := Some(html.error);
          }
        case EntrySection(_, kind, title, _, entries) =>
          var legacy := AllToLegacy(entries);
          if legacy.Ok? {
            s := s.(names := s.names[kind := title]);
            s := s.(modules := s.modules[kind := legacy.value]);
          } else {
            failed := Some(legacy.error);
          }
      }
      if failed.Some? {
        FirstFailureStays(EmptySnapshot(d, titles, defaultTitle), d.sections, i + 1);
        return Err(failed.value);
      }
    }
    assert d.sections[..|d.sections|] == d.sections;
    return Ok(s);
  }

  lemma {:induction false} FirstFailureStays(s: WorkspaceSnapshot, sections: seq<Section>, n: nat)
    requires n <= |sections| && AddSections(s, sections[..n]).Err?
    ensures AddSections(s, sections) == AddSections(s, sections[..n])
    decreases |sections|
  {
    if n == |sections| {
      assert sections[..n] == sections;
    } else {
      assert sections[..|sections| - 1][..n] == sections[..n];
      FirstFailureStays(s, sections[..|sections| - 1], n);
    }
  }

  // ---- Snapshot to document ----

  /** What the conversion reports of sections and bodies. */
  datatype Problem = DuplicateSection | DuplicateEntry(path: string, id: Id) | RichTextProblem(path: string, code: IssueCode)

  function Unique(order: seq<Key>): seq<Key> {
    if order == [] then []
    else
      var before, last := Unique(order[..|order| - 1]), order[|order| - 1];
      if last in before then before else before + [last]
  }

  function Absent(keys: seq<Key>, order: seq<Key>): seq<Key> {
    if keys == [] then []
    else
      var last := keys[|keys| - 1];
      Absent(keys[..|keys| - 1], order) + if last in order then [] else [last]
  }

  /** The listed keys, each once, then the remaining ones in their fixed order. */
  function OrderedKeys(order: seq<Key>): seq<Key> {
    Unique(order) + Absent(KEYS, order)
  }

  function BodyProblems(issues: seq<Issue>, path: string): seq<Problem> {
    if issues == [] then []
    else [RichTextProblem(path + "/" + issues[0].path, issues[0].code)] + BodyProblems(issues[1..], path)
  }

  function EntryPath(key: Key, i: nat): string {
    "resume." + KeyName(key) + "[" + Decimal(i) + "]"
  }

  datatype Converted = Converted(entries: seq<Entry>, seen: set<Id>, problems: seq<Problem>)

  function FromLegacy(l: LegacyEntry, dom: string -> Dom): Entry {
    Entry(l.id, l.texts, ReadHtml(l.html, dom(l.html)).blocks)
  }

  function EntryProblems(l: LegacyEntry, path: string, seen: set<Id>, dom: string -> Dom): seq<Problem> {
    (if l.id in seen then [DuplicateEntry(path + ".id", l.id)] else [])
    + BodyProblems(ReadHtml(l.html, dom(l.html)).issues, path + ".html")
  }

  /** The entries of one module; none when an ID is blank. */
  function ConvertEntries(ls: seq<LegacyEntry>, key: Key, seen: set<Id>, dom: string -> Dom): Option<Converted> {
    if ls == [] then Some(Converted([], seen, []))
    else
      var n := |ls| - 1;
      match ConvertEntries(ls[..n], key, seen, dom)
      case None => None
      case Some(before) =>
        if IsJsBlank(ls[n].id) then None
        else
          Some(Converted(before.entries + [FromLegacy(ls[n], dom)], before.seen + {ls[n].id},
                         before.problems + EntryProblems(ls[n], EntryPath(key, n), before.seen, dom)))
  }

  function SectionId(key: Key): Id {
    "legacy-section:" + KeyName(key)
  }

  function ModulesOf(s: WorkspaceSnapshot, kind: ModuleKind): seq<LegacyEntry> {
    if kind in s.modules then s.modules[kind] else []
  }

  function NameOf(s: WorkspaceSnapshot, kind: ModuleKind): string {
    if kind in s.names then s.names[kind] else ""
  }

  datatype Sections = Sections(sections: seq<Section>, seen: set<Id>, problems: seq<Problem>)

  function ConvertKey(s: WorkspaceSnapshot, key: Key, before: Sections, dom: string -> Dom): Option<Sections> {
    match key
    case SummaryKey =>
      var read := ReadHtml(s.summary, dom(s.summary));
      Some(Sections(before.sections + [SummarySection(SectionId(key), "summary", s.summaryTitle, key in s.order, read.blocks)],
                    before.seen, before.problems + BodyProblems(read.issues, "resume.summary")))
    case ModuleKey(kind) =>
      match ConvertEntries(ModulesOf(s, kind), key, before.seen, dom)
      case None => None
      case Some(c) =>
        Some(Sections(before.sections + [EntrySection(SectionId(key), kind, NameOf(s, kind), key in s.order, c.entries)],
                      c.seen, before.problems + c.problems))
  }

  function NoSections(s: WorkspaceSnapshot): Sections {
    Sections([], {}, if Unique(s.order) != s.order then [DuplicateSection] else [])
  }

  function ConvertKeys(s: WorkspaceSnapshot, keys: seq<Key>, dom: string -> Dom): Option<Sections> {
    if keys == [] then Some(NoSections(s))
    else
      match ConvertKeys(s, keys[..|keys| - 1], dom)
      case None => None
      case Some(before) => ConvertKey(s, keys[|keys| - 1], before, dom)
  }

  datatype Candidate = Candidate(
    title: string, texts: map<BasicText, string>, ageMode: AgeMode, sections: seq<Section>, problems: seq<Problem>)

  /** The document part of a snapshot; none when the document ID, the title or an entry ID is blank. */
  function Inspect(s: WorkspaceSnapshot, documentId: Id, dom: string -> Dom): Option<Candidate> {
    if IsJsBlank(documentId) || IsJsBlank(s.title) then None
    else
      match ConvertKeys(s, OrderedKeys(s.order), dom)
      case None => None
      case Some(r) => Some(Candidate(s.title, s.texts, s.ageMode, r.sections, r.problems))
  }

  method InspectEntries(ls: seq<LegacyEntry>, key: Key, seen: set<Id>, dom: string -> Dom) returns (result: Option<Converted>)
    ensures result == ConvertEntries(ls, key, seen, dom)
  {
    var entries: seq<Entry>, known, problems: seq<Problem> := [], seen, [];
    for i := 0 to |ls|
      invariant ConvertEntries(ls[..i], key, seen, dom) == Some(Converted(entries, known, problems))
    {
      assert ls[..i + 1][..i] == ls[..i];
      var original := ls[i];
      if IsJsBlank(original.id) {
        BlankIdStays(ls, i + 1, key, seen, dom);
        return None;
      }
      problems := problems + EntryProblems(original, EntryPath(key, i), known, dom);
      known := known + {original.id};
      entries := entries + [FromLegacy(original, dom)];
    }
    assert ls[..|ls|] == ls;
    return Some(Converted(entries, known, problems));
  }

  lemma {:induction false} BlankIdStays(ls: seq<LegacyEntry>, n: nat, key: Key, seen: set<Id>, dom: string -> Dom)
    requires n <= |ls| && ConvertEntries(ls[..n], key, seen, dom).None?
    ensures ConvertEntries(ls, key, seen, dom).None?
    decreases |ls|
  {
    if n == |ls| {
      assert ls[..n] == ls;
    } else {
      assert ls[..|ls| - 1][..n] == ls[..n];
      BlankIdStays(ls[..|ls| - 1], n, key, seen, dom);
    }
  }

  method InspectKey(s: WorkspaceSnapshot, key: Key, at: Sections, dom: string -> Dom) returns (result: Option<Sections>)
    ensures result == ConvertKey(s, key, at, dom)
  {
    match key {
      case SummaryKey =>
        var read := ReadHtml(s.summary, dom(s.summary));
        return Some(Sections(
          at.sections + [SummarySection(SectionId(key), "summary", s.summaryTitle, key in s.order, read.blocks)],
          at.seen, at.problems + BodyProblems(read.issues, "resume.summary")));
      case ModuleKey(kind) =>
        var c := InspectEntries(ModulesOf(s, kind), key, at.seen, dom);
        if c.None? {
          return None;
        }
        return Some(Sections(
          at.sections + [EntrySection(SectionId(key), kind, NameOf(s, kind), key in s.order, c.value.entries)],
          c.value.seen, at.problems + c.value.problems));
    }
  }

  method InspectLegacySnapshot(s: WorkspaceSnapshot, documentId: Id, dom: string -> Dom) returns (result: Option<Candidate>)
    ensures result == Inspect(s, documentId, dom)
  {
    if IsJsBlank(documentId) || IsJsBlank(s.title) {
      return None;
    }
    var r := InspectKeys(s, OrderedKeys(s.order), dom);
    if r.None? {
      return None;
    }
    return Some(Candidate(s.title, s.texts, s.ageMode, r.value.sections, r.value.problems));
  }

  method InspectKeys(s: WorkspaceSnapshot, keys: seq<Key>, dom: string -> Dom) returns (result: Option<Sections>)
    ensures result == ConvertKeys(s, keys, dom)
  {
    var at := NoSections(s);
    for i := 0 to |keys|
      invariant ConvertKeys(s, keys[..i], dom) == Some(at)
    {
      assert keys[..i + 1][..i] == keys[..i];
      var next := InspectKey(s, keys[i], at, dom);
      if next.None? {
        FailedKeyStays(s, keys, i + 1, dom);
        return None;
      }
      at := next.value;
    }
    assert keys[..|keys|] == keys;
    return Some(at);
  }

  lemma {:induction false} FailedKeyStays(s: WorkspaceSnapshot, keys: seq<Key>, n: nat, dom: string -> Dom)
    requires n <= |keys| && ConvertKeys(s, keys[..n], dom).None?
    ensures ConvertKeys(s, keys, dom).None?
    decreases |keys|
  {
    if n == |keys| {
      assert keys[..n] == keys;
    } else {
      assert keys[..|keys| - 1][..n] == keys[..n];
      FailedKeyStays(s, keys[..|keys| - 1], n, dom);
    }
  }
}
