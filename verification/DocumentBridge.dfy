/** The web client's difference: the next command that moves one document towards another. */
module DocumentBridge {
  import opened Contracts
  import opened Documents

  // ---- Lookup tables; a repeated ID keeps its last holder ----

  function SectionsById(ss: seq<Section>): map<Id, Section> {
    if ss == [] then map[]
    else SectionsById(ss[..|ss| - 1])[ss[|ss| - 1].id := ss[|ss| - 1]]
  }

  function EntriesById(es: seq<Entry>): map<Id, Entry> {
    if es == [] then map[]
    else EntriesById(es[..|es| - 1])[es[|es| - 1].id := es[|es| - 1]]
  }

  // ---- Patches ----

  const BASIC_STRING_FIELDS: seq<BasicText> := [
    Name, Phone, Email, HomeCity, Wechat, Birth,
    Website, Linkedin, Gender, Height, Weight, Ethnicity,
    Birthplace, PoliticalStatus, MaritalStatus, Zodiac, Mbti]

  const ENTRY_STRING_FIELDS: seq<EntryField> := [Title, Role, Department, City, Start, End, College, Mode]

  predicate SameText<F>(left: map<F, string>, right: map<F, string>, f: F) {
    (f in left <==> f in right) && (f in left && f in right ==> left[f] == right[f])
  }

  /** The changed fields that still have a value; a cleared field travels as "leave it alone". */
  function ChangedTexts<F>(left: map<F, string>, right: map<F, string>): map<F, string> {
    map f | f in right && !SameText(left, right, f) :: right[f]
  }

  /** A removed avatar is the exception: it travels as the empty string. */
  function BasicTexts(current: map<BasicText, string>, desired: map<BasicText, string>): map<BasicText, string> {
    var texts := ChangedTexts(current, desired);
    if AvatarAssetId in current && AvatarAssetId !in desired then texts[AvatarAssetId := ""] else texts
  }

  function BasicPatchFrom(current: BasicInfo, desired: BasicInfo): Option<BasicPatch> {
    if current == desired then None
    else Some(BasicPatch(BasicTexts(current.texts, desired.texts),
                         if current.ageMode != desired.ageMode then Some(desired.ageMode) else None))
  }

  function EntryFieldPatch(left: Entry, right: Entry): Option<map<EntryField, string>> {
    if left.texts == right.texts then None else Some(ChangedTexts(left.texts, right.texts))
  }

  // ---- The command, phase by phase ----

  function FirstSome<T>(f: T -> Option<DomainCommand>, s: seq<T>): Option<DomainCommand> {
    if s == [] then None
    else if f(s[0]).Some? then f(s[0])
    else FirstSome(f, s[1..])
  }

  /** Add the entry, or fix its fields, or fix its body. */
  function UpsertCommand(byId: map<Id, Entry>, sectionId: Id, entry: Entry): Option<DomainCommand> {
    if entry.id !in byId then Some(AddEntry(sectionId, entry))
    else
      var existing := byId[entry.id];
      var patch := EntryFieldPatch(existing, entry);
      if patch.Some? then Some(UpdateEntryFields(entry.id, patch.value))
      else if existing.body != entry.body then Some(SetEntryBody(entry.id, entry.body))
      else None
  }

  function UpsertOf(byId: map<Id, Entry>, sectionId: Id): Entry -> Option<DomainCommand> {
    (entry: Entry) => UpsertCommand(byId, sectionId, entry)
  }

  function SurplusOf(keep: set<Id>): Entry -> Option<DomainCommand> {
    (entry: Entry) => if entry.id in keep then None else Some(DeleteEntry(entry.id))
  }

  function ContentCommand(before: Section, desired: Section): Option<DomainCommand> {
    if desired.SummarySection? then
      if before.SummarySection? && before.body == desired.body then None
      else Some(SetSummaryBody(desired.id, desired.body))
    else
      var upsert := FirstSome(UpsertOf(EntriesById(EntriesOf(before)), desired.id), desired.entries);
      if upsert.Some? then upsert
      else FirstSome(SurplusOf(EntryIds(desired)), EntriesOf(before))
  }

  function HeadingCommand(before: Section, desired: Section): Option<DomainCommand> {
    if before.visible != desired.visible then Some(SetSectionVisibility(desired.id, desired.visible))
    else if before.title != desired.title then Some(RenameSection(desired.id, desired.title))
    else None
  }

  function SectionIdSeq(ss: seq<Section>): (r: seq<Id>)
    ensures |r| == |ss| && forall i :: 0 <= i < |ss| ==> r[i] == ss[i].id
  {
    seq(|ss|, i requires 0 <= i < |ss| => ss[i].id)
  }

  function EntryIdSeq(es: seq<Entry>): (r: seq<Id>)
    ensures |r| == |es| && forall i :: 0 <= i < |es| ==> r[i] == es[i].id
  {
    seq(|es|, i requires 0 <= i < |es| => es[i].id)
  }

  /** Length of the longest common prefix. */
  function Agreeing(a: seq<Id>, b: seq<Id>): (n: nat)
    ensures n <= |a| && n <= |b|
    ensures forall i :: 0 <= i < n ==> a[i] == b[i]
    ensures n == |a| || n == |b| || a[n] != b[n]
  {
    if a == [] || b == [] || a[0] != b[0] then 0
    else
      var n := 1 + Agreeing(a[1..], b[1..]);
      assert forall i :: 1 <= i < n ==> a[i] == a[1..][i - 1] && b[i] == b[1..][i - 1];
      n
  }

  function SectionOrderCommand(current: seq<Section>, desired: seq<Section>): Option<DomainCommand> {
    var n := Agreeing(SectionIdSeq(current), SectionIdSeq(desired));
    if n == |desired| then None else Some(MoveSection(desired[n].id, n))
  }

  function EntryOrderCommand(before: Section, desired: Section): Option<DomainCommand> {
    if desired.SummarySection? then None
    else
      var n := Agreeing(EntryIdSeq(EntriesOf(before)), EntryIdSeq(desired.entries));
      if n == |desired.entries| then None
      else Some(MoveEntry(desired.entries[n].id, desired.id, n))
  }

  /** Phases 1 and 2 pass over desired sections that the current document lacks. */
  function ContentOf(byId: map<Id, Section>): Section -> Option<DomainCommand> {
    (s: Section) => if s.id in byId then ContentCommand(byId[s.id], s) else None
  }

  function HeadingOf(byId: map<Id, Section>): Section -> Option<DomainCommand> {
    (s: Section) => if s.id in byId then HeadingCommand(byId[s.id], s) else None
  }

  const NoSection := SummarySection("", "", "", false, [])

  /** Phase 4 treats a missing section as one without entries. */
  function EntryOrderOf(byId: map<Id, Section>): Section -> Option<DomainCommand> {
    (s: Section) => EntryOrderCommand(if s.id in byId then byId[s.id] else NoSection, s)
  }

  function SectionsCommand(current: seq<Section>, desired: seq<Section>): Option<DomainCommand> {
    var byId := SectionsById(current);
    var content := FirstSome(ContentOf(byId), desired);
    if content.Some? then content
    else
      var heading := FirstSome(HeadingOf(byId), desired);
      if heading.Some? then heading
      else
        var order := SectionOrderCommand(current, desired);
        if order.Some? then order
        else FirstSome(EntryOrderOf(byId), desired)
  }

  function NextCommand(current: ResumeDocument, desired: ResumeDocument): Option<DomainCommand> {
    if current.title != desired.title then Some(SetDocumentTitle(desired.title))
    else
      var patch := BasicPatchFrom(current.basic, desired.basic);
      if patch.Some? then Some(UpdateBasic(patch.value))
      else
        var sections := SectionsCommand(current.sections, desired.sections);
        if sections.Some? then sections
        else if current.presentation != desired.presentation then Some(SetLayout(desired.presentation))
        else if current.legacyExtensions != desired.legacyExtensions then
          Some(SetLegacyExtensions(desired.legacyExtensions))
        else None
  }

  // ---- The loops that compute it ----

  /** The loop over a list of field names that both patches share. */
  method CompareFields<F(==)>(left: map<F, string>, right: map<F, string>, fields: seq<F>)
    returns (changed: bool, patch: map<F, string>)
    ensures !changed <==> forall f :: f in fields ==> SameText(left, right, f)
    ensures patch == map f | f in right && f in fields && !SameText(left, right, f) :: right[f]
  {
    changed, patch := false, map[];
    for i := 0 to |fields|
      invariant !changed <==> forall f :: f in fields[..i] ==> SameText(left, right, f)
      invariant patch == map f | f in right && f in fields[..i] && !SameText(left, right, f) :: right[f]
    {
      var field := fields[i];
      assert fields[..i + 1] == fields[..i] + [field];
      if !SameText(left, right, field) {
        if field in right {
          patch := patch[field := right[field]];
        }
        changed := true;
      }
    }
    assert fields[..|fields|] == fields;
  }

  method ComputeBasicPatch(current: BasicInfo, desired: BasicInfo) returns (result: Option<BasicPatch>)
    ensures result == BasicPatchFrom(current, desired)
  {
    var changed, texts := CompareFields(current.texts, desired.texts, BASIC_STRING_FIELDS);
    AvatarStep(current.texts, desired.texts, texts);
    var ageMode := None;
    if current.ageMode != desired.ageMode {
      ageMode := Some(desired.ageMode);
      changed := true;
    }
    if !SameText(current.texts, desired.texts, AvatarAssetId) {
      texts := texts[AvatarAssetId := if AvatarAssetId in desired.texts then desired.texts[AvatarAssetId] else ""];
      changed := true;
    }
    if !changed {
      NothingChanged(current.texts, desired.texts);
      return None;
    }
    return Some(BasicPatch(texts, ageMode));
  }

  lemma AvatarStep(current: map<BasicText, string>, desired: map<BasicText, string>, strings: map<BasicText, string>)
    requires strings == map f | f in desired && f in BASIC_STRING_FIELDS && !SameText(current, desired, f) :: desired[f]
    ensures BasicTexts(current, desired) ==
            if SameText(current, desired, AvatarAssetId) then strings
            else strings[AvatarAssetId := if AvatarAssetId in desired then desired[AvatarAssetId] else ""]
  {
    BasicFieldsComplete();
  }

  lemma NothingChanged(current: map<BasicText, string>, desired: map<BasicText, string>)
    requires SameText(current, desired, AvatarAssetId)
    requires forall f :: f in BASIC_STRING_FIELDS ==> SameText(current, desired, f)
    ensures current == desired
  {
    BasicFieldsComplete();
    SameEverywhere(current, desired);
  }

  lemma SameEverywhere<F(!new)>(left: map<F, string>, right: map<F, string>)
    requires forall f :: SameText(left, right, f)
    ensures left == right
  {
    forall f ensures f in left.Keys <==> f in right.Keys {
      assert SameText(left, right, f);
    }
    assert left.Keys == right.Keys;
    forall f | f in left ensures left[f] == right[f] {
      assert SameText(left, right, f);
    }
  }

  lemma BasicFieldsComplete()
    ensures forall f: BasicText :: f == AvatarAssetId || f in BASIC_STRING_FIELDS
    ensures AvatarAssetId !in BASIC_STRING_FIELDS
  {
    var s := BASIC_STRING_FIELDS;
    forall f: BasicText | f != AvatarAssetId ensures f in s {
      match f
      case Name => assert s[0] == f;
      case Phone => assert s[1] == f;
      case Email => assert s[2] == f;
      case HomeCity => assert s[3] == f;
      case Wechat => assert s[4] == f;
      case Birth => assert s[5] == f;
      case Website => assert s[6] == f;
      case Linkedin => assert s[7] == f;
      case Gender => assert s[8] == f;
      case Height => assert s[9] == f;
      case Weight => assert s[10] == f;
      case Ethnicity => assert s[11] == f;
      case Birthplace => assert s[12] == f;
      case PoliticalStatus => assert s[13] == f;
      case MaritalStatus => assert s[14] == f;
      case Zodiac => assert s[15] == f;
      case Mbti => assert s[16] == f;
    }
  }

  lemma EntryFieldsComplete()
    ensures forall f: EntryField :: f in ENTRY_STRING_FIELDS
  {
    var s := ENTRY_STRING_FIELDS;
    forall f: EntryField ensures f in s {
      match f
      case Title => assert s[0] == f;
      case Role => assert s[1] == f;
      case Department => assert s[2] == f;
      case City => assert s[3] == f;
      case Start => assert s[4] == f;
      case End => assert s[5] == f;
      case College => assert s[6] == f;
      case Mode => assert s[7] == f;
    }
  }

  method ComputeEntryFieldPatch(left: Entry, right: Entry) returns (result: Option<map<EntryField, string>>)
    ensures result == EntryFieldPatch(left, right)
  {
    var changed, patch := CompareFields(left.texts, right.texts, ENTRY_STRING_FIELDS);
    EntryFieldsComplete();
    if !changed {
      SameEverywhere(left.texts, right.texts);
      return None;
    }
    assert patch == ChangedTexts(left.texts, right.texts);
    return Some(patch);
  }

  method ComputeContentCommand(before: Section, desired: Section) returns (command: Option<DomainCommand>)
    ensures command == ContentCommand(before, desired)
  {
    if desired.SummarySection? {
      if !before.SummarySection? || before.body != desired.body {
        return Some(SetSummaryBody(desired.id, desired.body));
      }
      return None;
    }
    var beforeEntries := EntriesOf(before);
    var byId := EntriesById(beforeEntries);
    ghost var upsert := UpsertOf(byId, desired.id);
    for i := 0 to |desired.entries|
      invariant FirstSome(upsert, desired.entries) == FirstSome(upsert, desired.entries[i..])
    {
      var entry := desired.entries[i];
      assert desired.entries[i..][1..] == desired.entries[i + 1..];
      if entry.id !in byId {
        return Some(AddEntry(desired.id, entry));
      }
      var existing := byId[entry.id];
      var patch := ComputeEntryFieldPatch(existing, entry);
      if patch.Some? {
        return Some(UpdateEntryFields(entry.id, patch.value));
      }
      if existing.body != entry.body {
        return Some(SetEntryBody(entry.id, entry.body));
      }
    }
    var desiredIds := set e | e in desired.entries :: e.id;
    ghost var surplus := SurplusOf(desiredIds);
    for i := 0 to |beforeEntries|
      invariant FirstSome(surplus, beforeEntries) == FirstSome(surplus, beforeEntries[i..])
    {
      assert beforeEntries[i..][1..] == beforeEntries[i + 1..];
      if beforeEntries[i].id !in desiredIds {
        return Some(DeleteEntry(beforeEntries[i].id));
      }
    }
    return None;
  }

  /** The first index where the two ID lists differ, stepping over the second one. */
  method FirstMismatch(a: seq<Id>, b: seq<Id>) returns (n: nat)
    ensures n == Agreeing(a, b)
  {
    n := 0;
    while n < |b| && n < |a| && a[n] == b[n]
      invariant n <= |a| && n <= |b|
      invariant Agreeing(a, b) == n + Agreeing(a[n..], b[n..])
    {
      assert a[n..][1..] == a[n + 1..] && b[n..][1..] == b[n + 1..];
      n := n + 1;
    }
  }

  /** In the order of the phases: the first one with something to do decides. */
  method NextDocumentCommand(current: ResumeDocument, desired: ResumeDocument) returns (command: Option<DomainCommand>)
    ensures command == NextCommand(current, desired)
  {
    if current.title != desired.title {
      return Some(SetDocumentTitle(desired.title));
    }
    var patch := ComputeBasicPatch(current.basic, desired.basic);
    if patch.Some? {
      return Some(UpdateBasic(patch.value));
    }
    command := NextSectionsCommand(current.sections, desired.sections);
    if command.Some? {
      return;
    }
    if current.presentation != desired.presentation {
      return Some(SetLayout(desired.presentation));
    }
    if current.legacyExtensions != desired.legacyExtensions {
      return Some(SetLegacyExtensions(desired.legacyExtensions));
    }
    return None;
  }

  method NextSectionsCommand(current: seq<Section>, desired: seq<Section>) returns (command: Option<DomainCommand>)
    ensures command == SectionsCommand(current, desired)
  {
    var byId := SectionsById(current);
    ghost var content, heading, order := ContentOf(byId), HeadingOf(byId), EntryOrderOf(byId);
    for i := 0 to |desired|
      invariant FirstSome(content, desired) == FirstSome(content, desired[i..])
    {
      var section := desired[i];
      assert desired[i..][1..] == desired[i + 1..];
      if section.id in byId {
        command := ComputeContentCommand(byId[section.id], section);
        if command.Some? {
          return;
        }
      }
    }
    for i := 0 to |desired|
      invariant FirstSome(heading, desired) == FirstSome(heading, desired[i..])
    {
      var section := desired[i];
      assert desired[i..][1..] == desired[i + 1..];
      if section.id in byId {
        var before := byId[section.id];
        if before.visible != section.visible {
          return Some(SetSectionVisibility(section.id, section.visible));
        }
        if before.title != section.title {
          return Some(RenameSection(section.id, section.title));
        }
      }
    }
    var index := FirstMismatch(SectionIdSeq(current), SectionIdSeq(desired));
    if index < |desired| {
      return Some(MoveSection(desired[index].id, index));
    }
    for i := 0 to |desired|
      invariant FirstSome(order, desired) == FirstSome(order, desired[i..])
    {
      var section := desired[i];
      assert desired[i..][1..] == desired[i + 1..];
      if section.EntrySection? {
        var before := if section.id in byId then byId[section.id] else NoSection;
        var position := FirstMismatch(EntryIdSeq(EntriesOf(before)), EntryIdSeq(section.entries));
        if position < |section.entries| {
          return Some(MoveEntry(section.entries[position].id, section.id, position));
        }
      }
    }
    return None;
  }
}
