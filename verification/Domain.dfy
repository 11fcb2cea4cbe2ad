/** The authoritative host: what a command does to a document, and the object that applies commands. */
module Domain {
  import opened Contracts
  import opened Strings
  import opened Documents

  // ---- Specification: one command on one document ----

  function Without(es: seq<Entry>, id: Id): seq<Entry> {
    if es == [] then []
    else (if es[0].id == id then [] else [es[0]]) + Without(es[1..], id)
  }

  function DropFrom(s: Section, id: Id): Section {
    if s.EntrySection? then s.(entries := Without(s.entries, id)) else s
  }

  /** The entries with this ID taken out of every section. */
  function DropEntry(ss: seq<Section>, id: Id): (r: seq<Section>)
    ensures |r| == |ss| && forall i :: 0 <= i < |ss| ==> r[i] == DropFrom(ss[i], id)
  {
    seq(|ss|, i requires 0 <= i < |ss| => DropFrom(ss[i], id))
  }

  /** The first section that holds the entry loses it. */
  function TakenOut(ss: seq<Section>, home: nat, id: Id): seq<Section>
    requires home < |ss| && HasEntry(ss[home], id)
  {
    ss[home := ss[home].(entries := Remove(ss[home].entries, FindEntry(ss[home].entries, id)))]
  }

  function PatchEntry(e: Entry, fields: map<EntryField, string>): Entry {
    var cleared := set f | f in fields && f in {College, Mode} && fields[f] == "";
    e.(texts := (e.texts + fields) - cleared)
  }

  function PatchBasic(b: BasicInfo, patch: BasicPatch): BasicInfo {
    var cleared := if AvatarAssetId in patch.texts && patch.texts[AvatarAssetId] == "" then {AvatarAssetId} else {};
    BasicInfo((b.texts + patch.texts) - cleared, if patch.ageMode.Some? then patch.ageMode.value else b.ageMode)
  }

  function RestoreOne(b: BasicInfo, field: BasicField, values: BasicInfo): BasicInfo {
    match field
    case AgeModeField => b.(ageMode := values.ageMode)
    case TextField(t) => if t in values.texts then b.(texts := b.texts[t := values.texts[t]]) else b.(texts := b.texts - {t})
  }

  function RestoreAll(b: BasicInfo, fields: seq<BasicField>, values: BasicInfo): BasicInfo {
    if fields == [] then b
    else RestoreOne(RestoreAll(b, fields[..|fields| - 1], values), fields[|fields| - 1], values)
  }

  function OnSections(r: Result<seq<Section>, ErrorCode>, d: ResumeDocument): Result<ResumeDocument, ErrorCode> {
    if r.Ok? then Ok(d.(sections := r.value)) else Err(r.error)
  }

  /** The entry leaves its section before its new place is looked up. */
  function MoveEntryTo(ss: seq<Section>, id: Id, sectionId: Id, index: nat): Result<seq<Section>, ErrorCode> {
    var h := FindHome(ss, id);
    if h == |ss| then Err(NotFound)
    else
      var entry := ss[h].entries[FindEntry(ss[h].entries, id)];
      var rest := TakenOut(ss, h, id);
      var i := FindSection(rest, sectionId);
      if i == |rest| then Err(NotFound)
      else if rest[i].SummarySection? || index > |rest[i].entries| then Err(Validation)
      else Ok(rest[i := rest[i].(entries := Insert(rest[i].entries, index, entry))])
  }

  /** The section list after a command that addresses sections or entries. */
  function EditSections(ss: seq<Section>, c: DomainCommand): Result<seq<Section>, ErrorCode> {
    match c
    case RenameSection(id, title) =>
      var i := FindSection(ss, id);
      if i == |ss| then Err(NotFound) else Ok(ss[i := ss[i].(title := title)])
    case SetSectionVisibility(id, visible) =>
      var i := FindSection(ss, id);
      if i == |ss| then Err(NotFound) else Ok(ss[i := ss[i].(visible := visible)])
    case MoveSection(id, index) =>
      var i := FindSection(ss, id);
      if i == |ss| then Err(NotFound)
      else if index >= |ss| then Err(Validation)
      else Ok(Insert(Remove(ss, i), index, ss[i]))
    case SetEntryBody(id, body) =>
      var h := FindHome(ss, id);
      if h == |ss| then Err(NotFound)
      else
        var k := FindEntry(ss[h].entries, id);
        Ok(ss[h := ss[h].(entries := ss[h].entries[k := ss[h].entries[k].(body := body)])])
    case SetSummaryBody(id, body) =>
      var i := FindSection(ss, id);
      if i == |ss| then Err(NotFound)
      else if ss[i].EntrySection? then Err(Validation)
      else Ok(ss[i := ss[i].(body := body)])
    case UpdateEntryFields(id, fields) =>
      var h := FindHome(ss, id);
      if h == |ss| then Err(NotFound)
      else
        var k := FindEntry(ss[h].entries, id);
        Ok(ss[h := ss[h].(entries := ss[h].entries[k := PatchEntry(ss[h].entries[k], fields)])])
    case AddEntry(id, entry) =>
      var i := FindSection(ss, id);
      if i == |ss| then Err(NotFound)
      else if ss[i].SummarySection? then Err(Validation)
      else Ok(ss[i := ss[i].(entries := ss[i].entries + [entry])])
    case DeleteEntry(id) =>
      if FindHome(ss, id) == |ss| then Err(NotFound) else Ok(DropEntry(ss, id))
    case MoveEntry(id, sectionId, index) =>
      MoveEntryTo(ss, id, sectionId, index)
    case _ => Ok(ss)
  }

  /** One command without the final validation. */
  function Edit(d: ResumeDocument, c: DomainCommand): Result<ResumeDocument, ErrorCode> {
    match c
    case SetDocumentTitle(title) => if IsBlank(title) then Err(Validation) else Ok(d.(title := title))
    case UpdateBasic(patch) => Ok(d.(basic := PatchBasic(d.basic, patch)))
    case RestoreBasicFields(fields, values) =>
      if fields == [] then Err(Validation) else Ok(d.(basic := RestoreAll(d.basic, fields, values)))
    case SetLayout(layout) => Ok(d.(presentation := layout))
    case SetLegacyExtensions(extensions) => Ok(d.(legacyExtensions := extensions))
    case _ => OnSections(EditSections(d.sections, c), d)
  }

  /** One command as the host decides it: edit, then validate the whole document. */
  function Apply(d: ResumeDocument, c: DomainCommand): (r: Result<ResumeDocument, ErrorCode>)
    ensures r.Ok? ==> Valid(r.value)
  {
    var edited := Edit(d, c);
    if edited.Err? then edited
    else
      ValidatorIsExact(edited.value);
      var problem := DocumentError(edited.value);
      if problem.Some? then Err(problem.value) else edited
  }

  // ---- Specification: the host ----

  /** Hashing is taken as injective, so a stored request hash is the stored request. */
  datatype Processed = Processed(request: CommandEnvelope, receipt: CommandResult, actor: string)

  datatype Host = Host(
    document: ResumeDocument, revision: nat, branchId: Id, headId: Option<Id>, processed: map<Id, Processed>)
  {
    function Cursor(contextId: Id): AuthorityCursor {
      AuthorityCursor(document.documentId, contextId, Decimal(revision), branchId, headId)
    }

    predicate Expects(e: CommandEnvelope) {
      && e.documentId == document.documentId
      && e.expectedBranchId == branchId
      && e.expectedHeadId == headId
      && e.expectedRevision == Decimal(revision)
    }
  }

  datatype Reply = Reply(host: Host, outcome: Result<CommandResult, ErrorCode>)

  /** The new host state and the answer to one request. */
  function Handle(h: Host, actor: string, contextId: Id, e: CommandEnvelope): Reply {
    if IsBlank(actor) || IsBlank(contextId) then Reply(h, Err(Permission))
    else if e.protocolVersion != 1 then Reply(h, Err(Validation))
    else if e.commandId in h.processed then
      var p := h.processed[e.commandId];
      if p.request == e && p.actor == actor then Reply(h, Ok(p.receipt)) else Reply(h, Err(Conflict))
    else if !h.Expects(e) then Reply(h, Err(Conflict))
    else
      var applied := Apply(h.document, e.payload);
      if applied.Err? then Reply(h, Err(applied.error))
      else
        var moved := h.(document := applied.value, revision := h.revision + 1);
        var receipt := CommandResult(e.commandId, moved.Cursor(contextId), true, moved.document);
        Reply(moved.(processed := h.processed[e.commandId := Processed(e, receipt, actor)]), Ok(receipt))
  }

  // ---- The validator as the host runs it ----

  /** The entries of one section, with the entry IDs seen before and after them. */
  method ValidateEntries(entries: seq<Entry>, seen: set<Id>) returns (problem: Option<ErrorCode>, entryIds: set<Id>)
    ensures problem == EntriesError(entries, seen)
    ensures problem.None? ==> entryIds == seen + set x | x in entries :: x.id
  {
    entryIds := seen;
    for k := 0 to |entries|
      invariant EntriesError(entries[k..], entryIds) == EntriesError(entries, seen)
      invariant entryIds == seen + set x | x in entries[..k] :: x.id
    {
      var entry := entries[k];
      assert entries[k..][0] == entry && entries[k..][1..] == entries[k + 1..];
      if IsBlank(entry.id) || entry.id in entryIds {
        return Some(Validation), entryIds;
      }
      entryIds := entryIds + {entry.id};
      var first := BodyError(entry.body, 0);
      if first.Some? {
        return first, entryIds;
      }
      assert entries[..k + 1] == entries[..k] + [entry];
    }
    assert entries[..|entries|] == entries;
    return None, entryIds;
  }

  method ValidateDocument(d: ResumeDocument) returns (problem: Option<ErrorCode>)
    ensures problem == DocumentError(d)
    ensures problem.None? <==> Valid(d)
  {
    ValidatorIsExact(d);
    if IsBlank(d.documentId) || IsBlank(d.title) {
      return Some(Validation);
    }
    var sectionIds, entryIds: set<Id> := {}, {};
    for i := 0 to |d.sections|
      invariant SectionsError(d.sections[i..], sectionIds, entryIds) == DocumentError(d)
    {
      var section := d.sections[i];
      ghost var before := entryIds;
      assert d.sections[i..][0] == section && d.sections[i..][1..] == d.sections[i + 1..];
      if IsBlank(section.id) || section.id in sectionIds {
        return Some(Validation);
      }
      sectionIds := sectionIds + {section.id};
      if section.EntrySection? {
        var first;
        first, entryIds := ValidateEntries(section.entries, entryIds);
        if first.Some? {
          return first;
        }
      } else {
        var first := BodyError(section.body, 0);
        if first.Some? {
          return first;
        }
      }
      assert entryIds == before + EntryIds(section);
    }
    return None;
  }

  // ---- The host object ----

  class DocumentContext {
    var document: ResumeDocument
    var revision: nat
    var branchId: Id
    var headId: Option<Id>
    var processed: map<Id, Processed>

    ghost function State(): Host
      reads this
    {
      Host(document, revision, branchId, headId, processed)
    }

    constructor (document: ResumeDocument, revision: nat, branchId: Id, headId: Option<Id>, processed: map<Id, Processed>)
      ensures State() == Host(document, revision, branchId, headId, processed)
    {
      this.document, this.revision, this.branchId, this.headId, this.processed :=
        document, revision, branchId, headId, processed;
    }

    /** A context for a document of schema version 2; invalid documents are refused. */
    static method WithAuthority(document: ResumeDocument, revision: nat, branchId: Id, headId: Option<Id>)
      returns (r: Result<DocumentContext, ErrorCode>)
      ensures r.Ok? <==> Valid(document) && document.schemaVersion == 2
      ensures r.Ok? ==> fresh(r.value) && r.value.State() == Host(document, revision, branchId, headId, map[])
      ensures r.Err? ==> Some(r.error) == if Valid(document) then Some(UnsupportedSchema) else DocumentError(document)
    {
      var problem := ValidateDocument(document);
      if problem.Some? {
        return Err(problem.value);
      }
      if document.schemaVersion != 2 {
        return Err(UnsupportedSchema);
      }
      var context := new DocumentContext(document, revision, branchId, headId, map[]);
      return Ok(context);
    }

    /** Works on a staged copy: only an accepted command reaches this object. */
    method ApplyCommand(actor: string, contextId: Id, envelope: CommandEnvelope)
      returns (r: Result<CommandResult, ErrorCode>)
      modifies this
      ensures Reply(State(), r) == Handle(old(State()), actor, contextId, envelope)
    {
      var staged := new DocumentContext(document, revision, branchId, headId, processed);
      r := staged.ApplyCommandInner(actor, contextId, envelope);
      if r.Ok? {
        document, revision, branchId, headId, processed :=
          staged.document, staged.revision, staged.branchId, staged.headId, staged.processed;
      }
    }

    /** Edits in place and may leave a half-edited object behind when it fails. */
    method ApplyCommandInner(actor: string, contextId: Id, envelope: CommandEnvelope)
      returns (r: Result<CommandResult, ErrorCode>)
      modifies this
      ensures var reply := Handle(old(State()), actor, contextId, envelope);
              r == reply.outcome && (r.Ok? ==> State() == reply.host)
    {
      if IsBlank(actor) || IsBlank(contextId) {
        return Err(Permission);
      }
      if envelope.protocolVersion != 1 {
        return Err(Validation);
      }
      if envelope.commandId in processed {
        var stored := processed[envelope.commandId];
        if stored.request == envelope && stored.actor == actor {
          return Ok(stored.receipt);
        }
        return Err(Conflict);
      }
      if envelope.documentId != document.documentId
        || envelope.expectedBranchId != branchId
        || envelope.expectedHeadId != headId
        || envelope.expectedRevision != Decimal(revision)
      {
        return Err(Conflict);
      }
      var failure := ApplyPayload(envelope.payload);
      if failure.Some? {
        return Err(failure.value);
      }
      var problem := ValidateDocument(document);
      if problem.Some? {
        return Err(problem.value);
      }
      revision := revision + 1;
      var receipt := CommandResult(
        envelope.commandId,
        AuthorityCursor(document.documentId, contextId, Decimal(revision), branchId, headId),
        true, document);
      processed := processed[envelope.commandId := Processed(envelope, receipt, actor)];
      return Ok(receipt);
    }

    /** The edit itself; fails with the code the specification gives. */
    method ApplyPayload(payload: DomainCommand) returns (failure: Option<ErrorCode>)
      modifies this`document
      ensures var edited := Edit(old(document), payload);
              if failure.Some? then edited == Err(failure.value) else edited == Ok(document)
    {
      failure := None;
      match payload {
        case SetDocumentTitle(title) =>
          if IsBlank(title) {
            return Some(Validation);
          }
          document := document.(title := title);
        case UpdateBasic(patch) =>
          document := document.(basic := PatchBasic(document.basic, patch));
        case RestoreBasicFields(fields, values) =>
          if fields == [] {
            return Some(Validation);
          }
          RestoreFields(fields, values);
        case SetLayout(layout) =>
          document := document.(presentation := layout);
        case SetLegacyExtensions(extensions) =>
          document := document.(legacyExtensions := extensions);
        case DeleteEntry(entryId) =>
          var removed := DeleteEverywhere(entryId);
          if !removed {
            return Some(NotFound);
          }
        case MoveEntry(entryId, sectionId, index) =>
          var taken := TakeEntry(entryId);
          if taken.None? {
            return Some(NotFound);
          }
          var i := FindSection(document.sections, sectionId);
          if i == |document.sections| {
            return Some(NotFound);
          }
          var section := document.sections[i];
          if section.SummarySection? || index > |section.entries| {
            return Some(Validation);
          }
          PutSection(i, section.(entries := Insert(section.entries, index, taken.value)));
        case _ =>
          failure := EditOneSection(payload);
      }
    }

    method PutSection(i: nat, section: Section)
      requires i < |document.sections|
      modifies this`document
      ensures document == old(document).(sections := old(document).sections[i := section])
    {
      document := document.(sections := document.sections[i := section]);
    }

    /** The commands that look one section or entry up and replace it. */
    method EditOneSection(payload: DomainCommand) returns (failure: Option<ErrorCode>)
      requires payload.RenameSection? || payload.SetSectionVisibility? || payload.MoveSection? || payload.SetEntryBody?
            || payload.SetSummaryBody? || payload.UpdateEntryFields? || payload.AddEntry?
      modifies this`document
      ensures var edited := EditSections(old(document).sections, payload);
              if failure.Some? then edited == Err(failure.value)
              else edited.Ok? && document == old(document).(sections := edited.value)
    {
      failure := None;
      if payload.SetEntryBody? || payload.UpdateEntryFields? {
        var h := FindHome(document.sections, payload.entryId);
        if h == |document.sections| {
          return Some(NotFound);
        }
        var section := document.sections[h];
        var k := FindEntry(section.entries, payload.entryId);
        var entry := section.entries[k];
        entry := if payload.SetEntryBody? then entry.(body := payload.newBody) else PatchEntry(entry, payload.fields);
        PutSection(h, section.(entries := section.entries[k := entry]));
        return;
      }
      var i := FindSection(document.sections, payload.sectionId);
      if i == |document.sections| {
        return Some(NotFound);
      }
      var section := document.sections[i];
      match payload {
        case RenameSection(_, title) =>
          PutSection(i, section.(title := title));
        case SetSectionVisibility(_, visible) =>
          PutSection(i, section.(visible := visible));
        case SetSummaryBody(_, body) =>
          if section.EntrySection? {
            return Some(Validation);
          }
          PutSection(i, section.(body := body));
        case AddEntry(_, entry) =>
          if section.SummarySection? {
            return Some(Validation);
          }
          PutSection(i, section.(entries := section.entries + [entry]));
        case MoveSection(_, index) =>
          if index >= |document.sections| {
            return Some(Validation);
          }
          document := document.(sections := Remove(document.sections, i));
          document := document.(sections := Insert(document.sections, index, section));
      }
    }

    method RestoreFields(fields: seq<BasicField>, values: BasicInfo)
      modifies this`document
      ensures document == old(document).(basic := RestoreAll(old(document).basic, fields, values))
    {
      assert fields[..0] == [];
      for i := 0 to |fields|
        invariant document == old(document).(basic := RestoreAll(old(document).basic, fields[..i], values))
      {
        assert fields[..i + 1][..i] == fields[..i];
        document := document.(basic := RestoreOne(document.basic, fields[i], values));
      }
      assert fields[..|fields|] == fields;
    }

    method DeleteEverywhere(entryId: Id) returns (removed: bool)
      modifies this`document
      ensures removed <==> FindHome(old(document).sections, entryId) < |old(document).sections|
      ensures document == old(document).(sections := DropEntry(old(document).sections, entryId))
    {
      removed := false;
      ghost var before := document.sections;
      for i := 0 to |document.sections|
        invariant document == old(document).(sections := document.sections)
        invariant |document.sections| == |before|
        invariant forall k :: 0 <= k < i ==> document.sections[k] == DropFrom(before[k], entryId)
        invariant forall k :: i <= k < |before| ==> document.sections[k] == before[k]
        invariant removed <==> exists k :: 0 <= k < i && HasEntry(before[k], entryId)
      {
        var section := document.sections[i];
        if section.EntrySection? {
          var kept := Without(section.entries, entryId);
          WithoutShrinks(section.entries, entryId);
          removed := removed || |kept| != |section.entries|;
          PutSection(i, section.(entries := kept));
        }
      }
    }

    /** Removes the entry from the first section that holds it. */
    method TakeEntry(entryId: Id) returns (taken: Option<Entry>)
      modifies this`document
      ensures var ss := old(document).sections;
              var h := FindHome(ss, entryId);
              if h == |ss| then taken.None? && document == old(document)
              else
                && taken == Some(ss[h].entries[FindEntry(ss[h].entries, entryId)])
                && document == old(document).(sections := TakenOut(ss, h, entryId))
    {
      var sections := document.sections;
      for i := 0 to |sections|
        invariant document == old(document)
        invariant forall k :: 0 <= k < i ==> !HasEntry(sections[k], entryId)
      {
        var section := sections[i];
        if section.EntrySection? {
          var position := FindEntry(section.entries, entryId);
          if position < |section.entries| {
            FirstHome(sections, i, entryId);
            PutSection(i, section.(entries := Remove(section.entries, position)));
            return Some(section.entries[position]);
          }
        }
        assert !HasEntry(section, entryId);
      }
      FirstHome(sections, |sections|, entryId);
      return None;
    }
  }

  lemma FirstHome(ss: seq<Section>, i: nat, id: Id)
    requires i <= |ss|
    requires i < |ss| ==> HasEntry(ss[i], id)
    requires forall k :: 0 <= k < i ==> !HasEntry(ss[k], id)
    ensures FindHome(ss, id) == i
  {
  }

  lemma {:induction false} WithoutShrinks(es: seq<Entry>, id: Id)
    ensures |Without(es, id)| <= |es|
    ensures |Without(es, id)| != |es| <==> FindEntry(es, id) < |es|
  {
    if es != [] {
      WithoutShrinks(es[1..], id);
    }
  }
}
