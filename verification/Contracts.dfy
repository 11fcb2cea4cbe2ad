/** The shared contract types: documents, commands, cursors and error codes. */
module Contracts {
  datatype Option<+T> = None | Some(value: T)
  datatype Result<+T, +E> = Ok(value: T) | Err(error: E)

  type Id = string

  // ---- Rich text ----

  datatype InlineMark = Bold | Italic | Underline | Strike

  datatype Inline =
    | Text(text: string, marks: seq<InlineMark>)
    | Link(href: string, children: seq<Inline>)
    | Break

  datatype RichBlock =
    | Paragraph(inlines: seq<Inline>)
    | List(ordered: bool, start: Option<nat>, items: seq<ListItem>)

  datatype ListItem = ListItem(blocks: seq<RichBlock>)

  // ---- Document ----

  datatype ModuleKind =
    | Education | Skills | Work | Projects | Orgs
    | Research | Awards | Other | Portfolio | Custom

  datatype AgeMode = Age | Birthday

  /** Text fields of an entry; `College` and `Mode` are the optional ones. */
  datatype EntryField = Title | Role | Department | City | Start | End | College | Mode

  /** An entry holds its text fields by name; an absent optional field is an absent key. */
  datatype Entry = Entry(id: Id, texts: map<EntryField, string>, body: seq<RichBlock>)

  datatype Section =
    | EntrySection(id: Id, kind: ModuleKind, title: string, visible: bool, entries: seq<Entry>)
    | SummarySection(id: Id, kindName: string, title: string, visible: bool, body: seq<RichBlock>)

  /** Text fields of the basic information; the avatar asset ID is one of them. */
  datatype BasicText =
    | Name | Phone | Email | HomeCity | Wechat | Birth
    | Website | Linkedin | Gender | Height | Weight | Ethnicity
    | Birthplace | PoliticalStatus | MaritalStatus | Zodiac | Mbti
    | AvatarAssetId

  datatype BasicInfo = BasicInfo(texts: map<BasicText, string>, ageMode: AgeMode)

  datatype Json =
    | JNull
    | JBool(b: bool)
    | JNumber(n: real)
    | JString(s: string)
    | JArray(elements: seq<Json>)
    | JObject(fields: map<string, Json>)

  datatype Density = Comfortable | Standard | Compact

  /** Layout lengths are exact reals: 32-bit rounding is not modelled. */
  datatype Presentation = Presentation(
    templateId: Id, templateRevision: Id, density: Density, fontSetId: Id,
    fontSizePt: real, lineHeightPt: real, moduleGapPt: real, pageMarginPt: real,
    headingSizePt: real, paragraphGapPt: real, listGapPt: real,
    theme: string, dateFormat: string, titleFormat: string, separator: string, textAlign: string,
    legacyOverrides: map<string, Json>)

  datatype SourceRef = SourceRef(importId: Id, previewAssetId: Option<Id>)

  datatype ResumeDocument = ResumeDocument(
    schemaVersion: nat,
    documentId: Id,
    title: string,
    basic: BasicInfo,
    sections: seq<Section>,
    presentation: Presentation,
    sourceRef: Option<SourceRef>,
    legacyExtensions: map<string, Json>)

  // ---- Commands ----

  datatype BasicPatch = BasicPatch(texts: map<BasicText, string>, ageMode: Option<AgeMode>)

  datatype BasicField = TextField(text: BasicText) | AgeModeField

  datatype DomainCommand =
    | SetDocumentTitle(docTitle: string)
    | RenameSection(sectionId: Id, newTitle: string)
    | SetSectionVisibility(sectionId: Id, newVisible: bool)
    | MoveSection(sectionId: Id, index: nat)
    | SetEntryBody(entryId: Id, newBody: seq<RichBlock>)
    | SetSummaryBody(sectionId: Id, newBody: seq<RichBlock>)
    | UpdateEntryFields(entryId: Id, fields: map<EntryField, string>)
    | AddEntry(sectionId: Id, entry: Entry)
    | DeleteEntry(entryId: Id)
    | MoveEntry(entryId: Id, sectionId: Id, index: nat)
    | UpdateBasic(patch: BasicPatch)
    | RestoreBasicFields(targets: seq<BasicField>, values: BasicInfo)
    | SetLayout(layout: Presentation)
    | SetLegacyExtensions(extensions: map<string, Json>)

  datatype CommandEnvelope = CommandEnvelope(
    protocolVersion: nat,
    commandId: Id,
    documentId: Id,
    contextId: Id,
    expectedRevision: string,
    expectedBranchId: Id,
    expectedHeadId: Option<Id>,
    payload: DomainCommand)

  datatype AuthorityCursor = AuthorityCursor(
    documentId: Id, contextId: Id, revision: string, branchId: Id, headId: Option<Id>)

  datatype CommandResult = CommandResult(
    commandId: Id, cursor: AuthorityCursor, durable: bool, document: ResumeDocument)

  datatype ErrorCode =
    | Validation | Conflict | NotFound | Permission | UnsupportedSchema | ResourceLimit
}
