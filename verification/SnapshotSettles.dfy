/** Trips of a whole document through the snapshot settle: the third changes nothing that the second left. */
module SnapshotSettles {
  import opened Contracts
  import opened Strings
  import opened Unicode
  import opened RichText
  import opened RichTextWriter
  import opened RichTextRoundTrip
  import opened RichTextSettles
  import opened Snapshot
  import opened SnapshotRoundTrip

  // ---- One body ----

  /** The body can be written, an HTML parser builds the tree of its text, and that tree is read completely. */
  predicate GoesThrough(body: seq<RichBlock>, dom: string -> Dom) {
    && RenderBlocks(body).Ok? && AreFlat(body) && Trip(body).complete
    && dom(Html(body)) == WrittenDom(body)
  }

  predicate GoesTwice(body: seq<RichBlock>, dom: string -> Dom) {
    GoesThrough(body, dom) && GoesThrough(BodyBack(body, dom), dom)
  }

  predicate HasSettled(body: seq<RichBlock>, dom: string -> Dom) {
    RenderBlocks(body).Ok? && AreNormalBlocks(body) && BodyBack(body, dom) == body
  }

  /** The third trip writes the HTML of the second, so whatever the parser does, it returns the same body. */
  lemma BodySettles(body: seq<RichBlock>, dom: string -> Dom)
    requires GoesTwice(body, dom)
    ensures HasSettled(BodyBack(BodyBack(body, dom), dom), dom)
  {
    TwoTripsSettle(body);
  }

  // ---- Sections ----

  ghost predicate AllBodies(x: Section, p: seq<RichBlock> -> bool) {
    match x
    case SummarySection(_, _, _, _, body) => p(body)
    case EntrySection(_, _, _, _, entries) => forall i :: 0 <= i < |entries| ==> p(entries[i].body)
  }

  ghost predicate AllOf(ss: seq<Section>, p: seq<RichBlock> -> bool) {
    forall i :: 0 <= i < |ss| ==> AllBodies(ss[i], p)
  }

  predicate IsWritable(body: seq<RichBlock>) {
    RenderBlocks(body).Ok?
  }

  ghost predicate BodiesGo(ss: seq<Section>, dom: string -> Dom) {
    AllOf(ss, b => GoesTwice(b, dom))
  }

  ghost predicate BodiesHaveSettled(ss: seq<Section>, dom: string -> Dom) {
    AllOf(ss, b => HasSettled(b, dom))
  }

  lemma {:induction false} EntriesAreWritten(es: seq<Entry>)
    requires forall i :: 0 <= i < |es| ==> IsWritable(es[i].body)
    ensures AllToLegacy(es).Ok?
  {
    if es != [] {
      EntriesAreWritten(es[1..]);
      assert IsWritable(es[0].body);
    }
  }

  lemma {:induction false} SectionsAreWritten(s: WorkspaceSnapshot, ss: seq<Section>)
    requires AllOf(ss, IsWritable)
    ensures AddSections(s, ss).Ok?
  {
    if ss != [] {
      SectionsAreWritten(s, ss[..|ss| - 1]);
      var x := ss[|ss| - 1];
      assert AllBodies(x, IsWritable);
      if x.EntrySection? {
        EntriesAreWritten(x.entries);
      }
    }
  }

  /** The trip keeps keys, visibility and entry IDs. */
  lemma SameShape(ss: seq<Section>, dom: string -> Dom)
    requires HasAllSections(ss) && IsInOrder(ss) && !HasBlankId(ss)
    ensures var back := SectionsBack(ss, dom); HasAllSections(back) && IsInOrder(back) && !HasBlankId(back)
  {
    var back := SectionsBack(ss, dom);
    assert forall i :: 0 <= i < |ss| ==> KeyOf(back[i]) == KeyOf(ss[i]) && back[i].visible == ss[i].visible;
    SameKeys(ss, back);
    forall x | x in back && x.EntrySection? ensures !HasBlankEntry(x.entries) {
      var i :| 0 <= i < |back| && back[i] == x;
      assert ss[i] in ss;
      SameIds(ss[i].entries, dom);
    }
  }

  lemma SameKeys(ss: seq<Section>, back: seq<Section>)
    requires |ss| == |back| && forall i :: 0 <= i < |ss| ==> KeyOf(back[i]) == KeyOf(ss[i])
    requires HasAllSections(ss)
    ensures HasAllSections(back)
  {
    forall key | key in KEYS ensures HasKey(back, key) {
      var i :| 0 <= i < |ss| && KeyOf(ss[i]) == key;
      assert KeyOf(back[i]) == key;
    }
  }

  lemma SameIds(es: seq<Entry>, dom: string -> Dom)
    requires !HasBlankEntry(es)
    ensures !HasBlankEntry(EntriesBack(es, dom))
  {
    var back := EntriesBack(es, dom);
    forall e | e in back ensures !IsJsBlank(e.id) {
      var i :| 0 <= i < |back| && back[i] == e;
      assert es[i] in es;
    }
  }

  lemma ReorderedKeeps(ss: seq<Section>, p: seq<RichBlock> -> bool)
    requires HasAllSections(ss) && AllOf(ss, p)
    ensures AllOf(Reordered(ss), p) && (!HasBlankId(ss) ==> !HasBlankId(Reordered(ss)))
  {
    forall j | 0 <= j < |Reordered(ss)| ensures AllBodies(Reordered(ss)[j], p) {
      assert Reordered(ss)[j] in ss;
      var i :| 0 <= i < |ss| && ss[i] == Reordered(ss)[j];
      assert AllBodies(ss[i], p);
    }
  }

  // ---- The document ----

  /** The document of a converted snapshot; what snapshots do not hold stays. */
  function Rebuilt(d: ResumeDocument, c: Candidate): ResumeDocument {
    d.(title := c.title, basic := BasicInfo(c.texts, c.ageMode), sections := c.sections)
  }

  /** Document to snapshot to document; none when a body cannot be written or the conversion refuses the snapshot. */
  function DocumentTrip(d: ResumeDocument, titles: map<ModuleKind, string>, defaultTitle: string,
                        documentId: Id, dom: string -> Dom): Option<ResumeDocument>
  {
    match SnapshotOf(d, titles, defaultTitle)
    case Err(_) => None
    case Ok(s) =>
      match Inspect(s, documentId, dom)
      case None => None
      case Some(c) => Some(Rebuilt(d, c))
  }

  function Returned(d: ResumeDocument, dom: string -> Dom): ResumeDocument
    requires HasAllSections(d.sections)
  {
    d.(basic := BasicInfo(d.basic.texts - {AvatarAssetId}, d.basic.ageMode), sections := SectionsBack(Reordered(d.sections), dom))
  }

  predicate IsAcceptable(d: ResumeDocument, documentId: Id) {
    HasAllSections(d.sections) && !IsJsBlank(documentId) && !IsJsBlank(d.title) && !HasBlankId(d.sections)
  }

  ghost predicate CanTrip(d: ResumeDocument, documentId: Id) {
    IsAcceptable(d, documentId) && AllOf(d.sections, IsWritable)
  }

  lemma TripReturns(d: ResumeDocument, titles: map<ModuleKind, string>, defaultTitle: string, documentId: Id, dom: string -> Dom)
    requires CanTrip(d, documentId)
    ensures DocumentTrip(d, titles, defaultTitle, documentId, dom) == Some(Returned(d, dom))
  {
    SectionsAreWritten(EmptySnapshot(d, titles, defaultTitle), d.sections);
    TripReturnsTheDocument(d, titles, defaultTitle, documentId, dom);
  }

  /** What came back is in order, so a second trip moves nothing. */
  lemma ReturnedIsInOrder(d: ResumeDocument, documentId: Id, dom: string -> Dom)
    requires IsAcceptable(d, documentId)
    ensures var once := Returned(d, dom);
            IsAcceptable(once, documentId) && IsInOrder(once.sections) && Reordered(once.sections) == once.sections
  {
    ReorderedIsInOrder(d.sections);
    ReorderedKeeps(d.sections, b => true);
    SameShape(Reordered(d.sections), dom);
    ReorderingIsIdentityExactlyWhenInOrder(SectionsBack(Reordered(d.sections), dom));
  }

  lemma SectionsGo(ss: seq<Section>, dom: string -> Dom)
    requires BodiesGo(ss, dom)
    ensures AllOf(ss, IsWritable)
    ensures AllOf(SectionsBack(ss, dom), IsWritable)
    ensures BodiesHaveSettled(SectionsBack(SectionsBack(ss, dom), dom), dom)
  {
    forall i | 0 <= i < |ss|
      ensures AllBodies(ss[i], IsWritable)
      ensures AllBodies(SectionBack(ss[i], dom), IsWritable)
      ensures AllBodies(SectionBack(SectionBack(ss[i], dom), dom), b => HasSettled(b, dom))
    {
      assert AllBodies(ss[i], b => GoesTwice(b, dom));
      SectionGoes(ss[i], dom);
    }
  }

  lemma SectionGoes(x: Section, dom: string -> Dom)
    requires AllBodies(x, b => GoesTwice(b, dom))
    ensures AllBodies(x, IsWritable) && AllBodies(SectionBack(x, dom), IsWritable)
    ensures AllBodies(SectionBack(SectionBack(x, dom), dom), b => HasSettled(b, dom))
  {
    match x
    case SummarySection(_, _, _, _, body) => BodySettles(body, dom);
    case EntrySection(_, _, _, _, entries) =>
      forall i | 0 <= i < |entries| ensures HasSettled(BodyBack(BodyBack(entries[i].body, dom), dom), dom) {
        BodySettles(entries[i].body, dom);
      }
  }

  /** Sections whose bodies have settled come back the same once they carry the identity of converted sections. */
  lemma SettledSectionsStay(ss: seq<Section>, dom: string -> Dom)
    requires BodiesHaveSettled(SectionsBack(ss, dom), dom)
    ensures SectionsBack(SectionsBack(ss, dom), dom) == SectionsBack(ss, dom)
    ensures AllOf(SectionsBack(ss, dom), IsWritable)
  {
    var back := SectionsBack(ss, dom);
    forall i | 0 <= i < |back| ensures SectionBack(back[i], dom) == back[i] && AllBodies(back[i], IsWritable) {
      assert AllBodies(back[i], b => HasSettled(b, dom));
      if back[i].EntrySection? {
        assert EntriesBack(back[i].entries, dom) == back[i].entries;
      }
    }
  }

  /** In order, without an avatar, and with bodies that settle on the next trip. */
  ghost predicate HasReturned(d: ResumeDocument, documentId: Id, dom: string -> Dom) {
    && CanTrip(d, documentId) && Reordered(d.sections) == d.sections
    && d.basic.texts == d.basic.texts - {AvatarAssetId}
    && BodiesHaveSettled(SectionsBack(d.sections, dom), dom)
  }

  lemma FirstTripReturns(d: ResumeDocument, documentId: Id, dom: string -> Dom)
    requires IsAcceptable(d, documentId) && BodiesGo(d.sections, dom)
    ensures CanTrip(d, documentId) && HasReturned(Returned(d, dom), documentId, dom)
  {
    SectionsGo(d.sections, dom);
    BodiesReturn(d, dom);
    ReturnedIsInOrder(d, documentId, dom);
    NoAvatarTwice(d.basic.texts);
  }

  lemma NoAvatarTwice(texts: map<BasicText, string>)
    ensures texts - {AvatarAssetId} - {AvatarAssetId} == texts - {AvatarAssetId}
  {
  }

  lemma BodiesReturn(d: ResumeDocument, dom: string -> Dom)
    requires HasAllSections(d.sections) && BodiesGo(d.sections, dom)
    ensures AllOf(Returned(d, dom).sections, IsWritable)
    ensures BodiesHaveSettled(SectionsBack(Returned(d, dom).sections, dom), dom)
  {
    ReorderedGoes(d.sections, dom);
    SectionsGo(Reordered(d.sections), dom);
  }

  lemma ReorderedGoes(ss: seq<Section>, dom: string -> Dom)
    requires HasAllSections(ss) && BodiesGo(ss, dom)
    ensures BodiesGo(Reordered(ss), dom)
  {
    ReorderedKeeps(ss, b => GoesTwice(b, dom));
  }

  lemma SecondTripIsFixed(once: ResumeDocument, documentId: Id, dom: string -> Dom)
    requires HasReturned(once, documentId, dom)
    ensures var twice := Returned(once, dom); CanTrip(twice, documentId) && Returned(twice, dom) == twice
  {
    ReturnedIsInOrder(once, documentId, dom);
    SettledSectionsStay(once.sections, dom);
  }

  lemma NextTripsAgree(once: ResumeDocument, titles: map<ModuleKind, string>, defaultTitle: string,
                       documentId: Id, dom: string -> Dom)
    requires HasReturned(once, documentId, dom)
    ensures var twice := DocumentTrip(once, titles, defaultTitle, documentId, dom);
            twice.Some? && DocumentTrip(twice.value, titles, defaultTitle, documentId, dom) == twice
  {
    SecondTripIsFixed(once, documentId, dom);
    TripReturns(once, titles, defaultTitle, documentId, dom);
    TripReturns(Returned(once, dom), titles, defaultTitle, documentId, dom);
  }

  /**
   * A document whose bodies go through HTML twice comes back from every trip, and the third trip returns exactly
   * the document of the second.
   */
  lemma TwoTripsSettleTheDocument(d: ResumeDocument, titles: map<ModuleKind, string>, defaultTitle: string,
                                  documentId: Id, dom: string -> Dom)
    requires IsAcceptable(d, documentId) && BodiesGo(d.sections, dom)
    ensures var once := DocumentTrip(d, titles, defaultTitle, documentId, dom);
            && once.Some?
            && var twice := DocumentTrip(once.value, titles, defaultTitle, documentId, dom);
            && twice.Some?
            && DocumentTrip(twice.value, titles, defaultTitle, documentId, dom) == twice
  {
    FirstTripReturns(d, documentId, dom);
    TripReturns(d, titles, defaultTitle, documentId, dom);
    NextTripsAgree(Returned(d, dom), titles, defaultTitle, documentId, dom);
  }
}
