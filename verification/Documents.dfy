/** Document queries, the validator, and what a valid document is. */
module Documents {
  import opened Contracts
  import opened Strings

  // ---- Lookups ----

  function EntriesOf(s: Section): seq<Entry> {
    if s.EntrySection? then s.entries else []
  }

  function EntryIds(s: Section): set<Id> {
    set e | e in EntriesOf(s) :: e.id
  }

  /** Index of the first section with this ID, or the length when there is none. */
  function FindSection(ss: seq<Section>, id: Id): (i: nat)
    ensures i <= |ss|
    ensures i < |ss| ==> ss[i].id == id
    ensures forall k :: 0 <= k < i ==> ss[k].id != id
  {
    if ss == [] then 0
    else if ss[0].id == id then 0
    else 1 + FindSection(ss[1..], id)
  }

  /** Index of the first entry with this ID, or the length when there is none. */
  function FindEntry(es: seq<Entry>, id: Id): (i: nat)
    ensures i <= |es|
    ensures i < |es| ==> es[i].id == id
    ensures forall k :: 0 <= k < i ==> es[k].id != id
  {
    if es == [] then 0
    else if es[0].id == id then 0
    else 1 + FindEntry(es[1..], id)
  }

  predicate HasEntry(s: Section, id: Id) {
    FindEntry(EntriesOf(s), id) < |EntriesOf(s)|
  }

  /** Index of the first section that holds an entry with this ID, or the length. */
  function FindHome(ss: seq<Section>, id: Id): (i: nat)
    ensures i <= |ss|
    ensures i < |ss| ==> HasEntry(ss[i], id)
    ensures forall k :: 0 <= k < i ==> !HasEntry(ss[k], id)
  {
    if ss == [] then 0
    else if HasEntry(ss[0], id) then 0
    else 1 + FindHome(ss[1..], id)
  }

  function Remove<T>(s: seq<T>, i: nat): (r: seq<T>)
    requires i < |s|
    ensures |r| == |s| - 1
  {
    s[..i] + s[i + 1..]
  }

  function Insert<T>(s: seq<T>, i: nat, x: T): (r: seq<T>)
    requires i <= |s|
    ensures |r| == |s| + 1 && r[i] == x
  {
    s[..i] + [x] + s[i..]
  }

  // ---- The validator, error by error ----

  const MAX_LIST_DEPTH := 8

  predicate AllowedHref(href: string) {
    "https://" <= href || "http://" <= href || "mailto:" <= href
  }

  function InlineError(i: Inline): Option<ErrorCode> {
    match i
    case Link(href, children) => if AllowedHref(href) then InlinesError(children) else Some(Validation)
    case _ => None
  }

  function InlinesError(es: seq<Inline>): Option<ErrorCode> {
    if es == [] then None
    else
      var first := InlineError(es[0]);
      if first.Some? then first else InlinesError(es[1..])
  }

  function BlockError(b: RichBlock, depth: nat): Option<ErrorCode>
    decreases b, 0
  {
    if depth > MAX_LIST_DEPTH then Some(ResourceLimit)
    else match b
         case Paragraph(inlines) => InlinesError(inlines)
         case List(_, _, items) => ItemsError(items, depth + 1)
  }

  function ItemsError(items: seq<ListItem>, depth: nat): Option<ErrorCode>
    decreases items, 0
  {
    if items == [] then None
    else
      var first := BodyError(items[0].blocks, depth);
      if first.Some? then first else ItemsError(items[1..], depth)
  }

  function BodyError(blocks: seq<RichBlock>, depth: nat): Option<ErrorCode>
    decreases blocks, 1
  {
    if blocks == [] then None
    else
      var first := BlockError(blocks[0], depth);
      if first.Some? then first else BodyError(blocks[1..], depth)
  }

  function EntriesError(es: seq<Entry>, seen: set<Id>): Option<ErrorCode> {
    if es == [] then None
    else if IsBlank(es[0].id) || es[0].id in seen then Some(Validation)
    else
      var first := BodyError(es[0].body, 0);
      if first.Some? then first else EntriesError(es[1..], seen + {es[0].id})
  }

  function SectionError(s: Section, seenEntries: set<Id>): Option<ErrorCode> {
    match s
    case EntrySection(_, _, _, _, entries) => EntriesError(entries, seenEntries)
    case SummarySection(_, _, _, _, body) => BodyError(body, 0)
  }

  function SectionsError(ss: seq<Section>, seenSections: set<Id>, seenEntries: set<Id>): Option<ErrorCode> {
    if ss == [] then None
    else if IsBlank(ss[0].id) || ss[0].id in seenSections then Some(Validation)
    else
      var first := SectionError(ss[0], seenEntries);
      if first.Some? then first
      else SectionsError(ss[1..], seenSections + {ss[0].id}, seenEntries + EntryIds(ss[0]))
  }

  function DocumentError(d: ResumeDocument): Option<ErrorCode> {
    if IsBlank(d.documentId) || IsBlank(d.title) then Some(Validation)
    else SectionsError(d.sections, {}, {})
  }

  // ---- What validity means ----

  predicate GoodInline(i: Inline) {
    i.Link? ==> AllowedHref(i.href) && forall c :: c in i.children ==> GoodInline(c)
  }

  predicate GoodBlock(b: RichBlock) {
    match b
    case Paragraph(inlines) => forall i :: i in inlines ==> GoodInline(i)
    case List(_, _, items) => forall item :: item in items ==> GoodItem(item)
  }

  predicate GoodItem(item: ListItem) {
    forall b :: b in item.blocks ==> GoodBlock(b)
  }

  /** No block sits inside more than `room` lists, counting from this one outward to its leaves. */
  predicate NestsWithin(b: RichBlock, room: int) {
    room >= 0 && (b.List? ==> forall item :: item in b.items ==> ItemNestsWithin(item, room - 1))
  }

  predicate ItemNestsWithin(item: ListItem, room: int) {
    forall b :: b in item.blocks ==> NestsWithin(b, room)
  }

  predicate GoodBlocks(blocks: seq<RichBlock>, room: int) {
    forall b :: b in blocks ==> GoodBlock(b) && NestsWithin(b, room)
  }

  predicate GoodBody(blocks: seq<RichBlock>) {
    GoodBlocks(blocks, MAX_LIST_DEPTH)
  }

  predicate UniqueEntries(es: seq<Entry>) {
    forall i, j :: 0 <= i < j < |es| ==> es[i].id != es[j].id
  }

  predicate ValidEntries(es: seq<Entry>) {
    && UniqueEntries(es)
    && forall e :: e in es ==> !IsBlank(e.id) && GoodBody(e.body)
  }

  predicate ValidSection(s: Section) {
    && !IsBlank(s.id)
    && ValidEntries(EntriesOf(s))
    && (s.SummarySection? ==> GoodBody(s.body))
  }

  predicate ValidSections(ss: seq<Section>) {
    && (forall i :: 0 <= i < |ss| ==> ValidSection(ss[i]))
    && (forall i, j :: 0 <= i < j < |ss| ==> ss[i].id != ss[j].id)
    && (forall i, j :: 0 <= i < j < |ss| ==> EntryIds(ss[i]) !! EntryIds(ss[j]))
  }

  /** IDs and the title are present, IDs are unique, bodies are within the nesting limit with safe links. */
  predicate Valid(d: ResumeDocument) {
    !IsBlank(d.documentId) && !IsBlank(d.title) && ValidSections(d.sections)
  }

  // ---- The validator accepts exactly the valid documents ----

  lemma {:induction false} InlineErrorMeaning(i: Inline)
    ensures InlineError(i).None? <==> GoodInline(i)
    decreases i, 0
  {
    if i.Link? {
      InlinesErrorMeaning(i.children);
    }
  }

  lemma {:induction false} InlinesErrorMeaning(es: seq<Inline>)
    ensures InlinesError(es).None? <==> forall i :: i in es ==> GoodInline(i)
    decreases es, 1
  {
    if es != [] {
      InlineErrorMeaning(es[0]);
      InlinesErrorMeaning(es[1..]);
      assert es == [es[0]] + es[1..];
    }
  }

  lemma {:induction false} BlockErrorMeaning(b: RichBlock, depth: nat)
    ensures BlockError(b, depth).None? <==> GoodBlock(b) && NestsWithin(b, MAX_LIST_DEPTH - depth)
    decreases b, 0
  {
    match b
    case Paragraph(inlines) => InlinesErrorMeaning(inlines);
    case List(_, _, items) =>
      if depth <= MAX_LIST_DEPTH {
        ItemsErrorMeaning(items, depth + 1);
      }
  }

  predicate GoodItems(items: seq<ListItem>, room: int) {
    forall item :: item in items ==> GoodItem(item) && ItemNestsWithin(item, room)
  }

  lemma {:induction false} ItemsErrorMeaning(items: seq<ListItem>, depth: nat)
    ensures ItemsError(items, depth).None? <==> GoodItems(items, MAX_LIST_DEPTH - depth)
    decreases items, 0
  {
    if items != [] {
      BodyErrorMeaning(items[0].blocks, depth);
      ItemsErrorMeaning(items[1..], depth);
      var first, room := items[0], MAX_LIST_DEPTH - depth;
      assert GoodBlocks(first.blocks, room) <==> GoodItem(first) && ItemNestsWithin(first, room);
      assert forall item :: item in items <==> item == first || item in items[1..];
    }
  }

  lemma {:induction false} BodyErrorMeaning(blocks: seq<RichBlock>, depth: nat)
    ensures BodyError(blocks, depth).None? <==> GoodBlocks(blocks, MAX_LIST_DEPTH - depth)
    decreases blocks, 1
  {
    if blocks != [] {
      BlockErrorMeaning(blocks[0], depth);
      BodyErrorMeaning(blocks[1..], depth);
      assert blocks == [blocks[0]] + blocks[1..];
    }
  }

  predicate Unseen(es: seq<Entry>, seen: set<Id>) {
    forall i :: 0 <= i < |es| ==> es[i].id !in seen
  }

  lemma UniqueEntriesCons(e: Entry, rest: seq<Entry>)
    ensures UniqueEntries([e] + rest) <==> UniqueEntries(rest) && Unseen(rest, {e.id})
  {
    var es := [e] + rest;
    assert forall i :: 1 <= i < |es| ==> es[i] == rest[i - 1];
    if UniqueEntries(es) {
      forall i, j | 0 <= i < j < |rest| ensures rest[i].id != rest[j].id {
        assert es[i + 1].id != es[j + 1].id;
      }
      forall i | 0 <= i < |rest| ensures rest[i].id != e.id {
        assert es[0].id != es[i + 1].id;
      }
    }
  }

  lemma {:induction false} EntriesErrorMeaning(es: seq<Entry>, seen: set<Id>)
    ensures EntriesError(es, seen).None? <==> ValidEntries(es) && Unseen(es, seen)
  {
    if es != [] {
      var e, rest := es[0], es[1..];
      assert es == [e] + rest;
      BodyErrorMeaning(e.body, 0);
      EntriesErrorMeaning(rest, seen + {e.id});
      UniqueEntriesCons(e, rest);
      assert Unseen(es, seen) && Unseen(rest, {e.id}) <==> e.id !in seen && Unseen(rest, seen + {e.id}) by {
        assert forall i :: 1 <= i < |es| ==> es[i] == rest[i - 1];
        assert forall i :: 0 <= i < |rest| ==> rest[i] == es[i + 1];
      }
      assert forall x :: x in es <==> x == e || x in rest;
    }
  }

  lemma UnseenMeansDisjoint(s: Section, seen: set<Id>)
    ensures Unseen(EntriesOf(s), seen) <==> EntryIds(s) !! seen
  {
    assert forall i :: 0 <= i < |EntriesOf(s)| ==> EntriesOf(s)[i].id in EntryIds(s);
  }

  /** None of these sections repeats a section ID or an entry ID already seen. */
  predicate SectionsUnseen(ss: seq<Section>, seenSections: set<Id>, seenEntries: set<Id>) {
    forall i :: 0 <= i < |ss| ==> ss[i].id !in seenSections && EntryIds(ss[i]) !! seenEntries
  }

  lemma ValidSectionsCons(s: Section, rest: seq<Section>)
    ensures ValidSections([s] + rest) <==>
            ValidSection(s) && ValidSections(rest) && SectionsUnseen(rest, {s.id}, EntryIds(s))
  {
    if ValidSections([s] + rest) {
      ValidSectionsSplit(s, rest);
    }
    if ValidSection(s) && ValidSections(rest) && SectionsUnseen(rest, {s.id}, EntryIds(s)) {
      ValidSectionsJoin(s, rest);
    }
  }

  lemma ValidSectionsSplit(s: Section, rest: seq<Section>)
    requires ValidSections([s] + rest)
    ensures ValidSection(s) && ValidSections(rest) && SectionsUnseen(rest, {s.id}, EntryIds(s))
  {
    var ss := [s] + rest;
    assert ss[0] == s && ss[1..] == rest;
    forall i | 0 <= i < |rest|
      ensures ValidSection(rest[i]) && rest[i].id !in {s.id} && EntryIds(rest[i]) !! EntryIds(s)
    {
      assert rest[i] == ss[i + 1];
    }
    forall i, j | 0 <= i < j < |rest| ensures rest[i].id != rest[j].id && EntryIds(rest[i]) !! EntryIds(rest[j]) {
      assert rest[i] == ss[i + 1] && rest[j] == ss[j + 1];
    }
  }

  lemma ValidSectionsJoin(s: Section, rest: seq<Section>)
    requires ValidSection(s) && ValidSections(rest) && SectionsUnseen(rest, {s.id}, EntryIds(s))
    ensures ValidSections([s] + rest)
  {
    var ss := [s] + rest;
    forall i, j | 0 <= i < j < |ss| ensures AreApart(ss[i], ss[j]) {
      JoinedApart(s, rest, i, j);
    }
    forall i | 0 <= i < |ss| ensures ValidSection(ss[i]) {
      JoinedValid(s, rest, i);
    }
    ApartIsValid(ss);
  }

  lemma JoinedValid(s: Section, rest: seq<Section>, i: nat)
    requires ValidSection(s) && ValidSections(rest) && i <= |rest|
    ensures ValidSection(([s] + rest)[i])
  {
    assert i > 0 ==> ([s] + rest)[i] == rest[i - 1];
  }

  lemma JoinedApart(s: Section, rest: seq<Section>, i: nat, j: nat)
    requires ValidSections(rest) && SectionsUnseen(rest, {s.id}, EntryIds(s)) && i < j <= |rest|
    ensures AreApart(([s] + rest)[i], ([s] + rest)[j])
  {
    assert ([s] + rest)[j] == rest[j - 1];
    if i > 0 {
      assert ([s] + rest)[i] == rest[i - 1];
      RestIsApart(rest, i - 1, j - 1);
    }
  }

  predicate AreApart(s: Section, t: Section) {
    s.id != t.id && EntryIds(s) !! EntryIds(t)
  }

  lemma RestIsApart(ss: seq<Section>, i: nat, j: nat)
    requires ValidSections(ss) && i < j < |ss|
    ensures AreApart(ss[i], ss[j])
  {
  }

  lemma ApartIsValid(ss: seq<Section>)
    requires forall i :: 0 <= i < |ss| ==> ValidSection(ss[i])
    requires forall i, j :: 0 <= i < j < |ss| ==> AreApart(ss[i], ss[j])
    ensures ValidSections(ss)
  {
    assert forall i, j :: 0 <= i < j < |ss| ==> ss[i].id != ss[j].id && EntryIds(ss[i]) !! EntryIds(ss[j]) by {
      forall i, j | 0 <= i < j < |ss| ensures ss[i].id != ss[j].id && EntryIds(ss[i]) !! EntryIds(ss[j]) {
        assert AreApart(ss[i], ss[j]);
      }
    }
  }

  lemma SectionsUnseenCons(s: Section, rest: seq<Section>, seenSections: set<Id>, seenEntries: set<Id>)
    ensures SectionsUnseen([s] + rest, seenSections, seenEntries) <==>
            s.id !in seenSections && EntryIds(s) !! seenEntries && SectionsUnseen(rest, seenSections, seenEntries)
  {
    var ss := [s] + rest;
    assert forall i :: 1 <= i < |ss| ==> ss[i] == rest[i - 1];
    if SectionsUnseen(ss, seenSections, seenEntries) {
      assert ss[0] == s;
      forall i | 0 <= i < |rest| ensures rest[i].id !in seenSections && EntryIds(rest[i]) !! seenEntries {
        assert ss[i + 1].id !in seenSections;
      }
    }
  }

  lemma SectionErrorMeaning(s: Section, seenEntries: set<Id>)
    ensures !IsBlank(s.id) && SectionError(s, seenEntries).None? <==> ValidSection(s) && EntryIds(s) !! seenEntries
  {
    EntriesErrorMeaning(EntriesOf(s), seenEntries);
    UnseenMeansDisjoint(s, seenEntries);
    if s.SummarySection? {
      BodyErrorMeaning(s.body, 0);
    }
  }

  lemma {:induction false} SectionsErrorMeaning(ss: seq<Section>, seenSections: set<Id>, seenEntries: set<Id>)
    ensures SectionsError(ss, seenSections, seenEntries).None? <==>
            ValidSections(ss) && SectionsUnseen(ss, seenSections, seenEntries)
  {
    if ss != [] {
      var s, rest := ss[0], ss[1..];
      assert ss == [s] + rest;
      SectionErrorMeaning(s, seenEntries);
      SectionsErrorMeaning(rest, seenSections + {s.id}, seenEntries + EntryIds(s));
      ValidSectionsCons(s, rest);
      SectionsUnseenCons(s, rest, seenSections, seenEntries);
    }
  }

  /** The validator rejects a document exactly when it is not valid. */
  lemma ValidatorIsExact(d: ResumeDocument)
    ensures DocumentError(d).None? <==> Valid(d)
  {
    SectionsErrorMeaning(d.sections, {}, {});
  }
}
