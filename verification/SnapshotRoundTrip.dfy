/** Document to snapshot to document: exactly what comes back, and when it is the same document. */
module SnapshotRoundTrip {
  import opened Contracts
  import opened Strings
  import opened Unicode
  import opened RichText
  import opened RichTextWriter
  import opened RichTextRoundTrip
  import opened Snapshot

  // ---- Sections by key ----

  predicate KeysAreDistinct(ss: seq<Section>) {
    forall i, j :: 0 <= i < j < |ss| ==> KeyOf(ss[i]) != KeyOf(ss[j])
  }

  predicate HasKey(ss: seq<Section>, key: Key) {
    exists i :: 0 <= i < |ss| && KeyOf(ss[i]) == key
  }

  /** Each of the eleven sections exactly once, in any order. */
  predicate HasAllSections(ss: seq<Section>) {
    KeysAreDistinct(ss) && forall key :: key in KEYS ==> HasKey(ss, key)
  }

  function VisibleKeys(ss: seq<Section>): seq<Key> {
    if ss == [] then []
    else
      var last := ss[|ss| - 1];
      VisibleKeys(ss[..|ss| - 1]) + if last.visible then [KeyOf(last)] else []
  }

  function Find(ss: seq<Section>, key: Key): (i: nat)
    requires HasKey(ss, key)
    ensures i < |ss| && KeyOf(ss[i]) == key
  {
    if KeyOf(ss[0]) == key then 0 else
      assert HasKey(ss[1..], key) by {
        var k :| 0 <= k < |ss| && KeyOf(ss[k]) == key;
        assert ss[1..][k - 1] == ss[k];
      }
      1 + Find(ss[1..], key)
  }

  lemma AllKeys(key: Key)
    ensures key in KEYS
  {
    match key
    case SummaryKey => assert KEYS[10] == key;
    case ModuleKey(kind) =>
      match kind
      case Education => assert KEYS[0] == key;
      case Skills => assert KEYS[1] == key;
      case Work => assert KEYS[2] == key;
      case Projects => assert KEYS[3] == key;
      case Orgs => assert KEYS[4] == key;
      case Research => assert KEYS[5] == key;
      case Awards => assert KEYS[6] == key;
      case Other => assert KEYS[7] == key;
      case Portfolio => assert KEYS[8] == key;
      case Custom => assert KEYS[9] == key;
  }

  /** The visible sections in their order, then the hidden ones in the fixed key order. */
  function Reordered(ss: seq<Section>): (r: seq<Section>)
    requires HasAllSections(ss)
    ensures |r| == |OrderedKeys(VisibleKeys(ss))|
    ensures forall j :: 0 <= j < |r| ==> r[j] in ss && KeyOf(r[j]) == OrderedKeys(VisibleKeys(ss))[j]
  {
    var keys := OrderedKeys(VisibleKeys(ss));
    AllFound(ss);
    seq(|keys|, j requires 0 <= j < |keys| => ss[Find(ss, keys[j])])
  }

  lemma AllFound(ss: seq<Section>)
    requires HasAllSections(ss)
    ensures forall key :: HasKey(ss, key)
  {
    forall key ensures HasKey(ss, key) {
      AllKeys(key);
    }
  }

  // ---- What comes back of one section ----

  /** A body after the trip through HTML. */
  function BodyBack(body: seq<RichBlock>, dom: string -> Dom): seq<RichBlock> {
    match RenderBlocks(body)
    case Err(_) => []
    case Ok(html) => ReadHtml(html, dom(html)).blocks
  }

  function EntriesBack(es: seq<Entry>, dom: string -> Dom): (r: seq<Entry>)
    ensures |r| == |es| && forall i :: 0 <= i < |es| ==> r[i] == es[i].(body := BodyBack(es[i].body, dom))
  {
    seq(|es|, i requires 0 <= i < |es| => es[i].(body := BodyBack(es[i].body, dom)))
  }

  function SectionBack(x: Section, dom: string -> Dom): Section {
    match x
    case SummarySection(_, _, title, visible, body) =>
      SummarySection(SectionId(SummaryKey), "summary", title, visible, BodyBack(body, dom))
    case EntrySection(_, kind, title, visible, entries) =>
      EntrySection(SectionId(ModuleKey(kind)), kind, title, visible, EntriesBack(entries, dom))
  }

  function SectionsBack(ss: seq<Section>, dom: string -> Dom): (r: seq<Section>)
    ensures |r| == |ss| && forall i :: 0 <= i < |ss| ==> r[i] == SectionBack(ss[i], dom)
  {
    seq(|ss|, i requires 0 <= i < |ss| => SectionBack(ss[i], dom))
  }

  predicate HasBlankEntry(es: seq<Entry>) {
    exists e :: e in es && IsJsBlank(e.id)
  }

  predicate HasBlankId(ss: seq<Section>) {
    exists x :: x in ss && x.EntrySection? && HasBlankEntry(x.entries)
  }

  // ---- The snapshot holds every section ----

  predicate IsHeld(s: WorkspaceSnapshot, x: Section) {
    match x
    case SummarySection(_, _, title, _, body) => RenderBlocks(body) == Ok(s.summary) && s.summaryTitle == title
    case EntrySection(_, kind, title, _, entries) =>
      && kind in s.names && s.names[kind] == title
      && kind in s.modules && AllToLegacy(entries) == Ok(s.modules[kind])
  }

  lemma OtherSectionStays(s: WorkspaceSnapshot, x: Section, y: Section)
    requires IsHeld(s, x) && KeyOf(x) != KeyOf(y) && AddSection(s, y).Ok?
    ensures IsHeld(AddSection(s, y).value, x)
  {
  }

  lemma {:induction false} EverySectionIsHeld(s: WorkspaceSnapshot, ss: seq<Section>, i: nat)
    requires KeysAreDistinct(ss) && AddSections(s, ss).Ok? && i < |ss|
    ensures IsHeld(AddSections(s, ss).value, ss[i])
  {
    var init, last := ss[..|ss| - 1], ss[|ss| - 1];
    if i < |ss| - 1 {
      EverySectionIsHeld(s, init, i);
      OtherSectionStays(AddSections(s, init).value, init[i], last);
    }
  }

  lemma {:induction false} OrderIsVisible(s: WorkspaceSnapshot, ss: seq<Section>)
    requires AddSections(s, ss).Ok?
    ensures var t := AddSections(s, ss).value;
            t.order == s.order + VisibleKeys(ss) && t.title == s.title && t.texts == s.texts && t.ageMode == s.ageMode
  {
    if ss != [] {
      OrderIsVisible(s, ss[..|ss| - 1]);
    }
  }

  // ---- The conversion reads every section ----

  lemma {:induction false} LegacyEntries(es: seq<Entry>)
    requires AllToLegacy(es).Ok?
    ensures |AllToLegacy(es).value| == |es|
    ensures forall i :: 0 <= i < |es| ==> ToLegacy(es[i]) == Ok(AllToLegacy(es).value[i])
  {
    if es != [] {
      LegacyEntries(es[1..]);
      forall i | 0 <= i < |es| ensures ToLegacy(es[i]) == Ok(AllToLegacy(es).value[i]) {
        if i > 0 {
          assert es[1..][i - 1] == es[i];
        }
      }
    }
  }

  predicate AllConvert(ls: seq<LegacyEntry>) {
    forall l :: l in ls ==> !IsJsBlank(l.id)
  }

  lemma {:induction false} ConvertedEntries(ls: seq<LegacyEntry>, key: Key, seen: set<Id>, dom: string -> Dom)
    ensures var r := ConvertEntries(ls, key, seen, dom);
            && (r.Some? <==> AllConvert(ls))
            && (r.Some? ==> |r.value.entries| == |ls| && forall i :: 0 <= i < |ls| ==> r.value.entries[i] == FromLegacy(ls[i], dom))
  {
    if ls != [] {
      var init := ls[..|ls| - 1];
      ConvertedEntries(init, key, seen, dom);
      assert ls == init + [ls[|ls| - 1]];
    }
  }

  lemma EntriesComeBack(es: seq<Entry>, key: Key, seen: set<Id>, dom: string -> Dom)
    requires AllToLegacy(es).Ok?
    ensures var r := ConvertEntries(AllToLegacy(es).value, key, seen, dom);
            && (r.Some? <==> !HasBlankEntry(es))
            && (r.Some? ==> r.value.entries == EntriesBack(es, dom))
  {
    var ls := AllToLegacy(es).value;
    LegacyEntries(es);
    ConvertedEntries(ls, key, seen, dom);
    if HasBlankEntry(es) {
      var e :| e in es && IsJsBlank(e.id);
      var i :| 0 <= i < |es| && es[i] == e;
      assert ls[i] in ls && ls[i].id == e.id;
    } else {
      forall l | l in ls ensures !IsJsBlank(l.id) {
        var i :| 0 <= i < |ls| && ls[i] == l;
        assert es[i] in es && es[i].id == l.id;
      }
    }
  }

  lemma KeyComesBack(s: WorkspaceSnapshot, x: Section, before: Sections, dom: string -> Dom)
    requires IsHeld(s, x) && (KeyOf(x) in s.order <==> x.visible)
    ensures var r := ConvertKey(s, KeyOf(x), before, dom);
            && (r.Some? <==> !(x.EntrySection? && HasBlankEntry(x.entries)))
            && (r.Some? ==> r.value.sections == before.sections + [SectionBack(x, dom)])
  {
    if x.EntrySection? {
      EntriesComeBack(x.entries, KeyOf(x), before.seen, dom);
    }
  }

  lemma {:induction false} KeysComeBack(s: WorkspaceSnapshot, xs: seq<Section>, keys: seq<Key>, dom: string -> Dom)
    requires |keys| == |xs|
    requires forall j :: 0 <= j < |xs| ==> KeyOf(xs[j]) == keys[j] && IsHeld(s, xs[j]) && (keys[j] in s.order <==> xs[j].visible)
    ensures var r := ConvertKeys(s, keys, dom);
            && (r.Some? <==> !HasBlankId(xs))
            && (r.Some? ==> r.value.sections == SectionsBack(xs, dom))
  {
    if keys == [] {
      assert SectionsBack(xs, dom) == [];
    } else {
      var n := |xs| - 1;
      KeysComeBack(s, xs[..n], keys[..n], dom);
      assert xs == xs[..n] + [xs[n]];
      assert HasBlankId(xs) <==> HasBlankId(xs[..n]) || (xs[n].EntrySection? && HasBlankEntry(xs[n].entries));
      var before := ConvertKeys(s, keys[..n], dom);
      if before.Some? {
        KeyComesBack(s, xs[n], before.value, dom);
        assert SectionsBack(xs, dom) == SectionsBack(xs[..n], dom) + [SectionBack(xs[n], dom)];
      }
    }
  }

  // ---- Keys ----

  lemma {:induction false} VisibleIsMember(ss: seq<Section>, i: nat)
    requires KeysAreDistinct(ss) && i < |ss|
    ensures KeyOf(ss[i]) in VisibleKeys(ss) <==> ss[i].visible
  {
    var init, last := ss[..|ss| - 1], ss[|ss| - 1];
    if i < |ss| - 1 {
      VisibleIsMember(init, i);
    } else {
      LastKeyIsNew(ss);
    }
  }

  lemma LastKeyIsNew(ss: seq<Section>)
    requires KeysAreDistinct(ss) && ss != []
    ensures KeyOf(ss[|ss| - 1]) !in VisibleKeys(ss[..|ss| - 1])
  {
    var init, last := ss[..|ss| - 1], ss[|ss| - 1];
    VisibleAreKeys(init);
    forall k | 0 <= k < |init| ensures KeyOf(init[k]) != KeyOf(last) {
      assert init[k] == ss[k];
    }
  }

  lemma {:induction false} VisibleAreKeys(ss: seq<Section>)
    ensures forall key :: key in VisibleKeys(ss) ==> exists k :: 0 <= k < |ss| && KeyOf(ss[k]) == key
  {
    if ss != [] {
      var init, last := ss[..|ss| - 1], ss[|ss| - 1];
      VisibleAreKeys(init);
      forall key | key in VisibleKeys(ss) ensures exists k :: 0 <= k < |ss| && KeyOf(ss[k]) == key {
        if key in VisibleKeys(init) {
          var k :| 0 <= k < |init| && KeyOf(init[k]) == key;
          assert KeyOf(ss[k]) == key;
        } else {
          assert KeyOf(ss[|ss| - 1]) == key;
        }
      }
    }
  }

  lemma {:induction false} VisibleAreUnique(ss: seq<Section>)
    requires KeysAreDistinct(ss)
    ensures Unique(VisibleKeys(ss)) == VisibleKeys(ss)
  {
    if ss != [] {
      var init, last := ss[..|ss| - 1], ss[|ss| - 1];
      VisibleAreUnique(init);
      if last.visible {
        LastKeyIsNew(ss);
        assert VisibleKeys(ss)[..|VisibleKeys(ss)| - 1] == VisibleKeys(init);
      } else {
        assert VisibleKeys(init) + [] == VisibleKeys(init);
      }
    }
  }

  /** Sections with the same keys at the same places are the same, within one list. */
  lemma SameByKey(ss: seq<Section>, x: Section, i: nat)
    requires KeysAreDistinct(ss) && i < |ss| && x in ss && KeyOf(x) == KeyOf(ss[i])
    ensures x == ss[i]
  {
    var j :| 0 <= j < |ss| && ss[j] == x;
    assert KeyOf(ss[i]) == KeyOf(ss[j]);
  }

  // ---- The trip ----

  /**
   * For a document with all eleven sections: the conversion back fails exactly for a blank ID or title; otherwise it
   * returns title, age display and basic texts (less the avatar), and the sections, reordered, each with its own
   * title, visibility and entries and with its bodies as read back.
   */
  lemma TripReturnsTheDocument(d: ResumeDocument, titles: map<ModuleKind, string>, defaultTitle: string,
                               documentId: Id, dom: string -> Dom)
    requires HasAllSections(d.sections) && SnapshotOf(d, titles, defaultTitle).Ok?
    ensures var r := Inspect(SnapshotOf(d, titles, defaultTitle).value, documentId, dom);
            && (r.Some? <==> !IsJsBlank(documentId) && !IsJsBlank(d.title) && !HasBlankId(d.sections))
            && (r.Some? ==>
                && r.value.title == d.title && r.value.ageMode == d.basic.ageMode
                && r.value.texts == d.basic.texts - {AvatarAssetId}
                && r.value.sections == SectionsBack(Reordered(d.sections), dom))
  {
    var start := EmptySnapshot(d, titles, defaultTitle);
    var s := SnapshotOf(d, titles, defaultTitle).value;
    var xs, keys := Reordered(d.sections), OrderedKeys(VisibleKeys(d.sections));
    OrderIsVisible(start, d.sections);
    assert [] + VisibleKeys(d.sections) == VisibleKeys(d.sections);
    forall j | 0 <= j < |xs| ensures IsHeld(s, xs[j]) && (keys[j] in s.order <==> xs[j].visible) {
      var i :| 0 <= i < |d.sections| && d.sections[i] == xs[j];
      EverySectionIsHeld(start, d.sections, i);
      VisibleIsMember(d.sections, i);
    }
    KeysComeBack(s, xs, keys, dom);
    SameMembers(d.sections);
    assert HasBlankId(xs) <==> HasBlankId(d.sections);
  }

  lemma SameMembers(ss: seq<Section>)
    requires HasAllSections(ss)
    ensures forall x :: x in Reordered(ss) <==> x in ss
  {
    var xs, keys := Reordered(ss), OrderedKeys(VisibleKeys(ss));
    forall x | x in ss ensures x in xs {
      var i :| 0 <= i < |ss| && ss[i] == x;
      KeyIsListed(KeyOf(x), VisibleKeys(ss));
      var j :| 0 <= j < |keys| && keys[j] == KeyOf(x);
      SameByKey(ss, xs[j], i);
    }
  }

  lemma KeyIsListed(key: Key, order: seq<Key>)
    ensures key in OrderedKeys(order)
  {
    AllKeys(key);
    UniqueMembers(order, key);
    AbsentMembers(KEYS, order, key);
  }

  lemma {:induction false} UniqueMembers(order: seq<Key>, key: Key)
    ensures key in Unique(order) <==> key in order
  {
    if order != [] {
      UniqueMembers(order[..|order| - 1], key);
    }
  }

  lemma {:induction false} AbsentMembers(keys: seq<Key>, order: seq<Key>, key: Key)
    ensures key in Absent(keys, order) <==> key in keys && key !in order
  {
    if keys != [] {
      AbsentMembers(keys[..|keys| - 1], order, key);
    }
  }

  // ---- Exactly when nothing moves ----

  /** The place of a key in the fixed order. */
  function Rank(key: Key): (i: nat)
    ensures i < |KEYS| && KEYS[i] == key
  {
    match key
    case SummaryKey => 10
    case ModuleKey(kind) =>
      match kind
      case Education => 0 case Skills => 1 case Work => 2 case Projects => 3 case Orgs => 4
      case Research => 5 case Awards => 6 case Other => 7 case Portfolio => 8 case Custom => 9
  }

  /** Visible sections come first, and hidden ones follow in the fixed key order. */
  predicate IsInOrder(ss: seq<Section>) {
    forall i, j :: 0 <= i < j < |ss| ==>
      (ss[j].visible ==> ss[i].visible) && (!ss[i].visible && !ss[j].visible ==> Rank(KeyOf(ss[i])) < Rank(KeyOf(ss[j])))
  }

  function KeysOf(ss: seq<Section>): (r: seq<Key>)
    ensures |r| == |ss| && forall i :: 0 <= i < |ss| ==> r[i] == KeyOf(ss[i])
  {
    seq(|ss|, i requires 0 <= i < |ss| => KeyOf(ss[i]))
  }

  predicate IsRising(keys: seq<Key>) {
    forall i, j :: 0 <= i < j < |keys| ==> Rank(keys[i]) < Rank(keys[j])
  }

  lemma KeysAreRanked(i: nat)
    requires i < |KEYS|
    ensures Rank(KEYS[i]) == i
  {
    var r := Rank(KEYS[i]);
    if i < 6 {
      if i == 0 {} else if i == 1 {} else if i == 2 {} else if i == 3 {} else if i == 4 {} else {}
    } else {
      if i == 6 {} else if i == 7 {} else if i == 8 {} else if i == 9 {} else {}
    }
  }

  lemma {:induction false} AbsentIsRising(n: nat, order: seq<Key>)
    requires n <= |KEYS|
    ensures IsRising(Absent(KEYS[..n], order))
    ensures forall key :: key in Absent(KEYS[..n], order) ==> Rank(key) < n
  {
    if n > 0 {
      AbsentIsRising(n - 1, order);
      assert KEYS[..n][..n - 1] == KEYS[..n - 1];
      KeysAreRanked(n - 1);
    }
  }

  /** A rising list is determined by its members. */
  lemma {:induction false} RisingIsUnique(a: seq<Key>, b: seq<Key>)
    requires IsRising(a) && IsRising(b) && forall key :: key in a <==> key in b
    ensures a == b
  {
    if a == [] {
      assert forall i :: 0 <= i < |b| ==> b[i] in b;
    } else {
      assert a[0] in b && b != [] && b[0] in a;
      FirstIsLeast(a, b[0]);
      FirstIsLeast(b, a[0]);
      assert Rank(a[0]) == Rank(b[0]);
      assert a[0] == b[0];
      TailMembers(a);
      TailMembers(b);
      RisingIsUnique(a[1..], b[1..]);
      assert a == [a[0]] + a[1..] && b == [b[0]] + b[1..];
    }
  }

  lemma FirstIsLeast(a: seq<Key>, key: Key)
    requires IsRising(a) && key in a
    ensures Rank(a[0]) <= Rank(key)
  {
  }

  lemma TailMembers(a: seq<Key>)
    requires IsRising(a) && a != []
    ensures forall key :: key in a[1..] <==> key in a && key != a[0]
  {
    forall key ensures key in a[1..] <==> key in a && key != a[0] {
      if key in a[1..] {
        var i :| 0 <= i < |a[1..]| && a[1..][i] == key;
        assert Rank(a[0]) < Rank(a[i + 1]);
      }
    }
  }

  /** The visible prefix and the hidden rest of an ordered list. */
  lemma {:induction false} OrderedSplits(ss: seq<Section>) returns (k: nat)
    requires IsInOrder(ss)
    ensures k <= |ss| && (forall i :: 0 <= i < |ss| ==> (ss[i].visible <==> i < k))
    ensures VisibleKeys(ss) == KeysOf(ss[..k])
  {
    if ss == [] {
      k := 0;
    } else {
      var init, last := ss[..|ss| - 1], ss[|ss| - 1];
      k := OrderedSplits(init);
      if last.visible {
        assert forall i :: 0 <= i < |init| ==> ss[i].visible;
        assert forall m :: 0 <= m < |init| ==> init[m] == ss[m];
        k := |ss|;
        assert ss[..k] == init + [last] && init[..|init|] == init;
      } else {
        assert ss[..k] == init[..k];
      }
    }
  }

  lemma OrderedIsFixed(ss: seq<Section>)
    requires HasAllSections(ss) && IsInOrder(ss)
    ensures OrderedKeys(VisibleKeys(ss)) == KeysOf(ss)
  {
    var k := OrderedSplits(ss);
    VisibleAreUnique(ss);
    var hidden := KeysOf(ss[k..]);
    HiddenAreRising(ss, k);
    AllAbsentIsRising(VisibleKeys(ss));
    forall key ensures key in hidden <==> key in Absent(KEYS, VisibleKeys(ss)) {
      HiddenMembers(ss, k, key);
    }
    RisingIsUnique(hidden, Absent(KEYS, VisibleKeys(ss)));
    KeysSplit(ss, k);
  }

  lemma KeysSplit(ss: seq<Section>, k: nat)
    requires k <= |ss|
    ensures KeysOf(ss) == KeysOf(ss[..k]) + KeysOf(ss[k..])
  {
  }

  lemma AllAbsentIsRising(order: seq<Key>)
    ensures IsRising(Absent(KEYS, order))
  {
    AbsentIsRising(|KEYS|, order);
    assert KEYS[..|KEYS|] == KEYS;
  }

  lemma HiddenAreRising(ss: seq<Section>, k: nat)
    requires IsInOrder(ss) && k <= |ss| && forall i :: 0 <= i < |ss| ==> (ss[i].visible <==> i < k)
    ensures IsRising(KeysOf(ss[k..]))
  {
    forall i, j | 0 <= i < j < |ss[k..]| ensures Rank(KeysOf(ss[k..])[i]) < Rank(KeysOf(ss[k..])[j]) {
      assert !ss[k + i].visible && !ss[k + j].visible;
    }
  }

  lemma HiddenMembers(ss: seq<Section>, k: nat, key: Key)
    requires HasAllSections(ss) && k <= |ss| && forall i :: 0 <= i < |ss| ==> (ss[i].visible <==> i < k)
    ensures key in KeysOf(ss[k..]) <==> key in Absent(KEYS, VisibleKeys(ss))
  {
    AllKeys(key);
    AbsentMembers(KEYS, VisibleKeys(ss), key);
    var i := Find(ss, key);
    VisibleIsMember(ss, i);
    if i >= k {
      assert KeysOf(ss[k..])[i - k] == key;
    } else {
      forall j | 0 <= j < |ss[k..]| ensures KeysOf(ss[k..])[j] != key {
        assert KeysOf(ss[k..])[j] == KeyOf(ss[k + j]) && i < k + j;
      }
    }
  }

  /** Reordering always gives an ordered list of the same sections. */
  lemma ReorderedIsInOrder(ss: seq<Section>)
    requires HasAllSections(ss)
    ensures HasAllSections(Reordered(ss)) && IsInOrder(Reordered(ss))
  {
    ReorderedHasAll(ss);
    var xs, n := Reordered(ss), |VisibleKeys(ss)|;
    AllAbsentIsRising(VisibleKeys(ss));
    forall j | 0 <= j < |xs| ensures xs[j].visible <==> j < n {
      ReorderedVisible(ss, j);
    }
    VisibleAreUnique(ss);
    forall i, j | n <= i < j < |xs| ensures Rank(KeyOf(xs[i])) < Rank(KeyOf(xs[j])) {
      var rest := Absent(KEYS, VisibleKeys(ss));
      assert KeyOf(xs[i]) == rest[i - n] && KeyOf(xs[j]) == rest[j - n];
    }
  }

  lemma ReorderedVisible(ss: seq<Section>, j: nat)
    requires HasAllSections(ss) && j < |Reordered(ss)|
    ensures Reordered(ss)[j].visible <==> j < |VisibleKeys(ss)|
  {
    var xs, keys, n := Reordered(ss), OrderedKeys(VisibleKeys(ss)), |VisibleKeys(ss)|;
    VisibleAreUnique(ss);
    var i :| 0 <= i < |ss| && ss[i] == xs[j];
    VisibleIsMember(ss, i);
    if j < n {
      assert keys[j] == VisibleKeys(ss)[j];
    } else {
      assert keys[j] == Absent(KEYS, VisibleKeys(ss))[j - n];
      AbsentMembers(KEYS, VisibleKeys(ss), keys[j]);
    }
  }

  lemma ReorderedHasAll(ss: seq<Section>)
    requires HasAllSections(ss)
    ensures HasAllSections(Reordered(ss))
  {
    var xs, keys := Reordered(ss), OrderedKeys(VisibleKeys(ss));
    forall i, j | 0 <= i < j < |xs| ensures KeyOf(xs[i]) != KeyOf(xs[j]) {
      DistinctKeys(VisibleKeys(ss), i, j);
    }
    forall key | key in KEYS ensures HasKey(xs, key) {
      KeyIsListed(key, VisibleKeys(ss));
      var j :| 0 <= j < |keys| && keys[j] == key;
      assert KeyOf(xs[j]) == key;
    }
  }

  predicate AreDistinct(keys: seq<Key>) {
    forall i, j :: 0 <= i < j < |keys| ==> keys[i] != keys[j]
  }

  lemma {:induction false} UniqueIsDistinct(order: seq<Key>)
    ensures AreDistinct(Unique(order))
  {
    if order != [] {
      var before := Unique(order[..|order| - 1]);
      UniqueIsDistinct(order[..|order| - 1]);
      assert forall m :: 0 <= m < |before| ==> before[m] in before;
    }
  }

  lemma DistinctKeys(order: seq<Key>, i: nat, j: nat)
    requires i < j < |OrderedKeys(order)|
    ensures OrderedKeys(order)[i] != OrderedKeys(order)[j]
  {
    var first, rest := Unique(order), Absent(KEYS, order);
    var keys := OrderedKeys(order);
    UniqueIsDistinct(order);
    AbsentIsRising(|KEYS|, order);
    assert KEYS[..|KEYS|] == KEYS;
    if j < |first| {
      assert keys[i] == first[i] && keys[j] == first[j];
    } else if i >= |first| {
      assert Rank(rest[i - |first|]) < Rank(rest[j - |first|]);
    } else {
      AbsentMembers(KEYS, order, keys[j]);
      UniqueMembers(order, keys[i]);
      assert keys[j] in rest && keys[i] in first;
    }
  }

  /** The sections stay where they are exactly when visible ones come first and hidden ones are in key order. */
  lemma ReorderingIsIdentityExactlyWhenInOrder(ss: seq<Section>)
    requires HasAllSections(ss)
    ensures Reordered(ss) == ss <==> IsInOrder(ss)
  {
    ReorderedIsInOrder(ss);
    if IsInOrder(ss) {
      OrderedIsFixed(ss);
      var xs := Reordered(ss);
      forall j | 0 <= j < |ss| ensures xs[j] == ss[j] {
        SameByKey(ss, xs[j], j);
      }
    }
  }

  /** A second trip moves nothing any more. */
  lemma ReorderingIsIdempotent(ss: seq<Section>)
    requires HasAllSections(ss)
    ensures HasAllSections(Reordered(ss)) && Reordered(Reordered(ss)) == Reordered(ss)
  {
    ReorderedIsInOrder(ss);
    ReorderingIsIdentityExactlyWhenInOrder(Reordered(ss));
  }

  // ---- Exactly when nothing changes ----

  predicate KeepsBodies(x: Section, dom: string -> Dom) {
    match x
    case SummarySection(_, _, _, _, body) => BodyBack(body, dom) == body
    case EntrySection(_, _, _, _, entries) => forall e :: e in entries ==> BodyBack(e.body, dom) == e.body
  }

  /** The section with the identity that converted sections carry. */
  function Identified(x: Section): Section {
    match x
    case SummarySection(_, _, title, visible, body) => SummarySection(SectionId(SummaryKey), "summary", title, visible, body)
    case EntrySection(_, kind, title, visible, entries) => EntrySection(SectionId(ModuleKey(kind)), kind, title, visible, entries)
  }

  function AllIdentified(ss: seq<Section>): (r: seq<Section>)
    ensures |r| == |ss| && forall i :: 0 <= i < |ss| ==> r[i] == Identified(ss[i])
  {
    seq(|ss|, i requires 0 <= i < |ss| => Identified(ss[i]))
  }

  lemma SectionIsKept(x: Section, dom: string -> Dom)
    ensures SectionBack(x, dom) == Identified(x) <==> KeepsBodies(x, dom)
    ensures KeyOf(SectionBack(x, dom)) == KeyOf(x) == KeyOf(Identified(x))
  {
    if x.EntrySection? {
      var back := EntriesBack(x.entries, dom);
      if KeepsBodies(x, dom) {
        forall i | 0 <= i < |back| ensures back[i] == x.entries[i] {
          assert x.entries[i] in x.entries;
        }
      }
      if back == x.entries {
        forall e | e in x.entries ensures BodyBack(e.body, dom) == e.body {
          var i :| 0 <= i < |x.entries| && x.entries[i] == e;
          assert back[i] == e;
        }
      }
    }
  }

  /** The trip returns the same sections, but for their IDs, exactly when they are in order and every body reads back the same. */
  lemma TripIsIdentityExactlyWhen(ss: seq<Section>, dom: string -> Dom)
    requires HasAllSections(ss)
    ensures SectionsBack(Reordered(ss), dom) == AllIdentified(ss) <==>
            IsInOrder(ss) && forall x :: x in ss ==> KeepsBodies(x, dom)
  {
    ReorderingIsIdentityExactlyWhenInOrder(ss);
    var xs := Reordered(ss);
    if SectionsBack(xs, dom) == AllIdentified(ss) {
      forall j | 0 <= j < |ss| ensures xs[j] == ss[j] && KeepsBodies(ss[j], dom) {
        assert SectionsBack(xs, dom)[j] == AllIdentified(ss)[j];
        SectionIsKept(xs[j], dom);
        SectionIsKept(ss[j], dom);
        SameByKey(ss, xs[j], j);
      }
    }
    if IsInOrder(ss) && forall x :: x in ss ==> KeepsBodies(x, dom) {
      forall j | 0 <= j < |ss| ensures SectionsBack(xs, dom)[j] == AllIdentified(ss)[j] {
        assert ss[j] in ss;
        SectionIsKept(ss[j], dom);
      }
    }
  }

  /** A body in normal form that fits and is not too long reads back the same from the tree its HTML denotes. */
  lemma NormalBodiesAreKept(body: seq<RichBlock>, dom: string -> Dom)
    requires RenderBlocks(body).Ok? && (forall b :: b in body ==> LinksAreFlat(b))
    requires dom(RenderBlocks(body).value) == WrittenDom(body)
    requires Units(RenderBlocks(body).value) <= MAX_HTML_LENGTH && FitsBlocks(body, 0) && AreNormalBlocks(body)
    ensures BodyBack(body, dom) == body
  {
    RoundTripIsExact(body);
  }
}
