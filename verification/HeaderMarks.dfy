/** What a metadata tag means by its text, and which node each glyph of a walk goes to. */
module HeaderMarks {
  import opened Contracts
  import opened Strings
  import opened TextMap
  import opened HeaderReplay

  // ---- The grammar of tags ----

  /** The digits stand for the number, which fits 64 bits. */
  predicate IsNumeral(digits: string, n: nat) {
    digits != "" && (forall c :: c in digits ==> IsDigit(c)) && Value(digits) == n && n < 0x1_0000_0000_0000_0000
  }

  predicate IsOffset(s: string, n: nat) {
    IsNumeral(s, n) || (s != "" && s[0] == '+' && IsNumeral(s[1..], n))
  }

  predicate Occurs(sep: string, s: string, i: nat)
    requires i <= |s|
  {
    sep <= s[i..]
  }

  /** The separator first occurs between the two parts. */
  predicate IsFirstSplit(s: string, sep: string, before: string, after: string) {
    s == before + sep + after && forall i :: 0 <= i < |before| ==> !Occurs(sep, s, i)
  }

  /** The tag gives an offset text and a node, cut at the first separator. */
  predicate IsChunk(tag: string, offset: string, id: string) {
    "chunk:" <= tag && IsFirstSplit(tag[6..], ":node:", offset, id)
  }

  predicate IsNodeTag(tag: string, id: string) {
    tag == "node:" + id
  }

  /** What a tag says. */
  ghost predicate Says(tag: string, mark: Mark) {
    match mark
    case HeadStart(id) => tag == "repeat-head-start:" + id
    case HeadEnd => "repeat-head-end:" <= tag
    case SetMarker(marker) =>
      (match marker
       case Unmarked => false
       case Decorative => IsNodeTag(tag, "!deco")
       case Node(id, base) =>
         || (IsNodeTag(tag, id) && id != "!deco" && base == 0)
         || exists offset :: IsChunk(tag, offset, id) && IsOffset(offset, base))
    case BadOffset => exists offset, id :: IsChunk(tag, offset, id) && forall n: nat :: !IsOffset(offset, n)
    case NoMark =>
      && !("repeat-head-start:" <= tag) && !("repeat-head-end:" <= tag) && !("node:" <= tag)
      && forall offset, id :: !IsChunk(tag, offset, id)
  }

  lemma FrontOf(s: string, a: string)
    ensures a <= s <==> |a| <= |s| && s == a + s[|a|..]
  {
    if a <= s {
      assert s == s[..|a|] + s[|a|..];
    }
  }

  lemma {:induction false} SplitIsFirst(s: string, sep: string)
    requires sep != ""
    ensures match SplitOnce(s, sep)
            case Some(parts) => IsFirstSplit(s, sep, parts.0, parts.1)
            case None => forall i :: 0 <= i <= |s| ==> !Occurs(sep, s, i)
  {
    FrontOf(s, sep);
    assert s[0..] == s;
    if !(sep <= s) && s != "" {
      SplitIsFirst(s[1..], sep);
      forall i | 1 <= i <= |s| ensures Occurs(sep, s, i) <==> Occurs(sep, s[1..], i - 1) {
        assert s[1..][i - 1..] == s[i..];
      }
      if SplitOnce(s[1..], sep).Some? {
        var parts := SplitOnce(s[1..], sep).value;
        assert s == [s[0]] + s[1..];
        assert [s[0]] + parts.0 + sep + parts.1 == [s[0]] + (parts.0 + sep + parts.1);
      }
    }
  }

  /** There is only one first split, and it is found. */
  lemma SplitIsOnly(s: string, sep: string, before: string, after: string)
    requires sep != "" && IsFirstSplit(s, sep, before, after)
    ensures SplitOnce(s, sep) == Some((before, after))
  {
    SplitIsFirst(s, sep);
    OccursAt(s, sep, before, after);
    var parts := SplitOnce(s, sep).value;
    OccursAt(s, sep, parts.0, parts.1);
    assert |parts.0| == |before|;
    assert before == s[..|before|] && after == s[|before| + |sep|..];
    assert parts.0 == s[..|before|] && parts.1 == s[|before| + |sep|..];
  }

  lemma OccursAt(s: string, sep: string, before: string, after: string)
    requires s == before + sep + after
    ensures Occurs(sep, s, |before|)
  {
    assert s[|before|..] == sep + after;
  }

  lemma OffsetIsRead(s: string, n: nat)
    ensures IsOffset(s, n) <==> ParseUsize(s) == Some(n)
  {
    if s != "" && s[0] == '+' {
      assert "+" <= s && s[0] in s;
    }
  }

  lemma ChunkIsRead(tag: string, offset: string, id: string)
    requires "chunk:" <= tag
    ensures IsChunk(tag, offset, id) <==> SplitOnce(tag[6..], ":node:") == Some((offset, id))
  {
    SplitIsFirst(tag[6..], ":node:");
    if IsChunk(tag, offset, id) {
      SplitIsOnly(tag[6..], ":node:", offset, id);
    }
  }

  /** The marks of chunk tags. */
  lemma ChunkSays(tag: string, mark: Mark)
    requires "chunk:" <= tag
    ensures mark == ChunkMark(tag[6..]) <==> Says(tag, mark)
  {
    forall offset, id ensures IsChunk(tag, offset, id) <==> SplitOnce(tag[6..], ":node:") == Some((offset, id)) {
      ChunkIsRead(tag, offset, id);
    }
    FrontsDiffer(tag);
    match SplitOnce(tag[6..], ":node:")
    case None =>
    case Some(parts) => ChunkPartsSay(tag, parts.0, parts.1, mark);
  }

  lemma ChunkPartsSay(tag: string, offset: string, id: string, mark: Mark)
    requires "chunk:" <= tag && forall o, i :: IsChunk(tag, o, i) <==> o == offset && i == id
    ensures (mark == match ParseUsize(offset) case None => BadOffset case Some(n) => SetMarker(Node(id, n))) <==> Says(tag, mark)
  {
    assert IsChunk(tag, offset, id);
    FrontsDiffer(tag);
    forall n: nat ensures IsOffset(offset, n) <==> ParseUsize(offset) == Some(n) {
      OffsetIsRead(offset, n);
    }
  }

  /** A tag begins with at most one of the four words. */
  lemma FrontsDiffer(tag: string)
    ensures "node:" <= tag ==> tag[0] == 'n'
    ensures "chunk:" <= tag ==> tag[0] == 'c'
    ensures "repeat-head-start:" <= tag ==> |tag| > 12 && tag[0] == 'r' && tag[12] == 's'
    ensures "repeat-head-end:" <= tag ==> |tag| > 12 && tag[0] == 'r' && tag[12] == 'e'
  {
    assert "repeat-head-start:"[12] == 's' && "repeat-head-end:"[12] == 'e';
  }

  lemma NodeSays(tag: string, mark: Mark)
    requires "node:" <= tag
    ensures mark == SetMarker(if tag[5..] == "!deco" then Decorative else Node(tag[5..], 0)) <==> Says(tag, mark)
  {
    FrontsDiffer(tag);
    FrontOf(tag, "node:");
    forall id ensures IsNodeTag(tag, id) <==> id == tag[5..] {
      if IsNodeTag(tag, id) {
        assert tag[5..] == id;
      }
    }
  }

  lemma HeadSays(tag: string, mark: Mark)
    requires "repeat-head-start:" <= tag
    ensures mark == HeadStart(tag[18..]) <==> Says(tag, mark)
  {
    FrontsDiffer(tag);
    FrontOf(tag, "repeat-head-start:");
    if mark.HeadStart? && Says(tag, mark) {
      assert tag[18..] == mark.id;
    }
  }

  /** Every tag says exactly one thing, and that is what the walk takes it for. */
  lemma TagsByText(tag: string, mark: Mark)
    ensures mark == ReadMark(tag) <==> Says(tag, mark)
  {
    FrontsDiffer(tag);
    if "repeat-head-start:" <= tag {
      HeadSays(tag, mark);
    } else if "repeat-head-end:" <= tag {
    } else if "node:" <= tag {
      NodeSays(tag, mark);
    } else if "chunk:" <= tag {
      ChunkSays(tag, mark);
    }
  }

  // ---- Frames in order ----

  /** What an item adds to the events of its page: a tag what it says, a run its glyphs, a group what its items add. */
  ghost predicate IsAdded(item: Item, page: nat, added: seq<Event>) {
    match item
    case Tag(value) => |added| == 1 && added[0].Marked? && Says(value, added[0].mark)
    case Run(glyphs) => added == [Glyphs(page, glyphs)]
    case Group(inner) => added == Events(inner, page)
    case OtherItem => added == []
  }

  lemma {:induction false} EventsJoin(a: seq<Item>, b: seq<Item>, page: nat)
    ensures Events(a + b, page) == Events(a, page) + Events(b, page)
  {
    if a == [] {
      assert a + b == b;
    } else {
      assert (a + b)[0] == a[0] && (a + b)[1..] == a[1..] + b;
      EventsJoin(a[1..], b, page);
    }
  }

  /** Each item of a frame adds its events in its place. */
  lemma EachItemAdds(items: seq<Item>, i: nat, page: nat) returns (added: seq<Event>)
    requires i < |items|
    ensures IsAdded(items[i], page, added)
    ensures Events(items, page) == Events(items[..i], page) + added + Events(items[i + 1..], page)
  {
    assert items == items[..i] + items[i..];
    EventsJoin(items[..i], items[i..], page);
    assert items[i..][0] == items[i] && items[i..][1..] == items[i + 1..];
    added := Events(items[i..], page)[..|Events(items[i..], page)| - |Events(items[i + 1..], page)|];
    if items[i].Tag? {
      TagsByText(items[i].value, ReadMark(items[i].value));
    }
  }

  /** The events of each page follow those of the pages before, under its number from one. */
  lemma {:induction false} EachPageAdds(pages: seq<seq<Item>>, i: nat)
    requires i < |pages|
    ensures PageEvents(pages[..i]) + Events(pages[i], i + 1) <= PageEvents(pages)
    decreases |pages|
  {
    var n := |pages| - 1;
    if i < n {
      assert pages[..n][..i] == pages[..i];
      EachPageAdds(pages[..n], i);
    }
  }

  // ---- Where glyphs go ----

  /** The marker set last. */
  function LastMarker(events: seq<Event>): Marker {
    if events == [] then Unmarked
    else
      var last := events[|events| - 1];
      if last.Marked? && last.mark.SetMarker? then last.mark.marker else LastMarker(events[..|events| - 1])
  }

  predicate IsStart(event: Event) {
    event.Marked? && event.mark.HeadStart?
  }

  /** No header is repeated. */
  predicate IsFresh(events: seq<Event>) {
    forall i, j :: 0 <= i < j < |events| && IsStart(events[i]) ==> events[j] != events[i]
  }

  function TextCount(glyphs: seq<Glyph>): nat {
    if glyphs == [] then 0
    else TextCount(glyphs[..|glyphs| - 1]) + if glyphs[|glyphs| - 1].text.Some? then 1 else 0
  }

  /** How many glyphs have a text and a node to go to. */
  function PlacedCount(events: seq<Event>): nat {
    if events == [] then 0
    else
      var init, last := events[..|events| - 1], events[|events| - 1];
      PlacedCount(init) + if last.Glyphs? && LastMarker(init).Node? then TextCount(last.glyphs) else 0
  }

  lemma {:induction false} ClustersOfGlyphs(glyphs: seq<Glyph>, page: nat, id: string, base: nat)
    ensures |GlyphClusters(glyphs, page, id, base)| == TextCount(glyphs)
    ensures forall i :: 0 <= i < |glyphs| && glyphs[i].text.Some? ==>
              TextCount(glyphs[..i]) < TextCount(glyphs)
              && GlyphClusters(glyphs, page, id, base)[TextCount(glyphs[..i])] == ClusterOf(glyphs[i], page, id, base)
    decreases |glyphs|
  {
    if glyphs != [] {
      var n := |glyphs| - 1;
      ClustersOfGlyphs(glyphs[..n], page, id, base);
      ClustersJoin(glyphs[..n], glyphs[n..], page, id, base);
      assert glyphs == glyphs[..n] + glyphs[n..] && glyphs[n..] == [glyphs[n]] && [glyphs[n]][1..] == [];
      forall i | 0 <= i < n ensures glyphs[..n][..i] == glyphs[..i] {}
    }
  }

  function ClusterOf(g: Glyph, page: nat, id: string, base: nat): RawCluster
    requires g.text.Some?
  {
    RawCluster(id, g.text.value, g.offset + base, page, g.x, g.y, g.width, g.height)
  }

  lemma {:induction false} ClustersJoin(a: seq<Glyph>, b: seq<Glyph>, page: nat, id: string, base: nat)
    ensures GlyphClusters(a + b, page, id, base) == GlyphClusters(a, page, id, base) + GlyphClusters(b, page, id, base)
  {
    if a == [] {
      assert a + b == b;
    } else {
      assert (a + b)[0] == a[0] && (a + b)[1..] == a[1..] + b;
      ClustersJoin(a[1..], b, page, id, base);
    }
  }

  /** In a stream without repetitions nothing is passed over: the marker is the one set last. */
  lemma {:induction false} FreshWalk(events: seq<Event>)
    requires IsFresh(events)
    ensures var st := Play(INITIAL, events);
            && st.saved.None? && st.current == LastMarker(events) && |st.out| == PlacedCount(events)
            && (forall id :: id in st.seen ==> Marked(HeadStart(id)) in events)
  {
    if events != [] {
      var init, last := events[..|events| - 1], events[|events| - 1];
      FreshWalk(init);
      assert forall e :: e in init ==> e in events;
      if last.Glyphs? && LastMarker(init).Node? {
        ClustersOfGlyphs(last.glyphs, last.page, LastMarker(init).id, LastMarker(init).byteBase);
      }
      if last.Marked? && last.mark.HeadStart? && last in init {
        assert false;
      }
    }
  }

  lemma {:induction false} OutGrows(events: seq<Event>, k: nat)
    requires k <= |events|
    ensures Play(INITIAL, events[..k]).out <= Play(INITIAL, events).out
    decreases |events|
  {
    if k == |events| {
      assert events[..k] == events;
    } else {
      var n := |events| - 1;
      assert events[..n][..k] == events[..k];
      OutGrows(events[..n], k);
    }
  }

  predicate HasNode(events: seq<Event>, k: nat, i: nat) {
    && k < |events| && events[k].Glyphs? && i < |events[k].glyphs|
    && events[k].glyphs[i].text.Some? && LastMarker(events[..k]).Node?
  }

  /** The glyph's cluster is in its place, under the node whose marker was set last before it. */
  predicate IsPlaced(out: seq<RawCluster>, events: seq<Event>, k: nat, i: nat)
    requires HasNode(events, k, i)
  {
    var marker, at := LastMarker(events[..k]), PlacedCount(events[..k]) + TextCount(events[k].glyphs[..i]);
    at < |out| && out[at] == ClusterOf(events[k].glyphs[i], events[k].page, marker.id, marker.byteBase)
  }

  /** A glyph with a text goes, in order, to the node whose marker was set last before it; there are no other clusters. */
  lemma GlyphGoes(events: seq<Event>, k: nat, i: nat)
    requires IsFresh(events) && HasNode(events, k, i)
    ensures |Play(INITIAL, events).out| == PlacedCount(events) && IsPlaced(Play(INITIAL, events).out, events, k, i)
  {
    assert IsFresh(events[..k]);
    FreshWalk(events);
    FreshWalk(events[..k]);
    assert events[..k + 1][..k] == events[..k];
    OutGrows(events, k + 1);
    PlacedAt(Play(INITIAL, events[..k]), events, k, i, Play(INITIAL, events).out);
  }

  lemma PlacedAt(st: State, events: seq<Event>, k: nat, i: nat, out: seq<RawCluster>)
    requires HasNode(events, k, i) && st.current == LastMarker(events[..k]) && |st.out| == PlacedCount(events[..k])
    requires OnEvent(st, events[k]).out <= out
    ensures IsPlaced(out, events, k, i)
  {
    var marker := st.current;
    var clusters := GlyphClusters(events[k].glyphs, events[k].page, marker.id, marker.byteBase);
    ClustersOfGlyphs(events[k].glyphs, events[k].page, marker.id, marker.byteBase);
    InPrefix(st.out, clusters, out, TextCount(events[k].glyphs[..i]));
  }

  lemma InPrefix<T>(before: seq<T>, added: seq<T>, all: seq<T>, i: nat)
    requires before + added <= all && i < |added|
    ensures |before| + i < |all| && all[|before| + i] == added[i]
  {
  }

  /** The walk complains of a page with unmarked glyphs and of an offset that is none, and of nothing else. */
  lemma {:induction false} ProblemsOfWalk(events: seq<Event>, problem: Problem)
    requires IsFresh(events)
    ensures problem in Play(INITIAL, events).problems <==> exists k :: 0 <= k < |events| && IsTrouble(events, k, problem)
  {
    if events != [] {
      var n := |events| - 1;
      assert IsFresh(events[..n]);
      FreshWalk(events[..n]);
      ProblemsOfWalk(events[..n], problem);
      forall k | 0 <= k < n ensures IsTrouble(events, k, problem) <==> IsTrouble(events[..n], k, problem) {
        assert events[..n][..k] == events[..k];
      }
      NewProblem(events, problem);
    }
  }

  lemma NewProblem(events: seq<Event>, problem: Problem)
    requires events != []
    requires var st := Play(INITIAL, events[..|events| - 1]);
             st.saved.None? && st.current == LastMarker(events[..|events| - 1])
    ensures problem in Play(INITIAL, events).problems <==>
            problem in Play(INITIAL, events[..|events| - 1]).problems || IsTrouble(events, |events| - 1, problem)
  {
    ProblemAdded(Play(INITIAL, events[..|events| - 1]), events[|events| - 1], problem);
  }

  lemma ProblemAdded(st: State, event: Event, problem: Problem)
    requires st.saved.None?
    ensures problem in OnEvent(st, event).problems <==>
            || problem in st.problems || (problem == InvalidOffset && event == Marked(BadOffset))
            || (event.Glyphs? && problem == UnmarkedRun(event.page) && st.current == Unmarked)
  {
    match event
    case Glyphs(page, glyphs) =>
    case Marked(mark) =>
      match mark
      case BadOffset =>
      case HeadStart(_) =>
      case HeadEnd =>
      case SetMarker(_) =>
      case NoMark =>
  }

  predicate IsTrouble(events: seq<Event>, k: nat, problem: Problem)
    requires k < |events|
  {
    match problem
    case InvalidOffset => events[k] == Marked(BadOffset)
    case UnmarkedRun(page) => events[k].Glyphs? && events[k].page == page && LastMarker(events[..k]) == Unmarked
  }

  // ---- Streams with replays ----

  /** With its replays deleted a stream repeats no header. */
  lemma {:induction false} ErasedIsFresh(pieces: seq<Piece>)
    requires ArePieces(pieces)
    ensures IsFresh(Stream(WithoutReplays(pieces)))
    ensures forall id :: Marked(HeadStart(id)) in Stream(WithoutReplays(pieces)) ==> Appeared(pieces, id)
  {
    if pieces != [] {
      var init, last := pieces[..|pieces| - 1], pieces[|pieces| - 1];
      ErasedIsFresh(init);
      assert forall id :: Appeared(init, id) ==> Appeared(pieces, id);
      if !(last.Header? && Appeared(init, last.id)) {
        WithoutReplaysLast(pieces);
        FreshMore(Stream(WithoutReplays(init)), last);
        assert (WithoutReplays(init) + [last])[..|WithoutReplays(init)|] == WithoutReplays(init);
        assert last in pieces;
      } else {
        KeptWithout(pieces);
      }
    }
  }

  lemma FreshMore(before: seq<Event>, last: Piece)
    requires IsFresh(before) && IsPiece(last) && (last.Header? ==> Marked(HeadStart(last.id)) !in before)
    ensures IsFresh(before + PieceEvents(last))
    ensures forall id :: Marked(HeadStart(id)) in before + PieceEvents(last) ==>
              Marked(HeadStart(id)) in before || (last.Header? && last.id == id)
  {
    var n, all := |before|, before + PieceEvents(last);
    forall j | n <= j < |all| && (j == n ==> !last.Header?) ensures !IsStart(all[j]) {
      OneStart(last, j - n);
    }
    forall i, j | 0 <= i < j < |all| && IsStart(all[i]) ensures all[j] != all[i] {
      if j < n {
        assert before[j] != before[i];
      }
    }
  }

  lemma OneStart(p: Piece, j: nat)
    requires IsPiece(p) && j < |PieceEvents(p)| && (j == 0 ==> !p.Header?)
    ensures !IsStart(PieceEvents(p)[j])
  {
    if p.Header? {
      var event := if j <= |p.body| then p.body[j - 1] else Marked(HeadEnd);
      assert PieceEvents(p)[j] == event;
      assert event in p.body || event == Marked(HeadEnd);
    }
  }

  /** The clusters of a whole walk: those of the stream without replays, glyph by glyph under the marker set last. */
  lemma WalkGoesByMarkers(pieces: seq<Piece>, k: nat, i: nat)
    requires ArePieces(pieces) && HasNode(Stream(WithoutReplays(pieces)), k, i)
    ensures |Walked(pieces).out| == PlacedCount(Stream(WithoutReplays(pieces)))
    ensures IsPlaced(Walked(pieces).out, Stream(WithoutReplays(pieces)), k, i)
  {
    ReplaysAreErased(pieces);
    ErasedIsFresh(pieces);
    GlyphGoes(Stream(WithoutReplays(pieces)), k, i);
  }

  /** Nor does it complain of anything but what this stream has. */
  lemma ProblemsByMarkers(pieces: seq<Piece>, problem: Problem)
    requires ArePieces(pieces)
    ensures var events := Stream(WithoutReplays(pieces));
            problem in Walked(pieces).problems <==> exists k :: 0 <= k < |events| && IsTrouble(events, k, problem)
  {
    ReplaysAreErased(pieces);
    ErasedIsFresh(pieces);
    ProblemsOfWalk(Stream(WithoutReplays(pieces)), problem);
  }
}
