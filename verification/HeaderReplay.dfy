/** The walk over page frames: markers name the text that follows, and repeated page headers are passed over. */
module HeaderReplay {
  import opened Contracts
  import opened Strings
  import opened TextMap
  import opened Unicode

  // ---- Frames ----

  /** A glyph with its text (absent when its range does not fit the run), source offset and page box. */
  datatype Glyph = Glyph(text: Option<string>, offset: nat, x: real, y: real, width: real, height: real)

  datatype Item =
    | Group(items: seq<Item>)
    | Tag(value: string)
    | Run(glyphs: seq<Glyph>)
    | OtherItem

  // ---- Markers ----

  datatype Marker = Unmarked | Decorative | Node(id: string, byteBase: nat)

  datatype Mark = HeadStart(id: string) | HeadEnd | SetMarker(marker: Marker) | BadOffset | NoMark

  /** The text before and after the first occurrence of the separator. */
  function SplitOnce(s: string, sep: string): Option<(string, string)> {
    if sep <= s then Some(("", s[|sep|..]))
    else if s == [] then None
    else
      match SplitOnce(s[1..], sep)
      case None => None
      case Some(parts) => Some(([s[0]] + parts.0, parts.1))
  }

  /** Decimal digits with an optional plus sign, up to the largest 64-bit value. */
  function ParseUsize(s: string): Option<nat> {
    var digits := if "+" <= s then s[1..] else s;
    if digits == "" || !(forall c :: c in digits ==> IsDigit(c)) then None
    else if Value(digits) >= 0x1_0000_0000_0000_0000 then None
    else Some(Value(digits))
  }

  function ChunkMark(chunk: string): Mark {
    match SplitOnce(chunk, ":node:")
    case None => NoMark
    case Some(parts) =>
      match ParseUsize(parts.0)
      case None => BadOffset
      case Some(offset) => SetMarker(Node(parts.1, offset))
  }

  function ReadMark(value: string): Mark {
    if "repeat-head-start:" <= value then HeadStart(value[|"repeat-head-start:"|..])
    else if "repeat-head-end:" <= value then HeadEnd
    else if "node:" <= value then
      SetMarker(if value[5..] == "!deco" then Decorative else Node(value[5..], 0))
    else if "chunk:" <= value then ChunkMark(value[6..])
    else NoMark
  }

  // ---- Specification: a fold over the events of the frames ----

  datatype Event = Marked(mark: Mark) | Glyphs(page: nat, glyphs: seq<Glyph>)

  datatype Problem = InvalidOffset | UnmarkedRun(page: nat)

  datatype State = State(
    current: Marker, seen: set<string>, saved: Option<Marker>, out: seq<RawCluster>, problems: seq<Problem>)

  const INITIAL: State := State(Unmarked, {}, None, [], [])

  function Events(items: seq<Item>, page: nat): seq<Event> {
    if items == [] then []
    else
      (match items[0]
       case Group(inner) => Events(inner, page)
       case Tag(value) => [Marked(ReadMark(value))]
       case Run(glyphs) => [Glyphs(page, glyphs)]
       case OtherItem => [])
      + Events(items[1..], page)
  }

  function GlyphClusters(glyphs: seq<Glyph>, page: nat, id: string, byteBase: nat): seq<RawCluster> {
    if glyphs == [] then []
    else
      var g := glyphs[0];
      (if g.text.None? then []
       else [RawCluster(id, g.text.value, byteBase + g.offset, page, g.x, g.y, g.width, g.height)])
      + GlyphClusters(glyphs[1..], page, id, byteBase)
  }

  function OnMark(st: State, mark: Mark): State {
    match mark
    case HeadStart(id) =>
      if id in st.seen then st.(saved := Some(st.current), current := Decorative) else st.(seen := st.seen + {id})
    case HeadEnd => if st.saved.Some? then st.(current := st.saved.value, saved := None) else st
    case SetMarker(marker) => if st.saved.Some? then st else st.(current := marker)
    case BadOffset => if st.saved.Some? then st else st.(problems := st.problems + [InvalidOffset])
    case NoMark => st
  }

  function OnEvent(st: State, event: Event): State {
    match event
    case Marked(mark) => OnMark(st, mark)
    case Glyphs(page, glyphs) =>
      match st.current
      case Node(id, byteBase) => st.(out := st.out + GlyphClusters(glyphs, page, id, byteBase))
      case Decorative => st
      case Unmarked => st.(problems := st.problems + [UnmarkedRun(page)])
  }

  function Play(st: State, events: seq<Event>): State {
    if events == [] then st else OnEvent(Play(st, events[..|events| - 1]), events[|events| - 1])
  }

  lemma {:induction false} PlayConcat(st: State, a: seq<Event>, b: seq<Event>)
    ensures Play(st, a + b) == Play(Play(st, a), b)
  {
    if b == [] {
      assert a + b == a;
    } else {
      PlayConcat(st, a, b[..|b| - 1]);
      assert (a + b)[..|a + b| - 1] == a + b[..|b| - 1];
    }
  }

  lemma PlayOne(st: State, event: Event)
    ensures Play(st, [event]) == OnEvent(st, event)
  {
    assert [event][..0] == [];
    assert Play(st, []) == st;
  }

  // ---- The walker ----

  class ClusterWalk {
    var current: Marker
    var seen: set<string>
    var saved: Option<Marker>
    var out: seq<RawCluster>
    var problems: seq<Problem>

    constructor ()
      ensures Now() == INITIAL
    {
      current, seen, saved, out, problems := Unmarked, {}, None, [], [];
    }

    function Now(): State
      reads this
    {
      State(current, seen, saved, out, problems)
    }

    method OnTag(value: string)
      modifies this
      ensures Now() == OnMark(old(Now()), ReadMark(value))
    {
      if "repeat-head-start:" <= value {
        var id := value[|"repeat-head-start:"|..];
        if id in seen {
          saved := Some(current);
          current := Decorative;
        } else {
          seen := seen + {id};
        }
        return;
      }
      if "repeat-head-end:" <= value {
        if saved.Some? {
          current := saved.value;
          saved := None;
        }
        return;
      }
      if saved.Some? {
        return;
      }
      if "node:" <= value {
        current := if value[5..] == "!deco" then Decorative else Node(value[5..], 0);
      } else if "chunk:" <= value {
        var parts := SplitOnce(value[6..], ":node:");
        if parts.Some? {
          var offset := ParseUsize(parts.value.0);
          if offset.Some? {
            current := Node(parts.value.1, offset.value);
          } else {
            problems := problems + [InvalidOffset];
          }
        }
      }
    }

    method OnRun(glyphs: seq<Glyph>, page: nat)
      modifies this
      ensures Now() == OnEvent(old(Now()), Glyphs(page, glyphs))
    {
      match current {
        case Decorative => return;
        case Unmarked =>
          problems := problems + [UnmarkedRun(page)];
          return;
        case Node(id, byteBase) =>
          for i := 0 to |glyphs|
            invariant out + GlyphClusters(glyphs[i..], page, id, byteBase)
                      == old(out) + GlyphClusters(glyphs, page, id, byteBase)
            invariant Now() == old(Now()).(out := out)
          {
            assert glyphs[i..][0] == glyphs[i] && glyphs[i..][1..] == glyphs[i + 1..];
            var g := glyphs[i];
            if g.text.Some? {
              out := out + [RawCluster(id, g.text.value, byteBase + g.offset, page, g.x, g.y, g.width, g.height)];
            }
          }
      }
    }

    method Collect(items: seq<Item>, page: nat)
      modifies this
      ensures Now() == Play(old(Now()), Events(items, page))
      decreases items
    {
      for i := 0 to |items|
        invariant Play(Now(), Events(items[i..], page)) == Play(old(Now()), Events(items, page))
      {
        ghost var before := Now();
        assert items[i..][0] == items[i] && items[i..][1..] == items[i + 1..];
        match items[i] {
          case Group(inner) =>
            Collect(inner, page);
            PlayConcat(before, Events(inner, page), Events(items[i + 1..], page));
          case Tag(value) =>
            OnTag(value);
            PlayOne(before, Marked(ReadMark(value)));
            PlayConcat(before, [Marked(ReadMark(value))], Events(items[i + 1..], page));
          case Run(glyphs) =>
            OnRun(glyphs, page);
            PlayOne(before, Glyphs(page, glyphs));
            PlayConcat(before, [Glyphs(page, glyphs)], Events(items[i + 1..], page));
          case OtherItem =>
            assert [] + Events(items[i + 1..], page) == Events(items[i + 1..], page);
        }
      }
    }

    method CollectPages(pages: seq<seq<Item>>)
      modifies this
      ensures Now() == Play(old(Now()), PageEvents(pages))
    {
      for i := 0 to |pages|
        invariant Now() == Play(old(Now()), PageEvents(pages[..i]))
      {
        assert pages[..i + 1][..i] == pages[..i];
        PlayConcat(old(Now()), PageEvents(pages[..i]), Events(pages[i], i + 1));
        Collect(pages[i], i + 1);
      }
      assert pages[..|pages|] == pages;
    }
  }

  /** All events of the document; pages are numbered from one. */
  function PageEvents(pages: seq<seq<Item>>): seq<Event> {
    if pages == [] then []
    else PageEvents(pages[..|pages| - 1]) + Events(pages[|pages| - 1], |pages|)
  }

  // ---- Streams with paired, non-nested headers ----

  predicate IsHead(event: Event) {
    event.Marked? && (event.mark.HeadStart? || event.mark.HeadEnd?)
  }

  /** Starts and ends alternate, beginning with a start and closing with an end. */
  predicate Paired(events: seq<Event>, open: bool) {
    if events == [] then !open
    else if events[0] == Marked(HeadEnd) then open && Paired(events[1..], false)
    else if IsHead(events[0]) then !open && Paired(events[1..], true)
    else Paired(events[1..], open)
  }

  /** A stream in pieces: a header with its start and end, or a single event outside of headers. */
  datatype Piece = Header(id: string, body: seq<Event>) | Plain(event: Event)

  predicate IsPiece(p: Piece) {
    match p
    case Header(_, body) => forall e :: e in body ==> !IsHead(e)
    case Plain(event) => !IsHead(event)
  }

  function PieceEvents(p: Piece): seq<Event> {
    match p
    case Header(id, body) => [Marked(HeadStart(id))] + body + [Marked(HeadEnd)]
    case Plain(event) => [event]
  }

  function Stream(pieces: seq<Piece>): seq<Event> {
    if pieces == [] then [] else Stream(pieces[..|pieces| - 1]) + PieceEvents(pieces[|pieces| - 1])
  }

  predicate ArePieces(pieces: seq<Piece>) {
    forall p :: p in pieces ==> IsPiece(p)
  }

  predicate Appeared(pieces: seq<Piece>, id: string) {
    exists p :: p in pieces && p.Header? && p.id == id
  }

  /** Every second and later occurrence of a header is deleted. */
  function WithoutReplays(pieces: seq<Piece>): seq<Piece> {
    if pieces == [] then []
    else
      var init, last := pieces[..|pieces| - 1], pieces[|pieces| - 1];
      WithoutReplays(init) + if last.Header? && Appeared(init, last.id) then [] else [last]
  }

  // ---- Replays change nothing ----

  /** While a marker is saved, an event outside the header marks changes nothing. */
  lemma {:induction false} SkippedBody(st: State, body: seq<Event>)
    requires st.saved.Some? && st.current == Decorative && forall e :: e in body ==> !IsHead(e)
    ensures Play(st, body) == st
  {
    if body != [] {
      SkippedBody(st, body[..|body| - 1]);
      assert body[|body| - 1] in body;
    }
  }

  /** A header seen before leaves the whole state, and so the current marker, as it was. */
  lemma ReplayIsSkipped(st: State, id: string, body: seq<Event>)
    requires st.saved.None? && id in st.seen && IsPiece(Header(id, body))
    ensures Play(st, PieceEvents(Header(id, body))) == st
  {
    var start, end := Marked(HeadStart(id)), Marked(HeadEnd);
    var inside := OnEvent(st, start);
    PlayOne(st, start);
    PlayConcat(st, [start], body);
    SkippedBody(inside, body);
    PlayConcat(st, [start] + body, [end]);
    PlayOne(inside, end);
  }

  /** Outside of a replay, events other than header marks do not touch the replay state. */
  lemma {:induction false} BodyKeepsReplayState(st: State, body: seq<Event>)
    requires st.saved.None? && forall e :: e in body ==> !IsHead(e)
    ensures Play(st, body).saved.None? && Play(st, body).seen == st.seen
  {
    if body != [] {
      BodyKeepsReplayState(st, body[..|body| - 1]);
      assert body[|body| - 1] in body;
    }
  }

  lemma FirstHeaderIsSeen(st: State, id: string, body: seq<Event>)
    requires st.saved.None? && id !in st.seen && IsPiece(Header(id, body))
    ensures var after := Play(st, PieceEvents(Header(id, body)));
            after.saved.None? && after.seen == st.seen + {id}
  {
    var start, end := Marked(HeadStart(id)), Marked(HeadEnd);
    var inside := OnEvent(st, start);
    PlayOne(st, start);
    PlayConcat(st, [start], body);
    BodyKeepsReplayState(inside, body);
    PlayConcat(st, [start] + body, [end]);
    PlayOne(Play(inside, body), end);
  }

  ghost predicate SeenExactly(st: State, pieces: seq<Piece>) {
    st.saved.None? && forall id :: id in st.seen <==> Appeared(pieces, id)
  }

  lemma PieceStep(st: State, init: seq<Piece>, last: Piece)
    requires SeenExactly(st, init) && IsPiece(last)
    ensures var after := Play(st, PieceEvents(last));
            after.saved.None? && after.seen == st.seen + if last.Header? then {last.id} else {}
    ensures last.Header? && Appeared(init, last.id) ==> Play(st, PieceEvents(last)) == st
  {
    match last {
      case Plain(event) =>
        PlayOne(st, event);
      case Header(id, body) =>
        if id in st.seen {
          ReplayIsSkipped(st, id, body);
        } else {
          FirstHeaderIsSeen(st, id, body);
        }
    }
  }

  lemma SeenNext(st: State, after: State, pieces: seq<Piece>)
    requires pieces != [] && SeenExactly(st, pieces[..|pieces| - 1]) && after.saved.None?
    requires var last := pieces[|pieces| - 1]; after.seen == st.seen + if last.Header? then {last.id} else {}
    ensures SeenExactly(after, pieces)
  {
    forall id ensures id in after.seen <==> Appeared(pieces, id) {
      AppearedLast(pieces, id);
    }
  }

  lemma AppearedLast(pieces: seq<Piece>, id: string)
    requires pieces != []
    ensures var init, last := pieces[..|pieces| - 1], pieces[|pieces| - 1];
            Appeared(pieces, id) <==> Appeared(init, id) || (last.Header? && last.id == id)
  {
    var init, last := pieces[..|pieces| - 1], pieces[|pieces| - 1];
    assert pieces == init + [last];
    if Appeared(pieces, id) {
      var p :| p in pieces && p.Header? && p.id == id;
      assert p in init || p == last;
    }
  }

  /** The whole walk over a stream, from the start. */
  function Walked(pieces: seq<Piece>): State {
    Play(INITIAL, Stream(pieces))
  }

  /** Walking the stream gives the same clusters, problems and marker as walking it with all replays deleted. */
  lemma {:induction false} ReplaysAreErased(pieces: seq<Piece>)
    requires ArePieces(pieces)
    ensures Walked(pieces) == Walked(WithoutReplays(pieces))
    ensures SeenExactly(Walked(pieces), pieces)
  {
    if pieces != [] {
      ReplaysAreErased(pieces[..|pieces| - 1]);
      ErasedStep(pieces);
    }
  }

  lemma ErasedStep(pieces: seq<Piece>)
    requires pieces != [] && IsPiece(pieces[|pieces| - 1])
    requires var init := pieces[..|pieces| - 1];
             SeenExactly(Walked(init), init) && Walked(init) == Walked(WithoutReplays(init))
    ensures Walked(pieces) == Walked(WithoutReplays(pieces))
    ensures SeenExactly(Walked(pieces), pieces)
  {
    var init, last := pieces[..|pieces| - 1], pieces[|pieces| - 1];
    var before := Walked(init);
    PieceStep(before, init, last);
    WalkedLast(pieces);
    SeenNext(before, Walked(pieces), pieces);
    if last.Header? && Appeared(init, last.id) {
      KeptWithout(pieces);
    } else {
      WithoutReplaysLast(pieces);
      WalkedMore(WithoutReplays(init), last);
    }
  }

  lemma KeptWithout(pieces: seq<Piece>)
    requires pieces != [] && pieces[|pieces| - 1].Header? && Appeared(pieces[..|pieces| - 1], pieces[|pieces| - 1].id)
    ensures WithoutReplays(pieces) == WithoutReplays(pieces[..|pieces| - 1])
  {
  }

  lemma WithoutReplaysLast(pieces: seq<Piece>)
    requires pieces != []
    requires !(pieces[|pieces| - 1].Header? && Appeared(pieces[..|pieces| - 1], pieces[|pieces| - 1].id))
    ensures WithoutReplays(pieces) == WithoutReplays(pieces[..|pieces| - 1]) + [pieces[|pieces| - 1]]
  {
  }

  lemma WalkedLast(pieces: seq<Piece>)
    requires pieces != []
    ensures Walked(pieces) == Play(Walked(pieces[..|pieces| - 1]), PieceEvents(pieces[|pieces| - 1]))
  {
    PlayConcat(INITIAL, Stream(pieces[..|pieces| - 1]), PieceEvents(pieces[|pieces| - 1]));
  }

  lemma WalkedMore(pieces: seq<Piece>, last: Piece)
    ensures Walked(pieces + [last]) == Play(Walked(pieces), PieceEvents(last))
  {
    assert (pieces + [last])[..|pieces|] == pieces;
    WalkedLast(pieces + [last]);
  }

  /** Every paired stream is such a sequence of pieces. */
  lemma {:induction false} PairedSplits(events: seq<Event>) returns (pieces: seq<Piece>)
    requires Paired(events, false)
    ensures ArePieces(pieces) && Stream(pieces) == events
    decreases |events|
  {
    if events == [] {
      pieces := [];
    } else if IsHead(events[0]) {
      var body, rest := HeaderSplits(events[1..]);
      var more := PairedSplits(rest);
      var first := Header(events[0].mark.id, body);
      pieces := [first] + more;
      StreamPrepend(first, more);
      assert events == PieceEvents(first) + rest;
    } else {
      var more := PairedSplits(events[1..]);
      pieces := [Plain(events[0])] + more;
      StreamPrepend(Plain(events[0]), more);
      assert events == [events[0]] + events[1..];
    }
  }

  lemma {:induction false} HeaderSplits(events: seq<Event>) returns (body: seq<Event>, rest: seq<Event>)
    requires Paired(events, true)
    ensures (forall e :: e in body ==> !IsHead(e)) && Paired(rest, false)
    ensures events == body + [Marked(HeadEnd)] + rest
  {
    if events[0] == Marked(HeadEnd) {
      body, rest := [], events[1..];
    } else {
      body, rest := HeaderSplits(events[1..]);
      body := [events[0]] + body;
      assert events == [events[0]] + events[1..];
    }
  }

  lemma {:induction false} StreamPrepend(first: Piece, pieces: seq<Piece>)
    ensures Stream([first] + pieces) == PieceEvents(first) + Stream(pieces)
  {
    var all := [first] + pieces;
    if pieces == [] {
      StreamNil(first);
      assert all == [first];
    } else {
      var init, last := pieces[..|pieces| - 1], pieces[|pieces| - 1];
      assert all[..|all| - 1] == [first] + init && all[|all| - 1] == last;
      StreamPrepend(first, init);
      Associates(PieceEvents(first), Stream(init), PieceEvents(last));
    }
  }

  lemma StreamNil(piece: Piece)
    ensures Stream([piece]) == PieceEvents(piece) + Stream([])
  {
    assert [piece][..0] == [];
    assert Stream([]) + PieceEvents(piece) == PieceEvents(piece) + Stream([]);
  }

  // ---- One header inside another ----

  /** A header that starts inside another one and ends before it. */
  function Nested(outer: string, inner: string, before: seq<Event>, inside: seq<Event>, behind: seq<Event>): seq<Event> {
    [Marked(HeadStart(outer))] + before + [Marked(HeadStart(inner))] + inside + [Marked(HeadEnd)] + behind + [Marked(HeadEnd)]
  }

  /** The same with every header deleted that was seen before. */
  function WithoutSeen(seen: set<string>, outer: string, inner: string,
                       before: seq<Event>, inside: seq<Event>, behind: seq<Event>): seq<Event>
  {
    if outer in seen then []
    else if inner in seen + {outer} then [Marked(HeadStart(outer))] + before + behind + [Marked(HeadEnd)]
    else Nested(outer, inner, before, inside, behind)
  }

  predicate IsBody(events: seq<Event>) {
    forall e :: e in events ==> !IsHead(e)
  }

  /** What a body does on its own, starting from a marker. */
  function Alone(marker: Marker, body: seq<Event>): State {
    Play(State(marker, {}, None, [], []), body)
  }

  /** Outside of replays a body only adds what it shows and moves the marker. */
  lemma {:induction false} BodyAdds(st: State, body: seq<Event>)
    requires st.saved.None? && IsBody(body)
    ensures var r := Alone(st.current, body);
            && r.saved.None?
            && Play(st, body) == st.(current := r.current, out := st.out + r.out, problems := st.problems + r.problems)
  {
    if body != [] {
      var init, last := body[..|body| - 1], body[|body| - 1];
      BodyAdds(st, init);
      assert last in body;
      EventAdds(Alone(st.current, init), Play(st, init), st, last);
    }
  }

  lemma EventAdds(r: State, after: State, st: State, event: Event)
    requires !IsHead(event) && r.saved.None? && st.saved.None?
    requires after == st.(current := r.current, out := st.out + r.out, problems := st.problems + r.problems)
    ensures var r' := OnEvent(r, event);
            && r'.saved.None?
            && OnEvent(after, event) == st.(current := r'.current, out := st.out + r'.out, problems := st.problems + r'.problems)
  {
  }

  lemma PlayThree(st: State, a: seq<Event>, b: seq<Event>, c: seq<Event>)
    ensures Play(st, a + b + c) == Play(Play(Play(st, a), b), c)
  {
    PlayConcat(st, a + b, c);
    PlayConcat(st, a, b);
  }

  /** Up to the end of the inner header, and then what is behind it. */
  lemma NestedInParts(st: State, outer: string, inner: string, before: seq<Event>, inside: seq<Event>, behind: seq<Event>)
    ensures var start := Play(OnEvent(st, Marked(HeadStart(outer))), before);
            var end := OnEvent(Play(OnEvent(start, Marked(HeadStart(inner))), inside), Marked(HeadEnd));
            Play(st, Nested(outer, inner, before, inside, behind)) == OnEvent(Play(end, behind), Marked(HeadEnd))
  {
    var first := [Marked(HeadStart(outer))] + before + [Marked(HeadStart(inner))];
    var second := first + inside + [Marked(HeadEnd)];
    PlayThree(st, [Marked(HeadStart(outer))], before, [Marked(HeadStart(inner))]);
    PlayOne(st, Marked(HeadStart(outer)));
    var start := Play(OnEvent(st, Marked(HeadStart(outer))), before);
    PlayOne(start, Marked(HeadStart(inner)));
    PlayThree(st, first, inside, [Marked(HeadEnd)]);
    PlayOne(Play(Play(st, first), inside), Marked(HeadEnd));
    PlayThree(st, second, behind, [Marked(HeadEnd)]);
    PlayOne(Play(Play(st, second), behind), Marked(HeadEnd));
  }

  /** Inside an outer header seen before, what is behind the inner header is walked after all, from the wrong marker if both were seen. */
  lemma NestedInReplay(st: State, outer: string, inner: string, before: seq<Event>, inside: seq<Event>, behind: seq<Event>)
    requires st.saved.None? && IsBody(before) && IsBody(inside) && IsBody(behind) && outer in st.seen
    ensures Play(st, Nested(outer, inner, before, inside, behind)) ==
            if inner in st.seen then Play(st.(current := Decorative), behind) else Play(st.(seen := st.seen + {inner}), behind)
  {
    NestedInParts(st, outer, inner, before, inside, behind);
    var skipping := OnEvent(st, Marked(HeadStart(outer)));
    SkippedBody(skipping, before);
    SkippedBody(OnEvent(skipping, Marked(HeadStart(inner))), inside);
    var end := if inner in st.seen then st.(current := Decorative) else st.(seen := st.seen + {inner});
    BodyKeepsReplayState(end, behind);
  }

  /** Inside an outer header seen for the first time, the inner one is walked or skipped as if it stood alone. */
  lemma NestedInFirst(st: State, outer: string, inner: string, before: seq<Event>, inside: seq<Event>, behind: seq<Event>)
    requires st.saved.None? && IsBody(before) && IsBody(inside) && IsBody(behind) && outer !in st.seen
    ensures Play(st, Nested(outer, inner, before, inside, behind))
            == Play(st, WithoutSeen(st.seen, outer, inner, before, inside, behind))
  {
    if inner in st.seen + {outer} {
      NestedInParts(st, outer, inner, before, inside, behind);
      var walking := OnEvent(st, Marked(HeadStart(outer)));
      BodyKeepsReplayState(walking, before);
      var start := Play(walking, before);
      SkippedBody(OnEvent(start, Marked(HeadStart(inner))), inside);
      PlayThree(st, [Marked(HeadStart(outer))] + before, behind, [Marked(HeadEnd)]);
      PlayConcat(st, [Marked(HeadStart(outer))], before);
      PlayOne(st, Marked(HeadStart(outer)));
      PlayOne(Play(start, behind), Marked(HeadEnd));
    }
  }

  /**
   * One level of nesting behaves as if the headers seen before were deleted, if and only if the outer header is new,
   * or both were seen and what is behind the inner one shows nothing and ends on the marker that stood before.
   */
  lemma NestedIsErasedExactlyWhen(st: State, outer: string, inner: string, before: seq<Event>, inside: seq<Event>, behind: seq<Event>)
    requires st.saved.None? && IsBody(before) && IsBody(inside) && IsBody(behind)
    ensures var alone := Alone(Decorative, behind);
            Play(st, Nested(outer, inner, before, inside, behind))
            == Play(st, WithoutSeen(st.seen, outer, inner, before, inside, behind))
            <==> outer !in st.seen
                 || (inner in st.seen && alone.out == [] && alone.problems == [] && alone.current == st.current)
  {
    if outer in st.seen {
      NestedInReplay(st, outer, inner, before, inside, behind);
      BodyAdds(st.(current := Decorative), behind);
      BodyAdds(st.(seen := st.seen + {inner}), behind);
    } else {
      NestedInFirst(st, outer, inner, before, inside, behind);
    }
  }

  /** With nothing behind the inner header, the marker is lost exactly when both were seen and it was not decorative. */
  lemma NestedLosesTheMarkerExactlyWhen(st: State, outer: string, inner: string, before: seq<Event>, inside: seq<Event>)
    requires st.saved.None? && IsBody(before) && IsBody(inside) && outer in st.seen
    ensures Play(st, Nested(outer, inner, before, inside, [])).current == st.current <==>
            inner !in st.seen || st.current == Decorative
  {
    NestedInReplay(st, outer, inner, before, inside, []);
  }

  // ---- A document in which a nested replay loses text ----

  /** Both headers, the marker of the body, the two headers again, one inside the other, and a run of the body. */
  function LosingStart(outer: string, inner: string, id: string): seq<Event> {
    PieceEvents(Header(outer, [])) + PieceEvents(Header(inner, [])) + [Marked(SetMarker(Node(id, 0)))]
  }

  lemma BothAreSeen(outer: string, inner: string, id: string)
    requires outer != inner
    ensures Play(INITIAL, LosingStart(outer, inner, id)) == INITIAL.(current := Node(id, 0), seen := {outer, inner})
  {
    var first := Play(INITIAL, PieceEvents(Header(outer, [])));
    HeaderAlone(INITIAL, outer);
    HeaderAlone(first, inner);
    PlayThree(INITIAL, PieceEvents(Header(outer, [])), PieceEvents(Header(inner, [])), [Marked(SetMarker(Node(id, 0)))]);
    PlayOne(Play(first, PieceEvents(Header(inner, []))), Marked(SetMarker(Node(id, 0))));
  }

  lemma HeaderAlone(st: State, id: string)
    requires st.saved.None? && id !in st.seen
    ensures Play(st, PieceEvents(Header(id, []))) == st.(seen := st.seen + {id})
  {
    PlayThree(st, [Marked(HeadStart(id))], [], [Marked(HeadEnd)]);
    PlayOne(st, Marked(HeadStart(id)));
    PlayOne(OnEvent(st, Marked(HeadStart(id))), Marked(HeadEnd));
  }

  /** From the start of a document: the run's cluster is there when the replays are deleted, and lost when they are walked. */
  lemma NestedReplayLosesText(outer: string, inner: string, id: string, page: nat, glyph: Glyph)
    requires outer != inner && glyph.text.Some?
    ensures var start, run := LosingStart(outer, inner, id), [Glyphs(page, [glyph])];
            && |Play(INITIAL, start + run).out| == 1
            && Play(INITIAL, start + Nested(outer, inner, [], [], []) + run).out == []
  {
    var start, nested, run := LosingStart(outer, inner, id), Nested(outer, inner, [], [], []), [Glyphs(page, [glyph])];
    BothAreSeen(outer, inner, id);
    var st := Play(INITIAL, start);
    NestedInReplay(st, outer, inner, [], [], []);
    PlayConcat(INITIAL, start, run);
    PlayThree(INITIAL, start, nested, run);
    PlayOne(st, Glyphs(page, [glyph]));
    PlayOne(st.(current := Decorative), Glyphs(page, [glyph]));
    assert GlyphClusters([glyph][1..], page, id, 0) == [];
  }
}
