/** When a single trip through HTML is enough: exactly when no marked empty text stands between two unmarked texts. */
module OneTrip {
  import opened Contracts
  import opened Strings
  import opened Unicode
  import opened RichText
  import opened RichTextWriter
  import opened RichTextRoundTrip
  import opened RichTextSettles

  // ---- Gaps ----

  predicate IsEmptyText(x: Inline) {
    x.Text? && x.text == ""
  }

  predicate IsFullPlain(x: Inline) {
    IsPlain(x) && x.text != ""
  }

  /** Between two unmarked texts there is nothing but empty texts, and at least one of these has a mark. */
  predicate IsGap(xs: seq<Inline>, i: nat, j: nat) {
    && i < j < |xs| && IsFullPlain(xs[i]) && IsFullPlain(xs[j])
    && (forall k :: i < k < j ==> IsEmptyText(xs[k]))
    && exists k :: i < k < j && xs[k].marks != []
  }

  /** Somewhere in the run, or in the text of one of its links, there is such a gap. */
  predicate HasGap(xs: seq<Inline>)
    decreases xs
  {
    || (exists i, j :: 0 <= i < |xs| && 0 <= j < |xs| && IsGap(xs, i, j))
    || (exists k :: 0 <= k < |xs| && xs[k].Link? && HasGap(xs[k].children))
  }

  predicate BlockHasGap(block: RichBlock)
    decreases block, 0
  {
    match block
    case Paragraph(xs) => HasGap(xs)
    case List(_, _, items) => ItemsHaveGap(items)
  }

  predicate ItemsHaveGap(items: seq<ListItem>)
    decreases items, 1
  {
    items != [] && (HaveGap(items[0].blocks) || ItemsHaveGap(items[1..]))
  }

  predicate HaveGap(blocks: seq<RichBlock>)
    decreases blocks, 1
  {
    blocks != [] && (BlockHasGap(blocks[0]) || HaveGap(blocks[1..]))
  }

  // ---- The same gaps, found from the front ----

  /** Where the first text or other inline stands that is not empty. */
  function LeadAt(xs: seq<Inline>): (n: nat)
    ensures n <= |xs| && forall k :: 0 <= k < n ==> IsEmptyText(xs[k])
    ensures n < |xs| ==> !IsEmptyText(xs[n])
  {
    if xs == [] || !IsEmptyText(xs[0]) then 0 else 1 + LeadAt(xs[1..])
  }

  predicate LeadsPlain(xs: seq<Inline>) {
    LeadAt(xs) < |xs| && IsPlain(xs[LeadAt(xs)])
  }

  /** An unmarked text is followed by another one, but the written form does not join them. */
  predicate OpensGap(xs: seq<Inline>) {
    xs != [] && IsFullPlain(xs[0]) && LeadsPlain(xs[1..]) && !StartsPlain(xs[1..])
  }

  predicate Gapped(xs: seq<Inline>)
    decreases xs
  {
    xs != [] && (OpensGap(xs) || (xs[0].Link? && Gapped(xs[0].children)) || Gapped(xs[1..]))
  }

  lemma {:induction false} StartsPlainMeans(xs: seq<Inline>)
    ensures StartsPlain(xs) <==> LeadsPlain(xs) && forall k :: 0 <= k < LeadAt(xs) ==> xs[k].marks == []
  {
    if xs != [] && IsEmptyText(xs[0]) {
      StartsPlainMeans(xs[1..]);
      assert forall k :: 1 <= k <= LeadAt(xs[1..]) ==> xs[k] == xs[1..][k - 1];
    }
  }

  lemma OpensGapMeans(xs: seq<Inline>)
    ensures OpensGap(xs) <==> exists j :: 0 <= j < |xs| && IsGap(xs, 0, j)
  {
    if xs != [] {
      var ys := xs[1..];
      var n := LeadAt(ys);
      StartsPlainMeans(ys);
      assert forall k :: 0 <= k < |ys| ==> ys[k] == xs[k + 1];
      if OpensGap(xs) {
        var k :| 0 <= k < n && ys[k].marks != [];
        assert xs[k + 1].marks != [];
        assert IsGap(xs, 0, n + 1);
      }
      if j :| 0 <= j < |xs| && IsGap(xs, 0, j) {
        GapIsAtLead(xs, j);
      }
    }
  }

  lemma GapIsAtLead(xs: seq<Inline>, j: nat)
    requires IsGap(xs, 0, j)
    ensures OpensGap(xs)
  {
    var ys := xs[1..];
    assert forall k :: 0 <= k < |ys| ==> ys[k] == xs[k + 1];
    assert !IsEmptyText(ys[j - 1]);
    assert LeadAt(ys) == j - 1;
    var k :| 0 < k < j && xs[k].marks != [];
    assert ys[k - 1].marks != [];
    StartsPlainMeans(ys);
  }

  lemma GapMoves(xs: seq<Inline>, i: nat, j: nat)
    requires xs != []
    ensures IsGap(xs[1..], i, j) <==> IsGap(xs, i + 1, j + 1)
  {
    var ys := xs[1..];
    assert forall k :: 0 <= k < |ys| ==> ys[k] == xs[k + 1];
    if IsGap(ys, i, j) {
      var k :| i < k < j && ys[k].marks != [];
      assert xs[k + 1].marks != [];
    }
    if IsGap(xs, i + 1, j + 1) {
      var k :| i + 1 < k < j + 1 && xs[k].marks != [];
      assert ys[k - 1].marks != [];
    }
  }

  lemma HasGapCons(xs: seq<Inline>)
    requires xs != []
    ensures HasGap(xs) <==> OpensGap(xs) || (xs[0].Link? && HasGap(xs[0].children)) || HasGap(xs[1..])
  {
    var ys := xs[1..];
    assert forall k :: 0 <= k < |ys| ==> ys[k] == xs[k + 1];
    OpensGapMeans(xs);
    if i, j :| 0 <= i < |xs| && 0 <= j < |xs| && IsGap(xs, i, j) {
      if i > 0 {
        GapMoves(xs, i - 1, j - 1);
      }
    }
    if i, j :| 0 <= i < |ys| && 0 <= j < |ys| && IsGap(ys, i, j) {
      GapMoves(xs, i, j);
      assert IsGap(xs, i + 1, j + 1);
    }
    if k :| 0 <= k < |xs| && xs[k].Link? && HasGap(xs[k].children) {
      assert k > 0 ==> ys[k - 1].Link? && HasGap(ys[k - 1].children);
    }
    if k :| 0 <= k < |ys| && ys[k].Link? && HasGap(ys[k].children) {
      assert xs[k + 1].Link? && HasGap(xs[k + 1].children);
    }
  }

  lemma {:induction false} GappedMeans(xs: seq<Inline>)
    ensures Gapped(xs) <==> HasGap(xs)
    decreases xs
  {
    if xs != [] {
      HasGapCons(xs);
      GappedMeans(xs[1..]);
      if xs[0].Link? {
        GappedMeans(xs[0].children);
      }
    }
  }

  // ---- Reading back gives the normal form exactly without gaps ----

  lemma {:induction false} LeadIsRead(xs: seq<Inline>)
    ensures ReadBack(xs) != [] && IsPlain(ReadBack(xs)[0]) <==> LeadsPlain(xs)
  {
    if xs != [] {
      if IsEmptyText(xs[0]) {
        LeadIsRead(xs[1..]);
        assert LeadAt(xs) == 1 + LeadAt(xs[1..]);
      } else if !(IsPlain(xs[0]) && StartsPlain(xs[1..])) {
        assert ReadBack(xs) == OneReadBack(xs[0]) + ReadBack(xs[1..]);
        SamePlain(xs[0]);
      }
    }
  }

  lemma SamePlain(x: Inline)
    requires !IsEmptyText(x)
    ensures |OneReadBack(x)| == 1 && (IsPlain(OneReadBack(x)[0]) <==> IsPlain(x))
  {
    if x.Text? {
      InOrderSet(MarkSet(x.marks));
      if x.marks != [] {
        assert x.marks[0] in MarkSet(x.marks) && x.marks[0] in MarkSet(InOrder(MarkSet(x.marks)));
      } else {
        assert MarkSet(x.marks) == {};
      }
    }
  }

  lemma {:induction false} OneIsNormal(x: Inline)
    requires !IsEmptyText(x)
    ensures |OneReadBack(x)| == 1
    ensures IsNormalInline(OneReadBack(x)[0]) <==> !(x.Link? && Gapped(x.children))
    decreases x, 0
  {
    match x
    case Break =>
    case Link(_, children) => NormalExactlyWithoutGap(children);
    case Text(_, marks) => InOrderSet(MarkSet(marks));
  }

  lemma MergedIsNormal(text: string, rest: seq<Inline>)
    requires text != "" && rest != [] && IsPlain(rest[0]) && AreFilled(rest)
    ensures IsNormal([Text(text + rest[0].text, [])] + rest[1..]) <==> IsNormal(rest)
  {
    var merged := [Text(text + rest[0].text, [])] + rest[1..];
    assert merged[1..] == rest[1..];
    NoMarks();
  }

  lemma ConsIsNormal(x: Inline, rest: seq<Inline>)
    ensures IsNormal([x] + rest) <==> IsNormalInline(x) && IsNormal(rest) && !(IsPlain(x) && rest != [] && IsPlain(rest[0]))
  {
    assert ([x] + rest)[1..] == rest;
  }

  lemma {:induction false} NormalExactlyWithoutGap(xs: seq<Inline>)
    ensures IsNormal(ReadBack(xs)) <==> !Gapped(xs)
    decreases xs, 1
  {
    if xs != [] {
      var x, ys := xs[0], xs[1..];
      NormalExactlyWithoutGap(ys);
      if !IsEmptyText(x) {
        if IsPlain(x) && StartsPlain(ys) {
          ReadBackIsFilled(ys);
          MergedIsNormal(x.text, ReadBack(ys));
        } else {
          OneIsNormal(x);
          SamePlain(x);
          LeadIsRead(ys);
          ConsIsNormal(OneReadBack(x)[0], ReadBack(ys));
          assert ReadBack(xs) == [OneReadBack(x)[0]] + ReadBack(ys);
        }
      }
    }
  }

  lemma {:induction false} BlockIsNormalExactly(block: RichBlock)
    ensures IsNormalBlock(BlockReadBack(block)) <==> !BlockHasGap(block)
    decreases block, 0
  {
    match block
    case Paragraph(xs) =>
      NormalExactlyWithoutGap(xs);
      GappedMeans(xs);
    case List(_, _, items) => ItemsAreNormalExactly(items);
  }

  lemma {:induction false} ItemsAreNormalExactly(items: seq<ListItem>)
    ensures AreNormalItems(ItemsReadBack(items)) <==> !ItemsHaveGap(items)
    decreases items, 1
  {
    if items != [] {
      BlocksAreNormalExactly(items[0].blocks);
      ItemsAreNormalExactly(items[1..]);
      EmptyParagraphIsNormal();
      assert ItemsReadBack(items)[1..] == ItemsReadBack(items[1..]);
    }
  }

  lemma EmptyParagraphIsNormal()
    ensures AreNormalBlocks([Paragraph([])])
  {
    assert [Paragraph([])][1..] == [] && IsNormalBlock(Paragraph([]));
  }

  lemma {:induction false} BlocksAreNormalExactly(blocks: seq<RichBlock>)
    ensures AreNormalBlocks(BlocksReadBack(blocks)) <==> !HaveGap(blocks)
    decreases blocks, 1
  {
    if blocks != [] {
      BlockIsNormalExactly(blocks[0]);
      BlocksAreNormalExactly(blocks[1..]);
      assert BlocksReadBack(blocks)[1..] == BlocksReadBack(blocks[1..]);
    }
  }

  // ---- Trips ----

  /**
   * For every list whose first trip is complete: what comes back is in normal form, and a complete second trip
   * returns the same, if and only if the list has no gap.
   */
  lemma OneTripSettlesExactlyWhen(blocks: seq<RichBlock>)
    requires RenderBlocks(blocks).Ok? && AreFlat(blocks) && Trip(blocks).complete
    ensures AreNormalBlocks(Trip(blocks).blocks) <==> !HaveGap(blocks)
    ensures RenderBlocks(Trip(blocks).blocks).Ok?
    ensures Trip(Trip(blocks).blocks).complete ==> (Trip(Trip(blocks).blocks).blocks == Trip(blocks).blocks <==> !HaveGap(blocks))
  {
    ReadsBack(blocks);
    BlocksAreNormalExactly(blocks);
    CanGoAgain(blocks);
    ReadsBack(Trip(blocks).blocks);
    BlocksAreFixed(Trip(blocks).blocks);
  }

  // ---- A list that needs two trips ----

  const APART: seq<RichBlock> := [Paragraph([Text("a", []), Text("", [Bold]), Text("b", [])])]
  const TOUCHING: seq<RichBlock> := [Paragraph([Text("a", []), Text("b", [])])]
  const JOINED: seq<RichBlock> := [Paragraph([Text("ab", [])])]

  lemma {:induction false} UnitsBound(s: string)
    ensures Units(s) <= 2 * |s|
  {
    if s != [] {
      UnitsBound(s[..|s| - 1]);
    }
  }

  /** A paragraph of few short texts is written, fits and is read back completely. */
  lemma ShortTrip(xs: seq<Inline>, html: string)
    requires Writes(xs, html) && |html| <= 100 && FitsInlines(xs, 1) && forall x :: x in xs ==> x.Text?
    ensures RenderBlocks([Paragraph(xs)]).Ok? && AreFlat([Paragraph(xs)])
    ensures Trip([Paragraph(xs)]).complete && Trip([Paragraph(xs)]).blocks == [Paragraph(ReadBack(xs))]
  {
    var blocks := [Paragraph(xs)];
    assert blocks[1..] == [];
    assert RenderBlock(blocks[0]) == Ok("<p>" + html + "</p>");
    assert RenderBlocks(blocks) == Ok("<p>" + html + "</p>" + "");
    UnitsBound(Html(blocks));
    assert BlocksReadBack(blocks) == [BlockReadBack(blocks[0])] + BlocksReadBack([]);
    ReadsBack(blocks);
  }

  lemma OneText(text: string, marks: seq<InlineMark>, rest: seq<Inline>, html: string)
    requires Writes(rest, html) && |MarkSet(marks)| == |marks|
    ensures Writes([Text(text, marks)] + rest, TextHtml(text, marks) + html)
  {
    WritesCons(Text(text, marks), rest, TextHtml(text, marks), html);
  }

  lemma LetterIsShort(s: string)
    requires |s| <= 2 && forall c :: c in s ==> IsDigit(c) || 'a' <= c <= 'z'
    ensures |TextHtml(s, [])| <= 2
  {
    PlainHtml(s);
    NothingToReplace(s, '&', "&amp;");
    NothingToReplace(s, '<', "&lt;");
    NothingToReplace(s, '>', "&gt;");
    NothingToReplace(s, '"', "&quot;");
    NothingToReplace(s, '\'', "&#39;");
  }

  lemma EmptyBoldIsShort()
    ensures |TextHtml("", [Bold])| <= 10 && |MarkSet([Bold])| == 1
  {
    assert MarkSet([Bold]) == {Bold};
    assert EscapeHtml("") == "";
    assert "<" + "b" + ">" + "" + "</" + "b" + ">" == "<b></b>";
  }

  lemma FitsShort(text: string, marks: seq<InlineMark>, rest: seq<Inline>)
    requires |marks| <= 1 && FitsInlines(rest, 1)
    ensures FitsInlines([Text(text, marks)] + rest, 1)
  {
    FitsCons(Text(text, marks), rest, 1);
  }

  predicate IsShort(xs: seq<Inline>, html: string) {
    Writes(xs, html) && FitsInlines(xs, 1) && forall x :: x in xs ==> x.Text?
  }

  lemma ShortCons(text: string, marks: seq<InlineMark>, rest: seq<Inline>, html: string)
    requires IsShort(rest, html) && |marks| <= 1 && |MarkSet(marks)| == |marks|
    ensures IsShort([Text(text, marks)] + rest, TextHtml(text, marks) + html)
  {
    OneText(text, marks, rest, html);
    FitsShort(text, marks, rest);
  }

  lemma LastIsShort() returns (html: string)
    ensures IsShort([Text("b", [])], html) && |html| <= 2
  {
    NoMarks();
    LetterIsShort("b");
    ShortCons("b", [], [], "");
    assert [Text("b", [])] + [] == [Text("b", [])];
    html := TextHtml("b", []) + "";
  }

  lemma TouchingIsShort() returns (html: string)
    ensures IsShort([Text("a", []), Text("b", [])], html) && |html| <= 4
  {
    var last := LastIsShort();
    NoMarks();
    LetterIsShort("a");
    ShortCons("a", [], [Text("b", [])], last);
    assert [Text("a", [])] + [Text("b", [])] == [Text("a", []), Text("b", [])];
    html := TextHtml("a", []) + last;
  }

  lemma ApartIsShort() returns (html: string)
    ensures IsShort([Text("a", []), Text("", [Bold]), Text("b", [])], html) && |html| <= 14
  {
    var last := LastIsShort();
    NoMarks();
    LetterIsShort("a");
    EmptyBoldIsShort();
    var b := [Text("", [Bold])] + [Text("b", [])];
    ShortCons("", [Bold], [Text("b", [])], last);
    ShortCons("a", [], b, TextHtml("", [Bold]) + last);
    assert [Text("a", [])] + b == [Text("a", []), Text("", [Bold]), Text("b", [])];
    html := TextHtml("a", []) + (TextHtml("", [Bold]) + last);
  }

  lemma ReadLast()
    ensures ReadBack([Text("b", [])]) == [Text("b", [])] && StartsPlain([Text("b", [])])
  {
    NoMarks();
    assert [Text("b", [])][1..] == [];
  }

  lemma ReadTouching()
    ensures ReadBack([Text("a", []), Text("b", [])]) == [Text("ab", [])]
  {
    var two := [Text("a", []), Text("b", [])];
    ReadLast();
    assert two[1..] == [Text("b", [])];
    assert "a" + "b" == "ab";
  }

  lemma ReadApart()
    ensures ReadBack([Text("a", []), Text("", [Bold]), Text("b", [])]) == [Text("a", []), Text("b", [])]
  {
    var three, two := [Text("a", []), Text("", [Bold]), Text("b", [])], [Text("", [Bold]), Text("b", [])];
    ReadLast();
    NoMarks();
    assert three[1..] == two && two[1..] == [Text("b", [])];
    assert ReadBack(two) == [Text("b", [])] && !StartsPlain(two);
  }

  /** The two letters come back touching from the first trip, and as one text from the second. */
  lemma OneTripMayNotSettle()
    ensures RenderBlocks(APART).Ok? && AreFlat(APART) && HaveGap(APART)
    ensures Trip(APART).complete && Trip(APART).blocks == TOUCHING
    ensures RenderBlocks(TOUCHING).Ok? && Trip(TOUCHING).complete && Trip(TOUCHING).blocks == JOINED
  {
    var html := ApartIsShort();
    ReadApart();
    ShortTrip(APART[0].inlines, html);
    html := TouchingIsShort();
    ReadTouching();
    ShortTrip(TOUCHING[0].inlines, html);
    assert JOINED[0].inlines[0].text != TOUCHING[0].inlines[0].text;
    OneTripSettlesExactlyWhen(APART);
  }
}
