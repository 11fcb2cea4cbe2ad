/** Refreshes of the version list that overlap: each captures the graph at its start and the list when its answer arrives. */
module VersionOverlap {
  import opened Contracts
  import opened Versions

  // ---- Refreshes in steps ----

  /** A refresh that waits for the host, one that has built what it will publish, and one that is over. */
  datatype Turn =
    | Captured(captured: Option<Graph>)
    | Built(raw: RawGraph, graph: Graph, store: Store, sources: seq<string>)
    | Over

  /** What is published, with the text that each listed snapshot was made from, and the refreshes begun so far. */
  datatype Shelf = Shelf(refs: Refs, sources: seq<string>, turns: seq<Turn>)

  const EMPTY: Shelf := Shelf(Refs(None, None), [], [])

  /** The steps of refreshes interleave freely; `valid` says whether target and cursor are still the expected ones. */
  datatype Step =
    | Begin
    | Receive(i: nat, raw: RawGraph, valid: bool)
    | Publish(i: nat, valid: bool)

  /** The text behind the last entry for the ID. */
  function FindSource(listed: seq<ListedCommit>, sources: seq<string>, id: Id): string {
    if listed == [] || |sources| != |listed| then ""
    else if listed[|listed| - 1].id == id then sources[|sources| - 1]
    else FindSource(listed[..|listed| - 1], sources[..|sources| - 1], id)
  }

  /** What a refresh that captured this graph has to reuse from: the graph's commits, the present list, and its sources. */
  datatype Stock = Stock(earlier: seq<GraphCommit>, listed: seq<ListedCommit>, sources: seq<string>)

  function StockOf(s: Shelf, captured: Option<Graph>, cursor: AuthorityCursor): Stock {
    Stock(EarlierCommits(captured, s.refs.store, cursor), EarlierListed(captured, s.refs.store),
          if captured.Some? && s.refs.store.Some? then s.sources else [])
  }

  predicate IsReused(commit: RawCommit, stock: Stock) {
    Reuses(GraphCommit(commit, None), stock.earlier, stock.listed)
  }

  /** The text behind the snapshot that is listed for the commit: its own, or that of the snapshot used again. */
  function SourceOf(commit: RawCommit, stock: Stock): string {
    if IsReused(commit, stock) then FindSource(stock.listed, stock.sources, commit.id) else commit.json
  }

  function SourcesOf(commits: seq<RawCommit>, stock: Stock): seq<string> {
    if commits == [] then []
    else SourcesOf(commits[..|commits| - 1], stock) + [SourceOf(commits[|commits| - 1], stock)]
  }

  function Answered(s: Shelf, captured: Option<Graph>, raw: RawGraph, valid: bool, reader: Reader): Turn {
    match RefreshFrom(captured, s.refs.store, raw, reader)
    case None => Over
    case Some(p) => if valid then Built(raw, p.0, p.1, SourcesOf(raw.commits, StockOf(s, captured, raw.cursor))) else Over
  }

  function Stepped(s: Shelf, step: Step, reader: Reader): Shelf {
    match step
    case Begin => s.(turns := s.turns + [Captured(s.refs.graph)])
    case Receive(i, raw, valid) =>
      if i >= |s.turns| || !s.turns[i].Captured? then s
      else s.(turns := s.turns[i := Answered(s, s.turns[i].captured, raw, valid, reader)])
    case Publish(i, valid) =>
      if i >= |s.turns| || !s.turns[i].Built? then s
      else if !valid then s.(turns := s.turns[i := Over])
      else
        s.(refs := Refs(Some(s.turns[i].graph), Some(s.turns[i].store)), sources := s.turns[i].sources, turns := s.turns[i := Over])
  }

  function SteppedAll(steps: seq<Step>, reader: Reader): Shelf {
    if steps == [] then EMPTY
    else Stepped(SteppedAll(steps[..|steps| - 1], reader), steps[|steps| - 1], reader)
  }

  // ---- What holds over every interleaving ----

  /** Every listed snapshot is what its source text means. */
  predicate AreSourced(listed: seq<ListedCommit>, sources: seq<string>, reader: Reader) {
    |listed| == |sources| && forall k :: 0 <= k < |listed| ==> Meaning(sources[k], reader) == Some(listed[k].snapshot)
  }

  predicate IsGoodTurn(t: Turn, reader: Reader) {
    match t
    case Captured(captured) => captured.Some? ==> AreFaithful(captured.value.commits, reader)
    case Built(raw, graph, store, sources) =>
      && AreFaithful(graph.commits, reader) && AreSourced(store.commits, sources, reader)
      && graph.commits == Heads(raw.commits, HeadId(raw.branches), reader)
    case Over => true
  }

  predicate IsGood(s: Shelf, reader: Reader) {
    && (s.refs.graph.Some? <==> s.refs.store.Some?)
    && (s.refs.graph.Some? ==> AreFaithful(s.refs.graph.value.commits, reader) && AreSourced(s.refs.store.value.commits, s.sources, reader))
    && forall i :: 0 <= i < |s.turns| ==> IsGoodTurn(s.turns[i], reader)
  }

  // ---- One answer ----

  lemma {:induction false} FoundSource(listed: seq<ListedCommit>, sources: seq<string>, reader: Reader, id: Id)
    requires AreSourced(listed, sources, reader) && FindListed(listed, id).Some?
    ensures Meaning(FindSource(listed, sources, id), reader) == Some(FindListed(listed, id).value.snapshot)
  {
    var n := |listed| - 1;
    if listed[n].id != id {
      FoundSource(listed[..n], sources[..n], reader, id);
    }
  }

  /** The snapshot listed is what its source text means; when nothing can be listed, the text cannot be read. */
  lemma SnapshotHasSource(c: GraphCommit, stock: Stock, reader: Reader)
    requires IsFaithful(c, reader) && AreSourced(stock.listed, stock.sources, reader)
    ensures SnapshotOf(c, stock.earlier, stock.listed, reader) == Meaning(SourceOf(c.raw, stock), reader)
  {
    if IsReused(c.raw, stock) {
      FoundSource(stock.listed, stock.sources, reader, c.raw.id);
    }
  }

  /** Every snapshot used again was made from a text that reads like the commit's own. */
  predicate ReusesAlike(commits: seq<RawCommit>, stock: Stock, reader: Reader) {
    forall c :: c in commits && IsReused(c, stock) ==>
      Meaning(FindSource(stock.listed, stock.sources, c.id), reader) == Meaning(c.json, reader)
  }

  lemma {:induction false} ListHasSources(commits: seq<GraphCommit>, stock: Stock, reader: Reader)
    requires AreFaithful(commits, reader) && AreSourced(stock.listed, stock.sources, reader)
    requires ListCommits(commits, stock.earlier, stock.listed, reader).Some?
    ensures AreSourced(ListCommits(commits, stock.earlier, stock.listed, reader).value, SourcesOf(Raws(commits), stock), reader)
  {
    if commits != [] {
      var init, last := commits[..|commits| - 1], commits[|commits| - 1];
      ListHasSources(init, stock, reader);
      SnapshotHasSource(last, stock, reader);
      assert Raws(commits)[..|Raws(commits)| - 1] == Raws(init);
    }
  }

  /** The list is the one read from scratch exactly when every reused snapshot's source reads like the text. */
  lemma {:induction false} ListIsRightExactlyWhen(commits: seq<GraphCommit>, stock: Stock, reader: Reader)
    requires AreFaithful(commits, reader) && AreSourced(stock.listed, stock.sources, reader)
    requires ListCommits(commits, stock.earlier, stock.listed, reader).Some?
    ensures ListCommits(commits, stock.earlier, stock.listed, reader) == ReadAll(Raws(commits), reader)
            <==> ReusesAlike(Raws(commits), stock, reader)
  {
    if commits != [] {
      var init, last := commits[..|commits| - 1], commits[|commits| - 1];
      assert Raws(commits)[..|Raws(commits)| - 1] == Raws(init);
      assert Raws(commits) == Raws(init) + [last.raw];
      ListIsRightExactlyWhen(init, stock, reader);
      SnapshotHasSource(last, stock, reader);
      LastDecides(commits, stock, reader);
      AlikeLast(Raws(init), last.raw, stock, reader);
    }
  }

  lemma AlikeLast(init: seq<RawCommit>, last: RawCommit, stock: Stock, reader: Reader)
    ensures ReusesAlike(init + [last], stock, reader) <==>
            ReusesAlike(init, stock, reader) && Meaning(SourceOf(last, stock), reader) == Meaning(last.json, reader)
  {
    assert forall c :: c in init + [last] <==> c in init || c == last;
  }

  lemma LastDecides(commits: seq<GraphCommit>, stock: Stock, reader: Reader)
    requires commits != [] && ListCommits(commits, stock.earlier, stock.listed, reader).Some?
    requires SnapshotOf(commits[|commits| - 1], stock.earlier, stock.listed, reader)
             == Meaning(SourceOf(commits[|commits| - 1].raw, stock), reader)
    ensures var init, last := commits[..|commits| - 1], commits[|commits| - 1];
            && ListCommits(init, stock.earlier, stock.listed, reader).Some?
            && (ListCommits(commits, stock.earlier, stock.listed, reader) == ReadAll(Raws(commits), reader) <==>
                ListCommits(init, stock.earlier, stock.listed, reader) == ReadAll(Raws(init), reader)
                && Meaning(SourceOf(last.raw, stock), reader) == Meaning(last.raw.json, reader))
  {
    var init, last := commits[..|commits| - 1], commits[|commits| - 1];
    assert Raws(commits)[..|Raws(commits)| - 1] == Raws(init);
    var a := ListCommits(commits, stock.earlier, stock.listed, reader).value;
    assert a[..|a| - 1] == ListCommits(init, stock.earlier, stock.listed, reader).value;
    if ReadAll(Raws(commits), reader).Some? {
      var b := ReadAll(Raws(commits), reader).value;
      assert b[..|b| - 1] == ReadAll(Raws(init), reader).value;
    }
  }

  lemma {:induction false} HeadsAreFaithful(commits: seq<RawCommit>, head: Option<Id>, reader: Reader)
    ensures AreFaithful(Heads(commits, head, reader), reader)
  {
    if commits != [] {
      HeadsAreFaithful(commits[..|commits| - 1], head, reader);
    }
  }

  lemma AnswerIsGood(s: Shelf, captured: Option<Graph>, raw: RawGraph, valid: bool, reader: Reader)
    requires IsGood(s, reader) && IsGoodTurn(Captured(captured), reader)
    ensures IsGoodTurn(Answered(s, captured, raw, valid, reader), reader)
  {
    var head := HeadId(raw.branches);
    ParsedCommits(raw.commits, Usable(captured, raw.cursor), head, reader);
    var parsed := ParseCommits(raw.commits, Usable(captured, raw.cursor), head, reader);
    var stock := StockOf(s, captured, raw.cursor);
    if parsed.Some? && ListCommits(parsed.value, stock.earlier, stock.listed, reader).Some? {
      ListHasSources(parsed.value, stock, reader);
      HeadsAreFaithful(raw.commits, head, reader);
    }
  }

  lemma StepIsGood(s: Shelf, step: Step, reader: Reader)
    requires IsGood(s, reader)
    ensures IsGood(Stepped(s, step, reader), reader)
  {
    if step.Receive? && step.i < |s.turns| && s.turns[step.i].Captured? {
      AnswerIsGood(s, s.turns[step.i].captured, step.raw, step.valid, reader);
    } else if step.Publish? && step.i < |s.turns| && s.turns[step.i].Built? {
      assert IsGoodTurn(s.turns[step.i], reader);
    }
  }

  lemma {:induction false} EveryInterleavingIsGood(steps: seq<Step>, reader: Reader)
    ensures IsGood(SteppedAll(steps, reader), reader)
  {
    if steps != [] {
      EveryInterleavingIsGood(steps[..|steps| - 1], reader);
      StepIsGood(SteppedAll(steps[..|steps| - 1], reader), steps[|steps| - 1], reader);
    }
  }

  /**
   * Over every interleaving of refreshes: what a refresh builds from its answer is what reading the answer from
   * scratch gives, if and only if each snapshot used again was made from a text that reads like the commit's own.
   */
  lemma OverlapIsRightExactlyWhen(steps: seq<Step>, reader: Reader, i: nat, raw: RawGraph)
    requires i < |SteppedAll(steps, reader).turns| && SteppedAll(steps, reader).turns[i].Captured?
    requires var s := SteppedAll(steps, reader); RefreshFrom(s.turns[i].captured, s.refs.store, raw, reader).Some?
    ensures var s := SteppedAll(steps, reader);
            RefreshFrom(s.turns[i].captured, s.refs.store, raw, reader) == FromScratch(raw, reader)
            <==> ReusesAlike(raw.commits, StockOf(s, s.turns[i].captured, raw.cursor), reader)
  {
    EveryInterleavingIsGood(steps, reader);
    var s := SteppedAll(steps, reader);
    assert IsGoodTurn(s.turns[i], reader);
    AnswerIsRightExactlyWhen(s, s.turns[i].captured, raw, reader);
  }

  lemma AnswerIsRightExactlyWhen(s: Shelf, captured: Option<Graph>, raw: RawGraph, reader: Reader)
    requires IsGood(s, reader) && IsGoodTurn(Captured(captured), reader)
    requires RefreshFrom(captured, s.refs.store, raw, reader).Some?
    ensures RefreshFrom(captured, s.refs.store, raw, reader) == FromScratch(raw, reader)
            <==> ReusesAlike(raw.commits, StockOf(s, captured, raw.cursor), reader)
  {
    var head := HeadId(raw.branches);
    ParsedCommits(raw.commits, Usable(captured, raw.cursor), head, reader);
    var parsed := ParseCommits(raw.commits, Usable(captured, raw.cursor), head, reader).value;
    ListIsRightExactlyWhen(parsed, StockOf(s, captured, raw.cursor), reader);
    RefreshIsIntended(Refs(None, None), raw, reader);
  }

  // ---- Texts ----

  /** Every snapshot used again was made from the commit's very text. */
  predicate ReusesSameTexts(commits: seq<RawCommit>, stock: Stock) {
    forall c :: c in commits && IsReused(c, stock) ==> FindSource(stock.listed, stock.sources, c.id) == c.json
  }

  /** No two texts that can be read give the same snapshot. */
  ghost predicate TellsTextsApart(reader: Reader) {
    forall a: string, b: string :: Meaning(a, reader).Some? && Meaning(a, reader) == Meaning(b, reader) ==> a == b
  }

  /** The same texts are enough; and when the reader tells texts apart, nothing less is. */
  lemma SameTextsDecide(s: Shelf, captured: Option<Graph>, raw: RawGraph, reader: Reader)
    requires IsGood(s, reader)
    ensures var stock := StockOf(s, captured, raw.cursor);
            && (ReusesSameTexts(raw.commits, stock) ==> ReusesAlike(raw.commits, stock, reader))
            && (TellsTextsApart(reader) ==> (ReusesSameTexts(raw.commits, stock) <==> ReusesAlike(raw.commits, stock, reader)))
  {
    var stock := StockOf(s, captured, raw.cursor);
    if TellsTextsApart(reader) && ReusesAlike(raw.commits, stock, reader) {
      forall c | c in raw.commits && IsReused(c, stock) ensures FindSource(stock.listed, stock.sources, c.id) == c.json {
        FoundSource(stock.listed, stock.sources, reader, c.id);
      }
    }
  }

  // ---- When no refresh publishes in between ----

  /** Every answer arrives while the graph that its refresh captured is still the published one. */
  predicate IsUndisturbed(steps: seq<Step>, reader: Reader) {
    steps == [] ||
    (var init, last := steps[..|steps| - 1], steps[|steps| - 1];
     var s := SteppedAll(init, reader);
     IsUndisturbed(init, reader)
     && (last.Receive? && last.i < |s.turns| && s.turns[last.i].Captured? ==> s.turns[last.i].captured == s.refs.graph))
  }

  ghost predicate IsRight(s: Shelf, reader: Reader) {
    && IsSound(s.refs, reader)
    && forall i :: 0 <= i < |s.turns| && s.turns[i].Built? ==>
         FromScratch(s.turns[i].raw, reader) == Some((s.turns[i].graph, s.turns[i].store))
  }

  lemma IntendedPairIsSound(raw: RawGraph, graph: Graph, store: Store, reader: Reader)
    requires FromScratch(raw, reader) == Some((graph, store))
    ensures IsSound(Refs(Some(graph), Some(store)), reader)
  {
    RefreshIsIntended(Refs(None, None), raw, reader);
    IntendedIsSound(raw.commits, HeadId(raw.branches), reader);
  }

  lemma UndisturbedStep(s: Shelf, step: Step, reader: Reader)
    requires IsRight(s, reader)
    requires step.Receive? && step.i < |s.turns| && s.turns[step.i].Captured? ==> s.turns[step.i].captured == s.refs.graph
    ensures IsRight(Stepped(s, step, reader), reader)
  {
    match step
    case Begin =>
    case Receive(i, raw, valid) =>
      ReuseEqualsScratch(s.refs, raw, reader);
    case Publish(i, valid) =>
      if i < |s.turns| && s.turns[i].Built? {
        IntendedPairIsSound(s.turns[i].raw, s.turns[i].graph, s.turns[i].store, reader);
      }
  }

  /** Then everything built and published is what reading from scratch gives, however the refreshes interleave. */
  lemma {:induction false} UndisturbedRefreshesAreRight(steps: seq<Step>, reader: Reader)
    requires IsUndisturbed(steps, reader)
    ensures IsRight(SteppedAll(steps, reader), reader)
  {
    if steps != [] {
      UndisturbedRefreshesAreRight(steps[..|steps| - 1], reader);
      UndisturbedStep(SteppedAll(steps[..|steps| - 1], reader), steps[|steps| - 1], reader);
    }
  }

  // ---- Two overlapping refreshes that lose a snapshot ----

  function OneCommit(cursor: AuthorityCursor, commit: RawCommit): RawGraph {
    RawGraph(cursor, [], [commit])
  }

  function Bare(commit: RawCommit): RawCommit { commit.(json := "") }

  function PairFor(cursor: AuthorityCursor, commit: RawCommit, snapshot: Option<string>): (Graph, Store) {
    (Graph(cursor, [], [GraphCommit(commit, None)]), Store("main", [], [Listed(commit, snapshot)]))
  }

  lemma ReadOne(cursor: AuthorityCursor, commit: RawCommit, reader: Reader, snapshot: Option<string>)
    requires Meaning(commit.json, reader) == Some(snapshot)
    ensures FromScratch(OneCommit(cursor, commit), reader) == Some(PairFor(cursor, commit, snapshot))
  {
    var commits := [commit];
    assert commits[..0] == [];
    assert ReadAll(commits[..0], reader) == Some([]) && [] + [Listed(commit, snapshot)] == [Listed(commit, snapshot)];
    assert ReadAll(commits, reader) == Some([Listed(commit, snapshot)]);
    assert Heads(commits[..0], None, reader) == [] && [] + [GraphCommit(commit, None)] == [GraphCommit(commit, None)];
    assert Heads(commits, None, reader) == [GraphCommit(commit, None)];
    RefreshIsIntended(Refs(None, None), OneCommit(cursor, commit), reader);
  }

  lemma MixedGraph(cursor: AuthorityCursor, commit: RawCommit, reader: Reader)
    requires commit.json != ""
    ensures var graph := Graph(cursor, [], [GraphCommit(commit, None)]);
            && ParseGraph(OneCommit(cursor, commit), Some(graph), reader) == Some(graph)
            && Released(graph.commits, None) == graph.commits
  {
    var earlier := [GraphCommit(commit, None)];
    assert [commit][..0] == [] && earlier[..0] == [];
    assert FindCommit(earlier, commit.id) == Some(earlier[0]);
    assert ParseCommits([commit][..0], earlier, None, reader) == Some([]);
    assert [] + earlier == earlier;
  }

  lemma MixedList(commit: RawCommit, reader: Reader)
    requires commit.json != ""
    ensures ListCommits([GraphCommit(commit, None)], [GraphCommit(commit, None)], [Listed(Bare(commit), None)], reader)
            == Some([Listed(commit, None)])
  {
    var earlier, listed := [GraphCommit(commit, None)], [Listed(Bare(commit), None)];
    assert earlier[..0] == [];
    assert FindCommit(earlier, commit.id) == Some(earlier[0]) && FindListed(listed, commit.id) == Some(listed[0]);
    assert ListCommits(earlier[..0], earlier, listed, reader) == Some([]);
    assert [] + [Listed(commit, None)] == [Listed(commit, None)];
  }

  /** Graph from before, list from in between: the empty snapshot is used again for the full text. */
  lemma MixedAnswer(cursor: AuthorityCursor, commit: RawCommit, reader: Reader, snapshot: string)
    requires commit.json != ""
    ensures RefreshFrom(Some(PairFor(cursor, commit, Some(snapshot)).0), Some(PairFor(cursor, Bare(commit), None).1),
                        OneCommit(cursor, commit), reader) == Some(PairFor(cursor, commit, None))
  {
    MixedGraph(cursor, commit, reader);
    MixedList(commit, reader);
  }

  /** One refresh has published; two start; the second loses the text and publishes; then the first gets the text again. */
  function LosingSteps(cursor: AuthorityCursor, commit: RawCommit): seq<Step> {
    [Begin, Receive(0, OneCommit(cursor, commit), true), Publish(0, true), Begin, Begin,
     Receive(2, OneCommit(cursor, Bare(commit)), true), Publish(2, true),
     Receive(1, OneCommit(cursor, commit), true), Publish(1, true)]
  }

  lemma StepsExtend(steps: seq<Step>, n: nat, reader: Reader)
    requires n < |steps|
    ensures SteppedAll(steps[..n + 1], reader) == Stepped(SteppedAll(steps[..n], reader), steps[n], reader)
  {
    assert steps[..n + 1][..n] == steps[..n];
  }

  lemma TwoSteps(steps: seq<Step>, n: nat, a: Step, b: Step, reader: Reader)
    requires n + 1 < |steps| && steps[n] == a && steps[n + 1] == b
    ensures SteppedAll(steps[..n + 2], reader) == Stepped(Stepped(SteppedAll(steps[..n], reader), a, reader), b, reader)
  {
    StepsExtend(steps, n, reader);
    StepsExtend(steps, n + 1, reader);
  }

  /** The published list has no snapshot for a commit whose text is there and can be read. */
  lemma OverlapMayLoseASnapshot(cursor: AuthorityCursor, commit: RawCommit, reader: Reader, snapshot: string)
    requires commit.json != "" && Meaning(commit.json, reader) == Some(Some(snapshot))
    ensures var s := SteppedAll(LosingSteps(cursor, commit), reader);
            && s.refs.store == Some(PairFor(cursor, commit, None).1)
            && FromScratch(OneCommit(cursor, commit), reader) == Some(PairFor(cursor, commit, Some(snapshot)))
  {
    LossIsPublished(cursor, commit, reader, snapshot);
    ReadOne(cursor, commit, reader, Some(snapshot));
  }

  lemma LossIsPublished(cursor: AuthorityCursor, commit: RawCommit, reader: Reader, snapshot: string)
    requires commit.json != "" && Meaning(commit.json, reader) == Some(Some(snapshot))
    ensures var s, pair := SteppedAll(LosingSteps(cursor, commit), reader), PairFor(cursor, commit, None);
            s.refs == Refs(Some(pair.0), Some(pair.1)) && s.turns == [Over, Over, Over]
  {
    var steps := LosingSteps(cursor, commit);
    SecondPublishes(steps, cursor, commit, reader, snapshot);
    MixedAnswer(cursor, commit, reader, snapshot);
    assert steps[..9] == steps;
    LateAnswerIsPublished(steps, OneCommit(cursor, commit), reader, PairFor(cursor, commit, Some(snapshot)).0, PairFor(cursor, commit, None));
  }

  lemma LateAnswerIsPublished(steps: seq<Step>, raw: RawGraph, reader: Reader, captured: Graph, late: (Graph, Store))
    requires |steps| >= 9 && steps[7] == Receive(1, raw, true) && steps[8] == Publish(1, true)
    requires var s := SteppedAll(steps[..7], reader);
             s.turns == [Over, Captured(Some(captured)), Over] && RefreshFrom(Some(captured), s.refs.store, raw, reader) == Some(late)
    ensures var t := SteppedAll(steps[..9], reader);
            t.refs == Refs(Some(late.0), Some(late.1)) && t.turns == [Over, Over, Over]
  {
    FirstComesLast(SteppedAll(steps[..7], reader), raw, reader, captured, late);
    TwoSteps(steps, 7, Receive(1, raw, true), Publish(1, true), reader);
  }

  lemma SecondComesFirst(s: Shelf, raw: RawGraph, reader: Reader, captured: Graph, bare: (Graph, Store))
    requires s.turns == [Over, Captured(Some(captured)), Captured(Some(captured))]
    requires RefreshFrom(Some(captured), s.refs.store, raw, reader) == Some(bare)
    ensures var t := Stepped(Stepped(s, Receive(2, raw, true), reader), Publish(2, true), reader);
            t.refs == Refs(Some(bare.0), Some(bare.1)) && t.turns == [Over, Captured(Some(captured)), Over]
  {
  }

  lemma FirstComesLast(s: Shelf, raw: RawGraph, reader: Reader, captured: Graph, late: (Graph, Store))
    requires s.turns == [Over, Captured(Some(captured)), Over]
    requires RefreshFrom(Some(captured), s.refs.store, raw, reader) == Some(late)
    ensures var t := Stepped(Stepped(s, Receive(1, raw, true), reader), Publish(1, true), reader);
            t.refs == Refs(Some(late.0), Some(late.1)) && t.turns == [Over, Over, Over]
  {
  }

  lemma SecondPublishes(steps: seq<Step>, cursor: AuthorityCursor, commit: RawCommit, reader: Reader, snapshot: string)
    requires steps == LosingSteps(cursor, commit) && Meaning(commit.json, reader) == Some(Some(snapshot))
    ensures var s := SteppedAll(steps[..7], reader);
            && s.refs.store == Some(PairFor(cursor, Bare(commit), None).1)
            && s.turns == [Over, Captured(Some(PairFor(cursor, commit, Some(snapshot)).0)), Over]
  {
    TwoAreBegun(steps, cursor, commit, reader, snapshot);
    BareAnswer(cursor, commit, reader, snapshot);
    SecondComesFirst(SteppedAll(steps[..5], reader), OneCommit(cursor, Bare(commit)), reader,
                     PairFor(cursor, commit, Some(snapshot)).0, PairFor(cursor, Bare(commit), None));
    TwoSteps(steps, 5, Receive(2, OneCommit(cursor, Bare(commit)), true), Publish(2, true), reader);
  }

  lemma BareAnswer(cursor: AuthorityCursor, commit: RawCommit, reader: Reader, snapshot: string)
    requires Meaning(commit.json, reader) == Some(Some(snapshot))
    ensures var full := PairFor(cursor, commit, Some(snapshot));
            RefreshFrom(Some(full.0), Some(full.1), OneCommit(cursor, Bare(commit)), reader) == Some(PairFor(cursor, Bare(commit), None))
  {
    var full := PairFor(cursor, commit, Some(snapshot));
    ReadOne(cursor, commit, reader, Some(snapshot));
    IntendedPairIsSound(OneCommit(cursor, commit), full.0, full.1, reader);
    ReadOne(cursor, Bare(commit), reader, None);
    ReuseEqualsScratch(Refs(Some(full.0), Some(full.1)), OneCommit(cursor, Bare(commit)), reader);
  }

  lemma TwoAreBegun(steps: seq<Step>, cursor: AuthorityCursor, commit: RawCommit, reader: Reader, snapshot: string)
    requires steps == LosingSteps(cursor, commit) && Meaning(commit.json, reader) == Some(Some(snapshot))
    ensures var s := SteppedAll(steps[..5], reader);
            var full := PairFor(cursor, commit, Some(snapshot));
            s.refs == Refs(Some(full.0), Some(full.1)) && s.turns == [Over, Captured(Some(full.0)), Captured(Some(full.0))]
  {
    FirstPublishes(steps, cursor, commit, reader, snapshot);
    StepsExtend(steps, 3, reader);
    StepsExtend(steps, 4, reader);
  }

  lemma FirstPublishes(steps: seq<Step>, cursor: AuthorityCursor, commit: RawCommit, reader: Reader, snapshot: string)
    requires steps == LosingSteps(cursor, commit) && Meaning(commit.json, reader) == Some(Some(snapshot))
    ensures var s := SteppedAll(steps[..3], reader);
            var full := PairFor(cursor, commit, Some(snapshot));
            s.refs == Refs(Some(full.0), Some(full.1)) && s.turns == [Over]
  {
    ReadOne(cursor, commit, reader, Some(snapshot));
    assert steps[..0] == [];
    StepsExtend(steps, 0, reader);
    StepsExtend(steps, 1, reader);
    StepsExtend(steps, 2, reader);
  }
}
