/** What becomes of a wrong snapshot: refreshes use it again until the commit's text or the context changes. */
module VersionLoss {
  import opened Contracts
  import opened Versions
  import opened VersionOverlap

  /** A commit of a document and context, its text, and the snapshot that is listed for it, right or wrong. */
  datatype Shown = Shown(cursor: AuthorityCursor, id: Id, text: string, snapshot: Option<string>)

  function FindRaw(commits: seq<RawCommit>, id: Id): Option<RawCommit> {
    if commits == [] then None
    else if commits[|commits| - 1].id == id then Some(commits[|commits| - 1])
    else FindRaw(commits[..|commits| - 1], id)
  }

  predicate HasText(commits: seq<GraphCommit>, x: Shown) {
    FindCommit(commits, x.id).Some? && FindCommit(commits, x.id).value.raw.json == x.text
  }

  predicate Lists(listed: seq<ListedCommit>, x: Shown) {
    FindListed(listed, x.id).Some? && FindListed(listed, x.id).value.snapshot == x.snapshot
  }

  /** The pair is of this context, and holds the commit with this text and this snapshot. */
  predicate Shows(graph: Graph, store: Store, x: Shown) {
    SameContext(graph.cursor, x.cursor) && HasText(graph.commits, x) && Lists(store.commits, x)
  }

  predicate KeepsText(raw: RawGraph, x: Shown) {
    && SameContext(raw.cursor, x.cursor)
    && FindRaw(raw.commits, x.id).Some? && FindRaw(raw.commits, x.id).value.json == x.text
  }

  // ---- One refresh ----

  lemma {:induction false} ParsedHas(commits: seq<RawCommit>, earlier: seq<GraphCommit>, head: Option<Id>, reader: Reader, id: Id)
    requires ParseCommits(commits, earlier, head, reader).Some?
    ensures var parsed := ParseCommits(commits, earlier, head, reader).value;
            && (FindCommit(parsed, id).Some? <==> FindRaw(commits, id).Some?)
            && (FindRaw(commits, id).Some? ==> FindCommit(parsed, id).value.raw == FindRaw(commits, id).value)
  {
    if commits != [] {
      var init, last := commits[..|commits| - 1], commits[|commits| - 1];
      ParsedHas(init, earlier, head, reader, id);
      var before := ParseCommits(init, earlier, head, reader).value;
      var c := ParseCommit(last, FindCommit(earlier, last.id), head, reader).value;
      assert c.raw == last;
      FoundLast(before, c, id);
    }
  }

  lemma FoundLast(before: seq<GraphCommit>, c: GraphCommit, id: Id)
    ensures FindCommit(before + [c], id) == if c.raw.id == id then Some(c) else FindCommit(before, id)
  {
    assert (before + [c])[..|before|] == before;
  }

  lemma {:induction false} ReleasedHas(commits: seq<GraphCommit>, head: Option<Id>, id: Id)
    ensures FindCommit(Released(commits, head), id).Some? <==> FindCommit(commits, id).Some?
    ensures FindCommit(commits, id).Some? ==>
              FindCommit(Released(commits, head), id).value.raw == FindCommit(commits, id).value.raw
  {
    if commits != [] {
      var last := commits[|commits| - 1];
      ReleasedHas(commits[..|commits| - 1], head, id);
      FoundLast(Released(commits[..|commits| - 1], head), if Some(last.raw.id) == head then last else last.(document := None), id);
    }
  }

  /** The snapshot listed for an ID is that of the last commit with it. */
  lemma {:induction false} ListedFor(commits: seq<GraphCommit>, earlier: seq<GraphCommit>, listed: seq<ListedCommit>, reader: Reader, id: Id)
    requires ListCommits(commits, earlier, listed, reader).Some? && FindCommit(commits, id).Some?
    ensures var r := FindListed(ListCommits(commits, earlier, listed, reader).value, id);
            r.Some? && SnapshotOf(FindCommit(commits, id).value, earlier, listed, reader) == Some(r.value.snapshot)
  {
    var init, last := commits[..|commits| - 1], commits[|commits| - 1];
    var before := ListCommits(init, earlier, listed, reader).value;
    var c := Listed(last.raw, SnapshotOf(last, earlier, listed, reader).value);
    ListedLast(before, c, id);
    if last.raw.id != id {
      ListedFor(init, earlier, listed, reader, id);
    }
  }

  lemma ListedLast(before: seq<ListedCommit>, c: ListedCommit, id: Id)
    ensures FindListed(before + [c], id) == if c.id == id then Some(c) else FindListed(before, id)
  {
    assert (before + [c])[..|before|] == before;
  }

  lemma {:induction false} FoundHasId(commits: seq<GraphCommit>, id: Id)
    requires FindCommit(commits, id).Some?
    ensures FindCommit(commits, id).value.raw.id == id
  {
    if commits[|commits| - 1].raw.id != id {
      FoundHasId(commits[..|commits| - 1], id);
    }
  }

  /** The commit that a refresh lists, and how its snapshot comes about. */
  lemma RefreshLists(captured: Option<Graph>, store: Option<Store>, raw: RawGraph, reader: Reader, id: Id) returns (c: GraphCommit)
    requires RefreshFrom(captured, store, raw, reader).Some? && FindRaw(raw.commits, id).Some?
    ensures var p := RefreshFrom(captured, store, raw, reader).value;
            && p.0.cursor == raw.cursor && c.raw == FindRaw(raw.commits, id).value && c.raw.id == id
            && FindCommit(p.0.commits, id).Some? && FindCommit(p.0.commits, id).value.raw == c.raw
            && FindListed(p.1.commits, id).Some?
            && SnapshotOf(c, EarlierCommits(captured, store, raw.cursor), EarlierListed(captured, store), reader)
               == Some(FindListed(p.1.commits, id).value.snapshot)
    ensures captured.Some? ==> AreFaithful(captured.value.commits, reader) ==> IsFaithful(c, reader)
  {
    var head := HeadId(raw.branches);
    var parsed := ParseCommits(raw.commits, Usable(captured, raw.cursor), head, reader).value;
    ParsedHas(raw.commits, Usable(captured, raw.cursor), head, reader, id);
    c := FindCommit(parsed, id).value;
    FoundHasId(parsed, id);
    ReleasedHas(parsed, head, id);
    ListedFor(parsed, EarlierCommits(captured, store, raw.cursor), EarlierListed(captured, store), reader, id);
    if captured.Some? && AreFaithful(captured.value.commits, reader) {
      ParsedCommits(raw.commits, Usable(captured, raw.cursor), head, reader);
      FoundIsIn(parsed, id);
    }
  }

  /** A refresh from the pair, with the same text for the commit, shows the same snapshot again. */
  lemma RefreshShowsAgain(graph: Graph, store: Store, raw: RawGraph, reader: Reader, x: Shown)
    requires Shows(graph, store, x) && KeepsText(raw, x) && x.text != ""
    requires RefreshFrom(Some(graph), Some(store), raw, reader).Some?
    ensures var p := RefreshFrom(Some(graph), Some(store), raw, reader).value; Shows(p.0, p.1, x)
  {
    var c := RefreshLists(Some(graph), Some(store), raw, reader, x.id);
    assert Reuses(c, graph.commits, store.commits);
  }

  /** A refresh with another text for the commit, or of another context, lists what that text means. */
  lemma ChangeHeals(graph: Graph, store: Store, raw: RawGraph, reader: Reader, x: Shown)
    requires Shows(graph, store, x) && AreFaithful(graph.commits, reader)
    requires FindRaw(raw.commits, x.id).Some? && !KeepsText(raw, x)
    requires RefreshFrom(Some(graph), Some(store), raw, reader).Some?
    ensures var listed := FindListed(RefreshFrom(Some(graph), Some(store), raw, reader).value.1.commits, x.id);
            listed.Some? && Meaning(FindRaw(raw.commits, x.id).value.json, reader) == Some(listed.value.snapshot)
  {
    var c := RefreshLists(Some(graph), Some(store), raw, reader, x.id);
    assert !Reuses(c, Usable(Some(graph), raw.cursor), store.commits);
  }

  // ---- Over runs ----

  /** What is published shows it, and so does all that is built and not yet published. */
  predicate ShowsEverywhere(s: Shelf, x: Shown) {
    && s.refs.graph.Some? && s.refs.store.Some? && Shows(s.refs.graph.value, s.refs.store.value, x)
    && forall i :: 0 <= i < |s.turns| && s.turns[i].Built? ==> Shows(s.turns[i].graph, s.turns[i].store, x)
  }

  /** Further steps in which no refresh is disturbed, and no answer changes the commit's text or the context. */
  predicate IsSteady(start: seq<Step>, more: seq<Step>, x: Shown, reader: Reader) {
    more == [] ||
    (var init, last := more[..|more| - 1], more[|more| - 1];
     var s := SteppedAll(start + init, reader);
     IsSteady(start, init, x, reader)
     && (last.Receive? && last.i < |s.turns| && s.turns[last.i].Captured? ==>
           s.turns[last.i].captured == s.refs.graph && KeepsText(last.raw, x)))
  }

  lemma SteadyStep(s: Shelf, step: Step, x: Shown, reader: Reader)
    requires ShowsEverywhere(s, x) && x.text != ""
    requires step.Receive? && step.i < |s.turns| && s.turns[step.i].Captured? ==>
               s.turns[step.i].captured == s.refs.graph && KeepsText(step.raw, x)
    ensures ShowsEverywhere(Stepped(s, step, reader), x)
  {
    match step
    case Begin =>
    case Publish(i, valid) =>
    case Receive(i, raw, valid) =>
      if i < |s.turns| && s.turns[i].Captured? && RefreshFrom(s.refs.graph, s.refs.store, raw, reader).Some? {
        RefreshShowsAgain(s.refs.graph.value, s.refs.store.value, raw, reader, x);
      }
  }

  /** However many refreshes follow and however they interleave, the snapshot stays listed. */
  lemma {:induction false} ShownStays(start: seq<Step>, more: seq<Step>, x: Shown, reader: Reader)
    requires ShowsEverywhere(SteppedAll(start, reader), x) && x.text != "" && IsSteady(start, more, x, reader)
    ensures ShowsEverywhere(SteppedAll(start + more, reader), x)
    decreases |more|
  {
    if more == [] {
      assert start + more == start;
    } else {
      var init, last := more[..|more| - 1], more[|more| - 1];
      ShownStays(start, init, x, reader);
      assert (start + more)[..|start + more| - 1] == start + init;
      SteadyStep(SteppedAll(start + init, reader), last, x, reader);
    }
  }

  /** Over every interleaving: an undisturbed answer that changes the commit's text or the context lists what the text means. */
  lemma ChangeHealsInRuns(steps: seq<Step>, i: nat, raw: RawGraph, x: Shown, reader: Reader)
    requires var s := SteppedAll(steps, reader);
             ShowsEverywhere(s, x) && i < |s.turns| && s.turns[i] == Captured(s.refs.graph)
             && RefreshFrom(s.refs.graph, s.refs.store, raw, reader).Some?
    requires FindRaw(raw.commits, x.id).Some? && !KeepsText(raw, x)
    ensures var t := Stepped(SteppedAll(steps, reader), Receive(i, raw, true), reader).turns[i];
            && t.Built? && FindListed(t.store.commits, x.id).Some?
            && Meaning(FindRaw(raw.commits, x.id).value.json, reader) == Some(FindListed(t.store.commits, x.id).value.snapshot)
  {
    var s := SteppedAll(steps, reader);
    EveryInterleavingIsGood(steps, reader);
    ChangeHeals(s.refs.graph.value, s.refs.store.value, raw, reader, x);
  }

  // ---- The lost snapshot ----

  lemma LossIsShown(cursor: AuthorityCursor, commit: RawCommit, reader: Reader, snapshot: string)
    requires commit.json != "" && Meaning(commit.json, reader) == Some(Some(snapshot))
    ensures ShowsEverywhere(SteppedAll(LosingSteps(cursor, commit), reader), Shown(cursor, commit.id, commit.json, None))
  {
    LossIsPublished(cursor, commit, reader, snapshot);
    var pair := PairFor(cursor, commit, None);
    assert pair.0.commits[..0] == [] && pair.1.commits[..0] == [];
  }

  /** After the two overlapping refreshes the snapshot is lost, and it stays lost in every steady continuation. */
  lemma LostStaysLost(cursor: AuthorityCursor, commit: RawCommit, reader: Reader, snapshot: string, more: seq<Step>)
    requires commit.json != "" && Meaning(commit.json, reader) == Some(Some(snapshot))
    requires IsSteady(LosingSteps(cursor, commit), more, Shown(cursor, commit.id, commit.json, None), reader)
    ensures var s := SteppedAll(LosingSteps(cursor, commit) + more, reader);
            && s.refs.store.Some? && FindListed(s.refs.store.value.commits, commit.id).Some?
            && FindListed(s.refs.store.value.commits, commit.id).value.snapshot == None
  {
    LossIsShown(cursor, commit, reader, snapshot);
    ShownStays(LosingSteps(cursor, commit), more, Shown(cursor, commit.id, commit.json, None), reader);
  }
}
