/** The version graph and the version list shown for it, refreshed with reuse of earlier work. */
module Versions {
  import opened Contracts

  datatype Branch = Branch(id: Id, name: string, createdAt: string, headCommitId: Option<Id>, isCurrent: bool)

  /** A commit as the host sends it; the snapshot text is empty beyond the host's limit. */
  datatype RawCommit = RawCommit(
    id: Id, originBranchId: Id, parentId: Option<Id>, message: string, createdAt: string, json: string)

  datatype RawGraph = RawGraph(cursor: AuthorityCursor, branches: seq<Branch>, commits: seq<RawCommit>)

  datatype GraphCommit = GraphCommit(raw: RawCommit, document: Option<ResumeDocument>)

  datatype Graph = Graph(cursor: AuthorityCursor, branches: seq<Branch>, commits: seq<GraphCommit>)

  datatype ListedBranch = ListedBranch(id: Id, name: string, createdAt: string, headCommitId: Option<Id>)

  /** A commit as listed; the snapshot is opaque here. */
  datatype ListedCommit = ListedCommit(
    id: Id, branchId: Id, parentId: Option<Id>, message: string, createdAt: string, snapshot: Option<string>)

  datatype Store = Store(currentBranchId: Id, branches: seq<ListedBranch>, commits: seq<ListedCommit>)

  /** Reading a snapshot text and turning a document into a snapshot; either may fail. */
  datatype Reader = Reader(parse: string -> Option<ResumeDocument>, convert: ResumeDocument -> Option<string>)

  // ---- Lookups ----

  /** The last entry for the ID, as a map built from the list has it. */
  function FindCommit(commits: seq<GraphCommit>, id: Id): Option<GraphCommit> {
    if commits == [] then None
    else if commits[|commits| - 1].raw.id == id then Some(commits[|commits| - 1])
    else FindCommit(commits[..|commits| - 1], id)
  }

  function FindListed(commits: seq<ListedCommit>, id: Id): Option<ListedCommit> {
    if commits == [] then None
    else if commits[|commits| - 1].id == id then Some(commits[|commits| - 1])
    else FindListed(commits[..|commits| - 1], id)
  }

  function CurrentBranch(branches: seq<Branch>): Option<Branch> {
    if branches == [] then None
    else if branches[0].isCurrent then Some(branches[0])
    else CurrentBranch(branches[1..])
  }

  function HeadId(branches: seq<Branch>): Option<Id> {
    match CurrentBranch(branches)
    case None => None
    case Some(branch) => branch.headCommitId
  }

  predicate SameContext(a: AuthorityCursor, b: AuthorityCursor) {
    a.documentId == b.documentId && a.contextId == b.contextId
  }

  /** The earlier commits that may be looked at: those of the same document and context. */
  function Usable(previous: Option<Graph>, cursor: AuthorityCursor): seq<GraphCommit> {
    if previous.Some? && SameContext(previous.value.cursor, cursor) then previous.value.commits else []
  }

  // ---- Specification of the refresh ----

  /** The commit with its document: kept, parsed, or left out; none when the text cannot be parsed. */
  function ParseCommit(commit: RawCommit, cached: Option<GraphCommit>, head: Option<Id>, reader: Reader): Option<GraphCommit> {
    var sameText := cached.Some? && cached.value.raw.json == commit.json;
    if commit.json == "" then Some(GraphCommit(commit, None))
    else if sameText && cached.value.document.Some? then Some(GraphCommit(commit, cached.value.document))
    else if !sameText || Some(commit.id) == head then
      var document := reader.parse(commit.json);
      if document.None? then None else Some(GraphCommit(commit, document))
    else Some(GraphCommit(commit, None))
  }

  function ParseCommits(commits: seq<RawCommit>, earlier: seq<GraphCommit>, head: Option<Id>, reader: Reader)
    : Option<seq<GraphCommit>>
  {
    if commits == [] then Some([])
    else
      var last := commits[|commits| - 1];
      match ParseCommits(commits[..|commits| - 1], earlier, head, reader)
      case None => None
      case Some(before) =>
        match ParseCommit(last, FindCommit(earlier, last.id), head, reader)
        case None => None
        case Some(c) => Some(before + [c])
  }

  function ParseGraph(raw: RawGraph, previous: Option<Graph>, reader: Reader): Option<Graph> {
    match ParseCommits(raw.commits, Usable(previous, raw.cursor), HeadId(raw.branches), reader)
    case None => None
    case Some(commits) => Some(Graph(raw.cursor, raw.branches, commits))
  }

  /** The earlier snapshot may be used again: the commit was listed and its text is not empty and the same. */
  predicate Reuses(commit: GraphCommit, earlier: seq<GraphCommit>, listed: seq<ListedCommit>) {
    && commit.raw.json != ""
    && FindListed(listed, commit.raw.id).Some?
    && FindCommit(earlier, commit.raw.id).Some?
    && FindCommit(earlier, commit.raw.id).value.raw.json == commit.raw.json
  }

  function DocumentOf(commit: GraphCommit, reader: Reader): Option<ResumeDocument> {
    if commit.document.Some? then commit.document else reader.parse(commit.raw.json)
  }

  /** The snapshot to list, or none when the text or the document cannot be read. */
  function SnapshotOf(commit: GraphCommit, earlier: seq<GraphCommit>, listed: seq<ListedCommit>, reader: Reader)
    : Option<Option<string>>
  {
    if Reuses(commit, earlier, listed) then Some(FindListed(listed, commit.raw.id).value.snapshot)
    else if commit.raw.json == "" then Some(None)
    else
      match DocumentOf(commit, reader)
      case None => None
      case Some(document) =>
        match reader.convert(document)
        case None => None
        case Some(snapshot) => Some(Some(snapshot))
  }

  function Listed(raw: RawCommit, snapshot: Option<string>): ListedCommit {
    ListedCommit(raw.id, raw.originBranchId, raw.parentId, raw.message, raw.createdAt, snapshot)
  }

  function ListCommits(commits: seq<GraphCommit>, earlier: seq<GraphCommit>, listed: seq<ListedCommit>, reader: Reader)
    : Option<seq<ListedCommit>>
  {
    if commits == [] then Some([])
    else
      var last := commits[|commits| - 1];
      match ListCommits(commits[..|commits| - 1], earlier, listed, reader)
      case None => None
      case Some(before) =>
        match SnapshotOf(last, earlier, listed, reader)
        case None => None
        case Some(snapshot) => Some(before + [Listed(last.raw, snapshot)])
  }

  function ListBranches(branches: seq<Branch>): seq<ListedBranch> {
    if branches == [] then []
    else [ListedBranch(branches[0].id, branches[0].name, branches[0].createdAt, branches[0].headCommitId)]
         + ListBranches(branches[1..])
  }

  function CurrentId(branches: seq<Branch>): Id {
    match CurrentBranch(branches)
    case Some(branch) => branch.id
    case None => if branches != [] then branches[0].id else "main"
  }

  /** Documents of all commits but the current head are let go. */
  function Released(commits: seq<GraphCommit>, head: Option<Id>): seq<GraphCommit> {
    if commits == [] then []
    else
      var last := commits[|commits| - 1];
      Released(commits[..|commits| - 1], head) + [if Some(last.raw.id) == head then last else last.(document := None)]
  }

  datatype Refs = Refs(graph: Option<Graph>, store: Option<Store>)

  function EarlierListed(captured: Option<Graph>, store: Option<Store>): seq<ListedCommit> {
    if captured.Some? && store.Some? then store.value.commits else []
  }

  function EarlierCommits(captured: Option<Graph>, store: Option<Store>, cursor: AuthorityCursor): seq<GraphCommit> {
    if store.Some? then Usable(captured, cursor) else []
  }

  /** A refresh from the graph captured at its start and the list present at its end; none when something cannot be read. */
  function RefreshFrom(captured: Option<Graph>, store: Option<Store>, raw: RawGraph, reader: Reader): Option<(Graph, Store)> {
    match ParseGraph(raw, captured, reader)
    case None => None
    case Some(graph) =>
      match ListCommits(graph.commits, EarlierCommits(captured, store, raw.cursor), EarlierListed(captured, store), reader)
      case None => None
      case Some(listed) =>
        Some((graph.(commits := Released(graph.commits, HeadId(graph.branches))),
              Store(CurrentId(graph.branches), ListBranches(graph.branches), listed)))
  }

  /** The refresh with nothing to reuse. */
  function FromScratch(raw: RawGraph, reader: Reader): Option<(Graph, Store)> {
    RefreshFrom(None, None, raw, reader)
  }

  // ---- The refresh ----

  class VersionList {
    var graphRef: Option<Graph>
    var storeRef: Option<Store>
    const reader: Reader

    constructor (reader': Reader)
      ensures Now() == Refs(None, None) && reader == reader'
    {
      graphRef, storeRef, reader := None, None, reader';
    }

    function Now(): Refs
      reads this
    {
      Refs(graphRef, storeRef)
    }

    method Parse(raw: RawGraph, previous: Option<Graph>) returns (graph: Option<Graph>)
      ensures graph == ParseGraph(raw, previous, reader)
    {
      var earlier := Usable(previous, raw.cursor);
      var head := HeadId(raw.branches);
      var commits: seq<GraphCommit> := [];
      for i := 0 to |raw.commits|
        invariant ParseCommits(raw.commits[..i], earlier, head, reader) == Some(commits)
      {
        assert raw.commits[..i + 1][..i] == raw.commits[..i];
        var commit := raw.commits[i];
        var cached := FindCommit(earlier, commit.id);
        var sameText := cached.Some? && cached.value.raw.json == commit.json;
        var document: Option<ResumeDocument> := None;
        if commit.json != "" {
          if sameText && cached.value.document.Some? {
            document := cached.value.document;
          } else if !sameText || Some(commit.id) == head {
            document := reader.parse(commit.json);
            if document.None? {
              FailedParse(raw.commits, i + 1, earlier, head, reader);
              return None;
            }
          }
        }
        commits := commits + [GraphCommit(commit, document)];
      }
      assert raw.commits[..|raw.commits|] == raw.commits;
      return Some(Graph(raw.cursor, raw.branches, commits));
    }

    method BuildList(commits: seq<GraphCommit>, earlier: seq<GraphCommit>, listed: seq<ListedCommit>)
      returns (result: Option<seq<ListedCommit>>)
      ensures result == ListCommits(commits, earlier, listed, reader)
    {
      var built: seq<ListedCommit> := [];
      for i := 0 to |commits|
        invariant ListCommits(commits[..i], earlier, listed, reader) == Some(built)
      {
        assert commits[..i + 1][..i] == commits[..i];
        var commit := commits[i];
        var snapshot := SnapshotOf(commit, earlier, listed, reader);
        if snapshot.None? {
          FailedList(commits, i + 1, earlier, listed, reader);
          return None;
        }
        built := built + [Listed(commit.raw, snapshot.value)];
      }
      assert commits[..|commits|] == commits;
      return Some(built);
    }

    /** Clears, in place, every document but the head's. */
    method Release(commits: array<GraphCommit>, head: Option<Id>)
      modifies commits
      ensures commits[..] == Released(old(commits[..]), head)
    {
      for i := 0 to commits.Length
        invariant commits[..i] == Released(old(commits[..i]), head)
        invariant forall k :: i <= k < commits.Length ==> commits[k] == old(commits[k])
      {
        ghost var was := old(commits[..i + 1]);
        assert was[..i] == old(commits[..i]) && was[i] == commits[i];
        if Some(commits[i].raw.id) != head {
          commits[i] := commits[i].(document := None);
        }
        assert commits[..i + 1] == commits[..i] + [commits[i]];
      }
      assert commits[..commits.Length] == commits[..] && old(commits[..commits.Length]) == old(commits[..]);
    }

    /** `valid` says whether target and cursor are still the expected ones; otherwise nothing is published. */
    method Refresh(captured: Option<Graph>, raw: RawGraph, valid: bool) returns (ok: bool)
      modifies this
      ensures var r := RefreshFrom(captured, old(storeRef), raw, reader);
              && ok == (valid && r.Some?)
              && Now() == if ok then Refs(Some(r.value.0), Some(r.value.1)) else old(Now())
    {
      var graph := Parse(raw, captured);
      if graph.None? {
        return false;
      }
      var built := BuildList(graph.value.commits, EarlierCommits(captured, storeRef, raw.cursor), EarlierListed(captured, storeRef));
      if built.None? || !valid {
        return false;
      }
      var kept := graph.value.commits;
      var commits := new GraphCommit[|kept|](i requires 0 <= i < |kept| => kept[i]);
      assert commits[..] == kept;
      Release(commits, HeadId(raw.branches));
      graphRef := Some(graph.value.(commits := commits[..]));
      storeRef := Some(Store(CurrentId(raw.branches), ListBranches(raw.branches), built.value));
      return true;
    }
  }

  lemma {:induction false} FailedParse(commits: seq<RawCommit>, n: nat, earlier: seq<GraphCommit>, head: Option<Id>, reader: Reader)
    requires n <= |commits| && ParseCommits(commits[..n], earlier, head, reader).None?
    ensures ParseCommits(commits, earlier, head, reader).None?
    decreases |commits|
  {
    if n == |commits| {
      assert commits[..n] == commits;
    } else {
      assert commits[..|commits| - 1][..n] == commits[..n];
      FailedParse(commits[..|commits| - 1], n, earlier, head, reader);
    }
  }

  lemma {:induction false} FailedList(commits: seq<GraphCommit>, n: nat, earlier: seq<GraphCommit>, listed: seq<ListedCommit>, reader: Reader)
    requires n <= |commits| && ListCommits(commits[..n], earlier, listed, reader).None?
    ensures ListCommits(commits, earlier, listed, reader).None?
    decreases |commits|
  {
    if n == |commits| {
      assert commits[..n] == commits;
    } else {
      assert commits[..|commits| - 1][..n] == commits[..n];
      FailedList(commits[..|commits| - 1], n, earlier, listed, reader);
    }
  }

  // ---- What a published pair says ----

  /** The snapshot a text stands for: none for the empty text, absent when it cannot be read. */
  function Meaning(json: string, reader: Reader): Option<Option<string>> {
    if json == "" then Some(None)
    else
      match reader.parse(json)
      case None => None
      case Some(document) =>
        match reader.convert(document)
        case None => None
        case Some(snapshot) => Some(Some(snapshot))
  }

  predicate IsFaithful(commit: GraphCommit, reader: Reader) {
    commit.document.Some? ==> commit.raw.json != "" && commit.document == reader.parse(commit.raw.json)
  }

  predicate AreFaithful(commits: seq<GraphCommit>, reader: Reader) {
    forall c :: c in commits ==> IsFaithful(c, reader)
  }

  /** Graph and list agree commit by commit, and each snapshot is what the text means. */
  predicate Matches(commits: seq<GraphCommit>, listed: seq<ListedCommit>, reader: Reader) {
    && |commits| == |listed|
    && forall i :: 0 <= i < |commits| ==>
         Meaning(commits[i].raw.json, reader) == Some(listed[i].snapshot) && listed[i] == Listed(commits[i].raw, listed[i].snapshot)
  }

  ghost predicate IsSound(refs: Refs, reader: Reader) {
    if refs.graph.None? then refs.store.None?
    else
      && refs.store.Some?
      && AreFaithful(refs.graph.value.commits, reader)
      && Matches(refs.graph.value.commits, refs.store.value.commits, reader)
  }

  // ---- Reuse gives what reading gives ----

  /** The entries for one ID stand at the same place in graph and list. */
  lemma {:induction false} FoundTogether(commits: seq<GraphCommit>, listed: seq<ListedCommit>, reader: Reader, id: Id)
    requires Matches(commits, listed, reader)
    ensures FindCommit(commits, id).Some? <==> FindListed(listed, id).Some?
    ensures FindCommit(commits, id).Some? ==>
              Meaning(FindCommit(commits, id).value.raw.json, reader) == Some(FindListed(listed, id).value.snapshot)
  {
    if commits != [] {
      var n := |commits| - 1;
      assert listed[n] == Listed(commits[n].raw, listed[n].snapshot);
      FoundTogether(commits[..n], listed[..n], reader, id);
    }
  }

  lemma {:induction false} FoundIsIn(commits: seq<GraphCommit>, id: Id)
    ensures FindCommit(commits, id).Some? ==> FindCommit(commits, id).value in commits
  {
    if commits != [] {
      FoundIsIn(commits[..|commits| - 1], id);
    }
  }

  /** Every commit is parsed to a faithful entry; it fails only when the text cannot be parsed. */
  lemma ParsedIsFaithful(commit: RawCommit, earlier: seq<GraphCommit>, head: Option<Id>, reader: Reader)
    requires AreFaithful(earlier, reader)
    ensures var r := ParseCommit(commit, FindCommit(earlier, commit.id), head, reader);
            && (r.Some? ==> IsFaithful(r.value, reader) && r.value.raw == commit)
            && (r.None? ==> Meaning(commit.json, reader).None?)
            && (r.Some? && Some(commit.id) == head && commit.json != "" ==>
                r.value.document.Some? && r.value.document == reader.parse(commit.json))
  {
    FoundIsIn(earlier, commit.id);
  }

  /** With a sound pair to reuse from, the snapshot listed is what the text means. */
  lemma SnapshotIsMeaning(commit: GraphCommit, earlier: seq<GraphCommit>, listed: seq<ListedCommit>, reader: Reader)
    requires IsFaithful(commit, reader) && (earlier == [] || Matches(earlier, listed, reader))
    ensures SnapshotOf(commit, earlier, listed, reader) == Meaning(commit.raw.json, reader)
  {
    if earlier != [] {
      FoundTogether(earlier, listed, reader, commit.raw.id);
    }
  }

  /** The list that reads every text. */
  function ReadAll(commits: seq<RawCommit>, reader: Reader): Option<seq<ListedCommit>> {
    if commits == [] then Some([])
    else
      var last := commits[|commits| - 1];
      match ReadAll(commits[..|commits| - 1], reader)
      case None => None
      case Some(before) =>
        match Meaning(last.json, reader)
        case None => None
        case Some(snapshot) => Some(before + [Listed(last, snapshot)])
  }

  function Heads(commits: seq<RawCommit>, head: Option<Id>, reader: Reader): seq<GraphCommit> {
    if commits == [] then []
    else
      var last := commits[|commits| - 1];
      Heads(commits[..|commits| - 1], head, reader)
      + [GraphCommit(last, if Some(last.id) == head && last.json != "" then reader.parse(last.json) else None)]
  }

  function Raws(commits: seq<GraphCommit>): seq<RawCommit> {
    if commits == [] then [] else Raws(commits[..|commits| - 1]) + [commits[|commits| - 1].raw]
  }

  /** The parsed commits are the raw ones, each true to its text, with the head's document kept when the rest is released. */
  predicate IsReadingOf(parsed: seq<GraphCommit>, commits: seq<RawCommit>, head: Option<Id>, reader: Reader) {
    AreFaithful(parsed, reader) && Raws(parsed) == commits && Released(parsed, head) == Heads(commits, head, reader)
  }

  lemma {:induction false} ParsedCommits(commits: seq<RawCommit>, earlier: seq<GraphCommit>, head: Option<Id>, reader: Reader)
    requires AreFaithful(earlier, reader)
    ensures var r := ParseCommits(commits, earlier, head, reader);
            && (r.None? ==> ReadAll(commits, reader).None?)
            && (r.Some? ==> IsReadingOf(r.value, commits, head, reader))
  {
    if commits != [] {
      var init, last := commits[..|commits| - 1], commits[|commits| - 1];
      ParsedCommits(init, earlier, head, reader);
      ParsedIsFaithful(last, earlier, head, reader);
      var before := ParseCommits(init, earlier, head, reader);
      var c := ParseCommit(last, FindCommit(earlier, last.id), head, reader);
      if before.Some? && c.Some? {
        ReadingGrows(before.value, c.value, commits, head, reader);
      }
    }
  }

  lemma ReadingGrows(before: seq<GraphCommit>, c: GraphCommit, commits: seq<RawCommit>, head: Option<Id>, reader: Reader)
    requires commits != [] && IsReadingOf(before, commits[..|commits| - 1], head, reader)
    requires IsFaithful(c, reader) && c.raw == commits[|commits| - 1]
    requires Some(c.raw.id) == head && c.raw.json != "" ==> c.document.Some? && c.document == reader.parse(c.raw.json)
    ensures IsReadingOf(before + [c], commits, head, reader)
  {
    var parsed := before + [c];
    assert parsed[..|parsed| - 1] == before;
    assert commits == commits[..|commits| - 1] + [c.raw];
  }

  lemma {:induction false} ListedCommits(commits: seq<GraphCommit>, earlier: seq<GraphCommit>, listed: seq<ListedCommit>, reader: Reader)
    requires AreFaithful(commits, reader) && (earlier == [] || Matches(earlier, listed, reader))
    ensures ListCommits(commits, earlier, listed, reader) == ReadAll(Raws(commits), reader)
  {
    if commits != [] {
      var init, last := commits[..|commits| - 1], commits[|commits| - 1];
      ListedCommits(init, earlier, listed, reader);
      SnapshotIsMeaning(last, earlier, listed, reader);
      assert Raws(commits)[..|Raws(commits)| - 1] == Raws(init);
    }
  }

  /** What a refresh should publish: every text read, only the head's document kept. */
  function Intended(raw: RawGraph, reader: Reader): Option<(Graph, Store)> {
    match ReadAll(raw.commits, reader)
    case None => None
    case Some(listed) =>
      Some((Graph(raw.cursor, raw.branches, Heads(raw.commits, HeadId(raw.branches), reader)),
            Store(CurrentId(raw.branches), ListBranches(raw.branches), listed)))
  }

  /** From any sound pair, whatever its document, context or commits, a refresh publishes what it should. */
  lemma RefreshIsIntended(refs: Refs, raw: RawGraph, reader: Reader)
    requires IsSound(refs, reader)
    ensures RefreshFrom(refs.graph, refs.store, raw, reader) == Intended(raw, reader)
  {
    var earlier, head := Usable(refs.graph, raw.cursor), HeadId(raw.branches);
    ParsedCommits(raw.commits, earlier, head, reader);
    var parsed := ParseCommits(raw.commits, earlier, head, reader);
    if parsed.Some? {
      ListedCommits(parsed.value, EarlierCommits(refs.graph, refs.store, raw.cursor), EarlierListed(refs.graph, refs.store), reader);
    }
  }

  /** The store and graph built with reuse are those built from scratch, and one fails exactly when the other does. */
  lemma ReuseEqualsScratch(refs: Refs, raw: RawGraph, reader: Reader)
    requires IsSound(refs, reader)
    ensures RefreshFrom(refs.graph, refs.store, raw, reader) == FromScratch(raw, reader)
  {
    RefreshIsIntended(refs, raw, reader);
    RefreshIsIntended(Refs(None, None), raw, reader);
  }

  lemma {:induction false} IntendedIsSound(commits: seq<RawCommit>, head: Option<Id>, reader: Reader)
    requires ReadAll(commits, reader).Some?
    ensures AreFaithful(Heads(commits, head, reader), reader)
    ensures Matches(Heads(commits, head, reader), ReadAll(commits, reader).value, reader)
  {
    if commits != [] {
      IntendedIsSound(commits[..|commits| - 1], head, reader);
    }
  }

  /** The published head document is the parsed text of the head, whenever that text is not empty. */
  lemma {:induction false} HeadDocumentIsKept(commits: seq<RawCommit>, head: Option<Id>, reader: Reader, i: nat)
    requires i < |commits|
    ensures |Heads(commits, head, reader)| == |commits|
    ensures var c := Heads(commits, head, reader)[i];
            c.raw == commits[i] && c.document == if Some(commits[i].id) == head && commits[i].json != "" then reader.parse(commits[i].json) else None
  {
    if i < |commits| - 1 {
      HeadDocumentIsKept(commits[..|commits| - 1], head, reader, i);
    } else if i > 0 {
      HeadDocumentIsKept(commits[..|commits| - 1], head, reader, 0);
    }
  }

  // ---- Sequences of refreshes ----

  datatype Received = Received(raw: RawGraph, valid: bool)

  function After(refs: Refs, r: Received, reader: Reader): Refs {
    var p := RefreshFrom(refs.graph, refs.store, r.raw, reader);
    if r.valid && p.Some? then Refs(Some(p.value.0), Some(p.value.1)) else refs
  }

  function AfterAll(received: seq<Received>, reader: Reader): Refs {
    if received == [] then Refs(None, None)
    else After(AfterAll(received[..|received| - 1], reader), received[|received| - 1], reader)
  }

  /** The latest graph that could be published. */
  function LatestReadable(received: seq<Received>, reader: Reader): Option<RawGraph> {
    if received == [] then None
    else
      var last := received[|received| - 1];
      if last.valid && FromScratch(last.raw, reader).Some? then Some(last.raw)
      else LatestReadable(received[..|received| - 1], reader)
  }

  /** After any sequence of refreshes the published pair is the latest readable graph, read from scratch. */
  lemma {:induction false} RefreshesForgetTheirHistory(received: seq<Received>, reader: Reader)
    ensures var refs := AfterAll(received, reader);
            && IsSound(refs, reader)
            && match LatestReadable(received, reader)
               case None => refs == Refs(None, None)
               case Some(raw) => FromScratch(raw, reader).Some?
                                 && refs == Refs(Some(FromScratch(raw, reader).value.0), Some(FromScratch(raw, reader).value.1))
  {
    if received != [] {
      var last := received[|received| - 1];
      var refs := AfterAll(received[..|received| - 1], reader);
      RefreshesForgetTheirHistory(received[..|received| - 1], reader);
      ReuseEqualsScratch(refs, last.raw, reader);
      RefreshIsIntended(refs, last.raw, reader);
      if last.valid && FromScratch(last.raw, reader).Some? {
        IntendedIsSound(last.raw.commits, HeadId(last.raw.branches), reader);
      }
    }
  }
}
