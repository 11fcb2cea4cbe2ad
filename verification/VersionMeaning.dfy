/** What a version list read from scratch is, commit by commit. */
module VersionMeaning {
  import opened Contracts
  import opened Versions

  // ---- The current branch ----

  /** The branch at i is the first current one. */
  predicate IsCurrentAt(branches: seq<Branch>, i: nat) {
    i < |branches| && branches[i].isCurrent && forall j :: 0 <= j < i ==> !branches[j].isCurrent
  }

  predicate NoneIsCurrent(branches: seq<Branch>) {
    forall i :: 0 <= i < |branches| ==> !branches[i].isCurrent
  }

  lemma {:induction false} CurrentIsFirst(branches: seq<Branch>, i: nat)
    ensures IsCurrentAt(branches, i) ==> CurrentBranch(branches) == Some(branches[i])
    ensures NoneIsCurrent(branches) ==> CurrentBranch(branches) == None
    decreases i, |branches|
  {
    if branches != [] && !branches[0].isCurrent {
      var rest := branches[1..];
      if NoneIsCurrent(branches) {
        assert forall k :: 0 <= k < |rest| ==> rest[k] == branches[k + 1];
        CurrentIsFirst(rest, 0);
      }
      if IsCurrentAt(branches, i) {
        assert forall k :: 0 <= k < |rest| ==> rest[k] == branches[k + 1];
        CurrentIsFirst(rest, i - 1);
      }
    }
  }

  /** The commit that the first current branch points to. */
  predicate IsHead(branches: seq<Branch>, id: Id) {
    exists i :: 0 <= i < |branches| && IsCurrentAt(branches, i) && branches[i].headCommitId == Some(id)
  }

  lemma SomeIsFirst(branches: seq<Branch>) returns (i: nat)
    requires !NoneIsCurrent(branches)
    ensures IsCurrentAt(branches, i)
  {
    i := 0;
    while !branches[i].isCurrent
      invariant i < |branches| && forall j :: 0 <= j < i ==> !branches[j].isCurrent
      decreases |branches| - i
    {
      if i + 1 == |branches| {
        assert NoneIsCurrent(branches);
      }
      i := i + 1;
    }
  }

  lemma HeadIsOfCurrent(branches: seq<Branch>, id: Id)
    ensures HeadId(branches) == Some(id) <==> IsHead(branches, id)
  {
    if NoneIsCurrent(branches) {
      CurrentIsFirst(branches, 0);
    } else {
      var i := SomeIsFirst(branches);
      CurrentIsFirst(branches, i);
      forall j | 0 <= j < |branches| && IsCurrentAt(branches, j) ensures CurrentBranch(branches) == Some(branches[j]) {
        CurrentIsFirst(branches, j);
      }
    }
  }

  // ---- One commit ----

  /** The text is empty, or it can be read and shown. */
  predicate IsReadable(json: string, reader: Reader) {
    json == "" || (reader.parse(json).Some? && reader.convert(reader.parse(json).value).Some?)
  }

  /** What is listed for a commit: its own data, and the snapshot of its text unless that is empty. */
  predicate IsListing(listed: ListedCommit, commit: RawCommit, reader: Reader) {
    && listed.id == commit.id && listed.branchId == commit.originBranchId && listed.parentId == commit.parentId
    && listed.message == commit.message && listed.createdAt == commit.createdAt
    && (if commit.json == "" then listed.snapshot == None
        else reader.parse(commit.json).Some? && listed.snapshot == reader.convert(reader.parse(commit.json).value))
  }

  /** What is kept of a commit: its data, and its document if it is the head and has a text. */
  predicate IsKept(kept: GraphCommit, commit: RawCommit, branches: seq<Branch>, reader: Reader) {
    && kept.raw == commit
    && kept.document == if commit.json != "" && IsHead(branches, commit.id) then reader.parse(commit.json) else None
  }

  lemma {:induction false} ScratchCommits(commits: seq<RawCommit>, head: Option<Id>, reader: Reader)
    ensures var r := ParseCommits(commits, [], head, reader);
            && (r.Some? <==> forall i :: 0 <= i < |commits| ==> commits[i].json == "" || reader.parse(commits[i].json).Some?)
            && (r.Some? ==> |r.value| == |commits|)
            && (r.Some? ==> forall i :: 0 <= i < |commits| ==>
                  r.value[i] == GraphCommit(commits[i], if commits[i].json == "" then None else reader.parse(commits[i].json)))
  {
    if commits != [] {
      ScratchCommits(commits[..|commits| - 1], head, reader);
    }
  }

  lemma {:induction false} ScratchList(commits: seq<GraphCommit>, reader: Reader)
    requires forall i :: 0 <= i < |commits| ==>
               commits[i].document == if commits[i].raw.json == "" then None else reader.parse(commits[i].raw.json)
    requires forall i :: 0 <= i < |commits| ==> commits[i].raw.json == "" || commits[i].document.Some?
    ensures var r := ListCommits(commits, [], [], reader);
            && (r.Some? <==> forall i :: 0 <= i < |commits| ==> IsReadable(commits[i].raw.json, reader))
            && (r.Some? ==> |r.value| == |commits|)
            && (r.Some? ==> forall i :: 0 <= i < |commits| ==> IsListing(r.value[i], commits[i].raw, reader))
  {
    if commits != [] {
      ScratchList(commits[..|commits| - 1], reader);
    }
  }

  lemma {:induction false} ReleasedAt(commits: seq<GraphCommit>, head: Option<Id>)
    ensures var r := Released(commits, head);
            |r| == |commits| && forall i :: 0 <= i < |commits| ==>
              r[i].raw == commits[i].raw && r[i].document == if Some(commits[i].raw.id) == head then commits[i].document else None
  {
    if commits != [] {
      ReleasedAt(commits[..|commits| - 1], head);
    }
  }

  lemma {:induction false} BranchesAt(branches: seq<Branch>)
    ensures var r := ListBranches(branches);
            |r| == |branches| && forall i :: 0 <= i < |branches| ==>
              r[i] == ListedBranch(branches[i].id, branches[i].name, branches[i].createdAt, branches[i].headCommitId)
  {
    if branches != [] {
      BranchesAt(branches[1..]);
    }
  }

  // ---- The whole list ----

  /** The current branch's ID: the first current one's, else the first one's, else "main". */
  predicate IsCurrentId(branches: seq<Branch>, id: Id) {
    if NoneIsCurrent(branches) then id == (if branches == [] then "main" else branches[0].id)
    else exists i :: 0 <= i < |branches| && IsCurrentAt(branches, i) && id == branches[i].id
  }

  predicate IsReadOf(raw: RawGraph, graph: Graph, store: Store, reader: Reader) {
    && graph.cursor == raw.cursor && graph.branches == raw.branches && |graph.commits| == |raw.commits|
    && (forall i :: 0 <= i < |raw.commits| ==> IsKept(graph.commits[i], raw.commits[i], raw.branches, reader))
    && IsCurrentId(raw.branches, store.currentBranchId) && |store.branches| == |raw.branches|
    && (forall i :: 0 <= i < |raw.branches| ==>
          store.branches[i] ==
          ListedBranch(raw.branches[i].id, raw.branches[i].name, raw.branches[i].createdAt, raw.branches[i].headCommitId))
    && |store.commits| == |raw.commits|
    && (forall i :: 0 <= i < |raw.commits| ==> IsListing(store.commits[i], raw.commits[i], reader))
  }

  lemma CurrentIdIs(branches: seq<Branch>)
    ensures IsCurrentId(branches, CurrentId(branches))
  {
    if NoneIsCurrent(branches) {
      CurrentIsFirst(branches, 0);
    } else {
      var i := SomeIsFirst(branches);
      CurrentIsFirst(branches, i);
    }
  }

  /** Reading from scratch works exactly when every text is empty or can be read, and gives every commit's own listing. */
  lemma ScratchMeans(raw: RawGraph, reader: Reader)
    ensures FromScratch(raw, reader).Some? <==> forall i :: 0 <= i < |raw.commits| ==> IsReadable(raw.commits[i].json, reader)
    ensures FromScratch(raw, reader).Some? ==>
              IsReadOf(raw, FromScratch(raw, reader).value.0, FromScratch(raw, reader).value.1, reader)
  {
    var head := HeadId(raw.branches);
    ScratchCommits(raw.commits, head, reader);
    var parsed := ParseCommits(raw.commits, [], head, reader);
    if parsed.Some? {
      ScratchList(parsed.value, reader);
      ReleasedAt(parsed.value, head);
      BranchesAt(raw.branches);
      CurrentIdIs(raw.branches);
      forall i | 0 <= i < |raw.commits| ensures IsKept(Released(parsed.value, head)[i], raw.commits[i], raw.branches, reader) {
        HeadIsOfCurrent(raw.branches, raw.commits[i].id);
      }
    }
  }
}
