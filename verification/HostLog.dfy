/** The host over whole runs: its state is the fold of the commands it accepted. */
module HostLog {
  import opened Contracts
  import opened Strings
  import opened Documents
  import opened Domain

  datatype Request = Request(actor: string, contextId: Id, envelope: CommandEnvelope)

  function Serve(h: Host, r: Request): Reply {
    Handle(h, r.actor, r.contextId, r.envelope)
  }

  /** The host after serving the requests in order. */
  function RunHost(h: Host, rs: seq<Request>): Host {
    if rs == [] then h else Serve(RunHost(h, rs[..|rs| - 1]), rs[|rs| - 1]).host
  }

  /** The request changes the document: it is accepted and not a replay. */
  predicate Commits(h: Host, r: Request) {
    Serve(h, r).outcome.Ok? && r.envelope.commandId !in h.processed
  }

  /** The committing requests of a run, in order. */
  function Log(h: Host, rs: seq<Request>): seq<Request> {
    if rs == [] then []
    else
      var init, last := rs[..|rs| - 1], rs[|rs| - 1];
      Log(h, init) + if Commits(RunHost(h, init), last) then [last] else []
  }

  /** Applies the payloads in order; nothing, when one of them is refused. */
  function Fold(d: ResumeDocument, log: seq<Request>): Option<ResumeDocument> {
    if log == [] then Some(d)
    else
      var before := Fold(d, log[..|log| - 1]);
      if before.None? then None
      else
        var r := Apply(before.value, log[|log| - 1].envelope.payload);
        if r.Ok? then Some(r.value) else None
  }

  // ---- One request ----

  /** What one request does: commit one step, or leave the host exactly as it was. */
  lemma OneRequest(h: Host, r: Request)
    ensures var reply := Serve(h, r);
            if Commits(h, r) then
              && Apply(h.document, r.envelope.payload) == Ok(reply.host.document)
              && reply.host.revision == h.revision + 1
              && reply.host.branchId == h.branchId && reply.host.headId == h.headId
              && reply.outcome.value.commandId == r.envelope.commandId
              && reply.outcome.value.document == reply.host.document
              && reply.outcome.value.cursor == reply.host.Cursor(r.contextId)
              && reply.host.processed ==
                 h.processed[r.envelope.commandId := Processed(r.envelope, reply.outcome.value, r.actor)]
            else reply.host == h
  {
  }

  /** No command changes the document's ID or schema. */
  lemma ApplyKeepsIdentity(d: ResumeDocument, c: DomainCommand)
    requires Apply(d, c).Ok?
    ensures Apply(d, c).value.documentId == d.documentId && Apply(d, c).value.schemaVersion == d.schemaVersion
  {
    EditKeepsIdentity(d, c);
  }

  lemma EditKeepsIdentity(d: ResumeDocument, c: DomainCommand)
    requires Edit(d, c).Ok?
    ensures Edit(d, c).value.documentId == d.documentId && Edit(d, c).value.schemaVersion == d.schemaVersion
  {
  }

  // ---- Whole runs ----

  /** The receipt of the k-th commit reports the k-th revision and the document folded so far. */
  predicate ReceiptsMatch(h0: Host, h: Host, log: seq<Request>) {
    forall k :: 0 <= k < |log| ==> ReceiptMatches(h0, h, log, k)
  }

  predicate ReceiptMatches(h0: Host, h: Host, log: seq<Request>, k: nat)
    requires k < |log|
  {
    var id := log[k].envelope.commandId;
    && id in h.processed
    && h.processed[id].request == log[k].envelope && h.processed[id].actor == log[k].actor
    && h.processed[id].receipt.cursor.revision == Decimal(h0.revision + k + 1)
    && Fold(h0.document, log[..k + 1]) == Some(h.processed[id].receipt.document)
  }

  predicate FreshIds(h0: Host, log: seq<Request>) {
    && (forall k :: 0 <= k < |log| ==> log[k].envelope.commandId !in h0.processed)
    && (forall j, k :: 0 <= j < k < |log| ==> log[j].envelope.commandId != log[k].envelope.commandId)
  }

  /** The host refines its log: document, revision, receipts and IDs are those of the accepted commands. */
  predicate Refines(h0: Host, h: Host, log: seq<Request>) {
    && Valid(h.document)
    && Fold(h0.document, log) == Some(h.document)
    && h.revision == h0.revision + |log|
    && h.branchId == h0.branchId && h.headId == h0.headId
    && h.processed.Keys == h0.processed.Keys + (set r | r in log :: r.envelope.commandId)
    && FreshIds(h0, log)
    && ReceiptsMatch(h0, h, log)
  }

  lemma FreshExtends(h0: Host, h: Host, log: seq<Request>, r: Request)
    requires FreshIds(h0, log) && r.envelope.commandId !in h.processed
    requires h.processed.Keys == h0.processed.Keys + (set x | x in log :: x.envelope.commandId)
    ensures FreshIds(h0, log + [r])
    ensures h.processed.Keys + {r.envelope.commandId} ==
            h0.processed.Keys + (set x | x in log + [r] :: x.envelope.commandId)
  {
    var longer := log + [r];
    assert forall x :: x in longer <==> x in log || x == r;
    forall k | 0 <= k < |log| ensures log[k].envelope.commandId != r.envelope.commandId {
      assert log[k] in log;
      assert log[k].envelope.commandId in h.processed.Keys;
    }
  }

  lemma ReceiptsExtend(h0: Host, h: Host, log: seq<Request>, r: Request, next: Host)
    requires ReceiptsMatch(h0, h, log) && r.envelope.commandId !in h.processed
    requires r.envelope.commandId in next.processed
    requires next.processed == h.processed[r.envelope.commandId := next.processed[r.envelope.commandId]]
    requires ReceiptMatches(h0, next, log + [r], |log|)
    ensures ReceiptsMatch(h0, next, log + [r])
  {
    forall k | 0 <= k < |log + [r]| ensures ReceiptMatches(h0, next, log + [r], k) {
      if k < |log| {
        ReceiptStays(h0, h, log, r, next, k);
      }
    }
  }

  lemma ReceiptStays(h0: Host, h: Host, log: seq<Request>, r: Request, next: Host, k: nat)
    requires k < |log| && ReceiptMatches(h0, h, log, k)
    requires forall id :: id in h.processed ==> id in next.processed && next.processed[id] == h.processed[id]
    ensures ReceiptMatches(h0, next, log + [r], k)
  {
    assert (log + [r])[..k + 1] == log[..k + 1];
    assert (log + [r])[k] == log[k];
  }

  lemma FoldExtends(d: ResumeDocument, log: seq<Request>, r: Request)
    ensures Fold(d, log + [r]) ==
            if Fold(d, log).None? then None
            else if Apply(Fold(d, log).value, r.envelope.payload).Ok? then Some(Apply(Fold(d, log).value, r.envelope.payload).value)
            else None
  {
    assert (log + [r])[..|log|] == log;
  }

  lemma CommitExtends(h0: Host, h: Host, log: seq<Request>, r: Request)
    requires Refines(h0, h, log) && Commits(h, r)
    ensures Refines(h0, Serve(h, r).host, log + [r])
  {
    var next := Serve(h, r).host;
    OneRequest(h, r);
    FreshExtends(h0, h, log, r);
    FoldExtends(h0.document, log, r);
    assert (log + [r])[..|log| + 1] == log + [r];
    assert ReceiptMatches(h0, next, log + [r], |log|);
    ReceiptsExtend(h0, h, log, r, next);
  }

  /** Over every run from a valid document, the host refines the log of the run. */
  lemma {:induction false} HostRefinesLog(h0: Host, rs: seq<Request>)
    requires Valid(h0.document)
    ensures Refines(h0, RunHost(h0, rs), Log(h0, rs))
  {
    if rs != [] {
      var init, last := rs[..|rs| - 1], rs[|rs| - 1];
      HostRefinesLog(h0, init);
      var h := RunHost(h0, init);
      if Commits(h, last) {
        CommitExtends(h0, h, Log(h0, init), last);
      } else {
        OneRequest(h, last);
        assert Log(h0, rs) == Log(h0, init);
      }
    }
  }

  lemma {:induction false} ReceiptsAreKept(h: Host, rs: seq<Request>, id: Id)
    requires id in h.processed
    ensures id in RunHost(h, rs).processed && RunHost(h, rs).processed[id] == h.processed[id]
  {
    if rs != [] {
      ReceiptsAreKept(h, rs[..|rs| - 1], id);
      OneRequest(RunHost(h, rs[..|rs| - 1]), rs[|rs| - 1]);
    }
  }

  /** Once answered with a receipt, the same request gets the same receipt after any run, and changes nothing. */
  lemma ReplayReturnsTheReceipt(h: Host, r: Request, rs: seq<Request>)
    requires Serve(h, r).outcome.Ok?
    ensures var later := RunHost(Serve(h, r).host, rs);
            Serve(later, r) == Reply(later, Serve(h, r).outcome)
  {
    OneRequest(h, r);
    ReceiptsAreKept(Serve(h, r).host, rs, r.envelope.commandId);
  }

  /** A command ID can never commit twice, whoever sends it and whatever it carries. */
  lemma IdCommitsOnce(h: Host, r: Request, rs: seq<Request>, s: Request)
    requires Commits(h, r) && s.envelope.commandId == r.envelope.commandId
    ensures !Commits(RunHost(Serve(h, r).host, rs), s)
  {
    OneRequest(h, r);
    ReceiptsAreKept(Serve(h, r).host, rs, r.envelope.commandId);
  }

  /** Actor and context are given, and the protocol is the first. */
  predicate IsTrusted(r: Request) {
    !IsBlank(r.actor) && !IsBlank(r.contextId) && r.envelope.protocolVersion == 1
  }

  /** The envelope expects exactly the cursor of the host. */
  predicate IsCurrent(h: Host, e: CommandEnvelope) {
    && e.documentId == h.document.documentId && e.expectedBranchId == h.branchId && e.expectedHeadId == h.headId
    && e.expectedRevision == Decimal(h.revision)
  }

  /**
   * A request commits exactly when it is trusted, its ID is new, it expects the present cursor and the document takes
   * the command; a known ID is answered with its receipt exactly for the same envelope of the same actor.
   */
  lemma AnswersExactlyWhen(h: Host, r: Request)
    ensures var e, outcome := r.envelope, Serve(h, r).outcome;
            && (Commits(h, r) <==> IsTrusted(r) && e.commandId !in h.processed && IsCurrent(h, e) && Apply(h.document, e.payload).Ok?)
            && (IsTrusted(r) && e.commandId in h.processed ==>
                  var known := h.processed[e.commandId];
                  outcome == if known.request == e && known.actor == r.actor then Ok(known.receipt) else Err(Conflict))
            && (IsTrusted(r) && e.commandId !in h.processed && !IsCurrent(h, e) ==> outcome == Err(Conflict))
            && (outcome.Ok? ==> IsTrusted(r))
  {
  }

  /** An ID that has committed is refused, without any change, for every other envelope and every other actor. */
  lemma OtherRequestConflicts(h: Host, r: Request, rs: seq<Request>, s: Request)
    requires Commits(h, r) && s.envelope.commandId == r.envelope.commandId
    requires IsTrusted(s) && (s.envelope != r.envelope || s.actor != r.actor)
    ensures var later := RunHost(Serve(h, r).host, rs);
            Serve(later, s) == Reply(later, Err(Conflict))
  {
    OneRequest(h, r);
    ReceiptsAreKept(Serve(h, r).host, rs, r.envelope.commandId);
  }

  // ---- Conservation ----

  function EntryBag(ss: seq<Section>): multiset<Entry> {
    if ss == [] then multiset{} else multiset(EntriesOf(ss[0])) + EntryBag(ss[1..])
  }

  lemma BagShift<T>(a: multiset<T>, b: multiset<T>, c: multiset<T>, x: multiset<T>, y: multiset<T>)
    requires b + x == c + y
    ensures (a + b) + x == (a + c) + y
  {
    assert (a + b) + x == a + (b + x);
    assert (a + c) + y == a + (c + y);
  }

  lemma {:induction false} BagReplace(ss: seq<Section>, i: nat, s: Section)
    requires i < |ss|
    ensures EntryBag(ss[i := s]) + multiset(EntriesOf(ss[i])) == EntryBag(ss) + multiset(EntriesOf(s))
  {
    if i == 0 {
      assert ss[0 := s][1..] == ss[1..];
    } else {
      BagReplace(ss[1..], i - 1, s);
      assert ss[i := s][1..] == ss[1..][i - 1 := s];
      BagShift(multiset(EntriesOf(ss[0])), EntryBag(ss[1..][i - 1 := s]), EntryBag(ss[1..]),
               multiset(EntriesOf(ss[i])), multiset(EntriesOf(s)));
    }
  }

  lemma BagRemove<T>(s: seq<T>, i: nat)
    requires i < |s|
    ensures multiset(Remove(s, i)) + multiset{s[i]} == multiset(s)
  {
    assert s == s[..i] + ([s[i]] + s[i + 1..]);
  }

  lemma BagInsert<T>(s: seq<T>, i: nat, x: T)
    requires i <= |s|
    ensures multiset(Insert(s, i, x)) == multiset(s) + multiset{x}
  {
    assert s == s[..i] + s[i..];
  }

  /** An accepted section move permutes the sections. */
  lemma MoveSectionConserves(d: ResumeDocument, id: Id, index: nat, r: ResumeDocument)
    requires Apply(d, MoveSection(id, index)) == Ok(r)
    ensures r == d.(sections := r.sections) && multiset(r.sections) == multiset(d.sections)
    ensures index < |r.sections| && r.sections[index].id == id
  {
    var i := FindSection(d.sections, id);
    BagRemove(d.sections, i);
    BagInsert(Remove(d.sections, i), index, d.sections[i]);
  }

  predicate LandsAt(ss: seq<Section>, sectionId: Id, index: nat, id: Id) {
    exists i :: 0 <= i < |ss| && ss[i].id == sectionId && ss[i].EntrySection?
             && index < |ss[i].entries| && ss[i].entries[index].id == id
  }

  lemma BagCancel<T>(bag0: multiset<T>, bag1: multiset<T>, bag2: multiset<T>,
                     home: multiset<T>, shorter: multiset<T>, before: multiset<T>, after: multiset<T>, e: T)
    requires bag1 + home == bag0 + shorter && shorter + multiset{e} == home
    requires bag2 + before == bag1 + after && after == before + multiset{e}
    ensures bag2 == bag0
  {
    forall x ensures bag2[x] == bag0[x] {
      assert (bag1 + home)[x] == (bag0 + shorter)[x];
      assert (shorter + multiset{e})[x] == home[x];
      assert (bag2 + before)[x] == (bag1 + after)[x];
      assert after[x] == (before + multiset{e})[x];
    }
  }

  lemma LandsWhereInserted(rest: seq<Section>, i: nat, sectionId: Id, index: nat, e: Entry)
    requires i < |rest| && rest[i].id == sectionId && rest[i].EntrySection? && index <= |rest[i].entries|
    ensures LandsAt(rest[i := rest[i].(entries := Insert(rest[i].entries, index, e))], sectionId, index, e.id)
  {
    var r := rest[i := rest[i].(entries := Insert(rest[i].entries, index, e))];
    assert r[i].entries[index] == e;
  }

  lemma MoveConserves(ss: seq<Section>, id: Id, sectionId: Id, index: nat, r: seq<Section>)
    requires MoveEntryTo(ss, id, sectionId, index) == Ok(r)
    ensures EntryBag(r) == EntryBag(ss) && LandsAt(r, sectionId, index, id)
  {
    var h := FindHome(ss, id);
    var k := FindEntry(ss[h].entries, id);
    var e := ss[h].entries[k];
    var rest := TakenOut(ss, h, id);
    var i := FindSection(rest, sectionId);
    var landed := rest[i].(entries := Insert(rest[i].entries, index, e));
    LandsWhereInserted(rest, i, sectionId, index, e);
    BagReplace(ss, h, rest[h]);
    BagRemove(ss[h].entries, k);
    BagReplace(rest, i, landed);
    BagInsert(rest[i].entries, index, e);
    BagCancel(EntryBag(ss), EntryBag(rest), EntryBag(r), multiset(ss[h].entries), multiset(rest[h].entries),
              multiset(rest[i].entries), multiset(landed.entries), e);
  }

  /** An accepted entry move, within or across sections, conserves the entries and lands where requested. */
  lemma MoveEntryConserves(d: ResumeDocument, id: Id, sectionId: Id, index: nat, r: ResumeDocument)
    requires Apply(d, MoveEntry(id, sectionId, index)) == Ok(r)
    ensures r == d.(sections := r.sections) && EntryBag(r.sections) == EntryBag(d.sections)
    ensures LandsAt(r.sections, sectionId, index, id)
  {
    AppliedMove(d, id, sectionId, index, r);
    MoveConserves(d.sections, id, sectionId, index, r.sections);
  }

  lemma AppliedMove(d: ResumeDocument, id: Id, sectionId: Id, index: nat, r: ResumeDocument)
    requires Apply(d, MoveEntry(id, sectionId, index)) == Ok(r)
    ensures r == d.(sections := r.sections) && MoveEntryTo(d.sections, id, sectionId, index) == Ok(r.sections)
  {
  }
}
