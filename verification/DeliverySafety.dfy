/** Exactly-once delivery: what holds in every state the protocol can reach. */
module DeliverySafety {
  import opened Contracts
  import opened Strings
  import opened Documents
  import opened Domain
  import opened HostLog
  import opened NativeDocumentClient
  import opened DeliveryProtocol

  // ---- Invariants ----

  predicate HistoryOk(s: Sys) {
    && |s.history| > 0
    && s.host.revision == s.base + |s.history| - 1
    && s.history[|s.history| - 1] == HostAuthority(s.host, s.hostEpoch)
  }

  predicate IsStateAt(s: Sys, rev: nat, state: DocumentState)
    requires HadRevision(s, rev)
  {
    state.cursor == StateAt(s, rev).cursor && state.document == StateAt(s, rev).document
  }

  /** The host really had this document under this revision. */
  ghost predicate Had(s: Sys, state: DocumentState) {
    exists rev :: HadRevision(s, rev) && IsStateAt(s, rev, state)
  }

  ghost predicate ClientOk(s: Sys) {
    s.client.current.Some? ==> Had(s, s.client.current.value)
  }

  predicate IssuedAt(s: Sys, k: nat)
    requires k < |s.issued|
  {
    var x := s.issued[k];
    && x.envelope.expectedRevision == Decimal(x.rev) && x.rev <= x.at <= s.host.revision
    && x.envelope.protocolVersion == 1 && x.envelope.contextId == s.contextId
  }

  predicate IssuedOk(s: Sys) {
    && (forall k :: 0 <= k < |s.issued| ==> IssuedAt(s, k))
    && (forall k, l :: 0 <= k < l < |s.issued| ==>
          s.issued[k].envelope.commandId != s.issued[l].envelope.commandId && s.issued[k].at <= s.issued[l].at)
  }

  predicate Applied(s: Sys, k: nat)
    requires k < |s.issued|
  {
    s.issued[k].envelope.commandId in s.host.processed
  }

  /** An applied envelope turned the document of its revision into the next one, and its receipt says so. */
  predicate AppliedAt(s: Sys, k: nat)
    requires k < |s.issued| && Applied(s, k)
  {
    var x := s.issued[k];
    var p := s.host.processed[x.envelope.commandId];
    && p.request == x.envelope && p.actor == s.actor && p.receipt.commandId == x.envelope.commandId
    && !IsBlank(s.actor) && !IsBlank(s.contextId) && p.receipt.cursor.documentId == x.envelope.documentId
    && x.rev == x.at
    && HadRevision(s, x.rev) && HadRevision(s, x.rev + 1)
    && p.receipt.durable && IsStateAt(s, x.rev + 1, ReceiptState(p.receipt))
    && Apply(s.history[x.rev - s.base].document, x.envelope.payload) == Ok(s.history[x.rev + 1 - s.base].document)
  }

  predicate AppliedOk(s: Sys) {
    && (forall k :: 0 <= k < |s.issued| && Applied(s, k) ==> AppliedAt(s, k))
    && (forall k, l :: 0 <= k < l < |s.issued| && Applied(s, k) && Applied(s, l) ==> s.issued[k].rev < s.issued[l].rev)
  }

  predicate IsIssued(s: Sys, e: CommandEnvelope) {
    exists k :: 0 <= k < |s.issued| && s.issued[k].envelope == e
  }

  predicate HasReceipt(s: Sys, e: CommandEnvelope, r: CommandResult) {
    && IsIssued(s, e)
    && e.commandId in s.host.processed
    && s.host.processed[e.commandId].receipt == r
  }

  predicate AnswerOk(s: Sys, a: Answer) {
    IsIssued(s, a.envelope) && (a.outcome.Ok? ==> HasReceipt(s, a.envelope, a.outcome.value))
  }

  predicate TaskOk(s: Sys, t: Task) {
    match t
    case Calling(e, _, _) => IsIssued(s, e)
    case Fetching(e, _, r, _) => HasReceipt(s, e, r)
    case Resolved(e, r) => HasReceipt(s, e, r)
    case _ => true
  }

  predicate MessagesOk(s: Sys) {
    && (forall a :: 0 <= a < |s.answers| ==> AnswerOk(s, s.answers[a]))
    && (forall i :: 0 <= i < |s.tasks| ==> TaskOk(s, s.tasks[i]))
    && (s.client.failedEnvelope.Some? ==> IsIssued(s, s.client.failedEnvelope.value))
  }

  ghost predicate Inv(s: Sys) {
    HistoryOk(s) && ClientOk(s) && IssuedOk(s) && AppliedOk(s) && MessagesOk(s)
  }

  // ---- Growth: later states know at least as much ----

  predicate Grows(s: Sys, t: Sys) {
    && t.base == s.base && t.contextId == s.contextId && t.actor == s.actor
    && s.history <= t.history
    && s.issued <= t.issued
    && (forall id :: id in s.host.processed ==> id in t.host.processed && t.host.processed[id] == s.host.processed[id])
  }

  lemma HadGrows(s: Sys, t: Sys, state: DocumentState)
    requires Grows(s, t) && Had(s, state)
    ensures Had(t, state)
  {
    var rev :| HadRevision(s, rev) && IsStateAt(s, rev, state);
    assert HadRevision(t, rev) && StateAt(t, rev) == StateAt(s, rev);
  }

  lemma IsIssuedGrows(s: Sys, t: Sys, e: CommandEnvelope)
    requires Grows(s, t) && IsIssued(s, e)
    ensures IsIssued(t, e)
  {
    var k :| 0 <= k < |s.issued| && s.issued[k].envelope == e;
    assert t.issued[k] == s.issued[k];
  }

  lemma HasReceiptGrows(s: Sys, t: Sys, e: CommandEnvelope, r: CommandResult)
    requires Grows(s, t) && HasReceipt(s, e, r)
    ensures HasReceipt(t, e, r)
  {
    IsIssuedGrows(s, t, e);
  }

  lemma TaskOkGrows(s: Sys, t: Sys, task: Task)
    requires Grows(s, t) && TaskOk(s, task)
    ensures TaskOk(t, task)
  {
    match task
    case Calling(e, _, _) => IsIssuedGrows(s, t, e);
    case Fetching(e, _, r, _) => HasReceiptGrows(s, t, e, r);
    case Resolved(e, r) => HasReceiptGrows(s, t, e, r);
    case _ =>
  }

  lemma AnswerOkGrows(s: Sys, t: Sys, a: Answer)
    requires Grows(s, t) && AnswerOk(s, a)
    ensures AnswerOk(t, a)
  {
    IsIssuedGrows(s, t, a.envelope);
    if a.outcome.Ok? {
      HasReceiptGrows(s, t, a.envelope, a.outcome.value);
    }
  }

  /** Messages stay justified when the system grows and tasks or answers are added or replaced by justified ones. */
  lemma MessagesGrow(s: Sys, t: Sys)
    requires Grows(s, t) && MessagesOk(s)
    requires forall i :: 0 <= i < |t.tasks| ==> (i < |s.tasks| && t.tasks[i] == s.tasks[i]) || TaskOk(t, t.tasks[i])
    requires forall a :: 0 <= a < |t.answers| ==> (a < |s.answers| && t.answers[a] == s.answers[a]) || AnswerOk(t, t.answers[a])
    requires t.client.failedEnvelope == s.client.failedEnvelope || t.client.failedEnvelope.None?
          || IsIssued(t, t.client.failedEnvelope.value)
    ensures MessagesOk(t)
  {
    forall i | 0 <= i < |t.tasks| ensures TaskOk(t, t.tasks[i]) {
      if i < |s.tasks| && t.tasks[i] == s.tasks[i] {
        TaskOkGrows(s, t, s.tasks[i]);
      }
    }
    forall a | 0 <= a < |t.answers| ensures AnswerOk(t, t.answers[a]) {
      if a < |s.answers| && t.answers[a] == s.answers[a] {
        AnswerOkGrows(s, t, s.answers[a]);
      }
    }
    if t.client.failedEnvelope == s.client.failedEnvelope && s.client.failedEnvelope.Some? {
      IsIssuedGrows(s, t, s.client.failedEnvelope.value);
    }
  }

  // ---- The host's side ----

  lemma AppliedAtGrows(s: Sys, t: Sys, k: nat)
    requires Grows(s, t) && k < |s.issued| && Applied(s, k) && AppliedAt(s, k)
    ensures Applied(t, k) && AppliedAt(t, k)
  {
    var rev := s.issued[k].rev;
    HistoryGrows(s, t, rev);
    HistoryGrows(s, t, rev + 1);
    SameAppliedAt(s, t, k);
  }

  lemma HistoryGrows(s: Sys, t: Sys, rev: nat)
    requires t.base == s.base && s.history <= t.history && HadRevision(s, rev)
    ensures HadRevision(t, rev) && t.history[rev - t.base] == s.history[rev - s.base]
  {
  }

  lemma SameAppliedAt(s: Sys, t: Sys, k: nat)
    requires k < |s.issued| && k < |t.issued| && t.issued[k] == s.issued[k] && Applied(s, k) && AppliedAt(s, k)
    requires t.base == s.base && t.contextId == s.contextId && t.actor == s.actor
    requires Applied(t, k)
    requires t.host.processed[t.issued[k].envelope.commandId] == s.host.processed[s.issued[k].envelope.commandId]
    requires forall rev :: rev == s.issued[k].rev || rev == s.issued[k].rev + 1 ==>
               HadRevision(t, rev) && t.history[rev - t.base] == s.history[rev - s.base]
    ensures AppliedAt(t, k)
  {
  }

  /** A host step that applies none of the client's envelopes keeps the invariant. */
  lemma OthersKeep(s: Sys, h: Host, hostEpoch: nat)
    requires Inv(s)
    requires h.revision == s.host.revision ==> HostAuthority(h, hostEpoch) == HostAuthority(s.host, s.hostEpoch)
    requires h.revision == s.host.revision || h.revision == s.host.revision + 1
    requires forall id :: id in s.host.processed ==> id in h.processed && h.processed[id] == s.host.processed[id]
    requires forall k :: 0 <= k < |s.issued| ==>
               (s.issued[k].envelope.commandId in h.processed <==> s.issued[k].envelope.commandId in s.host.processed)
    ensures Inv(Committed(s.(hostEpoch := hostEpoch), h)) && Grows(s, Committed(s.(hostEpoch := hostEpoch), h))
  {
    var t := Committed(s.(hostEpoch := hostEpoch), h);
    assert Grows(s, t);
    if s.client.current.Some? {
      HadGrows(s, t, s.client.current.value);
    }
    AppliedUnchanged(s, t);
    forall k | 0 <= k < |t.issued| ensures IssuedAt(t, k) {
      assert IssuedAt(s, k);
    }
    MessagesGrow(s, t);
  }

  /** A commit happens only at the revision the envelope expects. */
  lemma CommitExpects(h: Host, r: Request)
    requires Commits(h, r)
    ensures r.envelope.expectedRevision == Decimal(h.revision)
  {
  }

  lemma CommitAt(s: Sys, k: nat)
    requires Inv(s) && k < |s.issued| && Commits(s.host, Request(s.actor, s.contextId, s.issued[k].envelope))
    ensures s.issued[k].rev == s.issued[k].at == s.host.revision
  {
    CommitExpects(s.host, Request(s.actor, s.contextId, s.issued[k].envelope));
    assert IssuedAt(s, k);
    DecimalInjective(s.issued[k].rev, s.host.revision);
  }

  lemma CommittedIsApplied(s: Sys, k: nat)
    requires Inv(s) && k < |s.issued| && Commits(s.host, Request(s.actor, s.contextId, s.issued[k].envelope))
    ensures var t := ServeIssued(s, k); Grows(s, t) && HistoryOk(t) && Applied(t, k) && AppliedAt(t, k)
  {
    CommitGrows(s, k);
    CommitAt(s, k);
    CommitReceipt(s, k);
    ApplyKeepsIdentity(s.host.document, s.issued[k].envelope.payload);
    CommitExpects(s.host, Request(s.actor, s.contextId, s.issued[k].envelope));
  }

  lemma CommitGrows(s: Sys, k: nat)
    requires HistoryOk(s) && k < |s.issued| && Commits(s.host, Request(s.actor, s.contextId, s.issued[k].envelope))
    ensures var t := ServeIssued(s, k);
            && Grows(s, t) && HistoryOk(t) && t.history == s.history + [HostAuthority(t.host, s.hostEpoch)]
            && t.issued == s.issued && t.host.revision == s.host.revision + 1
  {
    OneRequest(s.host, Request(s.actor, s.contextId, s.issued[k].envelope));
  }

  lemma CommitReceipt(s: Sys, k: nat)
    requires k < |s.issued| && Commits(s.host, Request(s.actor, s.contextId, s.issued[k].envelope))
    ensures var t, e := ServeIssued(s, k), s.issued[k].envelope;
            && !IsBlank(s.actor) && !IsBlank(s.contextId)
            && Apply(s.host.document, e.payload) == Ok(t.host.document)
            && t.host.branchId == s.host.branchId && t.host.headId == s.host.headId
            && e.commandId in t.host.processed
            && t.host.processed[e.commandId]
               == Processed(e, CommandResult(e.commandId, t.host.Cursor(s.contextId), true, t.host.document), s.actor)
  {
  }

  /** Once a later envelope is applied, the host has moved past where an earlier one was made. */
  lemma EarlierIsPast(s: Sys, k: nat, l: nat)
    requires Inv(s) && k < l < |s.issued| && Applied(s, l)
    ensures s.issued[k].at < s.host.revision
  {
    assert AppliedAt(s, l);
  }

  lemma CommitKeepsOrder(s: Sys, k: nat)
    requires Inv(s) && k < |s.issued| && Commits(s.host, Request(s.actor, s.contextId, s.issued[k].envelope))
    ensures AppliedOk(ServeIssued(s, k))
  {
    var r := Request(s.actor, s.contextId, s.issued[k].envelope);
    OneRequest(s.host, r);
    CommitAt(s, k);
    CommittedIsApplied(s, k);
    var t := ServeIssued(s, k);
    forall j | 0 <= j < |t.issued| && Applied(t, j) ensures AppliedAt(t, j) {
      if j != k {
        DistinctIds(s, j, k);
        assert Applied(s, j) && AppliedAt(s, j);
        AppliedAtGrows(s, t, j);
      }
    }
    forall j, l | 0 <= j < l < |t.issued| && Applied(t, j) && Applied(t, l) ensures t.issued[j].rev < t.issued[l].rev {
      DistinctIds(s, j, l);
      assert AppliedAt(t, j) && AppliedAt(t, l);
      if l == k {
        assert AppliedAt(s, j);
      } else if j == k {
        EarlierIsPast(s, k, l);
      } else {
        assert Applied(s, j) && Applied(s, l);
      }
    }
  }

  lemma DistinctIds(s: Sys, j: nat, k: nat)
    requires IssuedOk(s) && j < |s.issued| && k < |s.issued| && j != k
    ensures s.issued[j].envelope.commandId != s.issued[k].envelope.commandId
  {
    assert s.issued[if j < k then j else k].envelope.commandId != s.issued[if j < k then k else j].envelope.commandId;
  }

  /** An accepted answer is the recorded receipt. */
  lemma AnswerIsReceipt(h: Host, r: Request)
    requires Serve(h, r).outcome.Ok?
    ensures r.envelope.commandId in Serve(h, r).host.processed
    ensures Serve(h, r).host.processed[r.envelope.commandId].receipt == Serve(h, r).outcome.value
  {
  }

  lemma ServeKeeps(s: Sys, k: nat)
    requires Inv(s) && k < |s.issued|
    ensures Inv(ServeIssued(s, k))
  {
    var e := s.issued[k].envelope;
    var r := Request(s.actor, s.contextId, e);
    var t := ServeIssued(s, k);
    OneRequest(s.host, r);
    if Commits(s.host, r) {
      CommitServed(s, k);
    } else {
      OthersKeep(s, s.host, s.hostEpoch);
      SameButAnswers(s, t);
    }
    assert IsIssued(t, e);
    if Serve(s.host, r).outcome.Ok? {
      AnswerIsReceipt(s.host, r);
    }
    MessagesGrow(s, t);
  }

  lemma CommitServed(s: Sys, k: nat)
    requires Inv(s) && k < |s.issued| && Commits(s.host, Request(s.actor, s.contextId, s.issued[k].envelope))
    ensures var t := ServeIssued(s, k);
            Grows(s, t) && HistoryOk(t) && ClientOk(t) && IssuedOk(t) && AppliedOk(t)
  {
    var t := ServeIssued(s, k);
    OneRequest(s.host, Request(s.actor, s.contextId, s.issued[k].envelope));
    CommittedIsApplied(s, k);
    CommitKeepsOrder(s, k);
    if s.client.current.Some? {
      HadGrows(s, t, s.client.current.value);
    }
    forall j | 0 <= j < |t.issued| ensures IssuedAt(t, j) {
      assert IssuedAt(s, j);
    }
  }

  lemma SameButAnswers(s: Sys, t: Sys)
    requires Inv(s) && t == s.(answers := t.answers)
    ensures Grows(s, t) && HistoryOk(t) && ClientOk(t) && IssuedOk(t) && AppliedOk(t)
  {
    if s.client.current.Some? {
      HadGrows(s, t, s.client.current.value);
    }
    AppliedUnchanged(s, t);
    forall k | 0 <= k < |t.issued| ensures IssuedAt(t, k) {
      assert IssuedAt(s, k);
    }
  }

  // ---- The client's side ----

  /** A client step that leaves host, history and envelopes alone. */
  lemma ClientStepKeeps(s: Sys, t: Sys)
    requires Inv(s)
    requires t == s.(client := t.client, tasks := t.tasks, after := t.after, tail := t.tail)
    requires t.client.current == s.client.current || (t.client.current.Some? && Had(s, t.client.current.value))
    requires forall i :: 0 <= i < |t.tasks| ==> (i < |s.tasks| && t.tasks[i] == s.tasks[i]) || TaskOk(s, t.tasks[i])
    requires t.client.failedEnvelope == s.client.failedEnvelope || t.client.failedEnvelope.None?
    ensures Inv(t)
  {
    assert Grows(s, t);
    if t.client.current.Some? {
      HadGrows(s, t, t.client.current.value);
    }
    AppliedUnchanged(s, t);
    forall k | 0 <= k < |t.issued| ensures IssuedAt(t, k) {
      assert IssuedAt(s, k);
    }
    forall i | 0 <= i < |t.tasks| ensures (i < |s.tasks| && t.tasks[i] == s.tasks[i]) || TaskOk(t, t.tasks[i]) {
      if !(i < |s.tasks| && t.tasks[i] == s.tasks[i]) {
        TaskOkGrows(s, t, t.tasks[i]);
      }
    }
    MessagesGrow(s, t);
  }

  lemma RevisionOfState(s: Sys, rev: nat)
    requires s.client.current.Some? && HadRevision(s, rev) && IsStateAt(s, rev, s.client.current.value)
    ensures ClientRevision(s) == rev && s.client.current.value.cursor.revision == Decimal(rev)
  {
    assert IsCanonicalRevision(Decimal(rev)) by {
      CanonicalMeansDecimal(Decimal(rev));
    }
    ValueOfDecimal(rev);
  }

  /** The client's revision is the number of the host state it holds. */
  lemma ClientRevisionIs(s: Sys) returns (rev: nat)
    requires ClientOk(s) && s.client.current.Some?
    ensures HadRevision(s, rev) && IsStateAt(s, rev, s.client.current.value) && ClientRevision(s) == rev
  {
    rev :| HadRevision(s, rev) && IsStateAt(s, rev, s.client.current.value);
    RevisionOfState(s, rev);
  }

  lemma IssuedExtends(s: Sys, t: Sys, x: Issued)
    requires IssuedOk(s) && t.host == s.host && t.issued == s.issued + [x]
    requires x.envelope.expectedRevision == Decimal(x.rev) && x.rev <= x.at == s.host.revision
    requires x.envelope.protocolVersion == 1 && x.envelope.contextId == s.contextId == t.contextId
    requires forall k :: 0 <= k < |s.issued| ==> s.issued[k].envelope.commandId != x.envelope.commandId
    ensures IssuedOk(t)
  {
    forall k | 0 <= k < |t.issued| ensures IssuedAt(t, k) {
      if k < |s.issued| {
        assert IssuedAt(s, k);
      }
    }
    forall k, l | 0 <= k < l < |t.issued|
      ensures t.issued[k].envelope.commandId != t.issued[l].envelope.commandId && t.issued[k].at <= t.issued[l].at
    {
      assert IssuedAt(s, k);
    }
  }

  lemma AppliedUnchanged(s: Sys, t: Sys)
    requires AppliedOk(s) && Grows(s, t)
    requires forall k :: 0 <= k < |t.issued| && Applied(t, k) ==> k < |s.issued| && Applied(s, k)
    ensures AppliedOk(t)
  {
    forall k | 0 <= k < |t.issued| && Applied(t, k) ensures AppliedAt(t, k) {
      AppliedAtGrows(s, t, k);
    }
    forall k, l | 0 <= k < l < |t.issued| && Applied(t, k) && Applied(t, l) ensures t.issued[k].rev < t.issued[l].rev {
      assert Applied(s, k) && Applied(s, l);
      assert t.issued[k] == s.issued[k] && t.issued[l] == s.issued[l];
    }
  }

  lemma NewEnvelopeKeeps(s: Sys, i: nat, newId: Id)
    requires Inv(s) && MayStart(s, i) && s.tasks[i].SubmitQueued? && IdIsFresh(s, newId)
    requires BeginSubmit(s.client, s.tasks[i].target, s.tasks[i].payload, newId).request.Some?
    ensures Inv(RunTask(s, i, newId))
  {
    var t := RunTask(s, i, newId);
    var e := BeginSubmit(s.client, s.tasks[i].target, s.tasks[i].payload, newId).request.value;
    var n := |s.issued|;
    assert t.issued[n].envelope == e;
    assert Grows(s, t);
    HadGrows(s, t, s.client.current.value);
    var rev := ClientRevisionIs(s);
    RevisionOfState(s, rev);
    IssuedExtends(s, t, t.issued[n]);
    AppliedUnchanged(s, t);
    assert IsIssued(t, e);
    MessagesGrow(s, t);
  }

  lemma RunKeeps(s: Sys, i: nat, newId: Id)
    requires Inv(s) && MayStart(s, i) && (s.tasks[i].SubmitQueued? ==> IdIsFresh(s, newId))
    ensures Inv(RunTask(s, i, newId))
  {
    var t := RunTask(s, i, newId);
    match s.tasks[i]
    case SubmitQueued(payload, target) =>
      if BeginSubmit(s.client, target, payload, newId).request.Some? {
        NewEnvelopeKeeps(s, i, newId);
      } else {
        ClientStepKeeps(s, t);
      }
    case RetryQueued => ClientStepKeeps(s, t);
    case ReloadQueued => ClientStepKeeps(s, t);
  }

  /** The state a receipt describes is one the host had. */
  lemma ReceiptStateHad(s: Sys, e: CommandEnvelope, r: CommandResult) returns (k: nat)
    requires Inv(s) && HasReceipt(s, e, r)
    ensures k < |s.issued| && s.issued[k].envelope == e && Applied(s, k) && AppliedAt(s, k)
    ensures HadRevision(s, s.issued[k].rev + 1)
    ensures IsStateAt(s, s.issued[k].rev + 1, ReceiptState(r)) && r.durable
    ensures Had(s, ReceiptState(r))
  {
    k :| 0 <= k < |s.issued| && s.issued[k].envelope == e;
    assert Applied(s, k) && AppliedAt(s, k);
    ReceiptIsHad(s, k, r);
  }

  lemma ReceiptIsHad(s: Sys, k: nat, r: CommandResult)
    requires k < |s.issued| && Applied(s, k) && AppliedAt(s, k)
    requires s.host.processed[s.issued[k].envelope.commandId].receipt == r
    ensures HadRevision(s, s.issued[k].rev + 1) && r.durable
    ensures IsStateAt(s, s.issued[k].rev + 1, ReceiptState(r)) && Had(s, ReceiptState(r))
  {
  }

  lemma DeliveryKeeps(s: Sys, i: nat, outcome: Result<CommandResult, ErrorCode>)
    requires Inv(s) && i < |s.tasks| && s.tasks[i].Calling?
    requires outcome.Ok? ==> HasReceipt(s, s.tasks[i].envelope, outcome.value)
    ensures Inv(Delivered(s, i, outcome))
  {
    if outcome.Ok? {
      var k := ReceiptStateHad(s, s.tasks[i].envelope, outcome.value);
      InstalledIsHad(s, s.client, ReceiptState(outcome.value));
    }
    ClientStepKeeps(s, Delivered(s, i, outcome));
  }

  /** Installing a state that the host had leaves the client with a state that the host had. */
  lemma InstalledIsHad(s: Sys, c: Client, state: DocumentState)
    requires Had(s, state)
    ensures Install(c, state).current.Some? && Had(s, Install(c, state).current.value)
  {
  }

  lemma ArrivalKeeps(s: Sys, i: nat, state: DocumentState)
    requires Inv(s) && i < |s.tasks| && (s.tasks[i].Fetching? || s.tasks[i].Reloading?) && Had(s, state)
    ensures Inv(StateArrived(s, i, state))
  {
    assert TaskOk(s, s.tasks[i]);
    ClientStepKeeps(s, StateArrived(s, i, state));
  }

  lemma OthersCommandKeeps(s: Sys, r: Request)
    requires Inv(s)
    requires forall k :: 0 <= k < |s.issued| ==> s.issued[k].envelope.commandId != r.envelope.commandId
    ensures Inv(Committed(s, Serve(s.host, r).host))
  {
    OneRequest(s.host, r);
    OthersKeep(s, Serve(s.host, r).host, s.hostEpoch);
  }

  lemma RebaseKeeps(s: Sys, a: Authority)
    requires Inv(s)
    ensures Inv(Committed(s.(hostEpoch := a.hostEpoch), Rebased(s.host, a)))
  {
    OthersKeep(s, Rebased(s.host, a), a.hostEpoch);
  }

  /** Every enabled event keeps the invariant. */
  lemma StepKeeps(s: Sys, e: Event)
    requires Inv(s) && Enabled(s, e)
    ensures Inv(Next(s, e))
  {
    match e
    case CallSubmit(_) => ClientStepKeeps(s, Next(s, e));
    case CallRetry => ClientStepKeeps(s, Next(s, e));
    case CallReload => ClientStepKeeps(s, Next(s, e));
    case Run(i, newId) => RunKeeps(s, i, newId);
    case HostServes(k) => ServeKeeps(s, k);
    case OthersCommand(r) => OthersCommandKeeps(s, r);
    case OthersRebase(a) => RebaseKeeps(s, a);
    case DeliverAnswer(i, a) =>
      assert AnswerOk(s, s.answers[a]);
      DeliveryKeeps(s, i, s.answers[a].outcome);
    case DeliverState(i, rev) =>
      assert IsStateAt(s, rev, StateAt(s, rev));
      ArrivalKeeps(s, i, StateAt(s, rev));
    case DeliverError(i) => ClientStepKeeps(s, Next(s, e));
  }

  lemma StartIsSafe(h: Host, hostEpoch: nat, contextId: Id, actor: string)
    ensures Inv(JustLoaded(h, hostEpoch, contextId, actor))
  {
    var s := JustLoaded(h, hostEpoch, contextId, actor);
    assert HadRevision(s, h.revision) && StateAt(s, h.revision) == s.client.current.value;
  }
}
