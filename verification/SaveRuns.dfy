/**
 * Saving a draft over a channel that loses, delays and repeats: the host gets each command of the way to the goal once,
 * a lost answer is made good by the retry of the next save, and every save can be brought to its end.
 */
module SaveRuns {
  import opened Contracts
  import opened Strings
  import opened Documents
  import opened Domain
  import opened HostLog
  import opened NativeDocumentClient
  import opened DeliveryProtocol
  import opened DeliverySafety

  // ---- The way to a goal ----

  /** Which command comes next, where it leads, from which documents there is a way, and how long it is at most. */
  datatype Plan = Plan(
    goal: ResumeDocument,
    next: ResumeDocument -> Option<DomainCommand>,
    step: ResumeDocument -> ResumeDocument,
    hasWay: ResumeDocument -> bool,
    length: ResumeDocument -> nat)

  /** Off the goal there is a next command, the host accepts it, and it leads one step nearer in the same document. */
  predicate LeadsOn(p: Plan, d: ResumeDocument) {
    p.next(d).Some? && Apply(d, p.next(d).value) == Ok(p.step(d)) && IsNearer(p, d)
  }

  predicate IsNearer(p: Plan, d: ResumeDocument) {
    && p.hasWay(p.step(d)) && p.length(p.step(d)) < p.length(d)
    && p.step(d).documentId == d.documentId && p.step(d).schemaVersion == d.schemaVersion
  }

  ghost predicate IsPlan(p: Plan) {
    forall d {:trigger LeadsOn(p, d)} :: p.hasWay(d) && d != p.goal ==> LeadsOn(p, d)
  }

  // ---- Saves ----

  predicate AllSettled(s: Sys) {
    forall i :: 0 <= i < |s.tasks| ==> IsSettled(s.tasks[i])
  }

  predicate OneAtATime(s: Sys) {
    forall i :: 0 <= i < |s.tasks| - 1 ==> IsSettled(s.tasks[i])
  }

  /**
   * What happens while drafts are saved and nobody else writes: a save that finds the status "failed" first retries, and
   * then submits the next command towards the goal, one after the other; the channel does what it likes.
   */
  predicate IsSaving(s: Sys, e: Event, p: Plan) {
    match e
    case CallSubmit(payload) =>
      && AllSettled(s) && s.client.status != FailedStatus && s.client.current.Some?
      && s.client.current.value.document != p.goal && p.next(s.client.current.value.document) == Some(payload)
    case CallRetry => AllSettled(s) && s.client.status == FailedStatus
    case CallReload => false
    case OthersCommand(_) => false
    case OthersRebase(_) => false
    case _ => true
  }

  predicate AllSaving(s: Sys, es: seq<Event>, p: Plan)
    requires Feasible(s, es)
    decreases |es|
  {
    es == [] || (IsSaving(s, es[0], p) && AllSaving(Next(s, es[0]), es[1..], p))
  }

  // ---- What holds in between ----

  /** The host has applied the envelope and keeps its receipt. */
  predicate IsProcessed(s: Sys, e: CommandEnvelope) {
    && e.protocolVersion == 1 && e.commandId in s.host.processed
    && s.host.processed[e.commandId].request == e && s.host.processed[e.commandId].actor == s.actor
  }

  predicate AreProcessed(s: Sys, n: nat) {
    n <= |s.issued| && forall k :: 0 <= k < n ==> IsProcessed(s, s.issued[k].envelope)
  }

  predicate IsReceipt(s: Sys, a: Answer) {
    && a.outcome.Ok? && IsProcessed(s, a.envelope)
    && s.host.processed[a.envelope.commandId].receipt == a.outcome.value
  }

  predicate AnswersAreReceipts(s: Sys) {
    forall a :: 0 <= a < |s.answers| ==> IsReceipt(s, s.answers[a])
  }

  /** Who writes where, and what the host shows. */
  predicate IsFrame(s: Sys, p: Plan) {
    && !IsBlank(s.actor) && !IsBlank(s.contextId) && !IsJsBlank(s.contextId)
    && s.host.document.schemaVersion == 2 && p.hasWay(s.host.document)
    && HistoryOk(s) && AnswersAreReceipts(s)
  }

  /** Each operation waits for an earlier one or for none. */
  predicate IsOrderly(s: Sys) {
    && |s.after| == |s.tasks| && OneAtATime(s) && (s.tail.Some? ==> s.tail.value < |s.tasks|)
    && forall i :: 0 <= i < |s.after| && s.after[i].Some? ==> s.after[i].value < i
  }

  /** The client holds this state of the host, and is not of a later epoch. */
  predicate Holds(s: Sys, cursor: AuthorityCursor, document: ResumeDocument) {
    && s.client.current.Some?
    && s.client.current.value.cursor == cursor && s.client.current.value.document == document
    && (s.client.current.value.hostEpoch.Some? ==> s.client.current.value.hostEpoch.value <= s.hostEpoch)
  }

  predicate InStep(s: Sys) {
    Holds(s, s.host.Cursor(s.contextId), s.host.document)
  }

  function EnvelopeAt(at: AuthorityCursor, id: Id, payload: DomainCommand): CommandEnvelope {
    CommandEnvelope(1, id, at.documentId, at.contextId, at.revision, at.branchId, at.headId, payload)
  }

  /** The envelope asks for the command that comes next in the document that the client holds. */
  predicate IsNextEnvelope(c: Client, e: CommandEnvelope, p: Plan) {
    && c.current.Some? && c.current.value.document != p.goal && p.hasWay(c.current.value.document)
    && p.next(c.current.value.document) == Some(e.payload)
    && e == EnvelopeAt(c.current.value.cursor, e.commandId, e.payload)
  }

  /** The host is one step ahead of the client: it has applied the envelope. */
  predicate HasLanded(s: Sys, e: CommandEnvelope, p: Plan) {
    && s.client.current.Some? && IsProcessed(s, e) && s.host.revision > 0
    && s.host.processed[e.commandId].receipt == CommandResult(e.commandId, s.host.Cursor(s.contextId), true, s.host.document)
    && s.host.document == p.step(s.client.current.value.document)
    && Holds(s, s.host.Cursor(s.contextId).(revision := Decimal(s.host.revision - 1)), s.client.current.value.document)
  }

  predicate IsUnderway(s: Sys, e: CommandEnvelope, p: Plan) {
    && IsNextEnvelope(s.client, e, p) && s.client.failedEnvelope == Some(e)
    && (if e.commandId in s.host.processed then HasLanded(s, e, p) else InStep(s))
  }

  predicate IsQueued(s: Sys, p: Plan) {
    && |s.tasks| > 0
    && var t := s.tasks[|s.tasks| - 1];
       && t.SubmitQueued? && t.target == CaptureTarget(s.client)
       && s.host.document != p.goal && p.next(s.host.document) == Some(t.payload)
  }

  /** What the client reports when nothing failed: idle before the first command, saved after a confirmed one. */
  function RestStatus(s: Sys): SaveStatus {
    if s.issued == [] then Idle else SavedStatus
  }

  /** Nothing is under way; at most the next command waits for its turn. */
  predicate IsCalm(s: Sys, p: Plan) {
    && InStep(s) && !s.client.failed && s.client.status == RestStatus(s) && AreProcessed(s, |s.issued|)
    && (AllSettled(s) || IsQueued(s, p))
  }

  predicate CarriesLast(s: Sys, t: Task, e: CommandEnvelope) {
    match t
    case RetryQueued => s.client.failed && s.client.status == FailedStatus
    case Calling(x, _, epoch) => x == e && epoch == s.client.sessionEpoch && s.client.status == Saving
    case Fetching(x, epoch, receipt, since) =>
      && x == e && epoch == s.client.sessionEpoch && since == s.host.revision && s.client.status == Saving
      && IsProcessed(s, e) && receipt == s.host.processed[e.commandId].receipt
    case _ => false
  }

  function LastEnvelope(s: Sys): CommandEnvelope
    requires |s.issued| > 0
  {
    s.issued[|s.issued| - 1].envelope
  }

  /** The last envelope failed and waits for a retry, or the last operation carries it. */
  predicate IsCarried(s: Sys, e: CommandEnvelope) {
    if AllSettled(s) then s.client.failed && s.client.status == FailedStatus else CarriesLast(s, s.tasks[|s.tasks| - 1], e)
  }

  predicate IsBusy(s: Sys, p: Plan) {
    && |s.issued| > 0 && AreProcessed(s, |s.issued| - 1)
    && IsUnderway(s, LastEnvelope(s), p) && IsCarried(s, LastEnvelope(s))
  }

  predicate IsOpen(s: Sys) {
    |s.issued| > 0 && LastEnvelope(s).commandId !in s.host.processed
  }

  /** The commands applied and the way that is left are together no longer than the way was; one command may be open. */
  predicate IsWithin(s: Sys, p: Plan, bound: nat) {
    && s.host.revision >= s.base && s.host.revision - s.base + p.length(s.host.document) <= bound
    && |s.issued| == s.host.revision - s.base + (if IsOpen(s) then 1 else 0)
  }

  predicate SaveInv(s: Sys, p: Plan, bound: nat) {
    IsFrame(s, p) && IsOrderly(s) && IsWithin(s, p, bound) && (IsCalm(s, p) || IsBusy(s, p))
  }

  // ---- Turns ----

  lemma OnlyLastTurns(s: Sys, i: nat)
    requires OneAtATime(s) && MayStart(s, i)
    ensures i == |s.tasks| - 1 && !AllSettled(s)
  {
  }

  lemma JoinSettled(s: Sys, t: Task)
    requires AllSettled(s) && IsOrderly(s) && !IsSettled(t)
    ensures var u := Enqueue(s, t); IsOrderly(u) && u.tasks[|u.tasks| - 1] == t && !AllSettled(u)
  {
    var u := Enqueue(s, t);
    assert !IsSettled(u.tasks[|u.tasks| - 1]);
  }

  /** Client, host and messages as before. */
  predicate SameButTasks(s: Sys, u: Sys) {
    u == s.(tasks := u.tasks, after := u.after, tail := u.tail)
  }

  lemma TasksKeepFrame(s: Sys, u: Sys, p: Plan, bound: nat)
    requires IsFrame(s, p) && IsWithin(s, p, bound) && SameButTasks(s, u)
    ensures IsFrame(u, p) && IsWithin(u, p, bound)
  {
    assert forall a :: 0 <= a < |s.answers| && IsReceipt(s, s.answers[a]) ==> IsReceipt(u, s.answers[a]);
  }

  lemma SubmitJoins(s: Sys, payload: DomainCommand, p: Plan, bound: nat)
    requires SaveInv(s, p, bound) && IsSaving(s, CallSubmit(payload), p)
    ensures SaveInv(Enqueue(s, SubmitQueued(payload, CaptureTarget(s.client))), p, bound)
  {
    var u := Enqueue(s, SubmitQueued(payload, CaptureTarget(s.client)));
    JoinSettled(s, SubmitQueued(payload, CaptureTarget(s.client)));
    TasksKeepFrame(s, u, p, bound);
    CalmJoins(s, u, p);
  }

  lemma CalmJoins(s: Sys, u: Sys, p: Plan)
    requires IsCalm(s, p) && SameButTasks(s, u) && IsQueued(u, p)
    ensures IsCalm(u, p)
  {
  }

  lemma RetryJoins(s: Sys, p: Plan, bound: nat)
    requires SaveInv(s, p, bound) && IsSaving(s, CallRetry, p)
    ensures SaveInv(Enqueue(s, RetryQueued), p, bound)
  {
    JoinSettled(s, RetryQueued);
    TasksKeepFrame(s, Enqueue(s, RetryQueued), p, bound);
    BusyCarriedOn(s, Enqueue(s, RetryQueued), p);
  }

  lemma BusyCarriedOn(s: Sys, u: Sys, p: Plan)
    requires IsBusy(s, p) && SameButTasks(s, u) && IsCarried(u, LastEnvelope(u))
    ensures IsBusy(u, p)
  {
  }

  lemma OwnTargetHolds(s: Sys)
    requires InStep(s)
    ensures TargetHolds(s.client, CaptureTarget(s.client).value)
  {
    NewerRevisionIsNumericOrder(s.host.revision, s.host.revision);
  }

  lemma LastTurnSettles(s: Sys, t: Task)
    requires IsOrderly(s) && |s.tasks| > 0
    ensures var u := SetTask(s, |s.tasks| - 1, t); IsOrderly(u) && u.tasks[|u.tasks| - 1] == t && (AllSettled(u) <==> IsSettled(t))
  {
    var u := SetTask(s, |s.tasks| - 1, t);
    assert forall i :: 0 <= i < |s.tasks| - 1 ==> u.tasks[i] == s.tasks[i];
    assert u.tasks[|u.tasks| - 1] == t;
  }

  /** What the submission's turn does. */
  lemma SubmitSends(s: Sys, i: nat, newId: Id, p: Plan)
    requires IsOrderly(s) && IsCalm(s, p) && MayStart(s, i) && s.tasks[i].SubmitQueued?
    ensures i == |s.tasks| - 1 && IsQueued(s, p)
    ensures var u := RunTask(s, i, newId);
            var e := EnvelopeAt(s.host.Cursor(s.contextId), newId, s.tasks[i].payload);
            && u == SetTask(s, i, Calling(e, false, s.client.sessionEpoch)).(client := u.client, issued := u.issued)
            && u.client == s.client.(failedEnvelope := Some(e), status := Saving)
            && |u.issued| == |s.issued| + 1 && s.issued <= u.issued && LastEnvelope(u) == e
  {
    OnlyLastTurns(s, i);
    OwnTargetHolds(s);
  }

  lemma SubmitStarts(s: Sys, i: nat, newId: Id, p: Plan, bound: nat)
    requires SaveInv(s, p, bound) && IsCalm(s, p) && MayStart(s, i) && s.tasks[i].SubmitQueued? && IdIsFresh(s, newId)
    ensures SaveInv(RunTask(s, i, newId), p, bound) && IsBusy(RunTask(s, i, newId), p)
  {
    SubmitSends(s, i, newId, p);
    var u := RunTask(s, i, newId);
    LastTurnSettles(s, u.tasks[i]);
    IssuedAreProcessed(s, u, |s.issued|);
    ReceiptsStay(s, u);
    assert !AllSettled(u) && CarriesLast(u, u.tasks[|u.tasks| - 1], LastEnvelope(u));
  }

  /** What the host has applied stays applied. */
  predicate HostGrows(s: Sys, u: Sys) {
    && u.actor == s.actor
    && forall id :: id in s.host.processed ==> id in u.host.processed && u.host.processed[id] == s.host.processed[id]
  }

  lemma IssuedAreProcessed(s: Sys, u: Sys, n: nat)
    requires AreProcessed(s, n) && s.issued <= u.issued && HostGrows(s, u)
    ensures AreProcessed(u, n)
  {
    forall k | 0 <= k < n ensures IsProcessed(u, u.issued[k].envelope) {
      assert IsProcessed(s, s.issued[k].envelope);
    }
  }

  lemma ReceiptsStay(s: Sys, u: Sys)
    requires AnswersAreReceipts(s) && u.answers == s.answers && HostGrows(s, u)
    ensures AnswersAreReceipts(u)
  {
    forall a | 0 <= a < |u.answers| ensures IsReceipt(u, u.answers[a]) {
      assert IsReceipt(s, s.answers[a]);
    }
  }

  /** A turn that leaves the host and the envelopes alone, and goes on carrying the last one. */
  lemma BusyGoesOn(s: Sys, u: Sys, p: Plan, bound: nat)
    requires SaveInv(s, p, bound) && IsBusy(s, p) && IsOrderly(u)
    requires u == s.(tasks := u.tasks, after := u.after, tail := u.tail, client := u.client)
    requires u.client == s.client.(failed := u.client.failed, status := u.client.status)
    requires IsCarried(u, LastEnvelope(s))
    ensures SaveInv(u, p, bound) && IsBusy(u, p)
  {
    ReceiptsStay(s, u);
    IssuedAreProcessed(s, u, |s.issued| - 1);
  }

  lemma RetryStarts(s: Sys, i: nat, newId: Id, p: Plan, bound: nat)
    requires SaveInv(s, p, bound) && IsBusy(s, p) && MayStart(s, i) && s.tasks[i].RetryQueued?
    ensures SaveInv(RunTask(s, i, newId), p, bound) && IsBusy(RunTask(s, i, newId), p)
  {
    OnlyLastTurns(s, i);
    var u := RunTask(s, i, newId);
    LastTurnSettles(s, u.tasks[i]);
    BusyGoesOn(s, u, p, bound);
  }

  lemma RunKeepsSave(s: Sys, i: nat, newId: Id, p: Plan, bound: nat)
    requires SaveInv(s, p, bound) && Enabled(s, Run(i, newId))
    ensures SaveInv(RunTask(s, i, newId), p, bound)
  {
    OnlyLastTurns(s, i);
    if IsCalm(s, p) {
      SubmitStarts(s, i, newId, p, bound);
    } else {
      RetryStarts(s, i, newId, p, bound);
    }
  }

  // ---- The host ----

  /** Serving what was applied adds the same answer once more. */
  lemma ServedAgain(s: Sys, k: nat, p: Plan, bound: nat)
    requires SaveInv(s, p, bound) && k < |s.issued| && IsProcessed(s, s.issued[k].envelope)
    ensures SaveInv(ServeIssued(s, k), p, bound)
    ensures |ServeIssued(s, k).answers| == |s.answers| + 1 && ServeIssued(s, k).answers[|s.answers|].envelope == s.issued[k].envelope
  {
    var u := ServeIssued(s, k);
    ServedIs(s, k);
    OneMoreReceipt(s, u, s.issued[k].envelope);
    SameButAnswersKeeps(s, u, p, bound);
  }

  lemma ServedIs(s: Sys, k: nat)
    requires !IsBlank(s.actor) && !IsBlank(s.contextId) && k < |s.issued| && IsProcessed(s, s.issued[k].envelope)
    ensures var e := s.issued[k].envelope;
            ServeIssued(s, k) == s.(answers := s.answers + [Answer(e, Ok(s.host.processed[e.commandId].receipt))])
  {
  }

  lemma OneMoreReceipt(s: Sys, u: Sys, e: CommandEnvelope)
    requires AnswersAreReceipts(s) && HostGrows(s, u) && IsProcessed(u, e)
    requires u.answers == s.answers + [Answer(e, Ok(u.host.processed[e.commandId].receipt))]
    ensures AnswersAreReceipts(u)
  {
    forall a | 0 <= a < |u.answers| ensures IsReceipt(u, u.answers[a]) {
      if a < |s.answers| {
        assert IsReceipt(s, s.answers[a]);
      }
    }
  }

  lemma SameButAnswersKeeps(s: Sys, u: Sys, p: Plan, bound: nat)
    requires SaveInv(s, p, bound) && u == s.(answers := u.answers) && AnswersAreReceipts(u)
    ensures SaveInv(u, p, bound)
  {
    IssuedAreProcessed(s, u, if IsCalm(s, p) then |s.issued| else |s.issued| - 1);
    if IsCalm(s, p) {
      assert IsCalm(u, p);
    } else {
      assert IsBusy(u, p);
    }
  }

  /** The host in step with the client applies the open envelope. */
  lemma OpenIsApplied(s: Sys, p: Plan)
    requires IsPlan(p) && IsFrame(s, p) && |s.issued| > 0 && IsUnderway(s, LastEnvelope(s), p) && IsOpen(s)
    ensures IsNearer(p, s.host.document)
    ensures var e, d := LastEnvelope(s), p.step(s.host.document);
            ServeIssued(s, |s.issued| - 1)
            == s.(host := AppliedHost(s.host, s.actor, s.contextId, e, d),
                  history := s.history + [HostAuthority(AppliedHost(s.host, s.actor, s.contextId, e, d), s.hostEpoch)],
                  answers := s.answers + [Answer(e, Ok(NewReceipt(s.host, s.contextId, e, d)))])
  {
    var e, d := LastEnvelope(s), p.step(s.host.document);
    OpenIsExpected(s, p);
    ExpectedIsApplied(s.host, s.actor, s.contextId, e, d);
    ServedNew(s, |s.issued| - 1, AppliedHost(s.host, s.actor, s.contextId, e, d), NewReceipt(s.host, s.contextId, e, d));
  }

  lemma OpenIsExpected(s: Sys, p: Plan)
    requires IsPlan(p) && IsFrame(s, p) && |s.issued| > 0 && IsUnderway(s, LastEnvelope(s), p) && IsOpen(s)
    ensures var e := LastEnvelope(s);
            && !IsBlank(s.actor) && !IsBlank(s.contextId) && e == EnvelopeAt(s.host.Cursor(s.contextId), e.commandId, e.payload)
            && IsNearer(p, s.host.document) && Apply(s.host.document, e.payload) == Ok(p.step(s.host.document))
  {
    assert LeadsOn(p, s.host.document);
  }

  function NewReceipt(h: Host, contextId: Id, e: CommandEnvelope, d: ResumeDocument): CommandResult {
    CommandResult(e.commandId, h.(document := d, revision := h.revision + 1).Cursor(contextId), true, d)
  }

  /** The host after it has applied the envelope, which gave this document. */
  function AppliedHost(h: Host, actor: string, contextId: Id, e: CommandEnvelope, d: ResumeDocument): (r: Host)
    ensures r.document == d && r.revision == h.revision + 1 && r.branchId == h.branchId && r.headId == h.headId
    ensures r.Cursor(contextId) == NewReceipt(h, contextId, e, d).cursor
  {
    h.(document := d, revision := h.revision + 1,
       processed := h.processed[e.commandId := Processed(e, NewReceipt(h, contextId, e, d), actor)])
  }

  lemma ServedNew(s: Sys, k: nat, h: Host, receipt: CommandResult)
    requires k < |s.issued| && Handle(s.host, s.actor, s.contextId, s.issued[k].envelope) == Reply(h, Ok(receipt))
    requires h.revision == s.host.revision + 1
    ensures ServeIssued(s, k) == s.(host := h, history := s.history + [HostAuthority(h, s.hostEpoch)],
                                    answers := s.answers + [Answer(s.issued[k].envelope, Ok(receipt))])
  {
  }

  lemma ExpectedIsApplied(h: Host, actor: string, contextId: Id, e: CommandEnvelope, d: ResumeDocument)
    requires !IsBlank(actor) && !IsBlank(contextId) && e.commandId !in h.processed
    requires e == EnvelopeAt(h.Cursor(contextId), e.commandId, e.payload) && Apply(h.document, e.payload) == Ok(d)
    ensures Handle(h, actor, contextId, e) == Reply(AppliedHost(h, actor, contextId, e, d), Ok(NewReceipt(h, contextId, e, d)))
  {
  }

  lemma OpenServed(s: Sys, p: Plan, bound: nat)
    requires IsPlan(p) && SaveInv(s, p, bound) && IsBusy(s, p) && IsOpen(s)
    ensures var u := ServeIssued(s, |s.issued| - 1);
            && SaveInv(u, p, bound) && IsBusy(u, p)
            && |u.answers| == |s.answers| + 1 && u.answers[|s.answers|].envelope == LastEnvelope(s) && !IsOpen(u)
  {
    OpenIsApplied(s, p);
    var u, e := ServeIssued(s, |s.issued| - 1), LastEnvelope(s);
    AppliedFrame(s, u, e, p, bound);
    LandedNow(s, u, e, p);
    CarriedStill(s, u, e);
  }

  /** The host after the envelope shows its document and keeps its receipts, with one more. */
  lemma AppliedFrame(s: Sys, u: Sys, e: CommandEnvelope, p: Plan, bound: nat)
    requires IsFrame(s, p) && IsWithin(s, p, bound) && IsOpen(s) && e == LastEnvelope(s) && e.protocolVersion == 1
    requires AreProcessed(s, |s.issued| - 1) && IsNearer(p, s.host.document)
    requires var d := p.step(s.host.document);
             u == s.(host := AppliedHost(s.host, s.actor, s.contextId, e, d),
                     history := s.history + [HostAuthority(AppliedHost(s.host, s.actor, s.contextId, e, d), s.hostEpoch)],
                     answers := s.answers + [Answer(e, Ok(NewReceipt(s.host, s.contextId, e, d)))])
    ensures IsFrame(u, p) && IsWithin(u, p, bound) && AreProcessed(u, |s.issued| - 1) && IsProcessed(u, e) && !IsOpen(u)
    ensures u.host.processed[e.commandId].receipt == NewReceipt(s.host, s.contextId, e, p.step(s.host.document))
  {
    IssuedAreProcessed(s, u, |s.issued| - 1);
    OneMoreReceipt(s, u, e);
  }

  lemma LandedNow(s: Sys, u: Sys, e: CommandEnvelope, p: Plan)
    requires IsNextEnvelope(s.client, e, p) && InStep(s) && u.client == s.client && u.contextId == s.contextId && u.hostEpoch == s.hostEpoch
    requires u.host.document == p.step(s.host.document) && u.host.document.documentId == s.host.document.documentId
    requires u.host.revision == s.host.revision + 1 && u.host.branchId == s.host.branchId && u.host.headId == s.host.headId
    requires IsProcessed(u, e)
    requires u.host.processed[e.commandId].receipt == CommandResult(e.commandId, u.host.Cursor(u.contextId), true, u.host.document)
    ensures HasLanded(u, e, p)
  {
  }

  lemma CarriedStill(s: Sys, u: Sys, e: CommandEnvelope)
    requires IsCarried(s, e) && e.commandId !in s.host.processed && u.tasks == s.tasks && u.client == s.client
    ensures IsCarried(u, e)
  {
  }

  lemma OthersAreProcessed(s: Sys, k: nat, p: Plan)
    requires (IsCalm(s, p) || IsBusy(s, p)) && k < |s.issued| && !(IsBusy(s, p) && k == |s.issued| - 1 && IsOpen(s))
    ensures IsProcessed(s, s.issued[k].envelope)
  {
    if IsBusy(s, p) && k == |s.issued| - 1 {
      assert HasLanded(s, LastEnvelope(s), p);
    }
  }

  lemma ServeKeepsSave(s: Sys, k: nat, p: Plan, bound: nat)
    requires IsPlan(p) && SaveInv(s, p, bound) && k < |s.issued|
    ensures SaveInv(ServeIssued(s, k), p, bound)
  {
    if IsBusy(s, p) && k == |s.issued| - 1 && IsOpen(s) {
      OpenServed(s, p, bound);
    } else {
      OthersAreProcessed(s, k, p);
      ServedAgain(s, k, p, bound);
    }
  }

  // ---- Answers ----

  lemma LastIsOut(s: Sys, i: nat, p: Plan)
    requires IsOrderly(s) && (IsCalm(s, p) || IsBusy(s, p)) && i < |s.tasks| && IsOut(s.tasks[i])
    ensures IsBusy(s, p) && i == |s.tasks| - 1 && CarriesLast(s, s.tasks[i], LastEnvelope(s)) && !s.tasks[i].Reloading?
  {
    assert !IsSettled(s.tasks[i]);
  }

  lemma ReceiptIsValid(s: Sys, e: CommandEnvelope, p: Plan)
    requires IsFrame(s, p) && HasLanded(s, e, p)
    ensures ValidState(ReceiptState(s.host.processed[e.commandId].receipt))
  {
    DecimalIsCanonical(s.host.revision);
  }

  lemma DecimalIsCanonical(n: nat)
    ensures IsCanonicalRevision(Decimal(n))
  {
    CanonicalMeansDecimal(Decimal(n));
  }

  lemma LandedIsNewer(s: Sys)
    requires s.host.revision > 0
    ensures IsNewerRevision(Decimal(s.host.revision), Decimal(s.host.revision - 1))
    ensures !IsNewerRevision(Decimal(s.host.revision - 1), Decimal(s.host.revision))
    ensures !IsNewerRevision(Decimal(s.host.revision), Decimal(s.host.revision))
  {
    NewerRevisionIsNumericOrder(s.host.revision, s.host.revision - 1);
    NewerRevisionIsNumericOrder(s.host.revision - 1, s.host.revision);
    NewerRevisionIsNumericOrder(s.host.revision, s.host.revision);
  }

  /** The right receipt is installed at once, or the state is fetched first when the envelope was sent again. */
  lemma ReceiptIsAccepted(s: Sys, e: CommandEnvelope, reconcile: bool, p: Plan)
    requires IsFrame(s, p) && IsUnderway(s, e, p) && HasLanded(s, e, p)
    ensures var receipt := s.host.processed[e.commandId].receipt;
            Judge(s.client, e, reconcile, s.client.sessionEpoch, receipt) == if reconcile then NeedState else Accept
  {
    ReceiptIsValid(s, e, p);
    LandedIsNewer(s);
  }

  /** A state of the host's that the client installs brings it in step, and nothing is under way any more. */
  lemma InstalledIsCalm(s: Sys, u: Sys, state: DocumentState, p: Plan, bound: nat)
    requires SaveInv(s, p, bound) && IsBusy(s, p) && HasLanded(s, LastEnvelope(s), p) && IsOrderly(u) && AllSettled(u)
    requires u == s.(tasks := u.tasks, client := Install(s.client, state))
    requires state.cursor == s.host.Cursor(s.contextId) && state.document == s.host.document
    requires state.hostEpoch.Some? ==> state.hostEpoch.value <= s.hostEpoch
    ensures SaveInv(u, p, bound) && IsCalm(u, p)
  {
    ReceiptsStay(s, u);
    IssuedAreProcessed(s, u, |s.issued| - 1);
    InstalledIsInStep(s, u, state);
  }

  lemma InstalledIsInStep(s: Sys, u: Sys, state: DocumentState)
    requires s.client.current.Some? && (s.client.current.value.hostEpoch.Some? ==> s.client.current.value.hostEpoch.value <= s.hostEpoch)
    requires u == s.(tasks := u.tasks, client := Install(s.client, state))
    requires state.cursor == s.host.Cursor(s.contextId) && state.document == s.host.document
    requires state.hostEpoch.Some? ==> state.hostEpoch.value <= s.hostEpoch
    ensures InStep(u) && !u.client.failed && u.client.status == SavedStatus
  {
  }

  lemma AnswerMeansLanded(s: Sys, i: nat, a: nat, p: Plan)
    requires IsFrame(s, p) && IsOrderly(s) && (IsCalm(s, p) || IsBusy(s, p)) && Enabled(s, DeliverAnswer(i, a))
    ensures IsBusy(s, p) && i == |s.tasks| - 1 && HasLanded(s, LastEnvelope(s), p)
    ensures s.tasks[i].envelope == LastEnvelope(s) && s.tasks[i].epoch == s.client.sessionEpoch
    ensures s.answers[a].outcome == Ok(s.host.processed[LastEnvelope(s).commandId].receipt)
  {
    LastIsOut(s, i, p);
    assert IsReceipt(s, s.answers[a]);
  }

  lemma AnswerKeepsSave(s: Sys, i: nat, a: nat, p: Plan, bound: nat)
    requires SaveInv(s, p, bound) && Enabled(s, DeliverAnswer(i, a))
    ensures SaveInv(Next(s, DeliverAnswer(i, a)), p, bound)
    ensures if s.tasks[i].reconcile then IsFetching(Next(s, DeliverAnswer(i, a)), p) else IsDone(Next(s, DeliverAnswer(i, a)), p)
  {
    AnswerMeansLanded(s, i, a, p);
    var e := LastEnvelope(s);
    var u, receipt := Next(s, DeliverAnswer(i, a)), s.host.processed[e.commandId].receipt;
    ReceiptIsAccepted(s, e, s.tasks[i].reconcile, p);
    LastTurnSettles(s, u.tasks[i]);
    if s.tasks[i].reconcile {
      BusyGoesOn(s, u, p, bound);
    } else {
      InstalledIsCalm(s, u, ReceiptState(receipt), p, bound);
    }
  }

  /** The state is being fetched for an envelope that was sent again. */
  predicate IsFetching(s: Sys, p: Plan) {
    IsBusy(s, p) && |s.tasks| > 0 && s.tasks[|s.tasks| - 1].Fetching?
  }

  /** No operation is left. */
  predicate IsDone(s: Sys, p: Plan) {
    IsCalm(s, p) && AllSettled(s)
  }

  /** The only state that can come is the present one. */
  lemma FetchedIsPresent(s: Sys, i: nat, rev: nat, p: Plan)
    requires IsFrame(s, p) && IsOrderly(s) && (IsCalm(s, p) || IsBusy(s, p)) && Enabled(s, DeliverState(i, rev))
    ensures IsBusy(s, p) && i == |s.tasks| - 1 && s.tasks[i].Fetching? && CarriesLast(s, s.tasks[i], LastEnvelope(s))
    ensures HasLanded(s, LastEnvelope(s), p)
    ensures rev == s.host.revision && StateAt(s, rev) == StateOf(s.contextId, HostAuthority(s.host, s.hostEpoch), rev)
  {
    LastIsOut(s, i, p);
  }

  lemma StateIsAccepted(s: Sys, e: CommandEnvelope, p: Plan)
    requires IsFrame(s, p) && IsUnderway(s, e, p) && HasLanded(s, e, p)
    ensures Reconciles(s.client, e, s.client.sessionEpoch, s.host.processed[e.commandId].receipt,
                       StateOf(s.contextId, HostAuthority(s.host, s.hostEpoch), s.host.revision))
  {
    LandedIsNewer(s);
    DecimalIsCanonical(s.host.revision);
  }

  lemma StateKeepsSave(s: Sys, i: nat, rev: nat, p: Plan, bound: nat)
    requires SaveInv(s, p, bound) && Enabled(s, DeliverState(i, rev))
    ensures SaveInv(Next(s, DeliverState(i, rev)), p, bound) && IsDone(Next(s, DeliverState(i, rev)), p)
  {
    FetchedIsPresent(s, i, rev, p);
    var e := LastEnvelope(s);
    var u := Next(s, DeliverState(i, rev));
    StateIsAccepted(s, e, p);
    LastTurnSettles(s, u.tasks[i]);
    InstalledIsCalm(s, u, StateAt(s, rev), p, bound);
  }

  lemma ErrorKeepsSave(s: Sys, i: nat, p: Plan, bound: nat)
    requires SaveInv(s, p, bound) && Enabled(s, DeliverError(i))
    ensures SaveInv(Next(s, DeliverError(i)), p, bound)
  {
    LastIsOut(s, i, p);
    var u := Next(s, DeliverError(i));
    LastTurnSettles(s, Settled);
    BusyGoesOn(s, u, p, bound);
  }

  // ---- Whole runs ----

  lemma SaveStep(s: Sys, e: Event, p: Plan, bound: nat)
    requires IsPlan(p) && SaveInv(s, p, bound) && Enabled(s, e) && IsSaving(s, e, p)
    ensures SaveInv(Next(s, e), p, bound)
  {
    match e
    case CallSubmit(payload) => SubmitJoins(s, payload, p, bound);
    case CallRetry => RetryJoins(s, p, bound);
    case Run(i, newId) => RunKeepsSave(s, i, newId, p, bound);
    case HostServes(k) => ServeKeepsSave(s, k, p, bound);
    case DeliverAnswer(i, a) => AnswerKeepsSave(s, i, a, p, bound);
    case DeliverState(i, rev) => StateKeepsSave(s, i, rev, p, bound);
    case DeliverError(i) => ErrorKeepsSave(s, i, p, bound);
  }

  lemma {:induction false} SavesKeep(s: Sys, es: seq<Event>, p: Plan, bound: nat)
    requires IsPlan(p) && SaveInv(s, p, bound) && Feasible(s, es) && AllSaving(s, es, p)
    ensures SaveInv(RunEvents(s, es), p, bound)
    decreases |es|
  {
    if es != [] {
      SaveStep(s, es[0], p, bound);
      SavesKeep(Next(s, es[0]), es[1..], p, bound);
    }
  }

  /** Somebody who may write, a document that the client can load, and a way from it to the goal. */
  predicate CanSave(h: Host, contextId: Id, actor: string, p: Plan) {
    !IsBlank(actor) && !IsBlank(contextId) && !IsJsBlank(contextId) && h.document.schemaVersion == 2 && p.hasWay(h.document)
  }

  lemma LoadedCanSave(h: Host, hostEpoch: nat, contextId: Id, actor: string, p: Plan)
    requires CanSave(h, contextId, actor, p)
    ensures SaveInv(JustLoaded(h, hostEpoch, contextId, actor), p, p.length(h.document))
  {
  }

  /** What every run of saves guarantees at each of its points. */
  predicate SavesAreSound(s: Sys, p: Plan, bound: nat) {
    && |s.issued| <= bound
    && s.host.revision - s.base + p.length(s.host.document) <= bound && p.hasWay(s.host.document)
    && (forall a :: 0 <= a < |s.answers| ==> s.answers[a].outcome.Ok?)
    && s.client.current.Some?
    && (AllSettled(s) && !s.client.failed ==> s.client.current.value.document == s.host.document)
    && (AllSettled(s) && s.client.failed ==> s.client.failedEnvelope.Some?)
    && (s.client.current.value.document != p.goal ==> p.next(s.client.current.value.document).Some?)
    && StatusIsTrue(s)
  }

  /** What the client reports: with nothing left "failed" exactly if it failed, else "saved" exactly after a confirmation; "saving" exactly while a call is out. */
  predicate StatusIsTrue(s: Sys) {
    && (AllSettled(s) ==>
          && (s.client.failed <==> s.client.status == FailedStatus)
          && (!s.client.failed ==> s.client.status == RestStatus(s)))
    && (s.client.status == Saving <==> exists i :: 0 <= i < |s.tasks| && IsOut(s.tasks[i]))
  }

  lemma InvTellsStatus(s: Sys, p: Plan)
    requires IsOrderly(s) && (IsCalm(s, p) || IsBusy(s, p))
    ensures StatusIsTrue(s)
  {
    if AllSettled(s) {
      assert forall i :: 0 <= i < |s.tasks| ==> !IsOut(s.tasks[i]);
    } else {
      var n := |s.tasks| - 1;
      assert forall i :: 0 <= i < n ==> IsSettled(s.tasks[i]);
    }
  }

  lemma InvIsSound(s: Sys, p: Plan, bound: nat)
    requires IsPlan(p) && SaveInv(s, p, bound)
    ensures SavesAreSound(s, p, bound)
  {
    if s.host.document != p.goal {
      assert LeadsOn(p, s.host.document);
    }
    forall a | 0 <= a < |s.answers| ensures s.answers[a].outcome.Ok? {
      assert IsReceipt(s, s.answers[a]);
    }
    InvTellsStatus(s, p);
  }

  /**
   * Over every run of saves, however many answers are lost, late or repeated: the client makes at most as many commands
   * as the way is long, the host refuses none of them, and each one that it applies brings it nearer to the goal. When
   * no operation is left, the client shows what the host holds, or it keeps the failed command for the next save.
   */
  lemma EverySaveIsSound(h: Host, hostEpoch: nat, contextId: Id, actor: string, es: seq<Event>, p: Plan)
    requires IsPlan(p) && CanSave(h, contextId, actor, p)
    requires Feasible(JustLoaded(h, hostEpoch, contextId, actor), es)
    requires AllSaving(JustLoaded(h, hostEpoch, contextId, actor), es, p)
    ensures SavesAreSound(RunEvents(JustLoaded(h, hostEpoch, contextId, actor), es), p, p.length(h.document))
  {
    var s := JustLoaded(h, hostEpoch, contextId, actor);
    LoadedCanSave(h, hostEpoch, contextId, actor, p);
    SavesKeep(s, es, p, p.length(h.document));
    InvIsSound(RunEvents(s, es), p, p.length(h.document));
  }
}
