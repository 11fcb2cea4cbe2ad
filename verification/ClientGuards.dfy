/** What the client holds to whatever it is answered: nothing is assumed of the host here. */
module ClientGuards {
  import opened Contracts
  import opened Strings
  import opened NativeDocumentClient

  // ---- Revisions ----

  predicate IsRevision(s: string, n: nat) {
    s == Decimal(n)
  }

  ghost predicate IsProper(s: string) {
    exists n: nat :: IsRevision(s, n)
  }

  ghost predicate IsAbove(a: string, b: string) {
    exists m: nat, n: nat :: IsRevision(a, m) && IsRevision(b, n) && m > n
  }

  lemma CanonicalIsProper(s: string)
    ensures IsCanonicalRevision(s) <==> IsProper(s)
  {
    CanonicalMeansDecimal(s);
    if IsCanonicalRevision(s) {
      var n: nat :| s == Decimal(n);
      assert IsRevision(s, n);
    }
    if IsProper(s) {
      var n: nat :| IsRevision(s, n);
      assert s == Decimal(n);
    }
  }

  lemma NewerIsAbove(a: string, b: string)
    requires IsProper(a) && IsProper(b)
    ensures IsNewerRevision(a, b) <==> IsAbove(a, b)
  {
    var m: nat :| IsRevision(a, m);
    var n: nat :| IsRevision(b, n);
    NewerRevisionIsNumericOrder(m, n);
    if i: nat, j: nat :| IsRevision(a, i) && IsRevision(b, j) && i > j {
      DecimalInjective(m, i);
      DecimalInjective(n, j);
    }
  }

  // ---- States that may be shown ----

  /** Schema 2, the document that the cursor names, a context, and a revision. */
  ghost predicate IsSound(cursor: AuthorityCursor, document: ResumeDocument) {
    && document.schemaVersion == 2 && document.documentId == cursor.documentId && !IsJsBlank(cursor.contextId)
    && IsProper(cursor.revision)
  }

  lemma SoundIsValid(s: DocumentState)
    ensures ValidState(s) <==> IsSound(s.cursor, s.document)
  {
    CanonicalIsProper(s.cursor.revision);
  }

  predicate SameDocument(a: AuthorityCursor, b: AuthorityCursor) {
    a.documentId == b.documentId && a.contextId == b.contextId
  }

  // ---- Runs with any answers ----

  /** A call that is out: its envelope, and the session it was made in. */
  datatype Call = Call(envelope: CommandEnvelope, epoch: nat)

  /** A reload that is out: what was shown when it started, and its session. */
  datatype Reload = Reload(before: DocumentState, epoch: nat)

  datatype World = World(client: Client, calls: seq<Call>, reloads: seq<Reload>)

  datatype Event =
    | Submit(target: Option<DocumentTarget>, payload: DomainCommand, id: Id)
    | Retry
    | Receipt(i: nat, reconcile: bool, result: CommandResult)
    | Fetched(i: nat, result: CommandResult, state: DocumentState)
    | Broken(i: nat)
    | StartReload
    | Reloaded(i: nat, state: DocumentState)

  function WithCall(w: World, sent: Sent<CommandEnvelope>): World {
    World(sent.client, if sent.request.Some? then w.calls + [Call(sent.request.value, w.client.sessionEpoch)] else w.calls, w.reloads)
  }

  function AfterReceipt(c: Client, call: Call, reconcile: bool, r: CommandResult): Client {
    match Judge(c, call.envelope, reconcile, call.epoch, r)
    case Reject => Fail(c, call.epoch)
    case NeedState => c
    case Accept => Install(c, ReceiptState(r))
  }

  function AfterFetch(c: Client, call: Call, r: CommandResult, s: DocumentState): Client {
    if Reconciles(c, call.envelope, call.epoch, r, s) then Install(c, s) else Fail(c, call.epoch)
  }

  function After(w: World, e: Event): World {
    match e
    case Submit(target, payload, id) => WithCall(w, BeginSubmit(w.client, target, payload, id))
    case Retry => WithCall(w, BeginRetry(w.client))
    case Receipt(i, reconcile, r) => if i < |w.calls| then w.(client := AfterReceipt(w.client, w.calls[i], reconcile, r)) else w
    case Fetched(i, r, s) => if i < |w.calls| then w.(client := AfterFetch(w.client, w.calls[i], r, s)) else w
    case Broken(i) => if i < |w.calls| then w.(client := Fail(w.client, w.calls[i].epoch)) else w
    case StartReload =>
      if w.client.current.Some? then w.(reloads := w.reloads + [Reload(w.client.current.value, w.client.sessionEpoch)]) else w
    case Reloaded(i, s) =>
      if i < |w.reloads| then w.(client := AfterReload(w.client, w.reloads[i].epoch, Some(w.reloads[i].before), s).0) else w
  }

  function Run(w: World, events: seq<Event>): World {
    if events == [] then w else After(Run(w, events[..|events| - 1]), events[|events| - 1])
  }

  // ---- What always holds ----

  ghost predicate CallFits(c: Client, call: Call)
    requires c.current.Some?
  {
    && call.epoch <= c.sessionEpoch && IsProper(call.envelope.expectedRevision)
    && (call.epoch == c.sessionEpoch ==>
          call.envelope.documentId == c.current.value.cursor.documentId && call.envelope.contextId == c.current.value.cursor.contextId)
  }

  predicate ReloadFits(c: Client, reload: Reload)
    requires c.current.Some?
  {
    && reload.epoch <= c.sessionEpoch
    && (reload.epoch == c.sessionEpoch ==> SameDocument(reload.before.cursor, c.current.value.cursor))
  }

  /** What is shown is sound; calls and reloads of this session are for the document shown. */
  ghost predicate Holds(w: World) {
    && IsShown(w.client)
    && (forall i :: 0 <= i < |w.calls| ==> CallFits(w.client, w.calls[i]))
    && (forall i :: 0 <= i < |w.reloads| ==> ReloadFits(w.client, w.reloads[i]))
  }

  ghost predicate IsShown(c: Client) {
    c.current.Some? && IsSound(c.current.value.cursor, c.current.value.document)
  }

  /** A retry carries an envelope that fits the session it is made in. */
  ghost predicate RetryFits(w: World, e: Event)
    requires IsShown(w.client)
  {
    e.Retry? && w.client.failedEnvelope.Some? ==> CallFits(w.client, Call(w.client.failedEnvelope.value, w.client.sessionEpoch))
  }

  /** Document and context are as before, in the same session, and the revision has not fallen. */
  ghost predicate Keeps(c: Client, d: Client)
    requires IsShown(c)
  {
    && IsShown(d) && d.sessionEpoch == c.sessionEpoch && SameDocument(c.current.value.cursor, d.current.value.cursor)
    && !IsAbove(c.current.value.cursor.revision, d.current.value.cursor.revision)
  }

  lemma NotAboveItself(s: string)
    ensures !IsAbove(s, s)
  {
    if m: nat, n: nat :| IsRevision(s, m) && IsRevision(s, n) && m > n {
      DecimalInjective(m, n);
    }
  }

  lemma KeepsAll(w: World, d: Client)
    requires Holds(w) && Keeps(w.client, d)
    ensures Holds(w.(client := d))
  {
  }

  // ---- What is accepted ----

  /** A receipt for just this command, durable, of a sound state of its document that is newer than it expected. */
  ghost predicate IsReceiptFor(e: CommandEnvelope, r: CommandResult) {
    && r.commandId == e.commandId && r.durable && IsSound(r.cursor, r.document) && IsAbove(r.cursor.revision, e.expectedRevision)
    && r.cursor.documentId == e.documentId && r.cursor.contextId == e.contextId
  }

  /** A receipt is refused unless it is one for the command in this session; it is installed at once if it is newer than what is shown. */
  lemma ReceiptIsTakenExactlyWhen(c: Client, call: Call, reconcile: bool, r: CommandResult)
    requires IsShown(c) && CallFits(c, call)
    ensures var verdict := Judge(c, call.envelope, reconcile, call.epoch, r);
            && (verdict != Reject <==> call.epoch == c.sessionEpoch && IsReceiptFor(call.envelope, r))
            && (verdict == Accept <==> verdict != Reject && !reconcile && IsAbove(r.cursor.revision, c.current.value.cursor.revision))
  {
    SoundIsValid(ReceiptState(r));
    if IsProper(r.cursor.revision) {
      NewerIsAbove(r.cursor.revision, call.envelope.expectedRevision);
      NewerIsAbove(r.cursor.revision, c.current.value.cursor.revision);
    }
  }

  /** A fetched state settles a receipt if it is sound, of its document, neither older than it nor than what is shown, nor of a document left. */
  lemma StateIsTakenExactlyWhen(c: Client, call: Call, r: CommandResult, s: DocumentState)
    requires IsShown(c) && CallFits(c, call) && IsReceiptFor(call.envelope, r)
    ensures Reconciles(c, call.envelope, call.epoch, r, s) <==>
            && call.epoch == c.sessionEpoch && IsSound(s.cursor, s.document)
            && s.cursor.documentId == call.envelope.documentId && s.cursor.contextId == call.envelope.contextId
            && !IsAbove(r.cursor.revision, s.cursor.revision) && !IsAbove(c.current.value.cursor.revision, s.cursor.revision)
            && !FromOlderHost(c.current, s)
  {
    SoundIsValid(s);
    if IsProper(s.cursor.revision) {
      NewerIsAbove(r.cursor.revision, s.cursor.revision);
      NewerIsAbove(c.current.value.cursor.revision, s.cursor.revision);
    }
  }

  /** A submission is sent exactly when nothing has failed and its target is the document shown, no newer, in this session. */
  lemma SubmitSendsExactlyWhen(c: Client, target: DocumentTarget, payload: DomainCommand, id: Id)
    requires IsShown(c) && IsProper(target.cursor.revision)
    ensures var cursor := c.current.value.cursor;
            var sent := BeginSubmit(c, Some(target), payload, id);
            && (sent.request.Some? <==>
                  && !c.failed && target.sessionEpoch == c.sessionEpoch && SameDocument(target.cursor, cursor)
                  && target.cursor.branchId == cursor.branchId && target.cursor.headId == cursor.headId
                  && !IsAbove(target.cursor.revision, cursor.revision))
            && (sent.request.Some? ==>
                  sent.request.value == CommandEnvelope(1, id, cursor.documentId, cursor.contextId, cursor.revision,
                                                        cursor.branchId, cursor.headId, payload))
  {
    NewerIsAbove(target.cursor.revision, c.current.value.cursor.revision);
  }

  // ---- Every step ----

  lemma InstalledKeeps(c: Client, s: DocumentState)
    requires IsShown(c) && IsSound(s.cursor, s.document) && SameDocument(c.current.value.cursor, s.cursor)
    requires !IsAbove(c.current.value.cursor.revision, s.cursor.revision)
    ensures Keeps(c, Install(c, s))
  {
  }

  lemma ReceiptKeeps(w: World, i: nat, reconcile: bool, r: CommandResult)
    requires Holds(w) && i < |w.calls|
    ensures Keeps(w.client, AfterReceipt(w.client, w.calls[i], reconcile, r))
  {
    var c, call := w.client, w.calls[i];
    ReceiptIsTakenExactlyWhen(c, call, reconcile, r);
    NotAboveItself(c.current.value.cursor.revision);
    if Judge(c, call.envelope, reconcile, call.epoch, r) == Accept {
      AboveIsNotBelow(r.cursor.revision, c.current.value.cursor.revision);
      InstalledKeeps(c, ReceiptState(r));
    }
  }

  lemma AboveIsNotBelow(a: string, b: string)
    requires IsAbove(a, b)
    ensures !IsAbove(b, a)
  {
    var m: nat, n: nat :| IsRevision(a, m) && IsRevision(b, n) && m > n;
    if i: nat, j: nat :| IsRevision(b, i) && IsRevision(a, j) && i > j {
      DecimalInjective(m, j);
      DecimalInjective(n, i);
    }
  }

  lemma FetchKeeps(w: World, i: nat, r: CommandResult, s: DocumentState)
    requires Holds(w) && i < |w.calls|
    ensures Keeps(w.client, AfterFetch(w.client, w.calls[i], r, s))
  {
    var c := w.client;
    SoundIsValid(s);
    NotAboveItself(c.current.value.cursor.revision);
    if ValidState(s) {
      NewerIsAbove(c.current.value.cursor.revision, s.cursor.revision);
    }
  }

  lemma SubmitKeeps(w: World, target: Option<DocumentTarget>, payload: DomainCommand, id: Id)
    requires Holds(w)
    ensures Keeps(w.client, BeginSubmit(w.client, target, payload, id).client)
    ensures Holds(WithCall(w, BeginSubmit(w.client, target, payload, id)))
  {
    NotAboveItself(w.client.current.value.cursor.revision);
  }

  lemma ReloadKeeps(w: World, i: nat, s: DocumentState)
    requires Holds(w) && i < |w.reloads|
    ensures Holds(After(w, Reloaded(i, s)))
  {
    SoundIsValid(s);
    assert ReloadFits(w.client, w.reloads[i]);
  }

  /** Whatever is answered: what is shown stays sound; only the answer of a reload changes document or context, or lowers the revision. */
  lemma StepHolds(w: World, e: Event)
    requires Holds(w) && RetryFits(w, e)
    ensures Holds(After(w, e)) && (!e.Reloaded? ==> Keeps(w.client, After(w, e).client))
  {
    NotAboveItself(w.client.current.value.cursor.revision);
    match e
    case Submit(target, payload, id) => SubmitKeeps(w, target, payload, id);
    case Retry =>
    case Receipt(i, reconcile, r) =>
      if i < |w.calls| {
        ReceiptKeeps(w, i, reconcile, r);
        KeepsAll(w, AfterReceipt(w.client, w.calls[i], reconcile, r));
      }
    case Fetched(i, r, s) =>
      if i < |w.calls| {
        FetchKeeps(w, i, r, s);
        KeepsAll(w, AfterFetch(w.client, w.calls[i], r, s));
      }
    case Broken(i) =>
    case StartReload =>
    case Reloaded(i, s) =>
      if i < |w.reloads| {
        ReloadKeeps(w, i, s);
      }
  }

  ghost predicate RetriesFit(w: World, events: seq<Event>) {
    if events == [] then true
    else
      var init := events[..|events| - 1];
      RetriesFit(w, init) && (IsShown(Run(w, init).client) ==> RetryFits(Run(w, init), events[|events| - 1]))
  }

  /** From a client that shows a sound state: over every run of calls, answers and reloads, whatever the answers are. */
  lemma {:induction false} WhateverIsAnswered(w: World, events: seq<Event>)
    requires IsShown(w.client) && w.calls == [] && w.reloads == [] && RetriesFit(w, events)
    ensures Holds(Run(w, events))
  {
    if events != [] {
      WhateverIsAnswered(w, events[..|events| - 1]);
      StepHolds(Run(w, events[..|events| - 1]), events[|events| - 1]);
    }
  }
}
