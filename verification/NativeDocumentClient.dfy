/** The web client's command queue, cut into the pieces that run between two waits for the host. */
module NativeDocumentClient {
  import opened Contracts
  import opened Strings

  /** A state of the document; the host numbers its changes of document, receipts do not carry that number. */
  datatype DocumentState = DocumentState(cursor: AuthorityCursor, document: ResumeDocument, hostEpoch: Option<nat>)
  datatype DocumentTarget = DocumentTarget(cursor: AuthorityCursor, sessionEpoch: nat)
  datatype SaveStatus = Idle | Saving | SavedStatus | FailedStatus

  /** What the client remembers. */
  datatype Client = Client(
    current: Option<DocumentState>,
    failed: bool,
    failedEnvelope: Option<CommandEnvelope>,
    status: SaveStatus,
    sessionEpoch: nat)

  // ---- Specification ----

  predicate SameLineage(a: AuthorityCursor, b: AuthorityCursor) {
    a.documentId == b.documentId && a.contextId == b.contextId && a.branchId == b.branchId && a.headId == b.headId
  }

  /** The captured target is still this document, context, branch, head and session; only its revision may lag. */
  predicate TargetHolds(c: Client, t: DocumentTarget) {
    && c.current.Some?
    && t.sessionEpoch == c.sessionEpoch
    && SameLineage(c.current.value.cursor, t.cursor)
    && !IsNewerRevision(t.cursor.revision, c.current.value.cursor.revision)
  }

  predicate ValidState(s: DocumentState) {
    && s.document.schemaVersion == 2
    && s.cursor.documentId == s.document.documentId
    && !IsJsBlank(s.cursor.contextId)
    && IsCanonicalRevision(s.cursor.revision)
  }

  /** A client together with what it sends next. */
  datatype Sent<T> = Sent(client: Client, request: Option<T>)

  /** A queued submission takes its turn; it sends nothing when the client is blocked or its target is gone. */
  function BeginSubmit(c: Client, target: Option<DocumentTarget>, payload: DomainCommand, id: Id): Sent<CommandEnvelope> {
    if c.failed || c.current.None? || target.None? || !TargetHolds(c, target.value) then Sent(c, None)
    else
      var cursor := c.current.value.cursor;
      var envelope := CommandEnvelope(1, id, cursor.documentId, cursor.contextId, cursor.revision,
                                      cursor.branchId, cursor.headId, payload);
      Sent(c.(failedEnvelope := Some(envelope), status := Saving), Some(envelope))
  }

  /** A retry resends the unresolved envelope unchanged. */
  function BeginRetry(c: Client): Sent<CommandEnvelope> {
    if c.failedEnvelope.None? || !c.failed then Sent(c, None)
    else Sent(c.(status := Saving), c.failedEnvelope)
  }

  datatype Verdict = Reject | NeedState | Accept

  /** What the client makes of a receipt. */
  function Judge(c: Client, e: CommandEnvelope, reconcile: bool, epoch: nat, r: CommandResult): Verdict {
    if epoch != c.sessionEpoch then Reject
    else if c.current.None? || r.commandId != e.commandId || !r.durable then Reject
    else if !ValidState(ReceiptState(r)) then Reject
    else if !IsNewerRevision(r.cursor.revision, e.expectedRevision) then Reject
    else if r.cursor.documentId != e.documentId || r.cursor.contextId != e.contextId then Reject
    else if reconcile || !IsNewerRevision(r.cursor.revision, c.current.value.cursor.revision) then NeedState
    else Accept
  }

  /** The state belongs to a document that the host has left meanwhile; installing it throws. */
  predicate FromOlderHost(current: Option<DocumentState>, s: DocumentState) {
    && current.Some? && current.value.hostEpoch.Some? && s.hostEpoch.Some?
    && (s.hostEpoch.value < current.value.hostEpoch.value
        || (s.hostEpoch.value == current.value.hostEpoch.value && s.cursor.documentId != current.value.cursor.documentId))
  }

  /** A state without the host's number keeps the one known for the same document. */
  function Merged(current: Option<DocumentState>, s: DocumentState): DocumentState {
    if s.hostEpoch.None? && current.Some? && current.value.cursor.documentId == s.cursor.documentId
    then s.(hostEpoch := current.value.hostEpoch) else s
  }

  function Install(c: Client, s: DocumentState): Client {
    c.(current := Some(Merged(c.current, s)), failed := false, failedEnvelope := None, status := SavedStatus)
  }

  function ReceiptState(r: CommandResult): DocumentState {
    DocumentState(r.cursor, r.document, None)
  }

  function Fail(c: Client, epoch: nat): Client {
    if epoch == c.sessionEpoch then c.(failed := true, status := FailedStatus) else c
  }

  /** The state fetched to reconcile a receipt is usable. */
  predicate Reconciles(c: Client, e: CommandEnvelope, epoch: nat, r: CommandResult, s: DocumentState) {
    && epoch == c.sessionEpoch
    && ValidState(s)
    && s.cursor.documentId == e.documentId && s.cursor.contextId == e.contextId
    && !IsNewerRevision(r.cursor.revision, s.cursor.revision)
    && c.current.Some? && !IsNewerRevision(c.current.value.cursor.revision, s.cursor.revision)
    && !FromOlderHost(c.current, s)
  }

  /** The reloaded state is of another document, context, branch, head or host epoch than the one before. */
  predicate ChangesLineage(previous: Option<DocumentState>, s: DocumentState) {
    && previous.Some?
    && (!SameLineage(s.cursor, previous.value.cursor)
        || (s.hostEpoch.Some? && previous.value.hostEpoch.Some? && s.hostEpoch != previous.value.hostEpoch))
  }

  /** The client after a reload's answer, and whether the state was installed; the session changes even if it was not. */
  function AfterReload(c: Client, epoch: nat, previous: Option<DocumentState>, s: DocumentState): (Client, bool) {
    if epoch != c.sessionEpoch || !ValidState(s) then (c, false)
    else
      var d := if ChangesLineage(previous, s) then c.(sessionEpoch := c.sessionEpoch + 1) else c;
      if FromOlderHost(c.current, s) then (d, false)
      else (d.(current := Some(Merged(c.current, s)), status := Idle), true)
  }

  // ---- The object ----

  class NativeDocumentClient {
    var current: Option<DocumentState>
    var failed: bool
    var failedEnvelope: Option<CommandEnvelope>
    var status: SaveStatus
    var sessionEpoch: nat

    ghost function State(): Client
      reads this
    {
      Client(current, failed, failedEnvelope, status, sessionEpoch)
    }

    constructor ()
      ensures State() == Client(None, false, None, Idle, 0)
    {
      current, failed, failedEnvelope, status, sessionEpoch := None, false, None, Idle, 0;
    }

    method AssertTarget(target: DocumentTarget) returns (holds: bool)
      ensures holds <==> TargetHolds(State(), target)
    {
      if current.None? {
        return false;
      }
      var cursor := current.value.cursor;
      holds := target.sessionEpoch == sessionEpoch
        && cursor.documentId == target.cursor.documentId && cursor.contextId == target.cursor.contextId
        && cursor.branchId == target.cursor.branchId && cursor.headId == target.cursor.headId
        && !IsNewerRevision(target.cursor.revision, cursor.revision);
    }

    method StartSubmit(target: Option<DocumentTarget>, payload: DomainCommand, newCommandId: Id)
      returns (request: Option<CommandEnvelope>)
      modifies this
      ensures Sent(State(), request) == BeginSubmit(old(State()), target, payload, newCommandId)
    {
      if failed || current.None? || target.None? {
        return None;
      }
      var holds := AssertTarget(target.value);
      if !holds {
        return None;
      }
      var cursor := current.value.cursor;
      var envelope := CommandEnvelope(1, newCommandId, cursor.documentId, cursor.contextId, cursor.revision,
                                      cursor.branchId, cursor.headId, payload);
      failedEnvelope := Some(envelope);
      status := Saving;
      return Some(envelope);
    }

    method StartRetry() returns (request: Option<CommandEnvelope>)
      modifies this
      ensures Sent(State(), request) == BeginRetry(old(State()))
    {
      if failedEnvelope.None? || !failed {
        return None;
      }
      status := Saving;
      return failedEnvelope;
    }

    /** Runs when the host's answer to a command arrives; says whether the state must be fetched as well. */
    method OnReceipt(envelope: CommandEnvelope, reconcile: bool, epoch: nat, result: CommandResult)
      returns (verdict: Verdict)
      modifies this
      ensures verdict == Judge(old(State()), envelope, reconcile, epoch, result)
      ensures State() == match verdict
                         case Reject => Fail(old(State()), epoch)
                         case NeedState => old(State())
                         case Accept => Install(old(State()), ReceiptState(result))
    {
      if epoch != sessionEpoch {
        return Reject;
      }
      var state := ReceiptState(result);
      if current.None? || result.commandId != envelope.commandId || !result.durable
        || !ValidState(state)
        || !IsNewerRevision(result.cursor.revision, envelope.expectedRevision)
        || result.cursor.documentId != envelope.documentId || result.cursor.contextId != envelope.contextId
      {
        OnFailure(epoch);
        return Reject;
      }
      if reconcile || !IsNewerRevision(result.cursor.revision, current.value.cursor.revision) {
        return NeedState;
      }
      Settle(state);
      return Accept;
    }

    /** Runs when the state fetched for a receipt arrives. */
    method OnReconcile(envelope: CommandEnvelope, epoch: nat, result: CommandResult, state: DocumentState)
      returns (resolved: bool)
      modifies this
      ensures resolved <==> Reconciles(old(State()), envelope, epoch, result, state)
      ensures State() == if resolved then Install(old(State()), state) else Fail(old(State()), epoch)
    {
      if epoch != sessionEpoch {
        return false;
      }
      if !ValidState(state)
        || state.cursor.documentId != envelope.documentId || state.cursor.contextId != envelope.contextId
        || IsNewerRevision(result.cursor.revision, state.cursor.revision)
        || current.None? || IsNewerRevision(current.value.cursor.revision, state.cursor.revision)
        || FromOlderHost(current, state)
      {
        OnFailure(epoch);
        return false;
      }
      Settle(state);
      return true;
    }

    method OnFailure(epoch: nat)
      modifies this
      ensures State() == Fail(old(State()), epoch)
    {
      if epoch == sessionEpoch {
        failed := true;
        status := FailedStatus;
      }
    }

    method Settle(state: DocumentState)
      modifies this
      ensures State() == Install(old(State()), state)
    {
      current := Some(Merged(current, state));
      failed := false;
      failedEnvelope := None;
      status := SavedStatus;
    }

    /** Runs when the state fetched by a reload arrives; a change of lineage starts a new session epoch. */
    method OnReload(epoch: nat, previous: Option<DocumentState>, state: DocumentState) returns (installed: bool)
      modifies this
      ensures (State(), installed) == AfterReload(old(State()), epoch, previous, state)
    {
      if epoch != sessionEpoch || !ValidState(state) {
        return false;
      }
      if ChangesLineage(previous, state) {
        sessionEpoch := sessionEpoch + 1;
      }
      if FromOlderHost(current, state) {
        return false;
      }
      current := Some(Merged(current, state));
      status := Idle;
      return true;
    }
  }
}
