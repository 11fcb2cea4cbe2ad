/**
 * The client, the host and the channel between them. A request may be lost, delayed or served again, an answer may
 * arrive late, twice or never, and a fetched state may be any state the host has had since it was asked for; other
 * writers act in between. When an operation has settled, those that wait for it take their turn before anything else
 * happens to the client.
 */
module DeliveryProtocol {
  import opened Contracts
  import opened Strings
  import opened Documents
  import opened Domain
  import opened HostLog
  import opened NativeDocumentClient

  /** What the host holds; it numbers its changes of document by `hostEpoch`. */
  datatype Authority = Authority(document: ResumeDocument, branchId: Id, headId: Option<Id>, hostEpoch: nat)

  /** An envelope with the client revision it was made from, the host revision at that moment, and the submission it is for. */
  datatype Issued = Issued(envelope: CommandEnvelope, rev: nat, at: nat, task: nat)

  datatype Answer = Answer(envelope: CommandEnvelope, outcome: Result<CommandResult, ErrorCode>)

  /** One queued or running operation of the client. */
  datatype Task =
    | SubmitQueued(payload: DomainCommand, target: Option<DocumentTarget>)
    | RetryQueued
    | ReloadQueued
    | Calling(envelope: CommandEnvelope, reconcile: bool, epoch: nat)
    | Fetching(envelope: CommandEnvelope, epoch: nat, receipt: CommandResult, since: nat)
    | Reloading(epoch: nat, previous: Option<DocumentState>, since: nat)
    | Resolved(envelope: CommandEnvelope, receipt: CommandResult)
    | Settled

  predicate IsSettled(t: Task) { t.Resolved? || t.Settled? }

  /** A call of the host is out for this operation. */
  predicate IsOut(t: Task) { t.Calling? || t.Fetching? || t.Reloading? }

  /** `history[k]` is what the host held at revision `base + k`. */
  datatype Sys = Sys(
    client: Client, host: Host, hostEpoch: nat, contextId: Id, actor: string,
    base: nat, history: seq<Authority>,
    issued: seq<Issued>, answers: seq<Answer>,
    tasks: seq<Task>, after: seq<Option<nat>>, tail: Option<nat>)

  datatype Event =
    | CallSubmit(payload: DomainCommand)
    | CallRetry
    | CallReload
    | Run(i: nat, newId: Id)
    | HostServes(k: nat)
    | OthersCommand(request: Request)
    | OthersRebase(authority: Authority)
    | DeliverAnswer(i: nat, a: nat)
    | DeliverState(i: nat, rev: nat)
    | DeliverError(i: nat)

  function HostAuthority(h: Host, hostEpoch: nat): Authority {
    Authority(h.document, h.branchId, h.headId, hostEpoch)
  }

  function StateOf(contextId: Id, a: Authority, rev: nat): DocumentState {
    DocumentState(AuthorityCursor(a.document.documentId, contextId, Decimal(rev), a.branchId, a.headId), a.document, Some(a.hostEpoch))
  }

  predicate HadRevision(s: Sys, rev: nat) {
    s.base <= rev < s.base + |s.history|
  }

  function StateAt(s: Sys, rev: nat): DocumentState
    requires HadRevision(s, rev)
  {
    StateOf(s.contextId, s.history[rev - s.base], rev)
  }

  // ---- Steps ----

  /** An operation may start when the operation before it in the queue has settled. */
  predicate MayStart(s: Sys, i: nat) {
    && i < |s.tasks| && i < |s.after|
    && (s.tasks[i].SubmitQueued? || s.tasks[i].RetryQueued? || s.tasks[i].ReloadQueued?)
    && (s.after[i].Some? ==> s.after[i].value < |s.tasks| && IsSettled(s.tasks[s.after[i].value]))
  }

  /** No operation is waiting for its turn. */
  predicate IsAtRest(s: Sys) {
    forall i :: 0 <= i < |s.tasks| ==> !MayStart(s, i)
  }

  /** Continuations of settled operations run in the order in which they were attached. */
  predicate IsNext(s: Sys, i: nat) {
    MayStart(s, i) && forall j :: 0 <= j < i ==> !MayStart(s, j)
  }

  predicate IdIsFresh(s: Sys, id: Id) {
    id !in s.host.processed && forall k :: 0 <= k < |s.issued| ==> s.issued[k].envelope.commandId != id
  }

  predicate Enabled(s: Sys, e: Event) {
    match e
    case CallSubmit(_) => IsAtRest(s)
    case CallRetry => IsAtRest(s)
    case CallReload => IsAtRest(s) && !s.client.failed && s.client.current.Some?
    case Run(i, newId) => IsNext(s, i) && (s.tasks[i].SubmitQueued? ==> IdIsFresh(s, newId))
    case HostServes(k) => k < |s.issued|
    case OthersCommand(r) => forall k :: 0 <= k < |s.issued| ==> s.issued[k].envelope.commandId != r.envelope.commandId
    case OthersRebase(a) => IsRebase(s, a)
    case DeliverAnswer(i, a) =>
      IsAtRest(s) && i < |s.tasks| && a < |s.answers| && s.tasks[i].Calling? && s.answers[a].envelope == s.tasks[i].envelope
    case DeliverState(i, rev) =>
      IsAtRest(s) && i < |s.tasks| && (s.tasks[i].Fetching? || s.tasks[i].Reloading?)
      && HadRevision(s, rev) && s.tasks[i].since <= rev
    case DeliverError(i) => IsAtRest(s) && i < |s.tasks| && IsOut(s.tasks[i])
  }

  /** Version operations and changes of document: another document comes with a higher host epoch. */
  predicate IsRebase(s: Sys, a: Authority) {
    && Valid(a.document) && a.document.schemaVersion == 2
    && a.hostEpoch >= s.hostEpoch
    && (a.document.documentId != s.host.document.documentId ==> a.hostEpoch > s.hostEpoch)
  }

  function CaptureTarget(c: Client): Option<DocumentTarget> {
    if c.current.Some? then Some(DocumentTarget(c.current.value.cursor, c.sessionEpoch)) else None
  }

  /** Submissions and reloads join the tail; a retry waits for it and joins when it starts. */
  function Enqueue(s: Sys, t: Task): Sys {
    s.(tasks := s.tasks + [t], after := s.after + [s.tail],
       tail := if t.RetryQueued? then s.tail else Some(|s.tasks|))
  }

  function SetTask(s: Sys, i: nat, t: Task): Sys
    requires i < |s.tasks|
  {
    s.(tasks := s.tasks[i := t])
  }

  function RunTask(s: Sys, i: nat, newId: Id): Sys
    requires MayStart(s, i)
  {
    match s.tasks[i]
    case SubmitQueued(payload, target) =>
      var sent := BeginSubmit(s.client, target, payload, newId);
      if sent.request.None? then SetTask(s, i, Settled)
      else
        var e := sent.request.value;
        SetTask(s, i, Calling(e, false, s.client.sessionEpoch))
        .(client := sent.client, issued := s.issued + [Issued(e, ClientRevision(s), s.host.revision, i)])
    case RetryQueued =>
      var sent := BeginRetry(s.client);
      if sent.request.None? then SetTask(s, i, Settled)
      else SetTask(s, i, Calling(sent.request.value, true, s.client.sessionEpoch)).(client := sent.client, tail := Some(i))
    case ReloadQueued =>
      if s.client.failed then SetTask(s, i, Settled)
      else SetTask(s, i, Reloading(s.client.sessionEpoch, s.client.current, s.host.revision))
    case _ => s
  }

  /** The client's revision as a number. */
  function ClientRevision(s: Sys): nat {
    if s.client.current.Some? && IsCanonicalRevision(s.client.current.value.cursor.revision)
    then Value(s.client.current.value.cursor.revision) else 0
  }

  function Committed(s: Sys, h: Host): Sys {
    s.(host := h, history := if h.revision == s.host.revision then s.history else s.history + [HostAuthority(h, s.hostEpoch)])
  }

  function ServeIssued(s: Sys, k: nat): Sys
    requires k < |s.issued|
  {
    var e := s.issued[k].envelope;
    var reply := Handle(s.host, s.actor, s.contextId, e);
    Committed(s, reply.host).(answers := s.answers + [Answer(e, reply.outcome)])
  }

  function Delivered(s: Sys, i: nat, outcome: Result<CommandResult, ErrorCode>): Sys
    requires i < |s.tasks| && s.tasks[i].Calling?
  {
    var t := s.tasks[i];
    if outcome.Err? then SetTask(s, i, Settled).(client := Fail(s.client, t.epoch))
    else
      match Judge(s.client, t.envelope, t.reconcile, t.epoch, outcome.value)
      case Reject => SetTask(s, i, Settled).(client := Fail(s.client, t.epoch))
      case NeedState => SetTask(s, i, Fetching(t.envelope, t.epoch, outcome.value, s.host.revision))
      case Accept =>
        SetTask(s, i, Resolved(t.envelope, outcome.value))
        .(client := Install(s.client, ReceiptState(outcome.value)))
  }

  function StateArrived(s: Sys, i: nat, state: DocumentState): Sys
    requires i < |s.tasks| && (s.tasks[i].Fetching? || s.tasks[i].Reloading?)
  {
    var t := s.tasks[i];
    if t.Fetching? then
      if Reconciles(s.client, t.envelope, t.epoch, t.receipt, state) then
        SetTask(s, i, Resolved(t.envelope, t.receipt)).(client := Install(s.client, state))
      else SetTask(s, i, Settled).(client := Fail(s.client, t.epoch))
    else SetTask(s, i, Settled).(client := AfterReload(s.client, t.epoch, t.previous, state).0)
  }

  function Next(s: Sys, e: Event): Sys
    requires Enabled(s, e)
  {
    match e
    case CallSubmit(payload) => Enqueue(s, SubmitQueued(payload, CaptureTarget(s.client)))
    case CallRetry => Enqueue(s, RetryQueued)
    case CallReload => Enqueue(s, ReloadQueued)
    case Run(i, newId) => RunTask(s, i, newId)
    case HostServes(k) => ServeIssued(s, k)
    case OthersCommand(r) => Committed(s, Serve(s.host, r).host)
    case OthersRebase(a) => Committed(s.(hostEpoch := a.hostEpoch), Rebased(s.host, a))
    case DeliverAnswer(i, a) => Delivered(s, i, s.answers[a].outcome)
    case DeliverState(i, rev) => StateArrived(s, i, StateAt(s, rev))
    case DeliverError(i) =>
      var t := s.tasks[i];
      SetTask(s, i, Settled).(client := if t.Reloading? then s.client else Fail(s.client, t.epoch))
  }

  function Rebased(h: Host, a: Authority): Host {
    h.(document := a.document, branchId := a.branchId, headId := a.headId, revision := h.revision + 1)
  }

  /** A client that has just loaded the host's state. */
  function JustLoaded(h: Host, hostEpoch: nat, contextId: Id, actor: string): Sys {
    Sys(Client(Some(StateOf(contextId, HostAuthority(h, hostEpoch), h.revision)), false, None, Idle, 0),
        h, hostEpoch, contextId, actor, h.revision, [HostAuthority(h, hostEpoch)], [], [], [], [], None)
  }

  /** The events can happen in this order from this state. */
  predicate Feasible(s: Sys, es: seq<Event>)
    decreases |es|
  {
    es == [] || (Enabled(s, es[0]) && Feasible(Next(s, es[0]), es[1..]))
  }

  function RunEvents(s: Sys, es: seq<Event>): Sys
    requires Feasible(s, es)
    decreases |es|
  {
    if es == [] then s else RunEvents(Next(s, es[0]), es[1..])
  }
}
