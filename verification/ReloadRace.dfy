/** The one way in which the client goes back: a reload that overlaps with a call of its session that is confirmed meanwhile. */
module ReloadRace {
  import opened Contracts
  import opened Strings
  import opened Documents
  import opened Domain
  import opened HostLog
  import opened NativeDocumentClient
  import opened DeliveryProtocol
  import opened DeliverySafety
  import opened DeliveryQueue
  import opened ExactlyOnce
  import opened RevisionOrder

  // ---- States that can be installed ----

  predicate IsLiveAuthority(s: Sys, a: Authority) {
    Valid(a.document) && a.document.schemaVersion == 2 && a.hostEpoch <= s.hostEpoch
  }

  /** Every state the host had passes the client's checks, and the client is not ahead of the host's epoch. */
  predicate IsLive(s: Sys) {
    && !IsJsBlank(s.contextId)
    && (forall k :: 0 <= k < |s.history| ==> IsLiveAuthority(s, s.history[k]))
    && s.client.current.Some?
    && (s.client.current.value.hostEpoch.Some? ==> s.client.current.value.hostEpoch.value <= s.hostEpoch)
  }

  lemma LiveStateIsValid(s: Sys, rev: nat, state: DocumentState)
    requires IsLive(s) && HadRevision(s, rev) && IsStateAt(s, rev, state)
    ensures ValidState(state)
  {
    assert IsLiveAuthority(s, s.history[rev - s.base]);
    assert IsCanonicalRevision(Decimal(rev)) by {
      CanonicalMeansDecimal(Decimal(rev));
    }
  }

  lemma HostKeepsLive(s: Sys, h: Host, hostEpoch: nat)
    requires Inv(s) && IsLive(s) && hostEpoch >= s.hostEpoch && Valid(h.document) && h.document.schemaVersion == 2
    ensures IsLive(Committed(s.(hostEpoch := hostEpoch), h))
  {
    var t := Committed(s.(hostEpoch := hostEpoch), h);
    forall k | 0 <= k < |t.history| ensures IsLiveAuthority(t, t.history[k]) {
      if k < |s.history| {
        assert IsLiveAuthority(s, s.history[k]);
      }
    }
  }

  lemma RequestKeepsLive(s: Sys, r: Request)
    requires Inv(s) && IsLive(s)
    ensures IsLive(Committed(s, Serve(s.host, r).host))
  {
    OneRequest(s.host, r);
    assert IsLiveAuthority(s, s.history[|s.history| - 1]);
    if Commits(s.host, r) {
      ApplyKeepsIdentity(s.host.document, r.envelope.payload);
    }
    HostKeepsLive(s, Serve(s.host, r).host, s.hostEpoch);
  }

  lemma ClientKeepsLive(s: Sys, t: Sys)
    requires IsLive(s) && t == s.(client := t.client, tasks := t.tasks, after := t.after, tail := t.tail, issued := t.issued)
    requires t.client.current == s.client.current
          || (t.client.current.Some? && (t.client.current.value.hostEpoch.Some? ==> t.client.current.value.hostEpoch.value <= s.hostEpoch))
    ensures IsLive(t)
  {
    forall k | 0 <= k < |t.history| ensures IsLiveAuthority(t, t.history[k]) {
      assert IsLiveAuthority(s, s.history[k]);
    }
  }

  lemma AnswerKeepsLive(s: Sys, i: nat, outcome: Result<CommandResult, ErrorCode>)
    requires IsLive(s) && i < |s.tasks| && s.tasks[i].Calling?
    ensures IsLive(Delivered(s, i, outcome))
  {
    ClientKeepsLive(s, Delivered(s, i, outcome));
  }

  lemma StateKeepsLive(s: Sys, i: nat, rev: nat)
    requires IsLive(s) && i < |s.tasks| && (s.tasks[i].Fetching? || s.tasks[i].Reloading?) && HadRevision(s, rev)
    ensures IsLive(StateArrived(s, i, StateAt(s, rev)))
  {
    assert IsLiveAuthority(s, s.history[rev - s.base]);
    ClientKeepsLive(s, StateArrived(s, i, StateAt(s, rev)));
  }

  lemma RunKeepsLive(s: Sys, i: nat, newId: Id)
    requires IsLive(s) && MayStart(s, i)
    ensures IsLive(RunTask(s, i, newId))
  {
    ClientKeepsLive(s, RunTask(s, i, newId));
  }

  lemma StepKeepsLive(s: Sys, e: Event)
    requires Inv(s) && IsLive(s) && Enabled(s, e)
    ensures IsLive(Next(s, e))
  {
    match e
    case HostServes(k) => RequestKeepsLive(s, Request(s.actor, s.contextId, s.issued[k].envelope));
    case OthersCommand(r) => RequestKeepsLive(s, r);
    case OthersRebase(a) => HostKeepsLive(s, Rebased(s.host, a), a.hostEpoch);
    case DeliverAnswer(i, a) => AnswerKeepsLive(s, i, s.answers[a].outcome);
    case DeliverState(i, rev) => StateKeepsLive(s, i, rev);
    case Run(i, newId) => RunKeepsLive(s, i, newId);
    case CallSubmit(_) => ClientKeepsLive(s, Next(s, e));
    case CallRetry => ClientKeepsLive(s, Next(s, e));
    case CallReload => ClientKeepsLive(s, Next(s, e));
    case DeliverError(_) => ClientKeepsLive(s, Next(s, e));
  }

  // ---- The race ----

  /** A reload of the present session is out; the invariants hold. */
  ghost predicate IsRacing(s: Sys, r: nat) {
    && Inv(s) && QueueInv(s) && IsLive(s)
    && r < |s.tasks| && s.tasks[r].Reloading? && s.tasks[r].epoch == s.client.sessionEpoch && s.tasks[r].since <= s.host.revision
  }

  lemma RacingIsAtRest(s: Sys, r: nat)
    requires IsRacing(s, r)
    ensures IsAtRest(s)
  {
    assert IsHolder(s.tasks[r]);
    HeldIsAtRest(s, r);
  }

  lemma RacingStep(s: Sys, r: nat, e: Event)
    requires IsRacing(s, r) && Enabled(s, e)
    requires e.HostServes? || e.OthersRebase? || (e.DeliverAnswer? && e.i != r) || (e.DeliverState? && e.i != r && s.tasks[e.i].Fetching?)
    ensures IsRacing(Next(s, e), r)
  {
    StepKeeps(s, e);
    StepKeepsQueue(s, e);
    StepKeepsLive(s, e);
    ReloadStaysOut(s, r, e);
  }

  lemma ReloadStaysOut(s: Sys, r: nat, e: Event)
    requires Enabled(s, e) && r < |s.tasks| && s.tasks[r].Reloading?
    requires e.HostServes? || e.OthersRebase? || (e.DeliverAnswer? && e.i != r) || (e.DeliverState? && e.i != r && s.tasks[e.i].Fetching?)
    ensures var t := Next(s, e);
            && r < |t.tasks| && t.tasks[r] == s.tasks[r] && t.client.sessionEpoch == s.client.sessionEpoch
            && t.host.revision >= s.host.revision
  {
    HostMoves(s, e);
  }

  lemma OneStepEarlier(s: Sys, e: Event, r: nat)
    requires Enabled(s, e) && MayGoBack(Next(s, e), r)
    ensures MayGoBack(s, r)
  {
    var es, rev: nat :| Feasible(Next(s, e), es) && IsBackStep(RunEvents(Next(s, e), es), r, rev);
    var all := [e] + es;
    assert all[0] == e && all[1..] == es;
    assert Feasible(s, all) && RunEvents(s, all) == RunEvents(Next(s, e), es);
  }

  lemma BackNow(s: Sys, r: nat, rev: nat)
    requires IsBackStep(s, r, rev)
    ensures MayGoBack(s, r)
  {
    assert Feasible(s, []) && RunEvents(s, []) == s;
  }

  /** The host gets a newer state of the document. */
  function Fresh(s: Sys, d: ResumeDocument): Authority {
    Authority(d, s.host.branchId, s.host.headId, s.hostEpoch + 1)
  }

  lemma RebaseFacts(s: Sys, r: nat, a: Authority)
    requires IsRacing(s, r) && IsRebase(s, a)
    ensures var t := Next(s, OthersRebase(a));
            && Enabled(s, OthersRebase(a)) && IsRacing(t, r) && t.host.revision == s.host.revision + 1 && t.hostEpoch == a.hostEpoch
            && t.client == s.client && t.tasks == s.tasks && t.host.document == a.document
            && HadRevision(t, t.host.revision) && StateAt(t, t.host.revision) == StateOf(s.contextId, a, t.host.revision)
            && s.history <= t.history && t.base == s.base && t.contextId == s.contextId
  {
    RacingStep(s, r, OthersRebase(a));
  }

  // ---- A fetching call wins the race ----

  /** What the race looks like after the two newer states. */
  ghost predicate IsAfterTwo(s: Sys, u: Sys, r: nat, j: nat, a: Authority) {
    IsRacing(u, r) && j != r && HasTwoNewer(s, u, j, a)
  }

  ghost predicate HasTwoNewer(s: Sys, u: Sys, j: nat, a: Authority) {
    && j < |s.tasks| && s.tasks[j].Fetching? && s.tasks[j].epoch == s.client.sessionEpoch
    && u.client == s.client && u.tasks == s.tasks && u.base == s.base && u.contextId == s.contextId
    && a.hostEpoch == s.hostEpoch + 1 == u.hostEpoch
    && u.host.revision == s.host.revision + 2 && HadRevision(u, u.host.revision - 1) && HadRevision(u, u.host.revision)
    && StateAt(u, u.host.revision - 1) == StateOf(u.contextId, a, u.host.revision - 1)
    && StateAt(u, u.host.revision) == StateOf(u.contextId, a, u.host.revision)
  }

  /** Two newer states of the receipt's document later, the call installs the second and the reload the first. */
  lemma FetchingWins(s: Sys, r: nat, j: nat)
    requires IsRacing(s, r) && CanAdvance(s, j) && s.tasks[j].Fetching? && s.tasks[j].since <= s.host.revision
    ensures MayGoBack(s, r)
  {
    assert TaskOk(s, s.tasks[j]);
    var k := ReceiptStateHad(s, s.tasks[j].envelope, s.tasks[j].receipt);
    var a := Fresh(s, s.tasks[j].receipt.document);
    ReceiptIsRebase(s, j, k);
    TwoRebases(s, r, j, a);
    var t := Next(s, OthersRebase(a));
    var u := Next(t, OthersRebase(a));
    SecondIsInstalled(s, u, r, j, k, a);
    OneStepEarlier(u, DeliverState(j, u.host.revision), r);
    OneStepEarlier(t, OthersRebase(a), r);
    OneStepEarlier(s, OthersRebase(a), r);
  }

  lemma ReceiptIsRebase(s: Sys, j: nat, k: nat)
    requires Inv(s) && IsLive(s) && j < |s.tasks| && s.tasks[j].Fetching?
    requires k < |s.issued| && s.issued[k].envelope == s.tasks[j].envelope && Applied(s, k) && AppliedAt(s, k)
    requires HadRevision(s, s.issued[k].rev + 1) && IsStateAt(s, s.issued[k].rev + 1, ReceiptState(s.tasks[j].receipt))
    requires s.host.processed[s.issued[k].envelope.commandId].receipt == s.tasks[j].receipt
    ensures IsRebase(s, Fresh(s, s.tasks[j].receipt.document)) && IssuedAt(s, k)
    ensures s.tasks[j].receipt.document.documentId == s.tasks[j].envelope.documentId
    ensures s.tasks[j].receipt.cursor.revision == Decimal(s.issued[k].rev + 1) && s.issued[k].rev + 1 <= s.host.revision
  {
    assert IsLiveAuthority(s, s.history[s.issued[k].rev + 1 - s.base]);
    assert IssuedAt(s, k);
  }

  lemma TwoRebases(s: Sys, r: nat, j: nat, a: Authority)
    requires IsRacing(s, r) && CanAdvance(s, j) && s.tasks[j].Fetching? && IsRebase(s, a) && a.hostEpoch == s.hostEpoch + 1
    ensures var t := Next(s, OthersRebase(a));
            && Enabled(s, OthersRebase(a)) && Enabled(t, OthersRebase(a))
            && IsAfterTwo(s, Next(t, OthersRebase(a)), r, j, a)
  {
    RebaseFacts(s, r, a);
    SecondRebase(s, Next(s, OthersRebase(a)), r, j, a);
  }

  lemma SecondRebase(s: Sys, t: Sys, r: nat, j: nat, a: Authority)
    requires IsRacing(t, r) && CanAdvance(s, j) && s.tasks[j].Fetching? && t.tasks == s.tasks && t.client == s.client
    requires t.base == s.base && t.contextId == s.contextId && t.host.revision == s.host.revision + 1
    requires t.hostEpoch == a.hostEpoch == s.hostEpoch + 1 && t.host.document == a.document && Valid(a.document) && a.document.schemaVersion == 2
    requires HadRevision(t, t.host.revision) && StateAt(t, t.host.revision) == StateOf(t.contextId, a, t.host.revision)
    ensures Enabled(t, OthersRebase(a)) && IsAfterTwo(s, Next(t, OthersRebase(a)), r, j, a)
  {
    RebaseFacts(t, r, a);
    SecondIsNewer(s, t, Next(t, OthersRebase(a)), j, a);
  }

  lemma SecondIsNewer(s: Sys, t: Sys, u: Sys, j: nat, a: Authority)
    requires CanAdvance(s, j) && s.tasks[j].Fetching? && t.tasks == s.tasks && t.client == s.client
    requires t.base == s.base && t.contextId == s.contextId && t.host.revision == s.host.revision + 1
    requires a.hostEpoch == s.hostEpoch + 1 == u.hostEpoch
    requires HadRevision(t, t.host.revision) && StateAt(t, t.host.revision) == StateOf(t.contextId, a, t.host.revision)
    requires t.history <= u.history && u.base == t.base && u.contextId == t.contextId && u.client == t.client && u.tasks == t.tasks
    requires u.host.revision == t.host.revision + 1 && HadRevision(u, u.host.revision)
    requires StateAt(u, u.host.revision) == StateOf(t.contextId, a, u.host.revision)
    ensures HasTwoNewer(s, u, j, a)
  {
    var h := t.host.revision;
    assert u.history[h - u.base] == t.history[h - t.base];
  }

  lemma SecondIsInstalled(s: Sys, u: Sys, r: nat, j: nat, k: nat, a: Authority)
    requires IsRacing(s, r) && IsAfterTwo(s, u, r, j, a) && s.tasks[j].since <= s.host.revision
    requires k < |s.issued| && s.issued[k].envelope == s.tasks[j].envelope && IssuedAt(s, k)
    requires s.tasks[j].receipt.document == a.document && s.tasks[j].receipt.cursor.revision == Decimal(s.issued[k].rev + 1)
    requires a.document.documentId == s.tasks[j].envelope.documentId && s.issued[k].rev + 1 <= s.host.revision
    ensures Enabled(u, DeliverState(j, u.host.revision)) && MayGoBack(Next(u, DeliverState(j, u.host.revision)), r)
  {
    SecondReconciles(s, u, r, j, k, a);
    RacingIsAtRest(u, r);
    AfterSecond(u, r, j, a);
    FirstGoesBack(Next(u, DeliverState(j, u.host.revision)), r, a, u.host.revision - 1);
  }

  lemma AfterSecond(u: Sys, r: nat, j: nat, a: Authority)
    requires IsRacing(u, r) && j != r && Enabled(u, DeliverState(j, u.host.revision)) && u.tasks[j].Fetching?
    requires u.host.revision > 0 && HadRevision(u, u.host.revision - 1) && u.tasks[r].since <= u.host.revision - 1
    requires StateAt(u, u.host.revision - 1) == StateOf(u.contextId, a, u.host.revision - 1)
    requires StateAt(u, u.host.revision) == StateOf(u.contextId, a, u.host.revision)
    requires Reconciles(u.client, u.tasks[j].envelope, u.tasks[j].epoch, u.tasks[j].receipt, StateAt(u, u.host.revision))
    ensures var h := u.host.revision;
            var v := Next(u, DeliverState(j, h));
            && IsRacing(v, r) && HadRevision(v, h - 1) && HadRevision(v, h) && v.tasks[r].since <= h - 1
            && StateAt(v, h - 1) == StateOf(v.contextId, a, h - 1) && StateAt(v, h) == StateOf(v.contextId, a, h)
            && v.client.current == Some(StateOf(v.contextId, a, h))
  {
    ReconciledIsInstalled(u, j, u.host.revision);
    SameStates(u, Next(u, DeliverState(j, u.host.revision)), a);
    RacingAfter(u, r, j);
  }

  lemma RacingAfter(u: Sys, r: nat, j: nat)
    requires IsRacing(u, r) && j != r && Enabled(u, DeliverState(j, u.host.revision)) && u.tasks[j].Fetching?
    ensures var v := Next(u, DeliverState(j, u.host.revision)); IsRacing(v, r) && v.tasks[r].since == u.tasks[r].since
  {
    RacingStep(u, r, DeliverState(j, u.host.revision));
    ReloadStaysOut(u, r, DeliverState(j, u.host.revision));
  }

  /** The history does not change with the client. */
  lemma SameStates(u: Sys, v: Sys, a: Authority)
    requires v == u.(client := v.client, tasks := v.tasks)
    ensures forall rev: nat :: HadRevision(v, rev) == HadRevision(u, rev)
    ensures forall rev: nat :: HadRevision(u, rev) ==> StateAt(v, rev) == StateAt(u, rev)
    ensures forall rev: nat :: StateOf(v.contextId, a, rev) == StateOf(u.contextId, a, rev)
  {
  }

  lemma SecondReconciles(s: Sys, u: Sys, r: nat, j: nat, k: nat, a: Authority)
    requires IsRacing(s, r) && IsAfterTwo(s, u, r, j, a)
    requires k < |s.issued| && s.issued[k].envelope == s.tasks[j].envelope && IssuedAt(s, k)
    requires s.tasks[j].receipt.cursor.revision == Decimal(s.issued[k].rev + 1)
    requires a.document.documentId == s.tasks[j].envelope.documentId && s.issued[k].rev + 1 <= s.host.revision
    ensures Reconciles(u.client, u.tasks[j].envelope, u.tasks[j].epoch, u.tasks[j].receipt, StateAt(u, u.host.revision))
  {
    var h := u.host.revision;
    LiveStateIsValid(u, h, StateAt(u, h));
    ClientIsNotAhead(u);
    ComparesAsNumbers(u, h, StateAt(u, h));
    NewerRevisionIsNumericOrder(s.issued[k].rev + 1, h);
  }

  lemma ReconciledIsInstalled(u: Sys, j: nat, rev: nat)
    requires Enabled(u, DeliverState(j, rev)) && u.tasks[j].Fetching?
    requires Reconciles(u.client, u.tasks[j].envelope, u.tasks[j].epoch, u.tasks[j].receipt, StateAt(u, rev))
    ensures var v := Next(u, DeliverState(j, rev));
            v.client.current == Some(StateAt(u, rev)) && v == u.(client := v.client, tasks := v.tasks)
  {
  }

  /** The client holds the second state; the reload's answer is the first. */
  lemma FirstGoesBack(v: Sys, r: nat, a: Authority, rev: nat)
    requires IsRacing(v, r) && HadRevision(v, rev) && HadRevision(v, rev + 1) && v.tasks[r].since <= rev
    requires StateAt(v, rev) == StateOf(v.contextId, a, rev) && v.client.current == Some(StateOf(v.contextId, a, rev + 1))
    requires StateAt(v, rev + 1) == StateOf(v.contextId, a, rev + 1)
    ensures MayGoBack(v, r)
  {
    RacingIsAtRest(v, r);
    LiveStateIsValid(v, rev, StateAt(v, rev));
    InstalledRevision(v, v, rev + 1);
    var w := StateArrived(v, r, StateAt(v, rev));
    assert w.client.current == Some(StateAt(v, rev));
    InstalledRevision(v, w, rev);
    BackNow(v, r, rev);
  }

  // ---- A retry that can be confirmed comes to fetching ----

  lemma ConfirmableServes(s: Sys, k: nat)
    requires Inv(s) && k < |s.issued| && IsConfirmable(s, s.issued[k].envelope)
    ensures Handle(s.host, s.actor, s.contextId, s.issued[k].envelope).outcome.Ok?
  {
    assert IssuedAt(s, k);
    if Applied(s, k) {
      assert AppliedAt(s, k);
    }
  }

  lemma RetryIsServed(s: Sys, r: nat, j: nat, k: nat)
    requires IsRacing(s, r) && j < |s.tasks| && s.tasks[j].Calling? && IsConfirmable(s, s.tasks[j].envelope)
    requires k < |s.issued| && s.issued[k].envelope == s.tasks[j].envelope
    ensures var t := Next(s, HostServes(k));
            && IsRacing(t, r) && t.tasks == s.tasks && t.client == s.client && t.issued == s.issued
            && |t.answers| == |s.answers| + 1
            && t.answers[|s.answers|].envelope == s.tasks[j].envelope && t.answers[|s.answers|].outcome.Ok?
  {
    ConfirmableServes(s, k);
    RacingStep(s, r, HostServes(k));
  }

  lemma ReceiptNeedsState(s: Sys, j: nat, k: nat, receipt: CommandResult)
    requires Inv(s) && IsLive(s) && j < |s.tasks| && s.tasks[j].Calling? && s.tasks[j].reconcile
    requires s.tasks[j].epoch == s.client.sessionEpoch && k < |s.issued| && s.issued[k].envelope == s.tasks[j].envelope
    requires Applied(s, k) && AppliedAt(s, k) && s.host.processed[s.issued[k].envelope.commandId].receipt == receipt
    ensures Judge(s.client, s.tasks[j].envelope, true, s.tasks[j].epoch, receipt).NeedState?
  {
    assert IssuedAt(s, k);
    LiveStateIsValid(s, s.issued[k].rev + 1, ReceiptState(receipt));
    RightReceiptNeedsState(s.client, s.tasks[j].envelope, receipt, s.issued[k].rev);
  }

  lemma RightReceiptNeedsState(c: Client, e: CommandEnvelope, receipt: CommandResult, rev: nat)
    requires c.current.Some? && receipt.commandId == e.commandId && receipt.durable && ValidState(ReceiptState(receipt))
    requires receipt.cursor.revision == Decimal(rev + 1) && e.expectedRevision == Decimal(rev)
    requires receipt.cursor.documentId == e.documentId && receipt.cursor.contextId == e.contextId
    ensures Judge(c, e, true, c.sessionEpoch, receipt).NeedState?
  {
    NewerRevisionIsNumericOrder(rev + 1, rev);
  }

  lemma AnswerStartsFetching(t: Sys, r: nat, j: nat, n: nat)
    requires IsRacing(t, r) && j < |t.tasks| && t.tasks[j].Calling? && t.tasks[j].reconcile && t.tasks[j].epoch == t.client.sessionEpoch
    requires n < |t.answers| && t.answers[n].envelope == t.tasks[j].envelope && t.answers[n].outcome.Ok?
    ensures Enabled(t, DeliverAnswer(j, n))
    ensures var u := Next(t, DeliverAnswer(j, n));
            IsRacing(u, r) && CanAdvance(u, j) && u.tasks[j].Fetching? && u.tasks[j].since <= u.host.revision
  {
    RacingIsAtRest(t, r);
    RacingStep(t, r, DeliverAnswer(j, n));
    ConfirmedNeedsState(t, j, n);
  }

  lemma ConfirmedNeedsState(t: Sys, j: nat, n: nat)
    requires Inv(t) && IsLive(t) && j < |t.tasks| && t.tasks[j].Calling? && t.tasks[j].reconcile && t.tasks[j].epoch == t.client.sessionEpoch
    requires n < |t.answers| && t.answers[n].envelope == t.tasks[j].envelope && t.answers[n].outcome.Ok?
    ensures Delivered(t, j, t.answers[n].outcome)
            == SetTask(t, j, Fetching(t.tasks[j].envelope, t.tasks[j].epoch, t.answers[n].outcome.value, t.host.revision))
  {
    var receipt := t.answers[n].outcome.value;
    assert AnswerOk(t, t.answers[n]);
    var l := ReceiptStateHad(t, t.tasks[j].envelope, receipt);
    ReceiptNeedsState(t, j, l, receipt);
  }

  /** A retry whose envelope the host confirms goes on to fetch the state. */
  lemma RetryWins(s: Sys, r: nat, j: nat)
    requires IsRacing(s, r) && CanAdvance(s, j) && s.tasks[j].Calling? && s.tasks[j].reconcile
    ensures MayGoBack(s, r)
  {
    assert TaskOk(s, s.tasks[j]);
    var k :| 0 <= k < |s.issued| && s.issued[k].envelope == s.tasks[j].envelope;
    RetryIsServed(s, r, j, k);
    ServedRetryWins(Next(s, HostServes(k)), r, j, |s.answers|);
    OneStepEarlier(s, HostServes(k), r);
  }

  lemma ServedRetryWins(t: Sys, r: nat, j: nat, n: nat)
    requires IsRacing(t, r) && j < |t.tasks| && t.tasks[j].Calling? && t.tasks[j].reconcile && t.tasks[j].epoch == t.client.sessionEpoch
    requires n < |t.answers| && t.answers[n].envelope == t.tasks[j].envelope && t.answers[n].outcome.Ok?
    ensures MayGoBack(t, r)
  {
    AnswerStartsFetching(t, r, j, n);
    FetchingWins(Next(t, DeliverAnswer(j, n)), r, j);
    OneStepEarlier(t, DeliverAnswer(j, n), r);
  }

  /** Fetching calls asked in the past. */
  predicate AskedBefore(s: Sys) {
    forall j :: 0 <= j < |s.tasks| && (s.tasks[j].Fetching? || s.tasks[j].Reloading?) ==> s.tasks[j].since <= s.host.revision
  }

  lemma StepKeepsAsked(s: Sys, e: Event)
    requires AskedBefore(s) && Enabled(s, e)
    ensures AskedBefore(Next(s, e))
  {
    HostMoves(s, e);
  }

  /**
   * A reload that starts now can make the client go back in some course of events if and only if another call of the
   * session is out that is fetching its state, or whose envelope the host has applied or would apply.
   */
  lemma ReloadMayGoBackExactlyWhen(s: Sys, r: nat, newId: Id)
    requires Inv(s) && QueueInv(s) && IsLive(s) && AskedBefore(s)
    requires IsNext(s, r) && s.tasks[r].ReloadQueued? && !s.client.failed
    ensures MayGoBack(RunTask(s, r, newId), r) <==> exists j: nat :: CanAdvance(s, j)
  {
    if j: nat :| CanAdvance(s, j) {
      OverlapMayGoBack(s, r, newId, j);
    } else {
      assert NoneCanAdvance(s);
      NoOverlapNeverGoesBack(s, r, newId);
    }
  }

  lemma OverlapMayGoBack(s: Sys, r: nat, newId: Id, j: nat)
    requires Inv(s) && QueueInv(s) && IsLive(s) && AskedBefore(s)
    requires IsNext(s, r) && s.tasks[r].ReloadQueued? && !s.client.failed && CanAdvance(s, j)
    ensures MayGoBack(RunTask(s, r, newId), r)
  {
    var t := RunTask(s, r, newId);
    RunKeeps(s, r, newId);
    RunKeepsQueue(s, r, newId);
    RunKeepsLive(s, r, newId);
    NobodyHolds(s, r);
    assert !IsHolder(s.tasks[j]);
    if t.tasks[j].Fetching? {
      FetchingWins(t, r, j);
    } else {
      RetryWins(t, r, j);
    }
  }

  lemma NoOverlapNeverGoesBack(s: Sys, r: nat, newId: Id)
    requires Inv(s) && QueueInv(s) && IsNext(s, r) && s.tasks[r].ReloadQueued? && !s.client.failed && NoneCanAdvance(s)
    ensures !MayGoBack(RunTask(s, r, newId), r)
  {
    var t := RunTask(s, r, newId);
    RunKeeps(s, r, newId);
    RunKeepsQueue(s, r, newId);
    ReloadStartsSafely(s, r, newId);
    forall es, rev: nat | Feasible(t, es) ensures !IsBackStep(RunEvents(t, es), r, rev) {
      SafeNeverGoesBack(t, r, es, rev);
    }
  }
}
