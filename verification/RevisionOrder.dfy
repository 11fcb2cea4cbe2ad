/** The client's revision: when it can go back, and when it cannot. */
module RevisionOrder {
  import opened Contracts
  import opened Strings
  import opened Documents
  import opened Domain
  import opened HostLog
  import opened NativeDocumentClient
  import opened DeliveryProtocol
  import opened DeliverySafety
  import opened DeliveryQueue
  import opened ExactlyOnce

  // ---- Steps other than a reload's answer ----

  predicate ReloadArrives(s: Sys, e: Event) {
    e.DeliverState? && e.i < |s.tasks| && s.tasks[e.i].Reloading?
  }

  lemma InstalledRevision(s: Sys, t: Sys, rev: nat)
    requires HadRevision(s, rev) && t.client.current.Some? && IsStateAt(s, rev, t.client.current.value)
    ensures ClientRevision(t) == rev
  {
    CanonicalMeansDecimal(Decimal(rev));
    ValueOfDecimal(rev);
  }

  lemma SameRevision(s: Sys, t: Sys)
    requires t.client.current == s.client.current
    ensures ClientRevision(t) == ClientRevision(s)
  {
  }

  /** Revisions of states the host had compare as numbers. */
  lemma ComparesAsNumbers(s: Sys, rev: nat, state: DocumentState)
    requires ClientOk(s) && s.client.current.Some? && HadRevision(s, rev) && IsStateAt(s, rev, state)
    ensures IsNewerRevision(state.cursor.revision, s.client.current.value.cursor.revision) <==> rev > ClientRevision(s)
    ensures IsNewerRevision(s.client.current.value.cursor.revision, state.cursor.revision) <==> ClientRevision(s) > rev
  {
    var now := ClientRevisionIs(s);
    NewerRevisionIsNumericOrder(rev, now);
    NewerRevisionIsNumericOrder(now, rev);
  }

  lemma AcceptMovesForward(s: Sys, i: nat, r: CommandResult, rev: nat)
    requires Inv(s) && i < |s.tasks| && s.tasks[i].Calling? && HadRevision(s, rev) && IsStateAt(s, rev, ReceiptState(r))
    requires Judge(s.client, s.tasks[i].envelope, s.tasks[i].reconcile, s.tasks[i].epoch, r).Accept?
    ensures ClientRevision(Delivered(s, i, Ok(r))) == rev > ClientRevision(s)
  {
    ComparesAsNumbers(s, rev, ReceiptState(r));
    InstalledRevision(s, Delivered(s, i, Ok(r)), rev);
  }

  lemma DeliveryMovesForward(s: Sys, i: nat, outcome: Result<CommandResult, ErrorCode>)
    requires Inv(s) && i < |s.tasks| && s.tasks[i].Calling?
    requires outcome.Ok? ==> HasReceipt(s, s.tasks[i].envelope, outcome.value)
    ensures ClientRevision(Delivered(s, i, outcome)) >= ClientRevision(s)
  {
    var task := s.tasks[i];
    if outcome.Ok? && Judge(s.client, task.envelope, task.reconcile, task.epoch, outcome.value).Accept? {
      var k := ReceiptStateHad(s, task.envelope, outcome.value);
      AcceptMovesForward(s, i, outcome.value, s.issued[k].rev + 1);
    } else {
      SameRevision(s, Delivered(s, i, outcome));
    }
  }

  lemma ReconcileMovesForward(s: Sys, i: nat, rev: nat)
    requires Inv(s) && i < |s.tasks| && s.tasks[i].Fetching? && HadRevision(s, rev)
    ensures ClientRevision(StateArrived(s, i, StateAt(s, rev))) >= ClientRevision(s)
  {
    var task := s.tasks[i];
    if Reconciles(s.client, task.envelope, task.epoch, task.receipt, StateAt(s, rev)) {
      ComparesAsNumbers(s, rev, StateAt(s, rev));
      InstalledRevision(s, StateArrived(s, i, StateAt(s, rev)), rev);
    } else {
      SameRevision(s, StateArrived(s, i, StateAt(s, rev)));
    }
  }

  /** Apart from a reload's answer, nothing moves the client's revision back. */
  lemma RevisionNeverGoesBack(s: Sys, e: Event)
    requires Inv(s) && Enabled(s, e) && !ReloadArrives(s, e)
    ensures ClientRevision(Next(s, e)) >= ClientRevision(s)
  {
    match e
    case DeliverAnswer(i, a) =>
      assert AnswerOk(s, s.answers[a]);
      DeliveryMovesForward(s, i, s.answers[a].outcome);
    case DeliverState(i, rev) => ReconcileMovesForward(s, i, rev);
    case CallSubmit(_) => SameRevision(s, Next(s, e));
    case CallRetry => SameRevision(s, Next(s, e));
    case CallReload => SameRevision(s, Next(s, e));
    case Run(i, newId) => SameRevision(s, RunTask(s, i, newId));
    case HostServes(k) => SameRevision(s, ServeIssued(s, k));
    case OthersCommand(r) => SameRevision(s, Next(s, e));
    case OthersRebase(_) => SameRevision(s, Next(s, e));
    case DeliverError(_) => SameRevision(s, Next(s, e));
  }

  // ---- Calls that can still be confirmed ----

  /** The host has applied the envelope, or would apply it now. */
  predicate IsConfirmable(s: Sys, e: CommandEnvelope) {
    e.commandId in s.host.processed || Commits(s.host, Request(s.actor, s.contextId, e))
  }

  /** A call of the present session that can still bring the client a newer state. */
  predicate CanAdvance(s: Sys, j: nat) {
    && j < |s.tasks|
    && ((s.tasks[j].Calling? && s.tasks[j].epoch == s.client.sessionEpoch && IsConfirmable(s, s.tasks[j].envelope))
        || (s.tasks[j].Fetching? && s.tasks[j].epoch == s.client.sessionEpoch))
  }

  predicate NoneCanAdvance(s: Sys) {
    forall j :: 0 <= j < |s.tasks| ==> !CanAdvance(s, j)
  }

  /** No other call of the present session is out. */
  predicate IsAlone(s: Sys) {
    forall j :: 0 <= j < |s.tasks| ==> !((s.tasks[j].Calling? || s.tasks[j].Fetching?) && s.tasks[j].epoch == s.client.sessionEpoch)
  }

  lemma AloneMeansNone(s: Sys)
    requires IsAlone(s)
    ensures NoneCanAdvance(s)
  {
  }

  /** What cannot be confirmed now cannot be confirmed later either. */
  lemma NeverConfirmable(s: Sys, e: Event, x: CommandEnvelope)
    requires Inv(s) && Enabled(s, e) && IsIssued(s, x) && !IsConfirmable(s, x)
    ensures !IsConfirmable(Next(s, e), x)
  {
    var k :| 0 <= k < |s.issued| && s.issued[k].envelope == x;
    var t := Next(s, e);
    HostMoves(s, e);
    if t.host != s.host {
      match e {
        case HostServes(j) =>
          OneRequest(s.host, Request(s.actor, s.contextId, s.issued[j].envelope));
          if j != k {
            DistinctIds(s, j, k);
          }
        case OthersCommand(r) => OneRequest(s.host, r);
        case OthersRebase(_) =>
      }
      assert IssuedAt(s, k);
      StaleCannotCommit(t.host, Request(s.actor, s.contextId, x), s.issued[k].rev);
    }
  }

  lemma HostMoves(s: Sys, e: Event)
    requires Enabled(s, e)
    ensures Next(s, e).actor == s.actor && Next(s, e).contextId == s.contextId
    ensures Next(s, e).host != s.host ==> Next(s, e).host.revision == s.host.revision + 1 && (e.HostServes? || e.OthersCommand? || e.OthersRebase?)
  {
    match e
    case HostServes(j) => OneRequest(s.host, Request(s.actor, s.contextId, s.issued[j].envelope));
    case OthersCommand(r) => OneRequest(s.host, r);
    case _ =>
  }

  lemma StaleCannotCommit(h: Host, r: Request, rev: nat)
    requires r.envelope.expectedRevision == Decimal(rev) && rev < h.revision
    ensures !Commits(h, r)
  {
    if Commits(h, r) {
      CommitExpects(h, r);
      DecimalInjective(rev, h.revision);
    }
  }

  // ---- A reload that starts with no such call ----

  /** A reload is out, no later than its question the client had its revision, and nothing else can bring a newer one. */
  ghost predicate IsSafeReload(s: Sys, r: nat) {
    && r < |s.tasks| && s.tasks[r].Reloading? && HoldsLine(s, r)
    && ClientRevision(s) <= s.tasks[r].since
    && NoneCanAdvance(s)
    && forall j :: 0 <= j < |s.tasks| && s.tasks[j].Reloading? ==> j == r
  }

  lemma ClientIsNotAhead(s: Sys)
    requires Inv(s)
    ensures ClientRevision(s) <= s.host.revision
  {
    if s.client.current.Some? {
      var rev := ClientRevisionIs(s);
    } else {
      assert ClientRevision(s) == 0;
    }
  }

  lemma ReloadStartsSafely(s: Sys, r: nat, newId: Id)
    requires Inv(s) && QueueInv(s) && IsNext(s, r) && s.tasks[r].ReloadQueued? && !s.client.failed && NoneCanAdvance(s)
    ensures IsSafeReload(RunTask(s, r, newId), r)
  {
    var t := RunTask(s, r, newId);
    RunKeepsQueue(s, r, newId);
    assert IsHolder(t.tasks[r]);
    NobodyHolds(s, r);
    ClientIsNotAhead(s);
    SameRevision(s, t);
    forall j | 0 <= j < |t.tasks| ensures !CanAdvance(t, j) {
      assert !CanAdvance(s, j);
    }
  }

  /** A call that cannot advance the client ends without changing what the client holds. */
  lemma DeadAnswer(s: Sys, i: nat, a: nat)
    requires Inv(s) && Enabled(s, DeliverAnswer(i, a)) && !CanAdvance(s, i)
    ensures var t := Next(s, DeliverAnswer(i, a));
            && t.tasks[i].Settled? && t == s.(tasks := t.tasks, client := t.client)
            && t.client.current == s.client.current && t.client.sessionEpoch == s.client.sessionEpoch
  {
    assert AnswerOk(s, s.answers[a]);
  }

  lemma DeadState(s: Sys, i: nat, rev: nat)
    requires Enabled(s, DeliverState(i, rev)) && s.tasks[i].Fetching? && !CanAdvance(s, i)
    ensures var t := Next(s, DeliverState(i, rev));
            && t.tasks[i].Settled? && t == s.(tasks := t.tasks, client := t.client)
            && t.client.current == s.client.current && t.client.sessionEpoch == s.client.sessionEpoch
  {
  }

  /** One call ends; the reload is still out and still safe. */
  lemma CallEndsSafely(s: Sys, r: nat, i: nat, t: Sys)
    requires IsSafeReload(s, r) && i < |s.tasks| && i != r && IsOut(s.tasks[i])
    requires t == s.(tasks := t.tasks, client := t.client) && t.tasks == s.tasks[i := Settled]
    requires t.client.current == s.client.current && t.client.sessionEpoch == s.client.sessionEpoch
    ensures IsSafeReload(t, r)
  {
    assert SameQueue(s, t);
    SameQueueFacts(s, t);
    SameRevision(s, t);
    forall j | 0 <= j < |t.tasks| ensures !CanAdvance(t, j) {
      assert !CanAdvance(s, j);
    }
  }

  lemma JoinsSafely(s: Sys, r: nat, task: Task)
    requires QueueInv(s) && IsSafeReload(s, r) && IsQueued(task)
    ensures IsSafeReload(Enqueue(s, task), r)
  {
    var t := Enqueue(s, task);
    JoinFacts(s, task);
    SameRevision(s, t);
    forall j | 0 <= j < |t.tasks| ensures !CanAdvance(t, j) && (t.tasks[j].Reloading? ==> j == r) {
      assert j < |s.tasks| ==> !CanAdvance(s, j);
    }
  }

  lemma HostStepsSafely(s: Sys, r: nat, e: Event)
    requires Inv(s) && IsSafeReload(s, r) && Enabled(s, e) && (e.HostServes? || e.OthersCommand? || e.OthersRebase?)
    ensures IsSafeReload(Next(s, e), r)
  {
    var t := Next(s, e);
    assert SameQueue(s, t);
    SameQueueFacts(s, t);
    SameRevision(s, t);
    forall j | 0 <= j < |t.tasks| ensures !CanAdvance(t, j) {
      assert !CanAdvance(s, j);
      if t.tasks[j].Calling? && t.tasks[j].epoch == s.client.sessionEpoch {
        assert TaskOk(s, s.tasks[j]);
        NeverConfirmable(s, e, t.tasks[j].envelope);
      }
    }
  }

  /** While a safe reload is out, either it stays safe or its own answer arrives. */
  lemma SafeReloadStep(s: Sys, r: nat, e: Event)
    requires Inv(s) && QueueInv(s) && IsSafeReload(s, r) && Enabled(s, e)
    ensures var t := Next(s, e);
            r < |t.tasks| && (IsSafeReload(t, r) || ((e == DeliverError(r) || (e.DeliverState? && e.i == r)) && t.tasks[r].Settled?))
  {
    match e
    case CallSubmit(payload) => JoinsSafely(s, r, SubmitQueued(payload, CaptureTarget(s.client)));
    case CallRetry => JoinsSafely(s, r, RetryQueued);
    case CallReload => JoinsSafely(s, r, ReloadQueued);
    case Run(i, _) => HeldIsAtRest(s, r);
    case HostServes(_) => HostStepsSafely(s, r, e);
    case OthersCommand(_) => HostStepsSafely(s, r, e);
    case OthersRebase(_) => HostStepsSafely(s, r, e);
    case DeliverAnswer(i, a) =>
      DeadAnswer(s, i, a);
      CallEndsSafely(s, r, i, Next(s, e));
    case DeliverState(i, rev) =>
      if i != r {
        DeadState(s, i, rev);
        CallEndsSafely(s, r, i, Next(s, e));
      }
    case DeliverError(i) =>
      if i != r {
        CallEndsSafely(s, r, i, Next(s, e));
      }
  }

  /** The answer of a safe reload is not older than what the client holds. */
  lemma SafeReloadMovesForward(s: Sys, r: nat, rev: nat)
    requires Inv(s) && IsSafeReload(s, r) && Enabled(s, DeliverState(r, rev))
    ensures ClientRevision(Next(s, DeliverState(r, rev))) >= ClientRevision(s)
  {
    var t := StateArrived(s, r, StateAt(s, rev));
    if AfterReload(s.client, s.tasks[r].epoch, s.tasks[r].previous, StateAt(s, rev)).1 {
      InstalledRevision(s, t, rev);
    } else {
      SameRevision(s, t);
    }
  }

  // ---- Whole runs ----

  predicate StartsReload(s: Sys, e: Event) {
    e.Run? && IsNext(s, e.i) && s.tasks[e.i].ReloadQueued? && !s.client.failed
  }

  /** Each reload of the run starts when no other call of its session can still bring a newer state. */
  predicate ReloadsStartSafely(s: Sys, es: seq<Event>)
    requires Feasible(s, es)
    decreases |es|
  {
    es == [] || ((StartsReload(s, es[0]) ==> NoneCanAdvance(s)) && ReloadsStartSafely(Next(s, es[0]), es[1..]))
  }

  ghost predicate AllReloadsSafe(s: Sys) {
    forall r :: 0 <= r < |s.tasks| && s.tasks[r].Reloading? ==> IsSafeReload(s, r)
  }

  lemma StepKeepsReloadsSafe(s: Sys, e: Event)
    requires Inv(s) && QueueInv(s) && Enabled(s, e) && AllReloadsSafe(s) && (StartsReload(s, e) ==> NoneCanAdvance(s))
    ensures AllReloadsSafe(Next(s, e)) && ClientRevision(Next(s, e)) >= ClientRevision(s)
  {
    var t := Next(s, e);
    if ReloadArrives(s, e) {
      SafeReloadMovesForward(s, e.i, e.rev);
    } else {
      RevisionNeverGoesBack(s, e);
    }
    if StartsReload(s, e) {
      NobodyHolds(s, e.i);
      ReloadStartsSafely(s, e.i, e.newId);
    }
    forall r | 0 <= r < |t.tasks| && t.tasks[r].Reloading? ensures IsSafeReload(t, r) {
      ReloadingBefore(s, e, r);
      if !StartsReload(s, e) {
        SafeReloadStep(s, r, e);
      }
    }
  }

  lemma ReloadingBefore(s: Sys, e: Event, r: nat)
    requires Enabled(s, e) && r < |Next(s, e).tasks| && Next(s, e).tasks[r].Reloading?
    ensures (StartsReload(s, e) && e.i == r) || (r < |s.tasks| && s.tasks[r].Reloading?)
  {
  }

  /** Over every run, reloads included, the revision never goes back if each reload starts with no such call out. */
  lemma {:induction false} RevisionMonotoneOverRuns(s: Sys, es: seq<Event>)
    requires Inv(s) && QueueInv(s) && AllReloadsSafe(s) && Feasible(s, es) && ReloadsStartSafely(s, es)
    ensures ClientRevision(RunEvents(s, es)) >= ClientRevision(s)
    decreases |es|
  {
    if es != [] {
      StepKeeps(s, es[0]);
      StepKeepsQueue(s, es[0]);
      StepKeepsReloadsSafe(s, es[0]);
      RevisionMonotoneOverRuns(Next(s, es[0]), es[1..]);
    }
  }

  /** From a freshly loaded client: from every point of such a run to its end the revision has not gone back. */
  lemma RevisionNeverGoesBackInRuns(h: Host, hostEpoch: nat, contextId: Id, actor: string, es: seq<Event>, n: nat)
    requires n <= |es| && Feasible(JustLoaded(h, hostEpoch, contextId, actor), es)
    requires ReloadsStartSafely(JustLoaded(h, hostEpoch, contextId, actor), es)
    ensures Feasible(JustLoaded(h, hostEpoch, contextId, actor), es[..n])
    ensures ClientRevision(RunEvents(JustLoaded(h, hostEpoch, contextId, actor), es))
            >= ClientRevision(RunEvents(JustLoaded(h, hostEpoch, contextId, actor), es[..n]))
  {
    StartIsSafe(h, hostEpoch, contextId, actor);
    StartIsOrderly(h, hostEpoch, contextId, actor);
    MonotoneFrom(JustLoaded(h, hostEpoch, contextId, actor), es, n);
  }

  /** Each reload of the run starts when no other call of its session is out. */
  predicate ReloadsStartAlone(s: Sys, es: seq<Event>)
    requires Feasible(s, es)
    decreases |es|
  {
    es == [] || ((StartsReload(s, es[0]) ==> IsAlone(s)) && ReloadsStartAlone(Next(s, es[0]), es[1..]))
  }

  lemma {:induction false} AloneIsSafe(s: Sys, es: seq<Event>)
    requires Feasible(s, es) && ReloadsStartAlone(s, es)
    ensures ReloadsStartSafely(s, es)
    decreases |es|
  {
    if es != [] {
      if StartsReload(s, es[0]) {
        AloneMeansNone(s);
      }
      AloneIsSafe(Next(s, es[0]), es[1..]);
    }
  }

  /** With reloads that start alone the revision never goes back, from a freshly loaded client on. */
  lemma LoneReloadsNeverGoBack(h: Host, hostEpoch: nat, contextId: Id, actor: string, es: seq<Event>, n: nat)
    requires n <= |es| && Feasible(JustLoaded(h, hostEpoch, contextId, actor), es)
    requires ReloadsStartAlone(JustLoaded(h, hostEpoch, contextId, actor), es)
    ensures Feasible(JustLoaded(h, hostEpoch, contextId, actor), es[..n])
    ensures ClientRevision(RunEvents(JustLoaded(h, hostEpoch, contextId, actor), es))
            >= ClientRevision(RunEvents(JustLoaded(h, hostEpoch, contextId, actor), es[..n]))
  {
    AloneIsSafe(JustLoaded(h, hostEpoch, contextId, actor), es);
    RevisionNeverGoesBackInRuns(h, hostEpoch, contextId, actor, es, n);
  }

  lemma {:induction false} MonotoneFrom(s: Sys, es: seq<Event>, n: nat)
    requires Inv(s) && QueueInv(s) && AllReloadsSafe(s) && n <= |es| && Feasible(s, es) && ReloadsStartSafely(s, es)
    ensures Feasible(s, es[..n]) && ClientRevision(RunEvents(s, es)) >= ClientRevision(RunEvents(s, es[..n]))
    decreases n
  {
    if n == 0 {
      RevisionMonotoneOverRuns(s, es);
    } else {
      StepKeeps(s, es[0]);
      StepKeepsQueue(s, es[0]);
      StepKeepsReloadsSafe(s, es[0]);
      MonotoneFrom(Next(s, es[0]), es[1..], n - 1);
      assert es[..n][1..] == es[1..][..n - 1];
    }
  }

  // ---- Exactly when a reload may go back ----

  /** The reload's answer arrives now and lowers the client's revision. */
  predicate IsBackStep(s: Sys, r: nat, rev: nat) {
    && Enabled(s, DeliverState(r, rev)) && s.tasks[r].Reloading?
    && ClientRevision(Next(s, DeliverState(r, rev))) < ClientRevision(s)
  }

  /** Some course of events makes the reload go back. */
  ghost predicate MayGoBack(s: Sys, r: nat) {
    exists es, rev: nat :: Feasible(s, es) && IsBackStep(RunEvents(s, es), r, rev)
  }

  lemma {:induction false} SafeNeverGoesBack(s: Sys, r: nat, es: seq<Event>, rev: nat)
    requires Inv(s) && QueueInv(s) && Feasible(s, es) && r < |s.tasks|
    requires IsSafeReload(s, r) || s.tasks[r].Settled?
    ensures !IsBackStep(RunEvents(s, es), r, rev)
    decreases |es|
  {
    if es == [] {
      if IsSafeReload(s, r) && Enabled(s, DeliverState(r, rev)) {
        SafeReloadMovesForward(s, r, rev);
      }
    } else {
      var e := es[0];
      StepKeeps(s, e);
      StepKeepsQueue(s, e);
      if IsSafeReload(s, r) {
        SafeReloadStep(s, r, e);
      } else {
        SettledStays(s, e, r);
      }
      SafeNeverGoesBack(Next(s, e), r, es[1..], rev);
    }
  }

  lemma SettledStays(s: Sys, e: Event, r: nat)
    requires Enabled(s, e) && r < |s.tasks| && s.tasks[r].Settled?
    ensures r < |Next(s, e).tasks| && Next(s, e).tasks[r].Settled?
  {
  }
}
