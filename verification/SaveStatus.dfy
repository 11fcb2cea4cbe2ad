/** What the client reports of its saves, over every run of the protocol, with other writers and retries that overlap. */
module SaveStatus {
  import opened Contracts
  import opened Domain
  import opened NativeDocumentClient
  import opened DeliveryProtocol
  import opened RevisionOrder

  predicate IsCall(s: Sys, i: nat) {
    i < |s.tasks| && (s.tasks[i].Calling? || s.tasks[i].Fetching?) && s.tasks[i].epoch == s.client.sessionEpoch
  }

  ghost predicate IsCallOut(s: Sys) {
    exists i: nat :: IsCall(s, i)
  }

  predicate AgreesWithFailure(c: Client) {
    c.failed <==> c.status == FailedStatus
  }

  /** "Saving" means that a call is out; otherwise "failed" means failed and the reverse; "saved" means confirmed. */
  ghost predicate StatusFits(s: Sys) {
    && (if s.client.status == Saving then IsCallOut(s) else AgreesWithFailure(s.client))
    && (s.client.status == SavedStatus ==> exists i :: 0 <= i < |s.tasks| && s.tasks[i].Resolved?)
  }

  /** An answer of a reload comes only when nothing has failed and no call of the session is out. */
  predicate IsQuietReload(s: Sys, e: Event) {
    ReloadArrives(s, e) ==> !s.client.failed && IsAlone(s)
  }

  predicate AllReloadsQuiet(s: Sys, es: seq<Event>)
    requires Feasible(s, es)
    decreases |es|
  {
    es == [] || (IsQuietReload(s, es[0]) && AllReloadsQuiet(Next(s, es[0]), es[1..]))
  }

  /** More tasks, or another task in place of one that was no call and not resolved. */
  lemma SameClientFits(s: Sys, t: Sys, n: nat)
    requires StatusFits(s) && t.client == s.client && |s.tasks| <= |t.tasks|
    requires forall i :: 0 <= i < |s.tasks| && i != n ==> t.tasks[i] == s.tasks[i]
    requires n < |s.tasks| ==> !s.tasks[n].Resolved? && (IsCall(s, n) ==> IsCall(t, n))
    ensures StatusFits(t)
  {
    if IsCallOut(s) {
      var i: nat :| IsCall(s, i);
      assert IsCall(t, i);
    }
    if i :| 0 <= i < |s.tasks| && s.tasks[i].Resolved? {
      assert t.tasks[i].Resolved?;
    }
  }

  lemma SentFits(s: Sys, t: Sys, n: nat)
    requires n < |t.tasks| && t.tasks[n].Calling? && t.tasks[n].epoch == t.client.sessionEpoch && t.client.status == Saving
    ensures StatusFits(t)
  {
    assert IsCall(t, n);
  }

  lemma EndedFits(s: Sys, t: Sys, n: nat, epoch: nat)
    requires StatusFits(s) && n < |s.tasks| && !s.tasks[n].Resolved? && t.client == Fail(s.client, epoch)
    requires |t.tasks| == |s.tasks| && forall i :: 0 <= i < |s.tasks| && i != n ==> t.tasks[i] == s.tasks[i]
    requires IsCall(s, n) ==> epoch == s.client.sessionEpoch
    ensures StatusFits(t)
  {
    if epoch != s.client.sessionEpoch {
      SameClientFits(s, t, n);
    }
  }

  lemma ConfirmedFits(s: Sys, t: Sys, n: nat, state: DocumentState)
    requires n < |t.tasks| && t.tasks[n].Resolved? && t.client == Install(s.client, state)
    ensures StatusFits(t)
  {
  }

  lemma AnswerFits(s: Sys, i: nat, outcome: Result<CommandResult, ErrorCode>)
    requires StatusFits(s) && i < |s.tasks| && s.tasks[i].Calling?
    ensures StatusFits(Delivered(s, i, outcome))
  {
    var t := Delivered(s, i, outcome);
    if outcome.Ok? && Judge(s.client, s.tasks[i].envelope, s.tasks[i].reconcile, s.tasks[i].epoch, outcome.value).Accept? {
      ConfirmedFits(s, t, i, ReceiptState(outcome.value));
    } else if t.tasks[i].Fetching? {
      SameClientFits(s, t, i);
    } else {
      EndedFits(s, t, i, s.tasks[i].epoch);
    }
  }

  lemma FetchedFits(s: Sys, i: nat, state: DocumentState)
    requires StatusFits(s) && i < |s.tasks| && s.tasks[i].Fetching?
    ensures StatusFits(StateArrived(s, i, state))
  {
    var t := StateArrived(s, i, state);
    if t.tasks[i].Resolved? {
      ConfirmedFits(s, t, i, state);
    } else {
      EndedFits(s, t, i, s.tasks[i].epoch);
    }
  }

  lemma NoCallWhenAlone(s: Sys)
    requires IsAlone(s)
    ensures !IsCallOut(s)
  {
  }

  /** A quiet reload leaves a client without failure that does not report one, and not a save either unless one was confirmed. */
  lemma ReloadFits(s: Sys, i: nat, state: DocumentState)
    requires StatusFits(s) && i < |s.tasks| && s.tasks[i].Reloading? && !s.client.failed && IsAlone(s)
    ensures StatusFits(StateArrived(s, i, state))
  {
    NoCallWhenAlone(s);
    var t := StateArrived(s, i, state);
    if j :| 0 <= j < |s.tasks| && s.tasks[j].Resolved? {
      assert t.tasks[j].Resolved?;
    }
  }

  lemma RunFits(s: Sys, i: nat, newId: Id)
    requires StatusFits(s) && MayStart(s, i)
    ensures StatusFits(RunTask(s, i, newId))
  {
    var t := RunTask(s, i, newId);
    if t.tasks[i].Calling? {
      SentFits(s, t, i);
    } else {
      SameClientFits(s, t, i);
    }
  }

  lemma StepFits(s: Sys, e: Event)
    requires StatusFits(s) && Enabled(s, e) && IsQuietReload(s, e)
    ensures StatusFits(Next(s, e))
  {
    match e
    case Run(i, newId) => RunFits(s, i, newId);
    case DeliverAnswer(i, a) => AnswerFits(s, i, s.answers[a].outcome);
    case DeliverState(i, rev) =>
      if s.tasks[i].Reloading? {
        ReloadFits(s, i, StateAt(s, rev));
      } else {
        FetchedFits(s, i, StateAt(s, rev));
      }
    case DeliverError(i) =>
      if s.tasks[i].Reloading? {
        SameClientFits(s, Next(s, e), i);
      } else {
        EndedFits(s, Next(s, e), i, s.tasks[i].epoch);
      }
    case CallSubmit(_) => SameClientFits(s, Next(s, e), |s.tasks|);
    case CallRetry => SameClientFits(s, Next(s, e), |s.tasks|);
    case CallReload => SameClientFits(s, Next(s, e), |s.tasks|);
    case HostServes(_) => SameClientFits(s, Next(s, e), |s.tasks|);
    case OthersCommand(_) => SameClientFits(s, Next(s, e), |s.tasks|);
    case OthersRebase(_) => SameClientFits(s, Next(s, e), |s.tasks|);
  }

  lemma {:induction false} FitsAlong(s: Sys, es: seq<Event>)
    requires StatusFits(s) && Feasible(s, es) && AllReloadsQuiet(s, es)
    ensures StatusFits(RunEvents(s, es))
    decreases |es|
  {
    if es != [] {
      StepFits(s, es[0]);
      FitsAlong(Next(s, es[0]), es[1..]);
    }
  }

  /**
   * Over every run from a freshly loaded client in which reloads are answered in quiet: the client reports "saving" only
   * while a call is out, and while none is out it reports "failed" exactly if it keeps a failed command, so that the next
   * save knows that it has to retry; "saved" is reported only after a confirmed command.
   */
  lemma StatusTellsFailure(h: Host, hostEpoch: nat, contextId: Id, actor: string, es: seq<Event>)
    requires Feasible(JustLoaded(h, hostEpoch, contextId, actor), es)
    requires AllReloadsQuiet(JustLoaded(h, hostEpoch, contextId, actor), es)
    ensures var s := RunEvents(JustLoaded(h, hostEpoch, contextId, actor), es);
            && (s.client.status == Saving ==> IsCallOut(s))
            && (!IsCallOut(s) ==> (s.client.failed <==> s.client.status == FailedStatus))
            && (s.client.status == SavedStatus ==> !s.client.failed && exists i :: 0 <= i < |s.tasks| && s.tasks[i].Resolved?)
  {
    FitsAlong(JustLoaded(h, hostEpoch, contextId, actor), es);
  }
}
