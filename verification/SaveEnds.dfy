/** Every save can be brought to its end: from every point of every run the next answers lead to the goal. */
module SaveEnds {
  import opened Contracts
  import opened Strings
  import opened Documents
  import opened Domain
  import opened DocumentBridge
  import opened Convergence
  import opened HostLog
  import opened NativeDocumentClient
  import opened DeliveryProtocol
  import opened DeliverySafety
  import opened ExactlyOnce
  import opened SaveRuns

  // ---- A fresh command ID ----

  lemma LongerThanAll(ids: set<Id>) returns (n: nat)
    ensures forall id :: id in ids ==> |id| < n
    decreases ids
  {
    n := 0;
    if ids != {} {
      var id :| id in ids;
      var m := LongerThanAll(ids - {id});
      n := if m > |id| then m else |id| + 1;
      forall x | x in ids ensures |x| < n {
        assert x == id || x in ids - {id};
      }
    }
  }

  lemma FreshId(s: Sys) returns (id: Id)
    ensures IdIsFresh(s, id)
  {
    var used := s.host.processed.Keys + set k | 0 <= k < |s.issued| :: s.issued[k].envelope.commandId;
    var n := LongerThanAll(used);
    id := seq(n, _ => 'a');
    forall k | 0 <= k < |s.issued| ensures s.issued[k].envelope.commandId != id {
      assert s.issued[k].envelope.commandId in used;
    }
  }

  // ---- How far a save is from its end ----

  predicate HasAnswer(s: Sys) {
    |s.issued| > 0 && exists a :: 0 <= a < |s.answers| && s.answers[a].envelope == LastEnvelope(s)
  }

  /** The stages of one command, counted down. */
  function Stage(s: Sys): (n: nat)
    ensures n <= 7
  {
    if |s.tasks| == 0 || AllSettled(s) then if s.client.failed then 5 else 7
    else
      match s.tasks[|s.tasks| - 1]
      case SubmitQueued(_, _) => 6
      case RetryQueued => 4
      case Calling(_, _, _) => if HasAnswer(s) then 2 else 3
      case Fetching(_, _, _, _) => 1
      case _ => 0
  }

  function Rank(s: Sys, p: Plan): nat
    requires s.client.current.Some?
  {
    10 * p.length(s.client.current.value.document) + Stage(s)
  }

  predicate IsOver(s: Sys, p: Plan) {
    IsDone(s, p) && s.host.document == p.goal
  }

  /** The rank after the event; an event that cannot happen in a save changes nothing. */
  function RankAfter(s: Sys, e: Event, p: Plan): nat
    requires s.client.current.Some?
  {
    if Enabled(s, e) && IsSaving(s, e, p) && Next(s, e).client.current.Some? then Rank(Next(s, e), p) else Rank(s, p)
  }

  /** The event can happen, belongs to a save, and brings it nearer to its end. */
  predicate IsOnward(s: Sys, e: Event, p: Plan) {
    s.client.current.Some? && RankAfter(s, e, p) < Rank(s, p)
  }

  /** The client comes nearer to the goal, or one stage is over. */
  lemma MakeOnward(s: Sys, e: Event, u: Sys, p: Plan)
    requires Enabled(s, e) && IsSaving(s, e, p) && u == Next(s, e)
    requires s.client.current.Some? && u.client.current.Some?
    requires || p.length(u.client.current.value.document) < p.length(s.client.current.value.document)
             || (u.client.current == s.client.current && Stage(u) < Stage(s))
    ensures IsOnward(s, e, p)
  {
  }

  /** The stage of an operation that is not settled is that of the last task. */
  lemma StageOfLast(s: Sys)
    requires |s.tasks| > 0 && !IsSettled(s.tasks[|s.tasks| - 1])
    ensures !AllSettled(s)
    ensures Stage(s) == match s.tasks[|s.tasks| - 1]
                        case SubmitQueued(_, _) => 6
                        case RetryQueued => 4
                        case Calling(_, _, _) => if HasAnswer(s) then 2 else 3
                        case Fetching(_, _, _, _) => 1
                        case _ => 0
  {
    assert !IsSettled(s.tasks[|s.tasks| - 1]);
  }

  lemma LastMayStart(s: Sys)
    requires IsOrderly(s) && |s.tasks| > 0
    requires var t := s.tasks[|s.tasks| - 1]; t.SubmitQueued? || t.RetryQueued?
    ensures IsNext(s, |s.tasks| - 1)
  {
    var n := |s.tasks| - 1;
    assert s.after[n].Some? ==> s.after[n].value < n;
    forall j | 0 <= j < n ensures !MayStart(s, j) {
      assert IsSettled(s.tasks[j]);
    }
  }

  lemma RestWhenSettled(s: Sys)
    requires AllSettled(s)
    ensures IsAtRest(s)
  {
  }

  lemma OutIsAtRest(s: Sys)
    requires IsOrderly(s) && |s.tasks| > 0 && IsOut(s.tasks[|s.tasks| - 1])
    ensures IsAtRest(s)
  {
    forall i | 0 <= i < |s.tasks| ensures !MayStart(s, i) {
      assert i < |s.tasks| - 1 ==> IsSettled(s.tasks[i]);
    }
  }

  lemma BusyLastTask(s: Sys, p: Plan)
    requires IsBusy(s, p)
    ensures AllSettled(s) ==> s.client.failed && s.client.status == FailedStatus
    ensures !AllSettled(s) ==> |s.tasks| > 0 && CarriesLast(s, s.tasks[|s.tasks| - 1], LastEnvelope(s))
    ensures !AllSettled(s) ==> var t := s.tasks[|s.tasks| - 1]; t.RetryQueued? || t.Calling? || t.Fetching?
  {
  }

  lemma SubmitIsOnward(s: Sys, p: Plan, bound: nat) returns (e: Event)
    requires IsPlan(p) && SaveInv(s, p, bound) && IsDone(s, p) && s.host.document != p.goal
    ensures IsOnward(s, e, p)
  {
    assert LeadsOn(p, s.host.document);
    RestWhenSettled(s);
    var payload := p.next(s.host.document).value;
    e := CallSubmit(payload);
    var u := Next(s, e);
    JoinSettled(s, SubmitQueued(payload, CaptureTarget(s.client)));
    CalmJoins(s, u, p);
  }

  lemma TurnIsOnward(s: Sys, p: Plan, bound: nat) returns (e: Event)
    requires SaveInv(s, p, bound) && IsCalm(s, p) && !AllSettled(s)
    ensures IsOnward(s, e, p)
  {
    var id := FreshId(s);
    var i := |s.tasks| - 1;
    LastMayStart(s);
    e := Run(i, id);
    SubmitStarts(s, i, id, p, bound);
    SubmitSends(s, i, id, p);
    var u := Next(s, e);
    LastTurnSettles(s, u.tasks[i]);
  }

  lemma RetryIsOnward(s: Sys, p: Plan)
    requires IsOrderly(s) && s.client.current.Some? && s.client.failed && s.client.status == FailedStatus && AllSettled(s)
    ensures IsOnward(s, CallRetry, p)
  {
    RestWhenSettled(s);
    var u := Next(s, CallRetry);
    JoinSettled(s, RetryQueued);
    StageOfLast(u);
    MakeOnward(s, CallRetry, u, p);
  }

  lemma TurnOfRetryIsOnward(s: Sys, p: Plan) returns (e: Event)
    requires IsOrderly(s) && IsBusy(s, p) && |s.tasks| > 0 && s.tasks[|s.tasks| - 1].RetryQueued?
    ensures IsOnward(s, e, p)
  {
    var i := |s.tasks| - 1;
    LastMayStart(s);
    BusyLastTask(s, p);
    StageOfLast(s);
    e := Run(i, "");
    RetrySends(s, i);
    var u := Next(s, e);
    StageOfLast(u);
    MakeOnward(s, e, u, p);
  }

  lemma RetrySends(s: Sys, i: nat)
    requires i == |s.tasks| - 1 && MayStart(s, i) && s.tasks[i].RetryQueued? && s.client.failed && s.client.failedEnvelope.Some?
    ensures var u := RunTask(s, i, "");
            u.client.current == s.client.current && |u.tasks| == |s.tasks| && u.tasks[i].Calling?
  {
  }

  /** The host serves the envelope, whether for the first time or again. */
  lemma ServeIsOnward(s: Sys, p: Plan) returns (e: Event)
    requires |s.issued| > 0 && s.client.current.Some?
    requires |s.tasks| > 0 && s.tasks[|s.tasks| - 1].Calling? && !HasAnswer(s)
    ensures IsOnward(s, e, p)
  {
    e := HostServes(|s.issued| - 1);
    ServeAnswers(s, |s.issued| - 1);
    var u := Next(s, e);
    StageOfLast(s);
    StageOfLast(u);
    MakeOnward(s, e, u, p);
  }

  lemma ServeAnswers(s: Sys, k: nat)
    requires k < |s.issued| && k == |s.issued| - 1
    ensures var u := ServeIssued(s, k); u.client == s.client && u.tasks == s.tasks && u.issued == s.issued && HasAnswer(u)
  {
    var u := ServeIssued(s, k);
    assert u.answers[|s.answers|].envelope == LastEnvelope(u);
  }

  /** What the client comes to hold is nearer to the goal than what it held. */
  lemma LandedIsNearer(s: Sys, p: Plan)
    requires IsPlan(p) && IsBusy(s, p) && HasLanded(s, LastEnvelope(s), p)
    ensures p.length(s.host.document) < p.length(s.client.current.value.document)
  {
    assert LeadsOn(p, s.client.current.value.document);
  }

  lemma FindAnswer(s: Sys) returns (a: nat)
    requires HasAnswer(s)
    ensures a < |s.answers| && s.answers[a].envelope == LastEnvelope(s)
  {
    a :| 0 <= a < |s.answers| && s.answers[a].envelope == LastEnvelope(s);
  }

  lemma AnswerIsOnward(s: Sys, i: nat, a: nat, p: Plan)
    requires IsPlan(p) && IsFrame(s, p) && IsOrderly(s) && IsBusy(s, p) && HasAnswer(s)
    requires |s.tasks| > 0 && i == |s.tasks| - 1 && s.tasks[i].Calling?
    requires a < |s.answers| && s.answers[a].envelope == LastEnvelope(s)
    ensures IsOnward(s, DeliverAnswer(i, a), p)
  {
    CallsWithLast(s, i, p);
    AnswerCanCome(s, i, a);
    AnswerIsNearer(s, i, a, p);
  }

  lemma AnswerIsNearer(s: Sys, i: nat, a: nat, p: Plan)
    requires IsPlan(p) && IsFrame(s, p) && IsOrderly(s) && IsBusy(s, p) && HasAnswer(s) && Enabled(s, DeliverAnswer(i, a))
    ensures IsOnward(s, DeliverAnswer(i, a), p)
  {
    AnswerIsRight(s, i, a, p);
    AnswerMovesOn(s, i, a, p);
  }

  lemma CallsWithLast(s: Sys, i: nat, p: Plan)
    requires IsBusy(s, p) && |s.tasks| > 0 && i == |s.tasks| - 1 && s.tasks[i].Calling?
    ensures s.tasks[i].envelope == LastEnvelope(s)
  {
    assert !IsSettled(s.tasks[i]);
  }

  lemma AnswerCanCome(s: Sys, i: nat, a: nat)
    requires IsOrderly(s) && |s.tasks| > 0 && i == |s.tasks| - 1
    requires s.tasks[i].Calling? && a < |s.answers| && s.answers[a].envelope == s.tasks[i].envelope
    ensures Enabled(s, DeliverAnswer(i, a))
  {
    OutIsAtRest(s);
  }

  lemma AnswerIsRight(s: Sys, i: nat, a: nat, p: Plan)
    requires IsPlan(p) && IsFrame(s, p) && IsOrderly(s) && IsBusy(s, p) && Enabled(s, DeliverAnswer(i, a))
    ensures var e := s.tasks[i].envelope;
            && i == |s.tasks| - 1 && HasLanded(s, e, p)
            && p.length(s.host.document) < p.length(s.client.current.value.document)
            && var receipt := s.host.processed[e.commandId].receipt;
               && s.answers[a].outcome == Ok(receipt)
               && Judge(s.client, e, s.tasks[i].reconcile, s.tasks[i].epoch, receipt) == if s.tasks[i].reconcile then NeedState else Accept
  {
    AnswerMeansLanded(s, i, a, p);
    ReceiptIsAccepted(s, LastEnvelope(s), s.tasks[i].reconcile, p);
    LandedIsNearer(s, p);
  }

  lemma AnswerMovesOn(s: Sys, i: nat, a: nat, p: Plan)
    requires Enabled(s, DeliverAnswer(i, a)) && i == |s.tasks| - 1 && HasLanded(s, s.tasks[i].envelope, p) && HasAnswer(s)
    requires p.length(s.host.document) < p.length(s.client.current.value.document)
    requires var receipt := s.host.processed[s.tasks[i].envelope.commandId].receipt;
             && s.answers[a].outcome == Ok(receipt)
             && Judge(s.client, s.tasks[i].envelope, s.tasks[i].reconcile, s.tasks[i].epoch, receipt)
                == if s.tasks[i].reconcile then NeedState else Accept
    ensures IsOnward(s, DeliverAnswer(i, a), p)
  {
    AnswerArrives(s, i, a, p);
    MakeOnward(s, DeliverAnswer(i, a), Next(s, DeliverAnswer(i, a)), p);
  }

  lemma AnswerArrives(s: Sys, i: nat, a: nat, p: Plan)
    requires Enabled(s, DeliverAnswer(i, a)) && i == |s.tasks| - 1 && HasLanded(s, s.tasks[i].envelope, p) && HasAnswer(s)
    requires var receipt := s.host.processed[s.tasks[i].envelope.commandId].receipt;
             && s.answers[a].outcome == Ok(receipt)
             && Judge(s.client, s.tasks[i].envelope, s.tasks[i].reconcile, s.tasks[i].epoch, receipt)
                == if s.tasks[i].reconcile then NeedState else Accept
    ensures var u := Next(s, DeliverAnswer(i, a));
            && u.client.current.Some?
            && (if s.tasks[i].reconcile then u.client.current == s.client.current && Stage(u) < Stage(s)
                else u.client.current.value.document == s.host.document)
  {
    var u := Next(s, DeliverAnswer(i, a));
    StageOfLast(s);
    if s.tasks[i].reconcile {
      StageOfLast(u);
    }
  }

  lemma StateIsOnward(s: Sys, i: nat, p: Plan)
    requires IsPlan(p) && IsFrame(s, p) && IsOrderly(s) && IsBusy(s, p)
    requires |s.tasks| > 0 && i == |s.tasks| - 1 && s.tasks[i].Fetching?
    ensures IsOnward(s, DeliverState(i, s.host.revision), p)
  {
    FetchedSince(s, i, p);
    PresentCanCome(s, i);
    StateIsNearer(s, i, p);
  }

  lemma StateIsNearer(s: Sys, i: nat, p: Plan)
    requires IsPlan(p) && IsFrame(s, p) && IsOrderly(s) && IsBusy(s, p) && Enabled(s, DeliverState(i, s.host.revision))
    ensures IsOnward(s, DeliverState(i, s.host.revision), p)
  {
    StateIsRight(s, i, p);
    StateMovesOn(s, i, p);
  }

  lemma StateIsRight(s: Sys, i: nat, p: Plan)
    requires IsPlan(p) && IsFrame(s, p) && IsOrderly(s) && IsBusy(s, p) && Enabled(s, DeliverState(i, s.host.revision))
    ensures s.tasks[i].Fetching? && p.length(s.host.document) < p.length(s.client.current.value.document)
    ensures StateAt(s, s.host.revision) == StateOf(s.contextId, HostAuthority(s.host, s.hostEpoch), s.host.revision)
    ensures Reconciles(s.client, s.tasks[i].envelope, s.tasks[i].epoch, s.tasks[i].receipt, StateAt(s, s.host.revision))
  {
    FetchedIsPresent(s, i, s.host.revision, p);
    StateIsAccepted(s, LastEnvelope(s), p);
    LandedIsNearer(s, p);
  }

  lemma StateMovesOn(s: Sys, i: nat, p: Plan)
    requires Enabled(s, DeliverState(i, s.host.revision)) && s.tasks[i].Fetching? && s.client.current.Some?
    requires p.length(s.host.document) < p.length(s.client.current.value.document)
    requires StateAt(s, s.host.revision) == StateOf(s.contextId, HostAuthority(s.host, s.hostEpoch), s.host.revision)
    requires Reconciles(s.client, s.tasks[i].envelope, s.tasks[i].epoch, s.tasks[i].receipt, StateAt(s, s.host.revision))
    ensures IsOnward(s, DeliverState(i, s.host.revision), p)
  {
    StateArrives(s, i);
    MakeOnward(s, DeliverState(i, s.host.revision), Next(s, DeliverState(i, s.host.revision)), p);
  }

  lemma FetchedSince(s: Sys, i: nat, p: Plan)
    requires IsBusy(s, p) && |s.tasks| > 0 && i == |s.tasks| - 1 && s.tasks[i].Fetching?
    ensures s.tasks[i].since == s.host.revision
  {
    assert !IsSettled(s.tasks[i]);
  }

  lemma PresentCanCome(s: Sys, i: nat)
    requires IsOrderly(s) && HistoryOk(s) && |s.tasks| > 0 && i == |s.tasks| - 1
    requires s.tasks[i].Fetching? && s.tasks[i].since == s.host.revision
    ensures Enabled(s, DeliverState(i, s.host.revision))
  {
    OutIsAtRest(s);
  }

  lemma StateArrives(s: Sys, i: nat)
    requires Enabled(s, DeliverState(i, s.host.revision)) && s.tasks[i].Fetching?
    requires StateAt(s, s.host.revision) == StateOf(s.contextId, HostAuthority(s.host, s.hostEpoch), s.host.revision)
    requires Reconciles(s.client, s.tasks[i].envelope, s.tasks[i].epoch, s.tasks[i].receipt, StateAt(s, s.host.revision))
    ensures var u := Next(s, DeliverState(i, s.host.revision));
            u.client.current.Some? && u.client.current.value.document == s.host.document
  {
  }

  lemma CalmIsOnward(s: Sys, p: Plan, bound: nat) returns (e: Event)
    requires IsPlan(p) && SaveInv(s, p, bound) && IsCalm(s, p) && !IsOver(s, p)
    ensures IsOnward(s, e, p)
  {
    if AllSettled(s) {
      e := SubmitIsOnward(s, p, bound);
    } else {
      e := TurnIsOnward(s, p, bound);
    }
  }

  lemma BusyIsOnward(s: Sys, p: Plan) returns (e: Event)
    requires IsPlan(p) && IsFrame(s, p) && IsOrderly(s) && IsBusy(s, p)
    ensures IsOnward(s, e, p)
  {
    if AllSettled(s) {
      BusyLastTask(s, p);
      RetryIsOnward(s, p);
      e := CallRetry;
    } else {
      BusyLastTask(s, p);
      e := CarriedIsOnward(s, |s.tasks| - 1, p);
    }
  }

  /** Short of the end there is always an event that brings the save nearer. */
  lemma SomethingIsOnward(s: Sys, p: Plan, bound: nat) returns (e: Event)
    requires IsPlan(p) && SaveInv(s, p, bound) && !IsOver(s, p)
    ensures IsOnward(s, e, p)
  {
    if IsCalm(s, p) {
      e := CalmIsOnward(s, p, bound);
    } else {
      e := BusyIsOnward(s, p);
    }
  }

  /** The operation that carries the last envelope goes on: by its turn, by the host, or by an answer. */
  lemma CarriedIsOnward(s: Sys, i: nat, p: Plan) returns (e: Event)
    requires IsPlan(p) && IsFrame(s, p) && IsOrderly(s) && IsBusy(s, p) && |s.tasks| > 0 && i == |s.tasks| - 1
    requires s.tasks[i].RetryQueued? || s.tasks[i].Calling? || s.tasks[i].Fetching?
    ensures IsOnward(s, e, p)
  {
    if s.tasks[i].RetryQueued? {
      e := TurnOfRetryIsOnward(s, p);
    } else if s.tasks[i].Fetching? {
      StateIsOnward(s, i, p);
      e := DeliverState(i, s.host.revision);
    } else if HasAnswer(s) {
      var a := FindAnswer(s);
      AnswerIsOnward(s, i, a, p);
      e := DeliverAnswer(i, a);
    } else {
      e := ServeIsOnward(s, p);
    }
  }

  /** From every such state some course of events ends the save at the goal, at the client and at the host. */
  lemma {:induction false} SaveCanEnd(s: Sys, p: Plan, bound: nat) returns (es: seq<Event>)
    requires IsPlan(p) && SaveInv(s, p, bound)
    ensures Feasible(s, es) && AllSaving(s, es, p) && IsOver(RunEvents(s, es), p)
    decreases if s.client.current.Some? then Rank(s, p) else 0
  {
    es := [];
    if !IsOver(s, p) {
      var e := SomethingIsOnward(s, p, bound);
      SaveStep(s, e, p, bound);
      var rest := SaveCanEnd(Next(s, e), p, bound);
      es := [e] + rest;
      assert es[0] == e && es[1..] == rest;
    }
  }

  // ---- Saving a draft ----

  /** The client's commands as a plan: from documents from which the goal is syncable, at most as long as the step bound. */
  ghost function SyncPlan(goal: ResumeDocument): Plan {
    Plan(goal,
         d => NextCommand(d, goal),
         d => Stepped(d, goal),
         d => Valid(d) && Syncable(d, goal),
         d => StepBound(d, goal))
  }

  function Stepped(d: ResumeDocument, goal: ResumeDocument): ResumeDocument {
    if NextCommand(d, goal).Some? && Apply(d, NextCommand(d, goal).value).Ok? then Apply(d, NextCommand(d, goal).value).value else d
  }

  lemma SyncLeadsOn(goal: ResumeDocument, d: ResumeDocument)
    requires Valid(d) && Syncable(d, goal) && d != goal
    ensures LeadsOn(SyncPlan(goal), d)
  {
    Progress(d, goal);
    ApplyKeepsIdentity(d, NextCommand(d, goal).value);
  }

  lemma SyncIsPlan(goal: ResumeDocument)
    ensures IsPlan(SyncPlan(goal))
  {
    var p := SyncPlan(goal);
    forall d | p.hasWay(d) && d != p.goal ensures LeadsOn(p, d) {
      SyncLeadsOn(goal, d);
    }
  }

  /**
   * Saving a draft that can be synchronised, over a channel that may lose, delay and repeat, with no other writer: over
   * every run of saves the client makes at most as many commands as the step bound says, none is refused, each changes
   * the host at most once; and from every point some course of events ends with client and host at the goal.
   */
  lemma DraftIsSaved(h: Host, hostEpoch: nat, contextId: Id, actor: string, es: seq<Event>, goal: ResumeDocument) returns (more: seq<Event>)
    requires CanSave(h, contextId, actor, SyncPlan(goal))
    requires var start := JustLoaded(h, hostEpoch, contextId, actor); Feasible(start, es) && AllSaving(start, es, SyncPlan(goal))
    ensures var start := JustLoaded(h, hostEpoch, contextId, actor);
            var s := RunEvents(start, es);
            && SavesAreSound(s, SyncPlan(goal), StepBound(h.document, goal))
            && (forall k: nat :: Effects(start, es, k) <= 1)
            && Feasible(s, more) && AllSaving(s, more, SyncPlan(goal)) && IsOver(RunEvents(s, more), SyncPlan(goal))
  {
    var start := JustLoaded(h, hostEpoch, contextId, actor);
    var p := SyncPlan(goal);
    SyncIsPlan(goal);
    LoadedCanSave(h, hostEpoch, contextId, actor, p);
    SavesKeep(start, es, p, p.length(h.document));
    InvIsSound(RunEvents(start, es), p, p.length(h.document));
    more := SaveCanEnd(RunEvents(start, es), p, p.length(h.document));
    OneEffectEach(h, hostEpoch, contextId, actor, es);
  }

  lemma OneEffectEach(h: Host, hostEpoch: nat, contextId: Id, actor: string, es: seq<Event>)
    requires Feasible(JustLoaded(h, hostEpoch, contextId, actor), es)
    ensures forall k: nat :: Effects(JustLoaded(h, hostEpoch, contextId, actor), es, k) <= 1
  {
    StartIsSafe(h, hostEpoch, contextId, actor);
    forall k: nat ensures Effects(JustLoaded(h, hostEpoch, contextId, actor), es, k) <= 1 {
      AppliedAtMostOnce(JustLoaded(h, hostEpoch, contextId, actor), es, k);
    }
  }
}
