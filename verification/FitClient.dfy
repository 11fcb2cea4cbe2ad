/** The client of the one-page fit: what it accepts as a proposal, and which proposals it ever sends as a command. */
module FitClient {
  import opened Contracts
  import opened Fit
  import opened SingleFlight

  /** An answer of the host, fixed once it is given. The number is its identity: two answers may say the same. */
  datatype FitResult = FitResult(id: nat, cursor: AuthorityCursor, renderKey: string, plan: FitPlan)

  /** The client's check of a result for the cursor it was asked for. */
  predicate Verifies(r: FitResult, cursor: AuthorityCursor) {
    r.cursor == cursor && IsHexDigest(r.renderKey) && PassesClient(r.plan)
  }

  /** What is sent for a result that changes the layout: a command that expects the cursor the fit was made for. */
  function CommandFor(r: FitResult, commandId: Id): CommandEnvelope
    requires r.plan.fitted.Some?
  {
    CommandEnvelope(1, commandId, r.cursor.documentId, r.cursor.contextId, r.cursor.revision, r.cursor.branchId,
                    r.cursor.headId, SetLayout(r.plan.fitted.value))
  }

  // ---- Specification ----

  /** `proposals` maps a result to the epoch it was accepted in; `dispatched` lists the results sent as commands. */
  datatype State = State(flight: Flight, proposals: map<FitResult, nat>, seen: set<nat>, dispatched: seq<FitResult>)

  const START: State := State(IDLE, map[], {}, [])

  /** An answer that is still wanted is checked at once against the cursor that was asked for. */
  function Answer(f: State, k: nat, r: FitResult): State
    requires k < |f.flight.calls|
  {
    var seen := f.seen + {r.id};
    if !IsCurrent(f.flight, k) then f.(flight := Ended(f.flight, k, Nothing), seen := seen)
    else if !Verifies(r, f.flight.calls[k].request.cursor) then f.(flight := Ended(f.flight, k, Rejected), seen := seen)
    else f.(flight := Ended(f.flight, k, Delivered(r.id)), seen := seen, proposals := f.proposals[r := f.flight.epoch])
  }

  /** What comes of applying a result: nothing, an exception, or a command. */
  datatype Applied = Ignored | Refused | Sent(command: CommandEnvelope)

  /** The result is a proposal of the present epoch, made for the document as it stands. */
  predicate IsApplicable(f: State, r: FitResult, current: AuthorityCursor) {
    r in f.proposals && f.proposals[r] == f.flight.epoch && r.cursor == current
  }

  function ApplyOf(f: State, r: FitResult, current: AuthorityCursor, commandId: Id): Applied {
    if !IsApplicable(f, r, current) then Ignored
    else if !Verifies(r, current) then Refused
    else if r.plan.status != Fitted then Ignored
    else Sent(CommandFor(r, commandId))
  }

  /** A result that is sent is used up. */
  function AfterApply(f: State, r: FitResult, current: AuthorityCursor): State {
    if IsApplicable(f, r, current) && Verifies(r, current) && r.plan.status == Fitted
    then f.(proposals := f.proposals - {r}, dispatched := f.dispatched + [r])
    else f
  }

  // ---- The client ----

  class EngineFitClient {
    const client: EnginePreviewClient
    var proposals: map<FitResult, nat>
    var seen: set<nat>
    var dispatched: seq<FitResult>

    constructor ()
      ensures fresh(client) && Now() == START
    {
      client := new EnginePreviewClient();
      proposals, seen, dispatched := map[], {}, [];
    }

    function Now(): State
      reads this, client
    {
      State(client.Now(), proposals, seen, dispatched)
    }

    method OnAnswer(k: nat, r: FitResult)
      requires k < |client.calls|
      modifies this, client
      ensures Now() == Answer(old(Now()), k, r)
    {
      seen := seen + {r.id};
      var request := client.calls[k].request;
      if request.epoch != client.epoch {
        client.Finish(k, Nothing);
      } else if !Verifies(r, request.cursor) {
        client.Finish(k, Rejected);
      } else {
        proposals := proposals[r := request.epoch];
        client.Finish(k, Delivered(r.id));
      }
    }

    method Apply(r: FitResult, current: AuthorityCursor, commandId: Id) returns (result: Applied)
      modifies this
      ensures result == ApplyOf(old(Now()), r, current, commandId)
      ensures Now() == AfterApply(old(Now()), r, current)
    {
      if r !in proposals || proposals[r] != client.epoch || r.cursor != current {
        return Ignored;
      }
      if !Verifies(r, current) {
        return Refused;
      }
      if r.plan.status != Fitted {
        return Ignored;
      }
      proposals := proposals - {r};
      dispatched := dispatched + [r];
      return Sent(CommandFor(r, commandId));
    }
  }

  // ---- Every interleaving ----

  datatype Event =
    | Request(cursor: AuthorityCursor)
    | Cancel
    | HostAnswers(k: nat, r: FitResult)
    | HostFails(k: nat)
    | Apply(r: FitResult, current: AuthorityCursor)

  /** Each answer of the host is a new result. */
  predicate CanHappen(f: State, e: Event) {
    match e
    case HostAnswers(k, r) => k < |f.flight.calls| && r.id !in f.seen
    case HostFails(k) => k < |f.flight.calls|
    case _ => true
  }

  function Next(f: State, e: Event): State
    requires CanHappen(f, e)
  {
    match e
    case Request(cursor) => f.(flight := Requested(f.flight, cursor))
    case Cancel => f.(flight := Invalidated(f.flight))
    case HostAnswers(k, r) => Answer(f, k, r)
    case HostFails(k) => f.(flight := Failed(f.flight, k))
    case Apply(r, current) => AfterApply(f, r, current)
  }

  /** These events lead from one state to the other. */
  ghost predicate Runs(f: State, events: seq<Event>, g: State)
    decreases |events|
  {
    if events == [] then g == f
    else CanHappen(f, events[0]) && Runs(Next(f, events[0]), events[1..], g)
  }

  /** Accepted results were seen, passed the check for their own cursor, and are of no later epoch. */
  predicate IsProposal(f: State, r: FitResult)
    requires r in f.proposals
  {
    r.id in f.seen && Verifies(r, r.cursor) && f.proposals[r] <= f.flight.epoch
  }

  /** Results that were sent were fits that passed the check, and are no proposals any more. */
  predicate IsDispatched(f: State, r: FitResult) {
    r.id in f.seen && Verifies(r, r.cursor) && r.plan.status == Fitted && r !in f.proposals
  }

  predicate DispatchesOnce(f: State) {
    && (forall i, j :: 0 <= i < j < |f.dispatched| ==> f.dispatched[i] != f.dispatched[j])
    && (forall r :: r in f.dispatched ==> IsDispatched(f, r))
    && (forall r :: r in f.proposals ==> IsProposal(f, r))
  }

  ghost predicate FitInv(f: State) {
    Inv(f.flight) && DispatchesOnce(f)
  }

  lemma StepKeepsFit(f: State, e: Event)
    requires FitInv(f) && CanHappen(f, e)
    ensures FitInv(Next(f, e))
  {
    match e
    case Request(cursor) => RequestKeeps(f.flight, cursor);
    case Cancel => InvalidateKeeps(f.flight);
    case HostAnswers(k, r) =>
      EndKeeps(f.flight, k, if !IsCurrent(f.flight, k) then Nothing
                            else if !Verifies(r, f.flight.calls[k].request.cursor) then Rejected else Delivered(r.id));
    case HostFails(k) => EndKeeps(f.flight, k, if IsCurrent(f.flight, k) then Rejected else Nothing);
    case Apply(r, current) => ApplyKeeps(f, r, current);
  }

  lemma ApplyKeeps(f: State, r: FitResult, current: AuthorityCursor)
    requires DispatchesOnce(f)
    ensures DispatchesOnce(AfterApply(f, r, current))
  {
    var g := AfterApply(f, r, current);
    if g != f {
      assert IsProposal(f, r);
      assert r !in f.dispatched by {
        assert r in f.dispatched ==> IsDispatched(f, r);
      }
      forall x | x in g.dispatched ensures IsDispatched(g, x) {
        assert x == r || IsDispatched(f, x);
      }
      forall x | x in g.proposals ensures IsProposal(g, x) {
        assert IsProposal(f, x);
      }
    }
  }

  lemma StartIsFit()
    ensures FitInv(START)
  {
  }

  lemma {:induction false} RunsKeep(f: State, events: seq<Event>, g: State)
    requires FitInv(f) && Runs(f, events, g)
    ensures FitInv(g)
    decreases |events|
  {
    if events != [] {
      StepKeepsFit(f, events[0]);
      RunsKeep(Next(f, events[0]), events[1..], g);
    }
  }

  /** Over every run no result is dispatched twice, only checked fits are dispatched, and the rules of the flight hold. */
  lemma EveryProposalIsUsedOnce(events: seq<Event>, f: State)
    requires Runs(START, events, f)
    ensures Inv(f.flight) && DispatchesOnce(f)
  {
    StartIsFit();
    RunsKeep(START, events, f);
  }

  /** In every reachable state an accepted proposal that is applied never throws. It is sent exactly if it is of the present epoch, for the present cursor, and a fit. */
  lemma AppliesExactlyWhen(events: seq<Event>, f: State, r: FitResult, current: AuthorityCursor, commandId: Id)
    requires Runs(START, events, f) && r in f.proposals
    ensures !ApplyOf(f, r, current, commandId).Refused?
    ensures ApplyOf(f, r, current, commandId).Sent? <==>
            f.proposals[r] == f.flight.epoch && r.cursor == current && r.plan.status == Fitted
    ensures ApplyOf(f, r, current, commandId).Sent? <==> AfterApply(f, r, current).dispatched == f.dispatched + [r]
  {
    EveryProposalIsUsedOnce(events, f);
    assert IsProposal(f, r);
  }

  // ---- Proposals that are never sent ----

  /** The result was answered and not sent, and is no proposal of the present epoch that could be. */
  predicate IsDead(f: State, r: FitResult) {
    && r.id in f.seen && r !in f.dispatched
    && (r in f.proposals ==> f.proposals[r] < f.flight.epoch || r.plan.status != Fitted)
  }

  lemma EpochsGrow(f: State, e: Event)
    requires CanHappen(f, e)
    ensures Next(f, e).flight.epoch >= f.flight.epoch
    ensures e.Cancel? || e.Request? ==> Next(f, e).flight.epoch > f.flight.epoch
  {
  }

  lemma DeadStaysDead(f: State, e: Event, r: FitResult)
    requires IsDead(f, r) && CanHappen(f, e)
    ensures IsDead(Next(f, e), r)
  {
    EpochsGrow(f, e);
  }

  lemma {:induction false} DeadAlong(f: State, events: seq<Event>, g: State, r: FitResult)
    requires IsDead(f, r) && Runs(f, events, g)
    ensures IsDead(g, r)
    decreases |events|
  {
    if events != [] {
      DeadStaysDead(f, events[0], r);
      DeadAlong(Next(f, events[0]), events[1..], g, r);
    }
  }

  /**
   * In every run, once a request is cancelled or replaced by a newer one, no proposal accepted before is dispatched
   * any more, whatever happens afterwards.
   */
  lemma CancelledProposalsAreDead(before: seq<Event>, f: State, e: Event, after: seq<Event>, g: State, r: FitResult)
    requires Runs(START, before, f) && (e.Cancel? || e.Request?)
    requires Runs(Next(f, e), after, g) && r in f.proposals
    ensures r !in g.dispatched
  {
    EveryProposalIsUsedOnce(before, f);
    assert IsProposal(f, r);
    assert r in f.dispatched ==> IsDispatched(f, r);
    EpochsGrow(f, e);
    DeadAlong(Next(f, e), after, g, r);
  }

  ghost predicate Dispatches(f: State, events: seq<Event>, g: State, r: FitResult) {
    Runs(f, events, g) && r in g.dispatched
  }

  /** Some course of events dispatches the proposal. */
  ghost predicate MayBeDispatched(f: State, r: FitResult) {
    exists events, g :: Dispatches(f, events, g, r)
  }

  /**
   * In every reachable state an accepted proposal can still be dispatched in some course of events if and only if it
   * is of the present epoch and its plan found a new layout: a plan that already fits, or found nothing, is accepted
   * and never dispatched.
   */
  lemma ProposalIsAliveExactlyWhen(before: seq<Event>, f: State, r: FitResult)
    requires Runs(START, before, f) && r in f.proposals
    ensures MayBeDispatched(f, r) <==> f.proposals[r] == f.flight.epoch && r.plan.status == Fitted
  {
    EveryProposalIsUsedOnce(before, f);
    assert IsProposal(f, r);
    assert r in f.dispatched ==> IsDispatched(f, r);
    if f.proposals[r] == f.flight.epoch && r.plan.status == Fitted {
      AppliesNow(f, r);
    } else if MayBeDispatched(f, r) {
      var events, g :| Dispatches(f, events, g, r);
      DeadAlong(f, events, g, r);
    }
  }

  lemma AppliesNow(f: State, r: FitResult)
    requires IsApplicable(f, r, r.cursor) && Verifies(r, r.cursor) && r.plan.status == Fitted
    ensures MayBeDispatched(f, r)
  {
    var e := Apply(r, r.cursor);
    var g := Next(f, e);
    assert [e][1..] == [] && Runs(g, [], g);
    assert g.dispatched == f.dispatched + [r];
    assert Dispatches(f, [e], g, r);
  }
}
