/** A run in which a reload takes the client back to an older revision: two retries of one failed save, and a reload. */
module ReloadWitness {
  import opened Contracts
  import opened Strings
  import opened Documents
  import opened Domain
  import opened HostLog
  import opened NativeDocumentClient
  import opened DeliveryProtocol
  import opened DeliverySafety
  import opened DeliveryQueue
  import opened ExactlyOnce
  import opened RevisionOrder
  import opened ReloadRace

  /** A host that serves, with a document that the client accepts. */
  predicate IsServing(h: Host, contextId: Id, actor: string, id: Id) {
    && Valid(h.document) && h.document.schemaVersion == 2
    && !IsJsBlank(contextId) && !IsBlank(contextId) && !IsBlank(actor) && id !in h.processed
  }

  function Retitle(h: Host): DomainCommand { SetDocumentTitle(h.document.title) }

  lemma RetitleIsAccepted(h: Host)
    requires Valid(h.document)
    ensures Apply(h.document, Retitle(h)) == Ok(h.document)
  {
    ValidatorIsExact(h.document);
  }

  // ---- Running on ----

  lemma {:induction false} RunFurther(s: Sys, es: seq<Event>, e: Event)
    requires Feasible(s, es) && Enabled(RunEvents(s, es), e)
    ensures Feasible(s, es + [e]) && RunEvents(s, es + [e]) == Next(RunEvents(s, es), e)
    decreases |es|
  {
    if es == [] {
      assert [] + [e] == [e] && [e][1..] == [];
    } else {
      assert (es + [e])[1..] == es[1..] + [e];
      RunFurther(Next(s, es[0]), es[1..], e);
    }
  }

  lemma {:induction false} EarlierAlong(s: Sys, es: seq<Event>, r: nat)
    requires Feasible(s, es) && MayGoBack(RunEvents(s, es), r)
    ensures MayGoBack(s, r)
    decreases |es|
  {
    if es != [] {
      EarlierAlong(Next(s, es[0]), es[1..], r);
      OneStepEarlier(s, es[0], r);
    }
  }

  lemma {:induction false} AllAlong(s: Sys, es: seq<Event>)
    requires Inv(s) && QueueInv(s) && IsLive(s) && AskedBefore(s) && Feasible(s, es)
    ensures var t := RunEvents(s, es); Inv(t) && QueueInv(t) && IsLive(t) && AskedBefore(t)
    decreases |es|
  {
    if es != [] {
      StepKeeps(s, es[0]);
      StepKeepsQueue(s, es[0]);
      StepKeepsLive(s, es[0]);
      StepKeepsAsked(s, es[0]);
      AllAlong(Next(s, es[0]), es[1..]);
    }
  }

  // ---- The run, stage by stage ----

  function EnvelopeOf(h: Host, contextId: Id, id: Id): CommandEnvelope {
    CommandEnvelope(1, id, h.document.documentId, contextId, Decimal(h.revision), h.branchId, h.headId, Retitle(h))
  }

  const CHAIN: seq<Option<nat>> := [None, Some(0), Some(0)]

  /** The save is out, and two retries wait for it. */
  predicate IsOut1(s: Sys, h: Host, he: nat, contextId: Id, actor: string, id: Id) {
    && s.host == h && s.hostEpoch == he && s.contextId == contextId && s.actor == actor && s.base == h.revision && |s.history| == 1
    && s.tasks == [Calling(EnvelopeOf(h, contextId, id), false, 0), RetryQueued, RetryQueued]
    && s.after == CHAIN && s.answers == []
    && |s.issued| == 1 && s.issued[0].envelope == EnvelopeOf(h, contextId, id)
    && !s.client.failed && s.client.failedEnvelope == Some(EnvelopeOf(h, contextId, id)) && s.client.sessionEpoch == 0
    && s.client.current == Some(StateOf(contextId, HostAuthority(h, he), h.revision))
  }

  lemma SaveIsOut(h: Host, he: nat, contextId: Id, actor: string, id: Id) returns (es: seq<Event>)
    requires IsServing(h, contextId, actor, id)
    ensures Feasible(JustLoaded(h, he, contextId, actor), es)
    ensures IsOut1(RunEvents(JustLoaded(h, he, contextId, actor), es), h, he, contextId, actor, id)
  {
    var s := JustLoaded(h, he, contextId, actor);
    var t := Next(s, CallSubmit(Retitle(h)));
    assert Enabled(t, Run(0, id));
    NewerRevisionIsNumericOrder(h.revision, h.revision);
    var u := Next(t, Run(0, id));
    assert u.tasks == [Calling(EnvelopeOf(h, contextId, id), false, 0)];
    assert IsAtRest(u);
    var v := Next(u, CallRetry);
    assert v.after == [None, Some(0)] && IsAtRest(v);
    es := [CallSubmit(Retitle(h))];
    assert Feasible(s, []) && RunEvents(s, []) == s;
    RunFurther(s, [], CallSubmit(Retitle(h)));
    assert [] + [CallSubmit(Retitle(h))] == es;
    RunFurther(s, es, Run(0, id));
    RunFurther(s, es + [Run(0, id)], CallRetry);
    RunFurther(s, es + [Run(0, id)] + [CallRetry], CallRetry);
    es := es + [Run(0, id)] + [CallRetry] + [CallRetry];
  }

  /** The host has applied the save, its answer was lost, and both retries are out. */
  predicate IsOut2(s: Sys, h: Host, he: nat, contextId: Id, actor: string, id: Id) {
    && s.host == Handle(h, actor, contextId, EnvelopeOf(h, contextId, id)).host && s.hostEpoch == he
    && s.contextId == contextId && s.actor == actor && s.base == h.revision && |s.history| == 2
    && s.tasks == [Settled, Calling(EnvelopeOf(h, contextId, id), true, 0), Calling(EnvelopeOf(h, contextId, id), true, 0)]
    && s.after == CHAIN && s.tail == Some(2)
    && s.answers == [Answer(EnvelopeOf(h, contextId, id), Handle(h, actor, contextId, EnvelopeOf(h, contextId, id)).outcome)]
    && s.client.sessionEpoch == 0 && s.client.current == Some(StateOf(contextId, HostAuthority(h, he), h.revision))
  }

  lemma SaveIsServed(h: Host, contextId: Id, actor: string, id: Id)
    requires IsServing(h, contextId, actor, id)
    ensures var reply := Handle(h, actor, contextId, EnvelopeOf(h, contextId, id));
            && reply.outcome.Ok? && reply.host.revision == h.revision + 1 && reply.host.document == h.document
            && id in reply.host.processed
            && reply.outcome.value.cursor.revision == Decimal(h.revision + 1)
            && reply.outcome.value.document == h.document
  {
    RetitleIsAccepted(h);
  }

  lemma AnswerIsLost(s: Sys, h: Host, he: nat, contextId: Id, actor: string, id: Id)
    requires IsServing(h, contextId, actor, id) && IsOut1(s, h, he, contextId, actor, id)
    ensures Enabled(s, HostServes(0)) && Enabled(Next(s, HostServes(0)), DeliverError(0))
    ensures var u := Next(Next(s, HostServes(0)), DeliverError(0));
            && u.tasks == [Settled, RetryQueued, RetryQueued] && u.after == CHAIN && u.client.failed
            && u.client.failedEnvelope == Some(EnvelopeOf(h, contextId, id)) && u.client.sessionEpoch == 0
            && u.client.current == s.client.current && |u.history| == 2 && u.hostEpoch == he
            && u.host == Handle(h, actor, contextId, EnvelopeOf(h, contextId, id)).host
            && u.contextId == contextId && u.actor == actor && u.base == h.revision
            && u.answers == [Answer(EnvelopeOf(h, contextId, id), Handle(h, actor, contextId, EnvelopeOf(h, contextId, id)).outcome)]
  {
    SaveIsServed(h, contextId, actor, id);
    var t := Next(s, HostServes(0));
    assert t.tasks == s.tasks && t.after == s.after && t.tail == s.tail && t.client == s.client;
    AnswerGetsLost(t, EnvelopeOf(h, contextId, id));
  }

  lemma AnswerGetsLost(t: Sys, e: CommandEnvelope)
    requires t.tasks == [Calling(e, false, 0), RetryQueued, RetryQueued] && t.after == CHAIN && t.client.sessionEpoch == 0
    ensures Enabled(t, DeliverError(0))
    ensures var u := Next(t, DeliverError(0));
            && u.tasks == [Settled, RetryQueued, RetryQueued] && u == t.(tasks := u.tasks, client := Fail(t.client, 0))
  {
    assert IsAtRest(t);
  }

  lemma TwoRetriesStart(u: Sys, e: CommandEnvelope, id: Id)
    requires u.tasks == [Settled, RetryQueued, RetryQueued] && u.after == CHAIN
    requires u.client.failed && u.client.failedEnvelope == Some(e) && u.client.sessionEpoch == 0
    ensures Enabled(u, Run(1, id)) && Enabled(Next(u, Run(1, id)), Run(2, id))
    ensures var w := Next(Next(u, Run(1, id)), Run(2, id));
            && w.tasks == [Settled, Calling(e, true, 0), Calling(e, true, 0)] && w.tail == Some(2)
            && w == u.(tasks := w.tasks, tail := w.tail, client := w.client)
            && w.client.current == u.client.current && w.client.sessionEpoch == 0
  {
    var v := Next(u, Run(1, id));
    assert v.tasks == [Settled, Calling(e, true, 0), RetryQueued];
    assert IsNext(v, 2);
  }

  lemma RetriesAreOut(s: Sys, h: Host, he: nat, contextId: Id, actor: string, id: Id) returns (es: seq<Event>)
    requires IsServing(h, contextId, actor, id) && IsOut1(s, h, he, contextId, actor, id)
    ensures Feasible(s, es) && IsOut2(RunEvents(s, es), h, he, contextId, actor, id)
  {
    AnswerIsLost(s, h, he, contextId, actor, id);
    var u := Next(Next(s, HostServes(0)), DeliverError(0));
    TwoRetriesStart(u, EnvelopeOf(h, contextId, id), id);
    RunTwo(s, HostServes(0), DeliverError(0));
    RunFurther(s, [HostServes(0), DeliverError(0)], Run(1, id));
    RunFurther(s, [HostServes(0), DeliverError(0)] + [Run(1, id)], Run(2, id));
    es := [HostServes(0), DeliverError(0)] + [Run(1, id)] + [Run(2, id)];
  }

  /** The second retry has its receipt and fetches the state; the first is still out. */
  predicate IsOut3(s: Sys, h: Host, he: nat, contextId: Id, actor: string, id: Id) {
    var e := EnvelopeOf(h, contextId, id);
    && s.host == Handle(h, actor, contextId, e).host && s.hostEpoch == he
    && s.contextId == contextId && s.actor == actor && s.base == h.revision && |s.history| == 2
    && |s.tasks| == 3 && s.tasks[0] == Settled && s.tasks[1] == Calling(e, true, 0)
    && Handle(h, actor, contextId, e).outcome.Ok?
    && s.tasks[2] == Fetching(e, 0, Handle(h, actor, contextId, e).outcome.value, h.revision + 1)
    && s.after == CHAIN && s.tail == Some(2)
    && s.client.sessionEpoch == 0 && s.client.current == Some(StateOf(contextId, HostAuthority(h, he), h.revision))
  }

  lemma ReceiptArrives(s: Sys, h: Host, he: nat, contextId: Id, actor: string, id: Id)
    requires IsServing(h, contextId, actor, id) && IsOut2(s, h, he, contextId, actor, id) && Inv(s) && IsLive(s)
    ensures Enabled(s, DeliverAnswer(2, 0)) && IsOut3(Next(s, DeliverAnswer(2, 0)), h, he, contextId, actor, id)
  {
    SaveIsServed(h, contextId, actor, id);
    assert IsAtRest(s);
    ConfirmedNeedsState(s, 2, 0);
  }

  lemma FetchedStateReconciles(t: Sys, h: Host, he: nat, contextId: Id, actor: string, id: Id)
    requires IsServing(h, contextId, actor, id) && Inv(t) && IsLive(t) && IsOut3(t, h, he, contextId, actor, id)
    ensures HadRevision(t, h.revision + 1)
    ensures Reconciles(t.client, t.tasks[2].envelope, 0, t.tasks[2].receipt, StateAt(t, h.revision + 1))
  {
    SaveIsServed(h, contextId, actor, id);
    var state := StateAt(t, h.revision + 1);
    assert t.history[1] == HostAuthority(t.host, he);
    LiveStateIsValid(t, h.revision + 1, state);
    NewerRevisionIsNumericOrder(h.revision + 1, h.revision + 1);
    NewerRevisionIsNumericOrder(h.revision, h.revision + 1);
  }

  /** The second retry is confirmed, and nothing waits; the first retry's envelope is applied. */
  predicate IsOut4(s: Sys) {
    && |s.tasks| == 3 && s.tasks[0] == Settled && s.tasks[1].Calling? && s.tasks[1].epoch == 0 && s.tasks[2].Resolved?
    && s.tasks[1].envelope.commandId in s.host.processed
    && s.after == CHAIN && s.tail == Some(2) && !s.client.failed && s.client.sessionEpoch == 0 && s.client.current.Some?
  }

  lemma StateIsInstalled(s: Sys, h: Host, he: nat, contextId: Id, actor: string, id: Id)
    requires IsServing(h, contextId, actor, id) && IsOut3(s, h, he, contextId, actor, id) && Inv(s) && IsLive(s)
    ensures Enabled(s, DeliverState(2, h.revision + 1)) && IsOut4(Next(s, DeliverState(2, h.revision + 1)))
  {
    SaveIsServed(h, contextId, actor, id);
    assert IsAtRest(s);
    FetchedStateReconciles(s, h, he, contextId, actor, id);
  }

  /** A reload is next, while the first retry is still out. */
  ghost predicate IsReloadNext(s: Sys) {
    |s.tasks| == 4 && s.tasks[3].ReloadQueued? && IsNext(s, 3) && !s.client.failed && CanAdvance(s, 1)
  }

  lemma ReloadIsCalled(s: Sys)
    requires IsOut4(s)
    ensures Enabled(s, CallReload) && IsReloadNext(Next(s, CallReload))
  {
    assert IsAtRest(s);
    var v := Next(s, CallReload);
    assert v.tasks[0] == s.tasks[0] && v.tasks[1] == s.tasks[1] && v.tasks[2] == s.tasks[2] && v.after[3] == Some(2);
    assert IsNext(v, 3);
  }

  lemma OneRetryIsConfirmed(s: Sys, h: Host, he: nat, contextId: Id, actor: string, id: Id) returns (es: seq<Event>)
    requires IsServing(h, contextId, actor, id) && IsOut2(s, h, he, contextId, actor, id) && Inv(s) && IsLive(s)
    ensures Feasible(s, es) && IsReloadNext(RunEvents(s, es))
  {
    var answer, arrival := DeliverAnswer(2, 0), DeliverState(2, h.revision + 1);
    ReceiptArrives(s, h, he, contextId, actor, id);
    var t := Next(s, answer);
    StepKeeps(s, answer);
    StepKeepsLive(s, answer);
    StateIsInstalled(t, h, he, contextId, actor, id);
    ReloadIsCalled(Next(t, arrival));
    RunThree(s, answer, arrival, CallReload);
    es := [answer, arrival, CallReload];
  }

  lemma RunThree(s: Sys, a: Event, b: Event, c: Event)
    requires Enabled(s, a) && Enabled(Next(s, a), b) && Enabled(Next(Next(s, a), b), c)
    ensures Feasible(s, [a, b, c]) && RunEvents(s, [a, b, c]) == Next(Next(Next(s, a), b), c)
  {
    var t := Next(s, a);
    var u := Next(t, b);
    RunTwo(t, b, c);
    assert [a, b, c][1..] == [b, c];
  }

  lemma RunTwo(s: Sys, a: Event, b: Event)
    requires Enabled(s, a) && Enabled(Next(s, a), b)
    ensures Feasible(s, [a, b]) && RunEvents(s, [a, b]) == Next(Next(s, a), b)
  {
    var t := Next(s, a);
    var u := Next(t, b);
    assert [a, b][1..] == [b] && [b][1..] == [];
    assert Feasible(u, []) && RunEvents(u, []) == u;
    assert Feasible(t, [b]) && RunEvents(t, [b]) == u;
  }

  /** From every freshly loaded client with a serving host, this run leads to a reload that can go back. */
  lemma ReloadDoesGoBack(h: Host, he: nat, contextId: Id, actor: string, id: Id)
    requires IsServing(h, contextId, actor, id)
    ensures exists es, rev: nat :: Feasible(JustLoaded(h, he, contextId, actor), es)
                                   && IsBackStep(RunEvents(JustLoaded(h, he, contextId, actor), es), 3, rev)
  {
    var s := JustLoaded(h, he, contextId, actor);
    StartIsSafe(h, he, contextId, actor);
    StartIsOrderly(h, he, contextId, actor);
    var es := SaveIsOut(h, he, contextId, actor, id);
    AllAlong(s, es);
    var t := RunEvents(s, es);
    var fs := RetriesAreOut(t, h, he, contextId, actor, id);
    AllAlong(t, fs);
    var u := RunEvents(t, fs);
    var gs := OneRetryIsConfirmed(u, h, he, contextId, actor, id);
    AllAlong(u, gs);
    var v := RunEvents(u, gs);
    ReloadMayGoBackExactlyWhen(v, 3, id);
    OneStepEarlier(v, Run(3, id), 3);
    EarlierAlong(u, gs, 3);
    EarlierAlong(t, fs, 3);
    EarlierAlong(s, es, 3);
  }
}
