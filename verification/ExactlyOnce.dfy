/** What the protocol guarantees over every interleaving. */
module ExactlyOnce {
  import opened Contracts
  import opened Strings
  import opened Documents
  import opened Domain
  import opened HostLog
  import opened NativeDocumentClient
  import opened DeliveryProtocol
  import opened DeliverySafety
  import opened DeliveryQueue

  lemma {:induction false} SafeAlong(s: Sys, es: seq<Event>)
    requires Inv(s) && Feasible(s, es)
    ensures Inv(RunEvents(s, es))
    decreases |es|
  {
    if es != [] {
      StepKeeps(s, es[0]);
      SafeAlong(Next(s, es[0]), es[1..]);
    }
  }

  /** Every state reached from a freshly loaded client satisfies the invariant. */
  lemma EveryReachableStateIsSafe(h: Host, hostEpoch: nat, contextId: Id, actor: string, es: seq<Event>)
    requires Feasible(JustLoaded(h, hostEpoch, contextId, actor), es)
    ensures Inv(RunEvents(JustLoaded(h, hostEpoch, contextId, actor), es))
  {
    StartIsSafe(h, hostEpoch, contextId, actor);
    SafeAlong(JustLoaded(h, hostEpoch, contextId, actor), es);
  }

  /** The client always holds a document and revision that the host really had. */
  lemma ClientStateIsAuthoritative(s: Sys)
    requires Inv(s) && s.client.current.Some?
    ensures exists rev :: HadRevision(s, rev) && IsStateAt(s, rev, s.client.current.value) && ClientRevision(s) == rev
  {
    var rev := ClientRevisionIs(s);
  }

  /** Exactly one step of the host's history is the effect of the k-th envelope. */
  predicate EffectOf(s: Sys, k: nat, receipt: CommandResult)
    requires k < |s.issued|
  {
    var x := s.issued[k];
    && HadRevision(s, x.rev) && HadRevision(s, x.rev + 1)
    && x.envelope.commandId == receipt.commandId
    && receipt.cursor.revision == Decimal(x.rev + 1)
    && receipt.document == s.history[x.rev + 1 - s.base].document
    && Apply(s.history[x.rev - s.base].document, x.envelope.payload) == Ok(receipt.document)
  }

  /** A resolved operation was applied, once: its receipt is the effect of its own envelope and of no other. */
  lemma ResolvedWasAppliedOnce(s: Sys, i: nat)
    requires Inv(s) && i < |s.tasks| && s.tasks[i].Resolved?
    ensures exists k :: 0 <= k < |s.issued| && s.issued[k].envelope == s.tasks[i].envelope
                     && EffectOf(s, k, s.tasks[i].receipt)
                     && forall j :: 0 <= j < |s.issued| && j != k ==> !EffectOf(s, j, s.tasks[i].receipt)
  {
    assert TaskOk(s, s.tasks[i]);
    var receipt := s.tasks[i].receipt;
    var k := ReceiptStateHad(s, s.tasks[i].envelope, receipt);
    assert EffectOf(s, k, receipt);
    forall j | 0 <= j < |s.issued| && j != k ensures !EffectOf(s, j, receipt) {
      DistinctIds(s, j, k);
    }
  }

  /** Serving an applied envelope again changes nothing at the host. */
  lemma ServedAgainChangesNothing(s: Sys, k: nat)
    requires Inv(s) && k < |s.issued| && Applied(s, k)
    ensures ServeIssued(s, k).host == s.host && ServeIssued(s, k).history == s.history
  {
    OneRequest(s.host, Request(s.actor, s.contextId, s.issued[k].envelope));
  }

  /** How often serving the k-th envelope changes the host during a run. */
  function Effects(s: Sys, es: seq<Event>, k: nat): nat
    requires Feasible(s, es)
    decreases |es|
  {
    if es == [] then 0
    else (if es[0] == HostServes(k) && Next(s, es[0]).host != s.host then 1 else 0) + Effects(Next(s, es[0]), es[1..], k)
  }

  /** However often it is sent, repeated or delayed, an envelope changes the host at most once, and then it is applied. */
  lemma {:induction false} AppliedAtMostOnce(s: Sys, es: seq<Event>, k: nat)
    requires Inv(s) && Feasible(s, es)
    ensures Effects(s, es, k) <= if k < |s.issued| && Applied(s, k) then 0 else 1
    decreases |es|
  {
    if es != [] {
      StepKeeps(s, es[0]);
      AppliedAtMostOnce(Next(s, es[0]), es[1..], k);
      AppliedStays(s, es[0], k);
      if es[0] == HostServes(k) {
        OneEffect(s, k);
      }
    }
  }

  lemma AppliedStays(s: Sys, e: Event, k: nat)
    requires Inv(s) && Enabled(s, e)
    ensures k < |s.issued| && Applied(s, k) ==> k < |Next(s, e).issued| && Applied(Next(s, e), k)
  {
    if e.HostServes? {
      OneRequest(s.host, Request(s.actor, s.contextId, s.issued[e.k].envelope));
    } else if e.OthersCommand? {
      OneRequest(s.host, e.request);
    } else {
      AppliedStaysWithin(s, e, k);
    }
  }

  lemma AppliedStaysWithin(s: Sys, e: Event, k: nat)
    requires Inv(s) && Enabled(s, e) && !e.HostServes? && !e.OthersCommand?
    ensures k < |s.issued| && Applied(s, k) ==> k < |Next(s, e).issued| && Applied(Next(s, e), k)
  {
  }

  lemma OneEffect(s: Sys, k: nat)
    requires Inv(s) && k < |s.issued|
    ensures ServeIssued(s, k).host != s.host ==> !Applied(s, k) && Applied(ServeIssued(s, k), k)
  {
    OneRequest(s.host, Request(s.actor, s.contextId, s.issued[k].envelope));
  }

  /**
   * Over every run, submissions take effect in the order in which they were called: of two that were sent, the earlier
   * one made its envelope first, and if both were applied it was applied first. A confirmed one was applied.
   */
  lemma AppliedInQueueOrder(h: Host, hostEpoch: nat, contextId: Id, actor: string, es: seq<Event>, k: nat, l: nat)
    requires Feasible(JustLoaded(h, hostEpoch, contextId, actor), es)
    requires var s := RunEvents(JustLoaded(h, hostEpoch, contextId, actor), es);
             k < |s.issued| && l < |s.issued| && s.issued[k].task < s.issued[l].task
    ensures var s := RunEvents(JustLoaded(h, hostEpoch, contextId, actor), es);
            && k < l && s.issued[k].task < |s.tasks|
            && (s.tasks[s.issued[k].task].Resolved? ==> s.tasks[s.issued[k].task].envelope == s.issued[k].envelope && Applied(s, k))
            && (Applied(s, k) && Applied(s, l) ==> s.issued[k].rev + 1 <= s.issued[l].rev && AppliedAt(s, k) && AppliedAt(s, l))
  {
    var start := JustLoaded(h, hostEpoch, contextId, actor);
    EveryReachableStateIsSafe(h, hostEpoch, contextId, actor, es);
    StartIsOrderly(h, hostEpoch, contextId, actor);
    QueueAlong(start, es);
    EnvelopesAlong(start, es);
    var s := RunEvents(start, es);
    assert TaskOk(s, s.tasks[s.issued[k].task]);
  }

  /** An envelope left behind by the host's revision can never take effect any more. */
  lemma StaleNeverApplies(s: Sys, k: nat)
    requires Inv(s) && k < |s.issued| && !Applied(s, k) && s.issued[k].rev < s.host.revision
    ensures ServeIssued(s, k).host == s.host
  {
    var r := Request(s.actor, s.contextId, s.issued[k].envelope);
    OneRequest(s.host, r);
    if Commits(s.host, r) {
      CommitAt(s, k);
    }
  }

  /** A resolved operation stays resolved with the same receipt for the rest of the run. */
  lemma {:induction false} ResolvedStays(s: Sys, es: seq<Event>, i: nat)
    requires Feasible(s, es) && i < |s.tasks| && s.tasks[i].Resolved?
    ensures i < |RunEvents(s, es).tasks| && RunEvents(s, es).tasks[i] == s.tasks[i]
    decreases |es|
  {
    if es != [] {
      ResolvedStaysStep(s, es[0], i);
      ResolvedStays(Next(s, es[0]), es[1..], i);
    }
  }

  lemma ResolvedStaysStep(s: Sys, e: Event, i: nat)
    requires Enabled(s, e) && i < |s.tasks| && s.tasks[i].Resolved?
    ensures i < |Next(s, e).tasks| && Next(s, e).tasks[i] == s.tasks[i]
  {
  }
}
