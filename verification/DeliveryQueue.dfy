/** The client's promise chain: who waits for whom, and why submissions are made in the order in which they were called. */
module DeliveryQueue {
  import opened Contracts
  import opened Domain
  import opened HostLog
  import opened NativeDocumentClient
  import opened DeliveryProtocol

  // ---- The line ----

  predicate IsQueued(t: Task) { t.SubmitQueued? || t.RetryQueued? || t.ReloadQueued? }

  /** Submissions and reloads stand in line; a retry joins only when it sends. */
  predicate InLine(t: Task) { t.SubmitQueued? || t.ReloadQueued? }

  predicate Queued(s: Sys, x: nat) {
    x < |s.tasks| && x < |s.after| && IsQueued(s.tasks[x])
  }

  predicate Waits(s: Sys, i: nat) {
    i < |s.tasks| && InLine(s.tasks[i])
  }

  /** This operation waits for one that stands in line itself. */
  predicate IsBehindLine(s: Sys, x: nat) {
    x < |s.after| && s.after[x].Some? && Waits(s, s.after[x].value)
  }

  predicate IsWellFormed(s: Sys) {
    && |s.after| == |s.tasks|
    && (forall i :: 0 <= i < |s.after| && s.after[i].Some? ==>
          s.after[i].value < i && !s.tasks[s.after[i].value].RetryQueued?)
    && (s.tail.Some? ==> s.tail.value < |s.tasks| && !s.tasks[s.tail.value].RetryQueued?)
  }

  /** Whatever is queued after somebody in line waits for somebody in line, no earlier than that one. */
  ghost predicate IsLine(s: Sys) {
    forall i: nat, x: nat :: i < x && Waits(s, i) && Queued(s, x) ==> IsBehindLine(s, x) && i <= s.after[x].value
  }

  /** All who do not wait for somebody in line wait for the same operation. */
  ghost predicate HasOneRoot(s: Sys) {
    forall x: nat, y: nat :: Queued(s, x) && Queued(s, y) && !IsBehindLine(s, x) && !IsBehindLine(s, y) ==> s.after[x] == s.after[y]
  }

  /** The tail is the last in line; without a line, those who wait do so for the tail. */
  ghost predicate TailEndsLine(s: Sys) {
    && (forall i: nat :: Waits(s, i) ==> s.tail.Some? && Waits(s, s.tail.value) && i <= s.tail.value)
    && (forall x: nat :: Queued(s, x) ==> s.after[x] == s.tail || (s.tail.Some? && Waits(s, s.tail.value)))
  }

  /** A retry has taken over the tail; then all who wait are about to run, and the submissions among them to fail. */
  ghost predicate IsDraining(s: Sys) {
    s.client.failed && forall x: nat :: Queued(s, x) ==> IsBehindLine(s, x) || MayStart(s, x)
  }

  /** Everything queued waits for operation i, directly or behind the line. */
  ghost predicate HoldsLine(s: Sys, i: nat) {
    && (forall x: nat :: Queued(s, x) ==> IsBehindLine(s, x) || s.after[x] == Some(i))
    && s.tail.Some? && (s.tail.value == i || Waits(s, s.tail.value))
  }

  predicate IsHolder(t: Task) { (t.Calling? && !t.reconcile) || t.Reloading? }

  /** While a submission or a reload waits for the host, everything queued waits for it. */
  ghost predicate HoldersHold(s: Sys) {
    forall i :: 0 <= i < |s.tasks| && IsHolder(s.tasks[i]) ==> HoldsLine(s, i)
  }

  /** Envelopes are made in the order of their submissions, and all before those still in line. */
  ghost predicate IsInOrder(s: Sys) {
    && (forall k :: 0 <= k < |s.issued| ==> s.issued[k].task < |s.tasks| && !IsQueued(s.tasks[s.issued[k].task]))
    && (forall k, l :: 0 <= k < l < |s.issued| ==> s.issued[k].task < s.issued[l].task)
    && (forall k, i: nat :: 0 <= k < |s.issued| && Waits(s, i) ==> s.issued[k].task < i)
  }

  ghost predicate LineInv(s: Sys) {
    && IsWellFormed(s) && IsLine(s) && HasOneRoot(s) && (TailEndsLine(s) || IsDraining(s))
    && HoldersHold(s)
  }

  ghost predicate QueueInv(s: Sys) {
    LineInv(s) && IsInOrder(s)
  }

  // ---- Facts about turns ----

  /** When a retry has taken over and all turns are over, nobody is queued any more. */
  lemma {:induction false} NobodyQueued(s: Sys, x: nat)
    requires IsWellFormed(s) && IsDraining(s) && IsAtRest(s)
    ensures !Queued(s, x)
    decreases x
  {
    if Queued(s, x) {
      NobodyQueued(s, s.after[x].value);
    }
  }

  lemma RestMeansTail(s: Sys)
    requires LineInv(s) && IsAtRest(s)
    ensures TailEndsLine(s)
  {
    if IsDraining(s) {
      forall x: nat ensures !Queued(s, x) {
        NobodyQueued(s, x);
      }
      forall i: nat ensures !Waits(s, i) {
        assert !Queued(s, i);
      }
    }
  }

  lemma StartsAfterNobodyInLine(s: Sys, x: nat)
    requires MayStart(s, x)
    ensures !IsBehindLine(s, x) && Queued(s, x)
  {
  }

  /** If somebody in line may start, so may all before him: he is the first in the queue. */
  lemma NextInLineIsFirst(s: Sys, m: nat)
    requires LineInv(s) && IsNext(s, m) && Waits(s, m)
    ensures forall x: nat :: Queued(s, x) && x != m ==> x > m && IsBehindLine(s, x) && s.after[x].value >= m
  {
    StartsAfterNobodyInLine(s, m);
    forall x: nat | x < m ensures !Queued(s, x) {
      NobodyBefore(s, x, m);
    }
  }

  lemma NobodyBefore(s: Sys, x: nat, m: nat)
    requires LineInv(s) && IsNext(s, m) && Waits(s, m) && x < m
    ensures !Queued(s, x)
  {
    StartsAfterNobodyInLine(s, m);
    assert Queued(s, x) && !IsBehindLine(s, x) ==> MayStart(s, x);
  }

  /** While somebody holds the line, nobody may start. */
  lemma HeldIsAtRest(s: Sys, i: nat)
    requires HoldsLine(s, i) && i < |s.tasks| && !IsSettled(s.tasks[i])
    ensures IsAtRest(s)
  {
    forall x | 0 <= x < |s.tasks| ensures !MayStart(s, x) {
      if MayStart(s, x) {
        StartsAfterNobodyInLine(s, x);
      }
    }
  }

  lemma NobodyHolds(s: Sys, x: nat)
    requires LineInv(s) && MayStart(s, x)
    ensures forall i :: 0 <= i < |s.tasks| ==> !IsHolder(s.tasks[i])
  {
    StartsAfterNobodyInLine(s, x);
    forall i | 0 <= i < |s.tasks| ensures !IsHolder(s.tasks[i]) {
      assert HoldsLine(s, i) ==> s.after[x] == Some(i);
    }
  }

  // ---- Steps ----

  /** The queue looks the same: nobody joined, left or changed places. */
  predicate SameQueue(s: Sys, t: Sys) {
    && t.after == s.after && |t.tasks| == |s.tasks| && t.tail == s.tail
    && forall i :: 0 <= i < |s.tasks| ==> IsQueued(s.tasks[i]) || IsQueued(t.tasks[i]) ==> t.tasks[i] == s.tasks[i]
  }

  lemma SameQueueFacts(s: Sys, t: Sys)
    requires SameQueue(s, t)
    ensures forall x: nat :: Waits(s, x) <==> Waits(t, x)
    ensures forall x: nat :: Queued(s, x) <==> Queued(t, x)
    ensures forall x: nat :: IsBehindLine(s, x) <==> IsBehindLine(t, x)
    ensures forall i: nat :: HoldsLine(s, i) <==> HoldsLine(t, i)
  {
  }

  /** What the host does, and what its answers do to calls, leaves the queue alone. */
  lemma SameQueueKeeps(s: Sys, t: Sys)
    requires QueueInv(s) && SameQueue(s, t) && t.issued == s.issued && TailEndsLine(s)
    requires forall i :: 0 <= i < |t.tasks| && IsHolder(t.tasks[i]) ==> IsHolder(s.tasks[i])
    ensures QueueInv(t)
  {
    SameQueueFacts(s, t);
  }

  /** The host's own steps, at any time. */
  lemma HostStepKeeps(s: Sys, t: Sys)
    requires QueueInv(s) && t.tasks == s.tasks && t.after == s.after && t.tail == s.tail && t.client == s.client && t.issued == s.issued
    ensures QueueInv(t)
  {
    assert SameQueue(s, t);
    SameQueueFacts(s, t);
    assert forall x: nat :: MayStart(s, x) <==> MayStart(t, x);
  }

  lemma JoinKeeps(s: Sys, task: Task)
    requires QueueInv(s) && IsAtRest(s) && IsQueued(task)
    ensures QueueInv(Enqueue(s, task))
  {
    RestMeansTail(s);
    var t, n := Enqueue(s, task), |s.tasks|;
    assert forall i :: 0 <= i < n ==> t.tasks[i] == s.tasks[i] && t.after[i] == s.after[i];
    JoinFacts(s, task);
    JoinKeepsHolders(s, task);
  }

  lemma JoinKeepsHolders(s: Sys, task: Task)
    requires IsWellFormed(s) && HoldersHold(s) && IsQueued(task)
    ensures HoldersHold(Enqueue(s, task))
  {
    var t := Enqueue(s, task);
    JoinFacts(s, task);
    forall i | 0 <= i < |t.tasks| && IsHolder(t.tasks[i]) ensures HoldsLine(t, i) {
      assert IsHolder(s.tasks[i]) && HoldsLine(s, i);
    }
  }

  lemma JoinFacts(s: Sys, task: Task)
    requires IsWellFormed(s) && IsQueued(task)
    ensures var t, n := Enqueue(s, task), |s.tasks|;
            && (forall x: nat :: Waits(t, x) <==> Waits(s, x) || (x == n && InLine(task)))
            && (forall x: nat :: Queued(t, x) <==> Queued(s, x) || x == n)
            && (forall x: nat :: x != n ==> (IsBehindLine(t, x) <==> IsBehindLine(s, x)))
            && (IsBehindLine(t, n) <==> s.tail.Some? && Waits(s, s.tail.value))
  {
  }

  /** The next in line takes his turn: he sends, and then holds the line, or he has failed. */
  lemma TurnInLineKeeps(s: Sys, m: nat, t: Sys)
    requires LineInv(s) && IsNext(s, m) && Waits(s, m)
    requires t.after == s.after && t.tail == s.tail && |t.tasks| == |s.tasks| && t.tasks == s.tasks[m := t.tasks[m]]
    requires t.client.failed == s.client.failed && !IsQueued(t.tasks[m])
    requires s.client.failed ==> IsSettled(t.tasks[m])
    ensures LineInv(t)
  {
    NextInLineIsFirst(s, m);
    TurnFacts(s, m, t);
    if IsDraining(s) {
      forall x: nat | Queued(t, x) ensures IsBehindLine(t, x) || MayStart(t, x) {
        assert t.tasks[x] == s.tasks[x];
      }
    }
    NobodyHolds(s, m);
  }

  lemma TurnFacts(s: Sys, m: nat, t: Sys)
    requires LineInv(s) && IsNext(s, m) && Waits(s, m)
    requires t.after == s.after && |t.tasks| == |s.tasks| && t.tasks == s.tasks[m := t.tasks[m]] && !IsQueued(t.tasks[m])
    ensures forall x: nat :: Waits(t, x) <==> Waits(s, x) && x != m
    ensures forall x: nat :: Queued(t, x) <==> Queued(s, x) && x != m
    ensures forall x: nat :: Queued(t, x) ==> x > m && (IsBehindLine(t, x) || t.after[x] == Some(m))
    ensures forall x: nat :: Queued(t, x) && IsBehindLine(t, x) ==> IsBehindLine(s, x)
  {
    NextInLineIsFirst(s, m);
  }

  /** A retry takes its turn: it has nothing to send, or it sends and becomes the tail. */
  lemma RetryTurnKeeps(s: Sys, r: nat, t: Sys)
    requires LineInv(s) && IsNext(s, r) && s.tasks[r].RetryQueued?
    requires t.after == s.after && |t.tasks| == |s.tasks| && t.tasks == s.tasks[r := t.tasks[r]]
    requires t.client.failed == s.client.failed && !IsQueued(t.tasks[r]) && !IsHolder(t.tasks[r])
    requires t.tail == s.tail || (s.client.failed && t.tail == Some(r))
    ensures LineInv(t)
  {
    RetryFacts(s, r, t);
    if t.tail != s.tail {
      TakeoverDrains(s, r, t);
    }
    NobodyHolds(s, r);
  }

  lemma RetryFacts(s: Sys, r: nat, t: Sys)
    requires LineInv(s) && IsNext(s, r) && s.tasks[r].RetryQueued?
    requires t.after == s.after && |t.tasks| == |s.tasks| && t.tasks == s.tasks[r := t.tasks[r]] && !IsQueued(t.tasks[r])
    ensures forall x: nat :: Waits(t, x) <==> Waits(s, x)
    ensures forall x: nat :: Queued(t, x) <==> Queued(s, x) && x != r
    ensures forall x: nat :: IsBehindLine(t, x) <==> IsBehindLine(s, x)
    ensures forall x: nat :: x != r && MayStart(s, x) ==> MayStart(t, x)
  {
  }

  /** A retry that sends takes over the tail, and everybody it cut off is about to run. */
  lemma TakeoverDrains(s: Sys, r: nat, t: Sys)
    requires LineInv(s) && IsNext(s, r) && s.tasks[r].RetryQueued?
    requires t.after == s.after && |t.tasks| == |s.tasks| && t.tasks == s.tasks[r := t.tasks[r]] && !IsQueued(t.tasks[r])
    requires t.client.failed == s.client.failed == true
    ensures IsDraining(t)
  {
    RetryFacts(s, r, t);
    StartsAfterNobodyInLine(s, r);
    forall x: nat | Queued(t, x) ensures IsBehindLine(t, x) || MayStart(t, x) {
      if !IsBehindLine(s, x) {
        assert s.after[x] == s.after[r];
        assert MayStart(s, x);
      }
    }
  }

  lemma OrderStays(s: Sys, t: Sys)
    requires IsInOrder(s) && t.issued == s.issued && |t.tasks| >= |s.tasks|
    requires forall i :: 0 <= i < |s.tasks| && !IsQueued(s.tasks[i]) ==> !IsQueued(t.tasks[i])
    requires forall i: nat :: Waits(t, i) ==> Waits(s, i) || i >= |s.tasks|
    ensures IsInOrder(t)
  {
  }

  /** The first in the queue makes the next envelope. */
  lemma IssueKeepsOrder(s: Sys, m: nat, t: Sys, x: Issued)
    requires QueueInv(s) && IsNext(s, m) && Waits(s, m) && x.task == m
    requires t.issued == s.issued + [x] && |t.tasks| == |s.tasks| && t.tasks == s.tasks[m := t.tasks[m]] && !IsQueued(t.tasks[m])
    ensures IsInOrder(t)
  {
    NextInLineIsFirst(s, m);
    forall i: nat | Waits(t, i) ensures Waits(s, i) && m < i {
      assert Queued(s, i);
    }
  }

  lemma RunKeepsQueue(s: Sys, i: nat, newId: Id)
    requires QueueInv(s) && IsNext(s, i)
    ensures QueueInv(RunTask(s, i, newId))
  {
    var t := RunTask(s, i, newId);
    match s.tasks[i]
    case SubmitQueued(payload, target) =>
      TurnInLineKeeps(s, i, t);
      if BeginSubmit(s.client, target, payload, newId).request.Some? {
        IssueKeepsOrder(s, i, t, t.issued[|s.issued|]);
      } else {
        OrderStays(s, t);
      }
    case RetryQueued =>
      RetryTurnKeeps(s, i, t);
      OrderStays(s, t);
    case ReloadQueued =>
      TurnInLineKeeps(s, i, t);
      OrderStays(s, t);
  }

  /** An answer changes one call, and perhaps the client; nobody's place changes. */
  lemma AnswerKeepsQueue(s: Sys, i: nat, t: Sys)
    requires QueueInv(s) && IsAtRest(s) && i < |s.tasks| && IsOut(s.tasks[i])
    requires t.after == s.after && t.tail == s.tail && t.issued == s.issued && |t.tasks| == |s.tasks|
    requires t.tasks == s.tasks[i := t.tasks[i]] && (IsSettled(t.tasks[i]) || t.tasks[i].Fetching?)
    ensures QueueInv(t)
  {
    RestMeansTail(s);
    SameQueueKeeps(s, t);
  }

  lemma StepKeepsQueue(s: Sys, e: Event)
    requires QueueInv(s) && Enabled(s, e)
    ensures QueueInv(Next(s, e))
  {
    match e
    case CallSubmit(payload) => JoinKeeps(s, SubmitQueued(payload, CaptureTarget(s.client)));
    case CallRetry => JoinKeeps(s, RetryQueued);
    case CallReload => JoinKeeps(s, ReloadQueued);
    case Run(i, newId) => RunKeepsQueue(s, i, newId);
    case HostServes(k) => HostStepKeeps(s, Next(s, e));
    case OthersCommand(r) => HostStepKeeps(s, Next(s, e));
    case OthersRebase(a) => HostStepKeeps(s, Next(s, e));
    case DeliverAnswer(i, a) => AnswerKeepsQueue(s, i, Next(s, e));
    case DeliverState(i, rev) => AnswerKeepsQueue(s, i, Next(s, e));
    case DeliverError(i) => AnswerKeepsQueue(s, i, Next(s, e));
  }

  lemma StartIsOrderly(h: Host, hostEpoch: nat, contextId: Id, actor: string)
    ensures QueueInv(JustLoaded(h, hostEpoch, contextId, actor))
  {
  }

  lemma {:induction false} QueueAlong(s: Sys, es: seq<Event>)
    requires QueueInv(s) && Feasible(s, es)
    ensures QueueInv(RunEvents(s, es))
    decreases |es|
  {
    if es != [] {
      StepKeepsQueue(s, es[0]);
      QueueAlong(Next(s, es[0]), es[1..]);
    }
  }

  // ---- Submissions and their envelopes ----

  /** The submission is under way with this envelope, was confirmed for it, or has failed. */
  predicate Carries(t: Task, e: CommandEnvelope) {
    (t.Calling? || t.Fetching? || t.Resolved? ==> t.envelope == e) && !t.Reloading? && !IsQueued(t)
  }

  predicate OwnEnvelopes(s: Sys) {
    forall k :: 0 <= k < |s.issued| ==> s.issued[k].task < |s.tasks| && Carries(s.tasks[s.issued[k].task], s.issued[k].envelope)
  }

  lemma StepKeepsEnvelopes(s: Sys, e: Event)
    requires OwnEnvelopes(s) && Enabled(s, e)
    ensures OwnEnvelopes(Next(s, e))
  {
    var t := Next(s, e);
    forall k | 0 <= k < |t.issued| ensures t.issued[k].task < |t.tasks| && Carries(t.tasks[t.issued[k].task], t.issued[k].envelope) {
      if k < |s.issued| {
        assert Carries(s.tasks[s.issued[k].task], s.issued[k].envelope);
      }
    }
  }

  lemma {:induction false} EnvelopesAlong(s: Sys, es: seq<Event>)
    requires OwnEnvelopes(s) && Feasible(s, es)
    ensures OwnEnvelopes(RunEvents(s, es))
    decreases |es|
  {
    if es != [] {
      StepKeepsEnvelopes(s, es[0]);
      EnvelopesAlong(Next(s, es[0]), es[1..]);
    }
  }
}
