/** How an exchange with the worker ends, told by its messages. */
module WorkerExchange {
  import opened Contracts
  import opened RenderSupervisor

  // ---- Messages ----

  /** The first descriptor of this role and content. */
  predicate IsFirstAt(ds: seq<Descriptor>, role: Role, hash: string, i: nat) {
    && i < |ds| && ds[i].role == role && ds[i].hash == hash
    && forall j :: 0 <= j < i ==> ds[j].role != role || ds[j].hash != hash
  }

  predicate HasNone(ds: seq<Descriptor>, role: Role, hash: string) {
    forall i :: 0 <= i < |ds| ==> ds[i].role != role || ds[i].hash != hash
  }

  lemma TailAt(ds: seq<Descriptor>)
    requires ds != []
    ensures forall k :: 0 <= k < |ds| - 1 ==> ds[1..][k] == ds[k + 1]
  {
  }

  lemma {:induction false} NoneIsFound(ds: seq<Descriptor>, role: Role, hash: string)
    requires HasNone(ds, role, hash)
    ensures FindDescriptor(ds, role, hash) == None
  {
    if ds != [] {
      TailAt(ds);
      NoneIsFound(ds[1..], role, hash);
    }
  }

  lemma {:induction false} FirstIsFound(ds: seq<Descriptor>, role: Role, hash: string, i: nat)
    requires IsFirstAt(ds, role, hash, i)
    ensures FindDescriptor(ds, role, hash) == Some(ds[i])
  {
    if i > 0 {
      assert ds[0].role != role || ds[0].hash != hash;
      TailAt(ds);
      FirstIsFound(ds[1..], role, hash, i - 1);
    }
  }

  lemma SomeIsFirst(ds: seq<Descriptor>, role: Role, hash: string) returns (i: nat)
    requires !HasNone(ds, role, hash)
    ensures IsFirstAt(ds, role, hash, i)
  {
    var k :| 0 <= k < |ds| && ds[k].role == role && ds[k].hash == hash;
    i := 0;
    while ds[i].role != role || ds[i].hash != hash
      invariant i <= k && forall j :: 0 <= j < i ==> ds[j].role != role || ds[j].hash != hash
      decreases k - i
    {
      i := i + 1;
    }
  }

  lemma FoundIsFirst(ds: seq<Descriptor>, role: Role, hash: string)
    ensures HasNone(ds, role, hash) ==> FindDescriptor(ds, role, hash) == None
    ensures forall i: nat :: IsFirstAt(ds, role, hash, i) ==> FindDescriptor(ds, role, hash) == Some(ds[i])
    ensures !HasNone(ds, role, hash) ==> exists i: nat :: IsFirstAt(ds, role, hash, i)
  {
    if HasNone(ds, role, hash) {
      NoneIsFound(ds, role, hash);
    } else {
      var i := SomeIsFirst(ds, role, hash);
    }
    forall i: nat | IsFirstAt(ds, role, hash, i) ensures FindDescriptor(ds, role, hash) == Some(ds[i]) {
      FirstIsFound(ds, role, hash, i);
    }
  }

  /** A resource request of this rendering, for something declared that the host holds in the declared size. */
  ghost predicate IsProper(m: Message, manifest: Manifest, held: seq<Descriptor>, generation: nat) {
    && m.ResourceRequest? && m.requestId == manifest.requestId && m.generation == generation
    && exists i: nat, j: nat ::
         IsFirstAt(manifest.declared, m.role, m.hash, i) && IsFirstAt(held, m.role, m.hash, j)
         && held[j].sizeBytes == manifest.declared[i].sizeBytes
  }

  /** The result of this rendering, with valid contents. */
  predicate IsAnswer(m: Message, manifest: Manifest, generation: nat) {
    m == Rendered(manifest.requestId, generation, manifest.renderKey, true, true)
  }

  /** The worker says of this rendering that it failed, and is not itself at fault. */
  predicate IsRefusal(m: Message, manifest: Manifest, generation: nat) {
    && m.WorkerFailed? && m.requestId == manifest.requestId && m.generation == generation
    && m.code != "workerProtocol" && m.code != "invalidManifest" && m.code != "resourceHashMismatch"
  }

  /** The first n messages are proper requests for different roles, and all could be answered. */
  ghost predicate AllAnswered(feed: Feed, manifest: Manifest, held: seq<Descriptor>, generation: nat, n: nat) {
    forall i :: 0 <= i < n ==>
      IsProper(feed.inbox(i), manifest, held, generation) && feed.written(i) && IsNewRole(feed, i)
  }

  predicate IsNewRole(feed: Feed, i: nat)
    requires feed.inbox(i).ResourceRequest?
  {
    forall j :: 0 <= j < i && feed.inbox(j).ResourceRequest? ==> feed.inbox(j).role != feed.inbox(i).role
  }

  // ---- Going on ----

  lemma ProperIsServable(m: Message, manifest: Manifest, held: seq<Descriptor>, generation: nat, served: seq<Role>)
    ensures IsServable(m, manifest, held, generation, served) <==>
            IsProper(m, manifest, held, generation) && m.role !in served
  {
    if m.ResourceRequest? {
      FoundIsFirst(manifest.declared, m.role, m.hash);
      FoundIsFirst(held, m.role, m.hash);
    }
  }

  /** The roles of the first messages. */
  predicate AreRoles(feed: Feed, served: seq<Role>) {
    forall i :: 0 <= i < |served| ==> feed.inbox(i).ResourceRequest? && feed.inbox(i).role == served[i]
  }

  /** The exchange has come through n messages. */
  ghost predicate HasCome(feed: Feed, manifest: Manifest, held: seq<Descriptor>, generation: nat, served: seq<Role>) {
    && IsGoing(feed.inbox, feed.written, manifest, held, generation, served) && AreRoles(feed, served)
    && AllAnswered(feed, manifest, held, generation, |served|)
  }

  lemma ComesOn(feed: Feed, manifest: Manifest, held: seq<Descriptor>, generation: nat, served: seq<Role>)
    requires HasCome(feed, manifest, held, generation, served)
    ensures var m := feed.inbox(|served|);
            IsServable(m, manifest, held, generation, served) <==>
            IsProper(m, manifest, held, generation) && IsNewRole(feed, |served|)
    ensures var m := feed.inbox(|served|);
            IsServable(m, manifest, held, generation, served) && feed.written(|served|) ==>
            |served| < |ALL_ROLES| && HasCome(feed, manifest, held, generation, served + [m.role])
  {
    var m := feed.inbox(|served|);
    ProperIsServable(m, manifest, held, generation, served);
    if IsServable(m, manifest, held, generation, served) && feed.written(|served|) {
      GoesOn(feed.inbox, feed.written, manifest, held, generation, served);
    }
  }

  /** From here the exchange ends with the verdict on a message that is no request to be served, or is broken. */
  lemma {:induction false} EndsAt(feed: Feed, manifest: Manifest, held: seq<Descriptor>, generation: nat, served: seq<Role>)
    returns (n: nat)
    requires HasCome(feed, manifest, held, generation, served)
    ensures AllAnswered(feed, manifest, held, generation, n)
    ensures var outcome := OutcomeFrom(feed, manifest, held, generation, served);
            outcome == BROKEN || outcome == Verdict(feed.inbox(n), manifest, generation)
    decreases |ALL_ROLES| - |served|
  {
    var m := feed.inbox(|served|);
    ComesOn(feed, manifest, held, generation, served);
    n := |served|;
    if IsServable(m, manifest, held, generation, served) && feed.written(|served|) {
      n := EndsAt(feed, manifest, held, generation, served + [m.role]);
    }
  }

  /** When the first n messages are all answered, the exchange comes to the next one. */
  lemma {:induction false} ComesTo(feed: Feed, manifest: Manifest, held: seq<Descriptor>, generation: nat, n: nat)
    returns (served: seq<Role>)
    requires AllAnswered(feed, manifest, held, generation, n)
    ensures |served| == n && HasCome(feed, manifest, held, generation, served)
    ensures OutcomeFrom(feed, manifest, held, generation, served) == OutcomeFrom(feed, manifest, held, generation, [])
  {
    if n == 0 {
      served := [];
    } else {
      var before := ComesTo(feed, manifest, held, generation, n - 1);
      ComesOn(feed, manifest, held, generation, before);
      served := before + [feed.inbox(n - 1).role];
    }
  }

  ghost predicate Comes(feed: Feed, manifest: Manifest, held: seq<Descriptor>, generation: nat, n: nat) {
    feed.asked && AllAnswered(feed, manifest, held, generation, n)
  }

  /**
   * The rendering succeeds exactly when, behind requests that were all proper and answered, its own valid result comes;
   * it is refused exactly when the worker says so there; a retry is allowed exactly when the connection is lost there;
   * anything else breaks the worker.
   */
  lemma ExchangeEndsExactlyWhen(feed: Feed, manifest: Manifest, held: seq<Descriptor>, generation: nat)
    ensures var outcome := ExchangeOutcome(feed, manifest, held, generation);
            && (outcome == OK <==>
                  exists n: nat :: Comes(feed, manifest, held, generation, n) && IsAnswer(feed.inbox(n), manifest, generation))
            && (outcome == REFUSED <==>
                  exists n: nat :: Comes(feed, manifest, held, generation, n) && IsRefusal(feed.inbox(n), manifest, generation))
            && (outcome == CRASHED <==> exists n: nat :: Comes(feed, manifest, held, generation, n) && feed.inbox(n).Lost?)
            && (outcome in {OK, REFUSED, CRASHED, BROKEN})
  {
    if feed.asked {
      var n := EndsAt(feed, manifest, held, generation, []);
      assert Comes(feed, manifest, held, generation, n);
      VerdictIs(feed.inbox(n), manifest, generation);
    }
    forall n: nat | Comes(feed, manifest, held, generation, n) && !feed.inbox(n).ResourceRequest?
      ensures ExchangeOutcome(feed, manifest, held, generation) == Verdict(feed.inbox(n), manifest, generation)
    {
      var served := ComesTo(feed, manifest, held, generation, n);
    }
    forall m: Message ensures VerdictIsRight(m, manifest, generation) {
      VerdictIs(m, manifest, generation);
    }
  }

  predicate VerdictIsRight(m: Message, manifest: Manifest, generation: nat) {
    var verdict := Verdict(m, manifest, generation);
    && (verdict == OK <==> IsAnswer(m, manifest, generation)) && (verdict == REFUSED <==> IsRefusal(m, manifest, generation))
    && (verdict == CRASHED <==> m.Lost?) && verdict in {OK, REFUSED, CRASHED, BROKEN}
  }

  lemma VerdictIs(m: Message, manifest: Manifest, generation: nat)
    ensures VerdictIsRight(m, manifest, generation)
  {
  }

  // ---- Whole calls ----

  ghost predicate Answers(feed: Feed, manifest: Manifest, held: seq<Descriptor>, generation: nat) {
    exists n: nat :: Comes(feed, manifest, held, generation, n) && IsAnswer(feed.inbox(n), manifest, generation)
  }

  ghost predicate Loses(feed: Feed, manifest: Manifest, held: seq<Descriptor>, generation: nat) {
    exists n: nat :: Comes(feed, manifest, held, generation, n) && feed.inbox(n).Lost?
  }

  /** Inputs and manifest are in order, and the worker that is there is alive, or there is none alive and a new one starts. */
  predicate CanAsk(s: Supervision, w: World) {
    && w.inputsOk && w.manifestOk
    && (s.worker.Some? ==> w.alive.Some?) && ((s.worker.Some? && w.alive == Some(true)) || w.starts)
  }

  /** The worker's generation in the first exchange: that of the live one, or the next. */
  function FirstGeneration(s: Supervision, w: World): nat {
    if s.worker.Some? && w.alive == Some(true) then s.worker.value.generation else s.nextGeneration + 1
  }

  /** The generation of the worker started after a loss. */
  function SecondGeneration(s: Supervision, w: World): nat {
    if s.worker.Some? && w.alive == Some(true) then s.nextGeneration + 1 else s.nextGeneration + 2
  }

  lemma ReadyAsks(s: Supervision, w: World)
    requires IsAtRest(s)
    ensures Ready(s, w).error.None? <==> CanAsk(s, w)
    ensures CanAsk(s, w) ==>
              var t := Ready(s, w).state;
              && IsAtRest(t) && t.worker == Some(Worker(FirstGeneration(s, w))) && t.nextRequestId == s.nextRequestId + 1
              && t.nextGeneration + 1 == SecondGeneration(s, w)
  {
    ReadyRests(s, w);
  }

  lemma AttemptAnswers(s: Supervision, job: Job, feed: Feed)
    requires IsAtRest(s) && s.worker.Some?
    ensures var generation := s.worker.value.generation;
            var r, manifest := Attempt(s, job, feed), Manifest(s.nextRequestId, generation, job.key, job.declared);
            && (r.result == if Answers(feed, manifest, job.held, generation) then Ok(job.key) else Err(RenderFailed))
            && (r.crash <==> Loses(feed, manifest, job.held, generation))
            && IsAtRest(r.state) && r.state.nextRequestId == s.nextRequestId && r.state.nextGeneration == s.nextGeneration
            && (r.crash ==> r.state.worker.None?)
  {
    AttemptRests(s, job, feed);
    ExchangeEndsExactlyWhen(feed, ManifestFor(s, job), job.held, s.worker.value.generation);
  }

  lemma AttemptsAnswer(s: Supervision, job: Job, w: World)
    requires IsAtRest(s) && s.worker.Some?
    ensures var g, h := s.worker.value.generation, s.nextGeneration + 1;
            var first := Manifest(s.nextRequestId, g, job.key, job.declared);
            var second := Manifest(s.nextRequestId + 1, h, job.key, job.declared);
            && (Attempts(s, job, w).result.Ok? <==>
                  || Answers(w.first, first, job.held, g)
                  || (Loses(w.first, first, job.held, g) && w.restarts && Answers(w.second, second, job.held, h)))
            && (Attempts(s, job, w).result.Ok? ==> Attempts(s, job, w).result.value == job.key)
  {
    AttemptAnswers(s, job, w.first);
    TriesAgain(s, job, w);
    if Attempt(s, job, w.first).crash {
      LostHasNoResult(s, job, w.first);
      RetryAnswers(Attempt(s, job, w.first).state, job, w);
    }
  }

  lemma TriesAgain(s: Supervision, job: Job, w: World)
    ensures var first := Attempt(s, job, w.first);
            Attempts(s, job, w).result ==
            if first.result == Err(RenderFailed) && first.crash then Retry(first.state, job, w).result else first.result
  {
  }

  lemma LostHasNoResult(s: Supervision, job: Job, feed: Feed)
    requires IsAtRest(s) && s.worker.Some? && Attempt(s, job, feed).crash
    ensures Attempt(s, job, feed).result == Err(RenderFailed) && Attempt(s, job, feed).state.worker.None?
  {
    AttemptRests(s, job, feed);
  }

  lemma RetryAnswers(s: Supervision, job: Job, w: World)
    requires IsAtRest(s) && s.worker.None?
    ensures var h, r := s.nextGeneration + 1, Retry(s, job, w);
            && (r.result.Ok? <==>
                  w.restarts && Answers(w.second, Manifest(s.nextRequestId + 1, h, job.key, job.declared), job.held, h))
            && (r.result.Ok? ==> r.result.value == job.key)
  {
    var numbered := s.(nextRequestId := s.nextRequestId + 1);
    EnsureRests(numbered, None, w.restarts);
    if w.restarts {
      AttemptAnswers(Ensure(numbered, None, true).0, job, w.second);
    }
  }

  /**
   * From rest a call succeeds exactly when it can ask, and either its first exchange brings its own result, or that
   * exchange loses the worker, another one starts, and the second exchange brings it.
   */
  lemma RendersExactlyWhen(s: Supervision, job: Job, w: World)
    requires IsAtRest(s)
    ensures var g, h := FirstGeneration(s, w), SecondGeneration(s, w);
            var first := Manifest(s.nextRequestId + 1, g, job.key, job.declared);
            var second := Manifest(s.nextRequestId + 2, h, job.key, job.declared);
            && (Render(s, job, w).result.Ok? <==>
                  CanAsk(s, w)
                  && (|| Answers(w.first, first, job.held, g)
                      || (Loses(w.first, first, job.held, g) && w.restarts && Answers(w.second, second, job.held, h))))
            && (Render(s, job, w).result.Ok? ==> Render(s, job, w).result.value == job.key)
  {
    ReadyAsks(s, w);
    if CanAsk(s, w) {
      AttemptsAnswer(Ready(s, w).state, job, w);
    }
  }
}
