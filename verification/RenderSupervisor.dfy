/** The supervisor over the scheduler and one worker process, and the exchange of messages with that worker. */
module RenderSupervisor {
  import opened Contracts
  import opened RenderScheduler

  // ---- The exchange ----

  datatype Role =
    | BodyFontRegular | BodyFontHeavy | IconFont | HeadingFontRegular
    | HeadingFontBold | SelectedBodyRegular | SelectedBodyBold | Avatar

  const ALL_ROLES: set<Role> :=
    {BodyFontRegular, BodyFontHeavy, IconFont, HeadingFontRegular,
     HeadingFontBold, SelectedBodyRegular, SelectedBodyBold, Avatar}

  datatype Descriptor = Descriptor(role: Role, hash: string, sizeBytes: nat)

  datatype Manifest = Manifest(requestId: nat, generation: nat, renderKey: string, declared: seq<Descriptor>)

  /** What the host waits for: a message of the worker, or the ways in which none arrives. */
  datatype Message =
    | ResourceRequest(requestId: nat, generation: nat, role: Role, hash: string)
    | Rendered(requestId: nat, generation: nat, renderKey: string, pagesValid: bool, bytesValid: bool)
    | WorkerFailed(requestId: nat, generation: nat, code: string)
    | Hello
    | Garbled
    | Lost
    | TimedOut

  /** `crash` allows one retry; `broken` means the worker must not be used again. */
  datatype Outcome = Outcome(ok: bool, broken: bool, crash: bool)

  const OK: Outcome := Outcome(true, false, false)
  const BROKEN: Outcome := Outcome(false, true, false)
  const CRASHED: Outcome := Outcome(false, true, true)
  const REFUSED: Outcome := Outcome(false, false, false)

  function FindDescriptor(ds: seq<Descriptor>, role: Role, hash: string): Option<Descriptor> {
    if ds == [] then None
    else if ds[0].role == role && ds[0].hash == hash then Some(ds[0])
    else FindDescriptor(ds[1..], role, hash)
  }

  /** The request is for this rendering, for a role not served yet, declared, held by the host and of the declared size. */
  predicate IsServable(m: Message, manifest: Manifest, held: seq<Descriptor>, generation: nat, served: seq<Role>) {
    && m.ResourceRequest?
    && m.requestId == manifest.requestId && m.generation == generation && m.role !in served
    && var declared := FindDescriptor(manifest.declared, m.role, m.hash);
       var resource := FindDescriptor(held, m.role, m.hash);
       declared.Some? && resource.Some? && resource.value.sizeBytes == declared.value.sizeBytes
  }

  /** How the exchange ends at a message that is not a servable request. */
  function Verdict(m: Message, manifest: Manifest, generation: nat): Outcome {
    match m
    case ResourceRequest(_, _, _, _) => BROKEN
    case Rendered(requestId, g, key, pagesValid, bytesValid) =>
      if requestId != manifest.requestId || g != generation || key != manifest.renderKey || !pagesValid || !bytesValid
      then BROKEN else OK
    case WorkerFailed(requestId, g, code) =>
      if requestId != manifest.requestId || g != generation then BROKEN
      else if code == "workerProtocol" || code == "invalidManifest" || code == "resourceHashMismatch" then BROKEN
      else REFUSED
    case Hello => BROKEN
    case Garbled => BROKEN
    case Lost => CRASHED
    case TimedOut => BROKEN
  }

  predicate AreServed(inbox: nat -> Message, manifest: Manifest, held: seq<Descriptor>, generation: nat, served: seq<Role>) {
    forall i :: 0 <= i < |served| ==>
      IsServable(inbox(i), manifest, held, generation, served[..i]) && inbox(i).role == served[i]
  }

  predicate NoRepeats(served: seq<Role>) {
    forall i, j :: 0 <= i < j < |served| ==> served[i] != served[j]
  }

  function RolesOf(served: seq<Role>): set<Role> {
    set r | r in served
  }

  lemma FewRoles(served: seq<Role>)
    requires NoRepeats(served)
    ensures |served| == |RolesOf(served)| <= |ALL_ROLES|
  {
    Sizes(served);
    forall r: Role ensures r in ALL_ROLES {
      match r
      case BodyFontRegular => case BodyFontHeavy => case IconFont => case HeadingFontRegular =>
      case HeadingFontBold => case SelectedBodyRegular => case SelectedBodyBold => case Avatar =>
    }
    SubsetSize(RolesOf(served), ALL_ROLES);
  }

  lemma {:induction false} Sizes(served: seq<Role>)
    requires NoRepeats(served)
    ensures |RolesOf(served)| == |served|
  {
    if served != [] {
      var init, last := served[..|served| - 1], served[|served| - 1];
      Sizes(init);
      assert RolesOf(served) == RolesOf(init) + {last};
      assert last !in init;
    }
  }

  lemma {:induction false} SubsetSize(a: set<Role>, b: set<Role>)
    requires a <= b
    ensures |a| <= |b|
  {
    if a != {} {
      var x :| x in a;
      SubsetSize(a - {x}, b - {x});
    }
  }

  /** Every message so far was a request that was served and answered. */
  predicate IsGoing(inbox: nat -> Message, written: nat -> bool, manifest: Manifest, held: seq<Descriptor>,
                    generation: nat, served: seq<Role>)
  {
    && AreServed(inbox, manifest, held, generation, served) && NoRepeats(served) && |served| <= |ALL_ROLES|
    && AllWritten(written, |served|)
  }

  /**
   * The first messages are servable requests for different roles, all answered but perhaps the last; the exchange
   * ends because that answer could not be written, or with the verdict on the next message, which is not servable.
   */
  predicate Ends(inbox: nat -> Message, written: nat -> bool, manifest: Manifest, held: seq<Descriptor>,
                 generation: nat, served: seq<Role>, outcome: Outcome)
  {
    var n := |served|;
    && AreServed(inbox, manifest, held, generation, served) && NoRepeats(served) && n <= |ALL_ROLES|
    && (n > 0 ==> AllWritten(written, n - 1))
    && if n > 0 && !written(n - 1) then outcome == BROKEN
       else !IsServable(inbox(n), manifest, held, generation, served) && outcome == Verdict(inbox(n), manifest, generation)
  }

  lemma EndsHere(inbox: nat -> Message, written: nat -> bool, manifest: Manifest, held: seq<Descriptor>,
                 generation: nat, served: seq<Role>)
    requires IsGoing(inbox, written, manifest, held, generation, served)
    requires !IsServable(inbox(|served|), manifest, held, generation, served)
    ensures Ends(inbox, written, manifest, held, generation, served, Verdict(inbox(|served|), manifest, generation))
  {
  }

  lemma GoesOn(inbox: nat -> Message, written: nat -> bool, manifest: Manifest, held: seq<Descriptor>,
               generation: nat, served: seq<Role>)
    requires IsGoing(inbox, written, manifest, held, generation, served)
    requires IsServable(inbox(|served|), manifest, held, generation, served)
    ensures |served| < |ALL_ROLES|
    ensures var more := served + [inbox(|served|).role];
            && RolesOf(more) == RolesOf(served) + {inbox(|served|).role}
            && if written(|served|) then IsGoing(inbox, written, manifest, held, generation, more)
               else Ends(inbox, written, manifest, held, generation, more, BROKEN)
  {
    var role := inbox(|served|).role;
    ServedNext(inbox, manifest, held, generation, served);
    FewRoles(served + [role]);
    RolesGrow(served, role);
    AllWrittenSoFar(written, served, role);
  }

  lemma RolesGrow(served: seq<Role>, role: Role)
    ensures RolesOf(served + [role]) == RolesOf(served) + {role}
  {
  }

  predicate AllWritten(written: nat -> bool, n: nat) {
    forall i :: 0 <= i < n ==> written(i)
  }

  lemma AllWrittenSoFar(written: nat -> bool, served: seq<Role>, role: Role)
    requires AllWritten(written, |served|)
    ensures AllWritten(written, |served + [role]| - 1)
    ensures written(|served|) ==> AllWritten(written, |served + [role]|)
  {
  }

  /** The role to serve for a message, if it is a request that may be served. */
  method CheckRequest(m: Message, manifest: Manifest, held: seq<Descriptor>, generation: nat, sent: set<Role>)
    returns (role: Option<Role>)
    ensures forall served :: RolesOf(served) == sent ==>
              role == if IsServable(m, manifest, held, generation, served) then Some(m.role) else None
  {
    if !m.ResourceRequest? || m.requestId != manifest.requestId || m.generation != generation || m.role in sent {
      return None;
    }
    var declared := FindDescriptor(manifest.declared, m.role, m.hash);
    var resource := FindDescriptor(held, m.role, m.hash);
    if declared.None? || resource.None? || resource.value.sizeBytes != declared.value.sizeBytes {
      return None;
    }
    return Some(m.role);
  }

  lemma NextRole(served: seq<Role>, role: Role)
    requires NoRepeats(served) && role !in served
    ensures NoRepeats(served + [role]) && |served| < |ALL_ROLES|
  {
    FewRoles(served + [role]);
  }

  /** How one exchange goes: whether the manifest could be sent, what the worker sends, which answers could be written. */
  datatype Feed = Feed(asked: bool, inbox: nat -> Message, written: nat -> bool)

  /** The end of the exchange after these roles have been served. */
  function OutcomeFrom(feed: Feed, manifest: Manifest, held: seq<Descriptor>, generation: nat, served: seq<Role>): Outcome
    requires NoRepeats(served) && |served| <= |ALL_ROLES|
    decreases |ALL_ROLES| - |served|
  {
    var m := feed.inbox(|served|);
    if !IsServable(m, manifest, held, generation, served) then Verdict(m, manifest, generation)
    else if !feed.written(|served|) then BROKEN
    else
      NextRole(served, m.role);
      OutcomeFrom(feed, manifest, held, generation, served + [m.role])
  }

  function ExchangeOutcome(feed: Feed, manifest: Manifest, held: seq<Descriptor>, generation: nat): Outcome {
    if !feed.asked then BROKEN else OutcomeFrom(feed, manifest, held, generation, [])
  }

  /**
   * The message loop. Whatever the worker sends, each role is served at most once, so the loop ends after at most
   * one message per role and one more.
   */
  method Exchange(manifest: Manifest, held: seq<Descriptor>, generation: nat, feed: Feed)
    returns (outcome: Outcome, served: seq<Role>)
    ensures outcome == ExchangeOutcome(feed, manifest, held, generation)
    ensures if feed.asked then Ends(feed.inbox, feed.written, manifest, held, generation, served, outcome)
            else served == [] && outcome == BROKEN
  {
    served := [];
    if !feed.asked {
      return BROKEN, served;
    }
    var sent: set<Role> := {};
    while true
      invariant IsGoing(feed.inbox, feed.written, manifest, held, generation, served) && sent == RolesOf(served)
      invariant OutcomeFrom(feed, manifest, held, generation, served) == ExchangeOutcome(feed, manifest, held, generation)
      decreases |ALL_ROLES| - |served|
    {
      var m := feed.inbox(|served|);
      var role := CheckRequest(m, manifest, held, generation, sent);
      if role.None? {
        EndsHere(feed.inbox, feed.written, manifest, held, generation, served);
        return Verdict(m, manifest, generation), served;
      }
      GoesOn(feed.inbox, feed.written, manifest, held, generation, served);
      var k := |served|;
      sent := sent + {role.value};
      served := served + [role.value];
      if !feed.written(k) {
        return BROKEN, served;
      }
    }
  }

  /** The connection was lost while the host waited, after it had answered these requests. */
  predicate LostAfter(feed: Feed, manifest: Manifest, held: seq<Descriptor>, generation: nat, served: seq<Role>) {
    feed.asked && IsGoing(feed.inbox, feed.written, manifest, held, generation, served) && feed.inbox(|served|).Lost?
  }

  ghost predicate IsLost(feed: Feed, manifest: Manifest, held: seq<Descriptor>, generation: nat) {
    exists served :: LostAfter(feed, manifest, held, generation, served)
  }

  lemma {:induction false} CrashedFrom(feed: Feed, manifest: Manifest, held: seq<Descriptor>, generation: nat, served: seq<Role>)
    requires feed.asked && IsGoing(feed.inbox, feed.written, manifest, held, generation, served)
    ensures OutcomeFrom(feed, manifest, held, generation, served).crash ==> IsLost(feed, manifest, held, generation)
    decreases |ALL_ROLES| - |served|
  {
    var m := feed.inbox(|served|);
    if IsServable(m, manifest, held, generation, served) {
      if feed.written(|served|) {
        GoesOn(feed.inbox, feed.written, manifest, held, generation, served);
        CrashedFrom(feed, manifest, held, generation, served + [m.role]);
      }
    } else if m.Lost? {
      assert LostAfter(feed, manifest, held, generation, served);
    }
  }

  /** From the roles served so far the exchange goes on to those that will have been served. */
  lemma {:induction false} SameOutcome(feed: Feed, manifest: Manifest, held: seq<Descriptor>, generation: nat, served: seq<Role>, k: nat)
    requires IsGoing(feed.inbox, feed.written, manifest, held, generation, served) && k <= |served|
    ensures NoRepeats(served[..k])
    ensures OutcomeFrom(feed, manifest, held, generation, served[..k]) == OutcomeFrom(feed, manifest, held, generation, served)
    decreases |served| - k
  {
    if k == |served| {
      assert served[..k] == served;
    } else {
      SameOutcome(feed, manifest, held, generation, served, k + 1);
      assert served[..k] + [served[k]] == served[..k + 1];
    }
  }

  /** An exchange allows a retry if and only if the connection was lost; and then the worker is out of use. */
  lemma CrashMeansLost(feed: Feed, manifest: Manifest, held: seq<Descriptor>, generation: nat)
    ensures var outcome := ExchangeOutcome(feed, manifest, held, generation);
            (outcome.crash <==> IsLost(feed, manifest, held, generation)) && (outcome.crash ==> outcome == CRASHED)
  {
    if feed.asked {
      assert IsGoing(feed.inbox, feed.written, manifest, held, generation, []);
      CrashedFrom(feed, manifest, held, generation, []);
      CrashIsBroken(feed, manifest, held, generation, []);
    }
    if IsLost(feed, manifest, held, generation) {
      var served :| LostAfter(feed, manifest, held, generation, served);
      SameOutcome(feed, manifest, held, generation, served, 0);
      assert served[..0] == [];
    }
  }

  lemma {:induction false} CrashIsBroken(feed: Feed, manifest: Manifest, held: seq<Descriptor>, generation: nat, served: seq<Role>)
    requires NoRepeats(served) && |served| <= |ALL_ROLES|
    ensures OutcomeFrom(feed, manifest, held, generation, served).crash ==>
              OutcomeFrom(feed, manifest, held, generation, served) == CRASHED
    decreases |ALL_ROLES| - |served|
  {
    var m := feed.inbox(|served|);
    if IsServable(m, manifest, held, generation, served) && feed.written(|served|) {
      NextRole(served, m.role);
      CrashIsBroken(feed, manifest, held, generation, served + [m.role]);
    }
  }

  lemma ServedNext(inbox: nat -> Message, manifest: Manifest, held: seq<Descriptor>, generation: nat, served: seq<Role>)
    requires AreServed(inbox, manifest, held, generation, served) && NoRepeats(served)
    requires IsServable(inbox(|served|), manifest, held, generation, served)
    ensures AreServed(inbox, manifest, held, generation, served + [inbox(|served|).role])
    ensures NoRepeats(served + [inbox(|served|).role])
  {
    var more := served + [inbox(|served|).role];
    forall i | 0 <= i < |more| ensures IsServable(inbox(i), manifest, held, generation, more[..i]) && inbox(i).role == more[i] {
      if i < |served| {
        assert more[..i] == served[..i];
      } else {
        assert more[..i] == served;
      }
    }
  }

  // ---- The supervisor ----

  datatype Worker = Worker(generation: nat)

  datatype Supervision = Supervision(worker: Option<Worker>, nextGeneration: nat, nextRequestId: nat, scheduler: State)

  const NEW: Supervision := Supervision(None, 0, 0, State(0, 0, None, None, [], []))

  datatype Error = BadInput | CannotAsk | CannotStart | BadManifest | NotStarted | NoWorker | RenderFailed

  /** What is rendered: its lane and key, the resources its manifest declares, and those the host holds. */
  datatype Job = Job(lane: Lane, key: string, declared: seq<Descriptor>, held: seq<Descriptor>)

  /** What the world does during one call: the old worker's state, whether new ones start, and how the exchanges go. */
  datatype World = World(
    inputsOk: bool, manifestOk: bool,
    alive: Option<bool>, starts: bool, first: Feed,
    restarts: bool, second: Feed)

  function Ensure(s: Supervision, alive: Option<bool>, starts: bool): (Supervision, Result<nat, Error>) {
    if s.worker.Some? && alive.None? then (s, Err(CannotAsk))
    else if s.worker.Some? && alive == Some(true) then (s, Ok(s.worker.value.generation))
    else
      var g := s.nextGeneration + 1;
      if !starts then (s.(worker := None, nextGeneration := g), Err(CannotStart))
      else
        (s.(worker := Some(Worker(g)), nextGeneration := g, scheduler := SetGenerationOf(s.scheduler, g)), Ok(g))
  }

  function Execute(s: Supervision, ticket: Ticket, outcome: Outcome): Supervision
    requires s.worker.Some?
  {
    s.(scheduler := CompleteOf(s.scheduler, ticket.id, ticket.generation).0,
       worker := if outcome.broken then None else s.worker)
  }

  /** What one or two attempts leave behind; `crash` says whether the last exchange lost the worker. */
  datatype Step = Step(state: Supervision, submitted: seq<Submission>, result: Result<string, Error>, crash: bool)

  function ManifestFor(s: Supervision, job: Job): Manifest
    requires s.worker.Some?
  {
    Manifest(s.nextRequestId, s.worker.value.generation, job.key, job.declared)
  }

  /** One attempt: the submission must start at once, or the call fails; then the exchange decides. */
  function Attempt(s: Supervision, job: Job, feed: Feed): Step {
    var (scheduler, result) := SubmitOf(s.scheduler, job.lane, job.key);
    var submitted := s.(scheduler := scheduler);
    if !result.Started? then Step(submitted, [result], Err(NotStarted), false)
    else if submitted.worker.None? then Step(submitted, [result], Err(NoWorker), false)
    else
      var outcome := ExchangeOutcome(feed, ManifestFor(s, job), job.held, s.worker.value.generation);
      Step(Execute(submitted, result.ticket, outcome), [result], if outcome.ok then Ok(job.key) else Err(RenderFailed), outcome.crash)
  }

  function Retry(s: Supervision, job: Job, w: World): Step {
    var (ready, generation) := Ensure(s.(nextRequestId := s.nextRequestId + 1), None, w.restarts);
    if generation.Err? then Step(ready, [], Err(generation.error), false) else Attempt(ready, job, w.second)
  }

  datatype Readied = Readied(state: Supervision, error: Option<Error>)

  /** Inputs, worker, request number and manifest, in this order. */
  function Ready(s: Supervision, w: World): Readied {
    if !w.inputsOk then Readied(s, Some(BadInput))
    else
      var (t, generation) := Ensure(s, w.alive, w.starts);
      if generation.Err? then Readied(t, Some(generation.error))
      else Readied(t.(nextRequestId := t.nextRequestId + 1), if w.manifestOk then None else Some(BadManifest))
  }

  function Render(s: Supervision, job: Job, w: World): Step {
    var r := Ready(s, w);
    if r.error.Some? then Step(r.state, [], Err(r.error.value), false) else Attempts(r.state, job, w)
  }

  /** One attempt, and after a crash another one. */
  function Attempts(s: Supervision, job: Job, w: World): Step {
    var first := Attempt(s, job, w.first);
    if first.result != Err(RenderFailed) || !first.crash then first
    else
      var again := Retry(first.state, job, w);
      again.(submitted := first.submitted + again.submitted)
  }

  class WorkerSupervisor {
    var worker: Option<Worker>
    var nextGeneration: nat
    var nextRequestId: nat
    const scheduler: Scheduler

    constructor ()
      ensures Now() == NEW && fresh(scheduler)
    {
      worker, nextGeneration, nextRequestId := None, 0, 0;
      scheduler := new Scheduler(0);
    }

    function Now(): Supervision
      reads this, scheduler
    {
      Supervision(worker, nextGeneration, nextRequestId, scheduler.Now())
    }

    method EnsureWorker(alive: Option<bool>, starts: bool) returns (result: Result<nat, Error>)
      modifies this, scheduler
      ensures (Now(), result) == Ensure(old(Now()), alive, starts)
    {
      if worker.Some? {
        if alive.None? {
          return Err(CannotAsk);
        }
        if alive.value {
          return Ok(worker.value.generation);
        }
      }
      worker := None;
      nextGeneration := nextGeneration + 1;
      if !starts {
        return Err(CannotStart);
      }
      scheduler.SetGeneration(nextGeneration);
      worker := Some(Worker(nextGeneration));
      return Ok(nextGeneration);
    }

    method TryOnce(job: Job, feed: Feed) returns (submitted: seq<Submission>, result: Result<string, Error>, crash: bool)
      modifies this, scheduler
      ensures Step(Now(), submitted, result, crash) == Attempt(old(Now()), job, feed)
    {
      var submission := scheduler.Submit(job.lane, job.key);
      submitted, crash := [submission], false;
      if !submission.Started? {
        return submitted, Err(NotStarted), false;
      }
      if worker.None? {
        return submitted, Err(NoWorker), false;
      }
      var manifest := Manifest(nextRequestId, worker.value.generation, job.key, job.declared);
      var outcome, served := Exchange(manifest, job.held, worker.value.generation, feed);
      var next := scheduler.Complete(submission.ticket.id, submission.ticket.generation);
      if outcome.broken {
        worker := None;
      }
      result := if outcome.ok then Ok(job.key) else Err(RenderFailed);
      crash := outcome.crash;
    }

    method RenderOutput(job: Job, w: World) returns (submitted: seq<Submission>, result: Result<string, Error>, crash: bool)
      modifies this, scheduler
      ensures Step(Now(), submitted, result, crash) == Render(old(Now()), job, w)
    {
      var error := GetReady(w);
      if error.Some? {
        return [], Err(error.value), false;
      }
      submitted, result, crash := TryTwice(job, w);
    }

    method GetReady(w: World) returns (error: Option<Error>)
      modifies this, scheduler
      ensures Readied(Now(), error) == Ready(old(Now()), w)
    {
      if !w.inputsOk {
        return Some(BadInput);
      }
      var generation := EnsureWorker(w.alive, w.starts);
      if generation.Err? {
        return Some(generation.error);
      }
      nextRequestId := nextRequestId + 1;
      return if w.manifestOk then None else Some(BadManifest);
    }

    method TryTwice(job: Job, w: World) returns (submitted: seq<Submission>, result: Result<string, Error>, crash: bool)
      modifies this, scheduler
      ensures Step(Now(), submitted, result, crash) == Attempts(old(Now()), job, w)
    {
      submitted, result, crash := TryOnce(job, w.first);
      if result == Err(RenderFailed) && crash {
        var more;
        more, result, crash := TryAgain(job, w);
        submitted := submitted + more;
      }
    }

    method TryAgain(job: Job, w: World) returns (submitted: seq<Submission>, result: Result<string, Error>, crash: bool)
      modifies this, scheduler
      ensures Step(Now(), submitted, result, crash) == Retry(old(Now()), job, w)
    {
      nextRequestId := nextRequestId + 1;
      var generation := EnsureWorker(None, w.restarts);
      if generation.Err? {
        return [], Err(generation.error), false;
      }
      submitted, result, crash := TryOnce(job, w.second);
    }
  }

  // ---- What the supervisor's discipline gives ----

  /** Between calls nothing is active or waiting, and the worker is of the scheduler's generation. */
  predicate IsAtRest(s: Supervision) {
    && s.scheduler.active.None? && IsEmptyQueue(s.scheduler)
    && (s.worker.Some? ==> s.worker.value.generation == s.scheduler.generation)
    && s.scheduler.generation <= s.nextGeneration
  }

  predicate AllStarted(submitted: seq<Submission>, lane: Lane, key: string) {
    forall x :: x in submitted ==> x.Started? && x.ticket.lane == lane && x.ticket.renderKey == key
  }

  lemma EnsureRests(s: Supervision, alive: Option<bool>, starts: bool)
    requires IsAtRest(s)
    ensures var (t, r) := Ensure(s, alive, starts);
            IsAtRest(t) && t.nextRequestId == s.nextRequestId && (r.Ok? ==> t.worker.Some? && r.value == t.scheduler.generation)
  {
  }

  lemma AttemptRests(s: Supervision, job: Job, feed: Feed)
    requires IsAtRest(s) && s.worker.Some?
    ensures var r := Attempt(s, job, feed);
            && IsAtRest(r.state) && |r.submitted| == 1 && AllStarted(r.submitted, job.lane, job.key)
            && (r.result.Err? ==> r.result.error == RenderFailed)
            && (r.crash <==> IsLost(feed, ManifestFor(s, job), job.held, s.worker.value.generation))
            && (r.crash ==> r.result == Err(RenderFailed) && r.state.worker.None?)
  {
    CrashMeansLost(feed, ManifestFor(s, job), job.held, s.worker.value.generation);
  }

  /** Exactly when a call submits twice: its first exchange lost the worker, and a new one could be started. */
  ghost predicate RendersTwice(s: Supervision, job: Job, w: World) {
    var r := Ready(s, w);
    && r.error.None? && r.state.worker.Some? && w.restarts
    && IsLost(w.first, ManifestFor(r.state, job), job.held, r.state.worker.value.generation)
  }

  /**
   * From rest, every submission of a call starts at once, there are at most two of them with the same lane and
   * render key, the second exactly when the first exchange lost the worker and another could be started, and the call
   * ends at rest.
   */
  lemma EverySubmissionStarts(s: Supervision, job: Job, w: World)
    requires IsAtRest(s)
    ensures var r := Render(s, job, w);
            && IsAtRest(r.state) && |r.submitted| <= 2 && AllStarted(r.submitted, job.lane, job.key)
            && (|r.submitted| == 2 <==> RendersTwice(s, job, w))
            && (r.result.Err? ==> r.result.error != NotStarted && r.result.error != NoWorker)
  {
    ReadyRests(s, w);
    var r := Ready(s, w);
    if r.error.None? {
      AttemptsRest(r.state, job, w);
    }
  }

  lemma ReadyRests(s: Supervision, w: World)
    requires IsAtRest(s)
    ensures var r := Ready(s, w);
            IsAtRest(r.state) && (r.error.None? ==> r.state.worker.Some?) && r.error != Some(NotStarted) && r.error != Some(NoWorker)
  {
    if w.inputsOk {
      EnsureRests(s, w.alive, w.starts);
    }
  }

  lemma AttemptsRest(s: Supervision, job: Job, w: World)
    requires IsAtRest(s) && s.worker.Some?
    ensures var r := Attempts(s, job, w);
            && IsAtRest(r.state) && |r.submitted| <= 2 && AllStarted(r.submitted, job.lane, job.key)
            && (|r.submitted| == 2 <==> w.restarts && IsLost(w.first, ManifestFor(s, job), job.held, s.worker.value.generation))
            && (r.result.Err? ==> r.result.error != NotStarted && r.result.error != NoWorker)
  {
    AttemptRests(s, job, w.first);
    var first := Attempt(s, job, w.first);
    if first.crash {
      RetryRests(first.state, job, w);
    }
  }

  lemma RetryRests(s: Supervision, job: Job, w: World)
    requires IsAtRest(s) && s.worker.None?
    ensures var r := Retry(s, job, w);
            && IsAtRest(r.state) && |r.submitted| == (if w.restarts then 1 else 0) && AllStarted(r.submitted, job.lane, job.key)
            && (r.result.Err? ==> r.result.error != NotStarted && r.result.error != NoWorker)
  {
    var numbered := s.(nextRequestId := s.nextRequestId + 1);
    EnsureRests(numbered, None, w.restarts);
    var (ready, generation) := Ensure(numbered, None, w.restarts);
    if generation.Ok? {
      AttemptRests(ready, job, w.second);
    }
  }

  datatype Call = Call(job: Job, world: World)

  function RunAll(calls: seq<Call>): Supervision {
    if calls == [] then NEW
    else
      var last := calls[|calls| - 1];
      Render(RunAll(calls[..|calls| - 1]), last.job, last.world).state
  }

  /** Over every sequence of calls, whatever the workers send, the supervisor comes back to rest: nothing ever queues. */
  lemma {:induction false} EveryCallStartsFromRest(calls: seq<Call>)
    ensures IsAtRest(RunAll(calls))
  {
    if calls != [] {
      var last := calls[|calls| - 1];
      EveryCallStartsFromRest(calls[..|calls| - 1]);
      EverySubmissionStarts(RunAll(calls[..|calls| - 1]), last.job, last.world);
    }
  }
}
