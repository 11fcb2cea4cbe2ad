/** The preview client, and the flight it shares with the fit client: one host call at a time, and only the newest request gets a result. */
module SingleFlight {
  import opened Contracts

  /** Promises are numbered as they are created; results are opaque and fresh. */
  datatype Request = Request(id: nat, cursor: AuthorityCursor, epoch: nat)

  datatype Phase = Asked | Checking(result: nat)

  /** A call of the host that has not come to its end: the continuation waiting in `pump`. */
  datatype Call = Call(request: Request, phase: Phase)

  datatype Outcome = Nothing | Delivered(result: nat) | Rejected

  datatype Settlement = Settlement(id: nat, outcome: Outcome)

  /** `newest` is the last promise, unless it was invalidated since. */
  datatype Flight = Flight(
    epoch: nat, active: bool, pending: Option<Request>, calls: seq<Call>,
    issued: nat, newest: Option<nat>, settled: seq<Settlement>)

  const IDLE: Flight := Flight(0, false, None, [], 0, None, [])

  // ---- Specification ----

  function Settle(f: Flight, id: nat, outcome: Outcome): Flight {
    f.(settled := f.settled + [Settlement(id, outcome)])
  }

  /** A pending request that is replaced or given up gets nothing. */
  function DropPending(f: Flight): Flight {
    if f.pending.Some? then Settle(f, f.pending.value.id, Nothing).(pending := None) else f
  }

  function Pump(f: Flight): Flight {
    if f.active || f.pending.None? then f
    else f.(pending := None, active := true, calls := f.calls + [Call(f.pending.value, Asked)])
  }

  function Requested(f: Flight, cursor: AuthorityCursor): Flight {
    var g := DropPending(f);
    Pump(g.(epoch := g.epoch + 1, pending := Some(Request(g.issued, cursor, g.epoch + 1)),
            issued := g.issued + 1, newest := Some(g.issued)))
  }

  function Invalidated(f: Flight): Flight {
    DropPending(f).(epoch := f.epoch + 1, newest := None)
  }

  function Without<T>(s: seq<T>, i: nat): seq<T>
    requires i < |s|
  {
    s[..i] + s[i + 1..]
  }

  /** The end of a call: its promise is settled, and the next request goes out. */
  function Ended(f: Flight, k: nat, outcome: Outcome): Flight
    requires k < |f.calls|
  {
    Pump(Settle(f, f.calls[k].request.id, outcome).(calls := Without(f.calls, k), active := false))
  }

  predicate IsCurrent(f: Flight, k: nat)
    requires k < |f.calls|
  {
    f.calls[k].request.epoch == f.epoch
  }

  /** The host failed, or the check of its result did. */
  function Failed(f: Flight, k: nat): Flight
    requires k < |f.calls|
  {
    Ended(f, k, if IsCurrent(f, k) then Rejected else Nothing)
  }

  /** The host's answer is checked first if it is still wanted. */
  function Answered(f: Flight, k: nat, result: nat): Flight
    requires k < |f.calls|
  {
    if !IsCurrent(f, k) then Ended(f, k, Nothing)
    else f.(calls := f.calls[k := f.calls[k].(phase := Checking(result))])
  }

  /** The check is over; the request may have been replaced meanwhile. */
  function Checked(f: Flight, k: nat): Flight
    requires k < |f.calls| && f.calls[k].phase.Checking?
  {
    Ended(f, k, if IsCurrent(f, k) then Delivered(f.calls[k].phase.result) else Nothing)
  }

  // ---- The preview client ----

  class EnginePreviewClient {
    var epoch: nat
    var active: bool
    var pending: Option<Request>
    var calls: seq<Call>
    var issued: nat
    var newest: Option<nat>
    var settled: seq<Settlement>

    constructor ()
      ensures Now() == IDLE
    {
      epoch, active, pending, calls, issued, newest, settled := 0, false, None, [], 0, None, [];
    }

    function Now(): Flight
      reads this
    {
      Flight(epoch, active, pending, calls, issued, newest, settled)
    }

    method ResolveNothing()
      modifies this
      ensures Now() == DropPending(old(Now()))
    {
      if pending.Some? {
        settled := settled + [Settlement(pending.value.id, Nothing)];
        pending := None;
      }
    }

    method StartCall()
      modifies this
      ensures Now() == Pump(old(Now()))
    {
      if active || pending.None? {
        return;
      }
      calls := calls + [Call(pending.value, Asked)];
      pending := None;
      active := true;
    }

    method Invalidate()
      modifies this
      ensures Now() == Invalidated(old(Now()))
    {
      epoch := epoch + 1;
      ResolveNothing();
      newest := None;
    }

    method Ask(cursor: AuthorityCursor) returns (id: nat)
      modifies this
      ensures Now() == Requested(old(Now()), cursor) && id == old(issued)
    {
      ResolveNothing();
      epoch := epoch + 1;
      id := issued;
      issued := issued + 1;
      newest := Some(id);
      pending := Some(Request(id, cursor, epoch));
      StartCall();
    }

    method Finish(k: nat, outcome: Outcome)
      requires k < |calls|
      modifies this
      ensures Now() == Ended(old(Now()), k, outcome)
    {
      settled := settled + [Settlement(calls[k].request.id, outcome)];
      calls := Without(calls, k);
      active := false;
      StartCall();
    }

    method OnAnswer(k: nat, result: nat)
      requires k < |calls|
      modifies this
      ensures Now() == Answered(old(Now()), k, result)
    {
      if calls[k].request.epoch != epoch {
        Finish(k, Nothing);
      } else {
        calls := calls[k := calls[k].(phase := Checking(result))];
      }
    }

    method OnChecked(k: nat)
      requires k < |calls| && calls[k].phase.Checking?
      modifies this
      ensures Now() == Checked(old(Now()), k)
    {
      Finish(k, if calls[k].request.epoch == epoch then Delivered(calls[k].phase.result) else Nothing);
    }

    method OnError(k: nat)
      requires k < |calls|
      modifies this
      ensures Now() == Failed(old(Now()), k)
    {
      Finish(k, if calls[k].request.epoch != epoch then Nothing else Rejected);
    }
  }

  // ---- Invariants ----

  predicate IsSettled(f: Flight, id: nat) {
    exists i :: 0 <= i < |f.settled| && f.settled[i].id == id
  }

  predicate IsPending(f: Flight, id: nat) {
    f.pending.Some? && f.pending.value.id == id
  }

  predicate IsCalled(f: Flight, id: nat) {
    exists i :: 0 <= i < |f.calls| && f.calls[i].request.id == id
  }

  /** One call at most, and exactly while the client is active; an idle client has nothing pending. */
  predicate IsSingle(f: Flight) {
    |f.calls| == (if f.active then 1 else 0) && (!f.active ==> f.pending.None?)
  }

  predicate SettlesOnce(f: Flight) {
    forall i, j :: 0 <= i < j < |f.settled| ==> f.settled[i].id != f.settled[j].id
  }

  /** Every promise ever made is in exactly one place: pending, called, or settled. */
  ghost predicate IsAccounted(f: Flight) {
    && (forall id: nat :: id < f.issued <==> IsPending(f, id) || IsCalled(f, id) || IsSettled(f, id))
    && (forall id: nat :: IsPending(f, id) ==> !IsCalled(f, id) && !IsSettled(f, id))
    && (forall id: nat :: IsCalled(f, id) ==> !IsSettled(f, id))
  }

  predicate IsFresh(f: Flight, r: Request) {
    r.epoch <= f.epoch && (r.epoch == f.epoch ==> f.newest == Some(r.id))
  }

  /** A request has the current epoch only if it is the newest and not invalidated. */
  predicate EpochsMeanNewest(f: Flight) {
    (f.pending.Some? ==> IsFresh(f, f.pending.value)) && forall i :: 0 <= i < |f.calls| ==> IsFresh(f, f.calls[i].request)
  }

  ghost predicate Inv(f: Flight) {
    IsSingle(f) && SettlesOnce(f) && IsAccounted(f) && EpochsMeanNewest(f)
  }

  lemma SettledMore(f: Flight, id: nat, outcome: Outcome, other: nat)
    ensures IsSettled(Settle(f, id, outcome), other) <==> IsSettled(f, other) || other == id
  {
    var s := Settle(f, id, outcome).settled;
    if IsSettled(f, other) {
      var i :| 0 <= i < |f.settled| && f.settled[i].id == other;
      assert s[i].id == other;
    }
    assert s[|f.settled|].id == id;
  }

  lemma DropKeeps(f: Flight)
    requires Inv(f)
    ensures Inv(DropPending(f)) && DropPending(f).pending.None?
  {
    if f.pending.Some? {
      var g := DropPending(f);
      var id := f.pending.value.id;
      assert IsPending(f, id);
      assert forall i :: 0 <= i < |f.settled| ==> IsSettled(f, f.settled[i].id);
      forall other: nat
        ensures (IsSettled(g, other) <==> IsSettled(f, other) || other == id) && (IsCalled(g, other) <==> IsCalled(f, other))
      {
        SettledMore(f, id, Nothing, other);
        assert IsSettled(g, other) <==> IsSettled(Settle(f, id, Nothing), other);
      }
    }
  }

  /** Everything but the idle rule, which may be broken just before pumping. */
  ghost predicate InvButIdle(f: Flight) {
    |f.calls| == (if f.active then 1 else 0) && SettlesOnce(f) && IsAccounted(f) && EpochsMeanNewest(f)
  }

  lemma PumpKeeps(f: Flight)
    requires InvButIdle(f)
    ensures Inv(Pump(f))
  {
    if !f.active && f.pending.Some? {
      var g := Pump(f);
      var r := f.pending.value;
      assert g.calls == [Call(r, Asked)];
      assert IsPending(f, r.id);
      forall id: nat
        ensures (IsCalled(g, id) <==> id == r.id) && !IsCalled(f, id) && (IsSettled(g, id) <==> IsSettled(f, id)) && !IsPending(g, id)
      {
        if id == r.id {
          assert g.calls[0].request.id == id;
        }
      }
      assert IsFresh(g, g.calls[0].request);
    }
  }

  lemma RequestKeeps(f: Flight, cursor: AuthorityCursor)
    requires Inv(f)
    ensures Inv(Requested(f, cursor))
  {
    DropKeeps(f);
    var g := DropPending(f);
    NewRequest(g, cursor);
    PumpKeeps(WithRequest(g, cursor));
  }

  function WithRequest(g: Flight, cursor: AuthorityCursor): Flight {
    g.(epoch := g.epoch + 1, pending := Some(Request(g.issued, cursor, g.epoch + 1)),
       issued := g.issued + 1, newest := Some(g.issued))
  }

  lemma NewRequest(g: Flight, cursor: AuthorityCursor)
    requires Inv(g) && g.pending.None?
    ensures InvButIdle(WithRequest(g, cursor))
  {
    var h := WithRequest(g, cursor);
    forall id: nat
      ensures (IsCalled(h, id) <==> IsCalled(g, id)) && (IsSettled(h, id) <==> IsSettled(g, id)) && (IsPending(h, id) <==> id == g.issued)
    {
    }
    forall i | 0 <= i < |h.calls| ensures IsFresh(h, h.calls[i].request) {
      assert IsFresh(g, g.calls[i].request);
    }
  }

  lemma InvalidateKeeps(f: Flight)
    requires Inv(f)
    ensures Inv(Invalidated(f))
  {
    DropKeeps(f);
    var g, h := DropPending(f), Invalidated(f);
    forall id: nat
      ensures (IsCalled(h, id) <==> IsCalled(g, id)) && (IsSettled(h, id) <==> IsSettled(g, id)) && !IsPending(h, id) && !IsPending(g, id)
    {
    }
    forall i | 0 <= i < |h.calls| ensures IsFresh(h, h.calls[i].request) {
      assert IsFresh(g, g.calls[i].request);
    }
  }

  lemma EndKeeps(f: Flight, k: nat, outcome: Outcome)
    requires Inv(f) && k < |f.calls|
    ensures Inv(Ended(f, k, outcome))
  {
    var g := Settle(f, f.calls[k].request.id, outcome).(calls := Without(f.calls, k), active := false);
    CallEnds(f, k, outcome, g);
    PumpKeeps(g);
  }

  lemma CallEnds(f: Flight, k: nat, outcome: Outcome, g: Flight)
    requires Inv(f) && k < |f.calls|
    requires g == Settle(f, f.calls[k].request.id, outcome).(calls := Without(f.calls, k), active := false)
    ensures InvButIdle(g)
  {
    var id := f.calls[k].request.id;
    assert g.calls == [];
    assert IsCalled(f, id);
    assert forall i :: 0 <= i < |f.settled| ==> IsSettled(f, f.settled[i].id);
    forall other: nat
      ensures (IsSettled(g, other) <==> IsSettled(f, other) || other == id)
      ensures !IsCalled(g, other) && (IsCalled(f, other) <==> other == id) && (IsPending(g, other) <==> IsPending(f, other))
    {
      SettledMore(f, id, outcome, other);
      assert IsSettled(g, other) <==> IsSettled(Settle(f, id, outcome), other);
    }
  }

  lemma CheckingKeeps(f: Flight, k: nat, result: nat)
    requires Inv(f) && k < |f.calls|
    ensures Inv(f.(calls := f.calls[k := f.calls[k].(phase := Checking(result))]))
  {
    var g := f.(calls := f.calls[k := f.calls[k].(phase := Checking(result))]);
    forall id: nat
      ensures (IsCalled(g, id) <==> IsCalled(f, id)) && (IsSettled(g, id) <==> IsSettled(f, id)) && (IsPending(g, id) <==> IsPending(f, id))
    {
      if IsCalled(f, id) {
        assert g.calls[0].request == f.calls[0].request;
      }
    }
    assert g.calls[0].request == f.calls[0].request;
  }

  // ---- Every interleaving ----

  datatype Action =
    | DoRequest(cursor: AuthorityCursor)
    | DoInvalidate
    | DoAnswer(k: nat, result: nat)
    | DoChecked(k: nat)
    | DoFail(k: nat)

  predicate IsEnabled(f: Flight, a: Action) {
    match a
    case DoRequest(_) => true
    case DoInvalidate => true
    case DoAnswer(k, _) => k < |f.calls| && f.calls[k].phase.Asked?
    case DoChecked(k) => k < |f.calls| && f.calls[k].phase.Checking?
    case DoFail(k) => k < |f.calls|
  }

  function After(f: Flight, a: Action): Flight
    requires IsEnabled(f, a)
  {
    match a
    case DoRequest(cursor) => Requested(f, cursor)
    case DoInvalidate => Invalidated(f)
    case DoAnswer(k, result) => Answered(f, k, result)
    case DoChecked(k) => Checked(f, k)
    case DoFail(k) => Failed(f, k)
  }

  lemma StepKeeps(f: Flight, a: Action)
    requires Inv(f) && IsEnabled(f, a)
    ensures Inv(After(f, a))
  {
    match a
    case DoRequest(cursor) => RequestKeeps(f, cursor);
    case DoInvalidate => InvalidateKeeps(f);
    case DoAnswer(k, result) =>
      if IsCurrent(f, k) {
        CheckingKeeps(f, k, result);
      } else {
        EndKeeps(f, k, Nothing);
      }
    case DoChecked(k) => EndKeeps(f, k, if IsCurrent(f, k) then Delivered(f.calls[k].phase.result) else Nothing);
    case DoFail(k) => EndKeeps(f, k, if IsCurrent(f, k) then Rejected else Nothing);
  }

  ghost predicate Reaches(actions: seq<Action>, f: Flight)
    decreases |actions|
  {
    if actions == [] then f == IDLE
    else
      var init, last := actions[..|actions| - 1], actions[|actions| - 1];
      exists m :: Reaches(init, m) && IsEnabled(m, last) && After(m, last) == f
  }

  lemma {:induction false} EveryRunIsSingleFlight(actions: seq<Action>, f: Flight)
    requires Reaches(actions, f)
    ensures Inv(f)
    decreases |actions|
  {
    if actions != [] {
      var init, last := actions[..|actions| - 1], actions[|actions| - 1];
      var m :| Reaches(init, m) && IsEnabled(m, last) && After(m, last) == f;
      EveryRunIsSingleFlight(init, m);
      StepKeeps(m, last);
    }
  }

  /** When no call is out, every promise ever made has been settled, once. */
  lemma QuietMeansSettled(actions: seq<Action>, f: Flight, id: nat)
    requires Reaches(actions, f) && f.calls == [] && id < f.issued
    ensures f.pending.None? && SettlesOnce(f) && IsSettled(f, id)
  {
    EveryRunIsSingleFlight(actions, f);
  }

  /** A step that delivers a result delivers it to the newest promise, which was not invalidated. */
  lemma OnlyTheNewestGetsAResult(actions: seq<Action>, f: Flight, a: Action, i: nat)
    requires Reaches(actions, f) && IsEnabled(f, a)
    requires |f.settled| <= i < |After(f, a).settled| && After(f, a).settled[i].outcome.Delivered?
    ensures f.newest == Some(After(f, a).settled[i].id)
  {
    EveryRunIsSingleFlight(actions, f);
    match a
    case DoRequest(_) =>
    case DoInvalidate =>
    case DoAnswer(k, _) =>
    case DoFail(k) =>
    case DoChecked(k) => assert IsFresh(f, f.calls[k].request);
  }
}
