/** The render scheduler: one active ticket, three lanes, and an account of every submission. */
module RenderScheduler {
  import opened Contracts

  const MAX_FIT_QUEUE: nat := 16
  const MAX_EXPORT_QUEUE: nat := 8

  datatype Lane = PreviewLane | FitLane | ExportLane

  datatype Ticket = Ticket(id: nat, generation: nat, lane: Lane, renderKey: string)

  datatype Waiting = Waiting(id: nat, lane: Lane, renderKey: string)

  datatype State = State(
    nextId: nat, generation: nat, active: Option<Ticket>,
    preview: Option<Waiting>, fits: seq<Waiting>, exports: seq<Waiting>)

  datatype Submission =
    | Started(ticket: Ticket)
    | Coalesced(replaced: Option<nat>, pendingId: nat)
    | Queued(id: nat, lane: Lane)
    | Refused(lane: Lane)

  // ---- Specification ----

  function TicketFor(st: State, w: Waiting): Ticket {
    Ticket(w.id, st.generation, w.lane, w.renderKey)
  }

  function Activate(st: State, w: Waiting): State {
    st.(active := Some(TicketFor(st, w)))
  }

  function SubmitOf(before: State, lane: Lane, key: string): (State, Submission) {
    var st := before.(nextId := before.nextId + 1);
    var w := Waiting(st.nextId, lane, key);
    if st.active.None? then (Activate(st, w), Started(TicketFor(st, w)))
    else
      match lane
      case PreviewLane =>
        (st.(preview := Some(w)), Coalesced(if st.preview.Some? then Some(st.preview.value.id) else None, w.id))
      case FitLane =>
        if |st.fits| < MAX_FIT_QUEUE then (st.(fits := st.fits + [w]), Queued(w.id, lane)) else (st, Refused(lane))
      case ExportLane =>
        if |st.exports| < MAX_EXPORT_QUEUE then (st.(exports := st.exports + [w]), Queued(w.id, lane)) else (st, Refused(lane))
  }

  predicate IsActive(st: State, id: nat, generation: nat) {
    st.active.Some? && st.active.value.id == id && st.active.value.generation == generation && generation == st.generation
  }

  /** The next in line: exports before fits before the newest preview. */
  function Popped(st: State): (State, Option<Waiting>) {
    if st.exports != [] then (st.(exports := st.exports[1..]), Some(st.exports[0]))
    else if st.fits != [] then (st.(fits := st.fits[1..]), Some(st.fits[0]))
    else (st.(preview := None), st.preview)
  }

  function CompleteOf(st: State, id: nat, generation: nat): (State, Option<Ticket>) {
    if !IsActive(st, id, generation) then (st, None)
    else
      var (rest, next) := Popped(st.(active := None));
      if next.None? then (rest, None) else (Activate(rest, next.value), Some(TicketFor(rest, next.value)))
  }

  function SetGenerationOf(st: State, generation: nat): State {
    st.(generation := generation, active := None)
  }

  // ---- The scheduler ----

  class Scheduler {
    var nextId: nat
    var generation: nat
    var active: Option<Ticket>
    var preview: Option<Waiting>
    var fits: seq<Waiting>
    var exports: seq<Waiting>

    constructor (generation': nat)
      ensures Now() == State(0, generation', None, None, [], [])
    {
      nextId, generation, active, preview, fits, exports := 0, generation', None, None, [], [];
    }

    function Now(): State
      reads this
    {
      State(nextId, generation, active, preview, fits, exports)
    }

    method SetGeneration(generation': nat)
      modifies this
      ensures Now() == SetGenerationOf(old(Now()), generation')
    {
      generation := generation';
      active := None;
    }

    method StartWaiting(w: Waiting) returns (ticket: Ticket)
      modifies this`active
      ensures Now() == Activate(old(Now()), w) && ticket == TicketFor(old(Now()), w)
    {
      ticket := Ticket(w.id, generation, w.lane, w.renderKey);
      active := Some(ticket);
    }

    method Submit(lane: Lane, key: string) returns (result: Submission)
      modifies this
      ensures (Now(), result) == SubmitOf(old(Now()), lane, key)
    {
      nextId := nextId + 1;
      var w := Waiting(nextId, lane, key);
      if active.None? {
        var ticket := StartWaiting(w);
        return Started(ticket);
      }
      match lane {
        case PreviewLane =>
          var replaced: Option<nat> := None;
          if preview.Some? {
            replaced := Some(preview.value.id);
          }
          preview := Some(w);
          return Coalesced(replaced, w.id);
        case FitLane =>
          if |fits| >= MAX_FIT_QUEUE {
            return Refused(lane);
          }
          fits := fits + [w];
        case ExportLane =>
          if |exports| >= MAX_EXPORT_QUEUE {
            return Refused(lane);
          }
          exports := exports + [w];
      }
      return Queued(w.id, lane);
    }

    method Complete(id: nat, generation': nat) returns (next: Option<Ticket>)
      modifies this
      ensures (Now(), next) == CompleteOf(old(Now()), id, generation')
    {
      if active.None? || active.value.id != id || active.value.generation != generation' || generation' != generation {
        return None;
      }
      active := None;
      var w: Option<Waiting> := None;
      if exports != [] {
        w := Some(exports[0]);
        exports := exports[1..];
      } else if fits != [] {
        w := Some(fits[0]);
        fits := fits[1..];
      } else {
        w := preview;
        preview := None;
      }
      if w.None? {
        return None;
      }
      var ticket := StartWaiting(w.value);
      return Some(ticket);
    }
  }

  // ---- Accounting: where every submitted ID is ----

  /** The scheduler with its past: everything that left it, and everything it started, in order. */
  datatype Sys = Sys(
    st: State, started: seq<Ticket>, replaced: seq<nat>, refused: seq<nat>, finished: seq<nat>, dropped: seq<nat>)

  datatype Action = DoSubmit(lane: Lane, key: string) | DoComplete(id: nat, generation: nat) | DoSetGeneration(generation: nat)

  function ActiveIds(st: State): seq<nat> {
    if st.active.Some? then [st.active.value.id] else []
  }

  function After(s: Sys, a: Action): Sys {
    match a
    case DoSubmit(lane, key) =>
      var (st, result) := SubmitOf(s.st, lane, key);
      s.(st := st,
         started := if result.Started? then s.started + [result.ticket] else s.started,
         replaced := if result.Coalesced? && result.replaced.Some? then s.replaced + [result.replaced.value] else s.replaced,
         refused := if result.Refused? then s.refused + [st.nextId] else s.refused)
    case DoComplete(id, generation) =>
      var (st, next) := CompleteOf(s.st, id, generation);
      s.(st := st,
         started := if next.Some? then s.started + [next.value] else s.started,
         finished := if IsActive(s.st, id, generation) then s.finished + [id] else s.finished)
    case DoSetGeneration(generation) =>
      s.(st := SetGenerationOf(s.st, generation), dropped := s.dropped + ActiveIds(s.st))
  }

  /** How often an ID occurs. */
  function Count(ids: seq<nat>, k: nat): nat {
    if ids == [] then 0 else Count(ids[..|ids| - 1], k) + if ids[|ids| - 1] == k then 1 else 0
  }

  function Ids(ws: seq<Waiting>): (r: seq<nat>)
    ensures |r| == |ws| && forall i :: 0 <= i < |ws| ==> r[i] == ws[i].id
  {
    seq(|ws|, i requires 0 <= i < |ws| => ws[i].id)
  }

  function TicketIds(ts: seq<Ticket>): (r: seq<nat>)
    ensures |r| == |ts| && forall i :: 0 <= i < |ts| ==> r[i] == ts[i].id
  {
    seq(|ts|, i requires 0 <= i < |ts| => ts[i].id)
  }

  function PreviewIds(st: State): seq<nat> {
    if st.preview.Some? then [st.preview.value.id] else []
  }

  /** How often an ID is in the scheduler: active or waiting in one of the lanes. */
  function Inside(st: State, k: nat): nat {
    Count(ActiveIds(st), k) + Count(Ids(st.exports), k) + Count(Ids(st.fits), k) + Count(PreviewIds(st), k)
  }

  /** How often an ID has left it: replaced, refused, finished, or dropped by a generation change. */
  function Left(s: Sys, k: nat): nat {
    Count(s.replaced, k) + Count(s.refused, k) + Count(s.finished, k) + Count(s.dropped, k)
  }

  /** A submitted ID is in exactly one place, any other nowhere. */
  predicate IsAccounted(s: Sys, k: nat) {
    Inside(s.st, k) + Left(s, k) == if 1 <= k <= s.st.nextId then 1 else 0
  }

  /** What was started is active, finished or dropped. */
  predicate StartsAreAccounted(s: Sys, k: nat) {
    Count(TicketIds(s.started), k) == Count(ActiveIds(s.st), k) + Count(s.finished, k) + Count(s.dropped, k)
  }

  predicate IsSound(s: Sys, k: nat) {
    IsAccounted(s, k) && StartsAreAccounted(s, k)
  }

  lemma CountLast(ids: seq<nat>, x: nat, k: nat)
    ensures Count(ids + [x], k) == Count(ids, k) + if x == k then 1 else 0
  {
    assert (ids + [x])[..|ids|] == ids;
  }

  lemma CountOne(x: nat, k: nat)
    ensures Count([x], k) == if x == k then 1 else 0
  {
    CountLast([], x, k);
    assert [] + [x] == [x];
  }

  lemma CountIds(ws: seq<Waiting>, w: Waiting, k: nat)
    ensures Count(Ids(ws + [w]), k) == Count(Ids(ws), k) + if w.id == k then 1 else 0
  {
    assert Ids(ws + [w]) == Ids(ws) + [w.id];
    CountLast(Ids(ws), w.id, k);
  }

  lemma CountTickets(ts: seq<Ticket>, t: Ticket, k: nat)
    ensures Count(TicketIds(ts + [t]), k) == Count(TicketIds(ts), k) + if t.id == k then 1 else 0
  {
    assert TicketIds(ts + [t]) == TicketIds(ts) + [t.id];
    CountLast(TicketIds(ts), t.id, k);
  }

  lemma {:induction false} CountFirst(ids: seq<nat>, k: nat)
    requires ids != []
    ensures Count(ids, k) == Count(ids[1..], k) + if ids[0] == k then 1 else 0
  {
    if |ids| == 1 {
      assert ids == [ids[0]];
      CountOne(ids[0], k);
    } else {
      var init, last := ids[..|ids| - 1], ids[|ids| - 1];
      CountFirst(init, k);
      assert ids[1..] == init[1..] + [last];
      CountLast(init[1..], last, k);
    }
  }

  lemma CountFirstWaiting(ws: seq<Waiting>, k: nat)
    requires ws != []
    ensures Count(Ids(ws), k) == Count(Ids(ws[1..]), k) + if ws[0].id == k then 1 else 0
  {
    CountFirst(Ids(ws), k);
    assert Ids(ws)[1..] == Ids(ws[1..]);
  }

  lemma ActiveCounts(st: State, k: nat)
    ensures Count(ActiveIds(st), k) == if st.active.Some? && st.active.value.id == k then 1 else 0
  {
    if st.active.Some? {
      CountOne(st.active.value.id, k);
    }
  }

  lemma PreviewCounts(st: State, k: nat)
    ensures Count(PreviewIds(st), k) == if st.preview.Some? && st.preview.value.id == k then 1 else 0
  {
    if st.preview.Some? {
      CountOne(st.preview.value.id, k);
    }
  }

  /** The counts that a submission may change, spelled out for a scheduler that is idle or not. */
  lemma StartAccounts(s: Sys, w: Waiting, k: nat)
    requires IsSound(s, k) && s.st.active.None? && w.id == s.st.nextId + 1
    ensures var st := Activate(s.st.(nextId := w.id), w);
            IsSound(s.(st := st, started := s.started + [TicketFor(s.st, w)]), k)
  {
    var st := Activate(s.st.(nextId := w.id), w);
    ActiveCounts(s.st, k);
    ActiveCounts(st, k);
    CountTickets(s.started, TicketFor(s.st, w), k);
  }

  lemma PreviewAccounts(s: Sys, w: Waiting, k: nat)
    requires IsSound(s, k) && s.st.active.Some? && w.id == s.st.nextId + 1
    ensures var st := s.st.(nextId := w.id, preview := Some(w));
            IsSound(s.(st := st, replaced := s.replaced + PreviewIds(s.st)), k)
  {
    var st := s.st.(nextId := w.id, preview := Some(w));
    PreviewCounts(s.st, k);
    PreviewCounts(st, k);
    if s.st.preview.Some? {
      CountLast(s.replaced, s.st.preview.value.id, k);
    } else {
      assert s.replaced + [] == s.replaced;
    }
  }

  lemma QueueAccounts(s: Sys, w: Waiting, k: nat)
    requires IsSound(s, k) && s.st.active.Some? && w.id == s.st.nextId + 1
    ensures IsSound(s.(st := s.st.(nextId := w.id, fits := s.st.fits + [w])), k)
    ensures IsSound(s.(st := s.st.(nextId := w.id, exports := s.st.exports + [w])), k)
    ensures IsSound(s.(st := s.st.(nextId := w.id), refused := s.refused + [w.id]), k)
  {
    CountIds(s.st.fits, w, k);
    CountIds(s.st.exports, w, k);
    CountLast(s.refused, w.id, k);
  }

  lemma SubmitAccounts(s: Sys, lane: Lane, key: string, k: nat)
    requires IsSound(s, k)
    ensures IsSound(After(s, DoSubmit(lane, key)), k)
  {
    var w := Waiting(s.st.nextId + 1, lane, key);
    SubmitIs(s, w);
    if s.st.active.None? {
      StartAccounts(s, w, k);
    } else if lane.PreviewLane? {
      PreviewAccounts(s, w, k);
    } else {
      QueueAccounts(s, w, k);
    }
  }

  /** A submission starts, replaces the waiting preview, joins its queue or is refused. */
  lemma SubmitIs(s: Sys, w: Waiting)
    requires w.id == s.st.nextId + 1
    ensures var t := After(s, DoSubmit(w.lane, w.renderKey));
            var st := s.st.(nextId := w.id);
            if s.st.active.None? then t == s.(st := Activate(st, w), started := s.started + [TicketFor(s.st, w)])
            else if w.lane.PreviewLane? then t == s.(st := st.(preview := Some(w)), replaced := s.replaced + PreviewIds(s.st))
            else if w.lane.FitLane? && |s.st.fits| < MAX_FIT_QUEUE then t == s.(st := st.(fits := s.st.fits + [w]))
            else if w.lane.ExportLane? && |s.st.exports| < MAX_EXPORT_QUEUE then t == s.(st := st.(exports := s.st.exports + [w]))
            else t == s.(st := st, refused := s.refused + [w.id])
  {
    assert s.replaced + [] == s.replaced;
  }

  lemma PoppedKeeps(st: State, k: nat)
    requires st.active.None?
    ensures var (rest, next) := Popped(st);
            && Inside(st, k) == Inside(rest, k) + (if next.Some? && next.value.id == k then 1 else 0)
            && rest.active.None? && rest.generation == st.generation && rest.nextId == st.nextId
  {
    if st.exports != [] {
      CountFirstWaiting(st.exports, k);
    } else if st.fits != [] {
      CountFirstWaiting(st.fits, k);
    } else {
      PreviewCounts(st, k);
    }
  }

  lemma CompleteAccounts(s: Sys, id: nat, generation: nat, k: nat)
    requires IsSound(s, k)
    ensures IsSound(After(s, DoComplete(id, generation)), k)
  {
    if IsActive(s.st, id, generation) {
      var idle := s.st.(active := None);
      var freed := s.(st := idle, finished := s.finished + [id]);
      FinishAccounts(s, id, k);
      PoppedKeeps(idle, k);
      NextAccounts(freed, k);
    }
  }

  lemma FinishAccounts(s: Sys, id: nat, k: nat)
    requires IsSound(s, k) && s.st.active.Some? && s.st.active.value.id == id
    ensures IsSound(s.(st := s.st.(active := None), finished := s.finished + [id]), k)
  {
    ActiveCounts(s.st, k);
    CountLast(s.finished, id, k);
  }

  lemma NextAccounts(s: Sys, k: nat)
    requires IsSound(s, k) && s.st.active.None?
    ensures var (rest, next) := Popped(s.st);
            if next.None? then IsSound(s.(st := rest), k)
            else IsSound(s.(st := Activate(rest, next.value), started := s.started + [TicketFor(rest, next.value)]), k)
  {
    var (rest, next) := Popped(s.st);
    PoppedKeeps(s.st, k);
    if next.Some? {
      ActiveCounts(Activate(rest, next.value), k);
      CountTickets(s.started, TicketFor(rest, next.value), k);
    }
  }

  lemma DropAccounts(s: Sys, generation: nat, k: nat)
    requires IsSound(s, k)
    ensures IsSound(After(s, DoSetGeneration(generation)), k)
  {
    ActiveCounts(s.st, k);
    if s.st.active.Some? {
      CountLast(s.dropped, s.st.active.value.id, k);
    } else {
      assert s.dropped + [] == s.dropped;
    }
  }

  lemma StepAccounts(s: Sys, a: Action, k: nat)
    requires IsSound(s, k)
    ensures IsSound(After(s, a), k)
  {
    match a
    case DoSubmit(lane, key) => SubmitAccounts(s, lane, key, k);
    case DoComplete(id, generation) => CompleteAccounts(s, id, generation, k);
    case DoSetGeneration(generation) => DropAccounts(s, generation, k);
  }

  function Begin(generation: nat): Sys {
    Sys(State(0, generation, None, None, [], []), [], [], [], [], [])
  }

  function Run(generation: nat, actions: seq<Action>): Sys {
    if actions == [] then Begin(generation)
    else After(Run(generation, actions[..|actions| - 1]), actions[|actions| - 1])
  }

  /**
   * Over every run: each submitted ID is in exactly one of active, queued, replaced, refused, finished and dropped,
   * and no ID is started twice.
   */
  lemma {:induction false} EverySubmissionIsSomewhere(generation: nat, actions: seq<Action>, k: nat)
    ensures var s := Run(generation, actions);
            && IsSound(s, k)
            && Inside(s.st, k) + Left(s, k) == (if 1 <= k <= s.st.nextId then 1 else 0)
            && Count(TicketIds(s.started), k) <= 1
  {
    if actions != [] {
      EverySubmissionIsSomewhere(generation, actions[..|actions| - 1], k);
      StepAccounts(Run(generation, actions[..|actions| - 1]), actions[|actions| - 1], k);
    }
  }

  predicate IsEmptyQueue(st: State) {
    st.exports == [] && st.fits == [] && st.preview.None?
  }

  function AllWaiting(st: State): seq<Waiting> {
    st.exports + st.fits + if st.preview.Some? then [st.preview.value] else []
  }
}
