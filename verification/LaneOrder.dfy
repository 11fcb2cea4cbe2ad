/** The order in which the scheduler's lanes start their submissions, over every run. */
module LaneOrder {
  import opened Contracts
  import opened RenderScheduler

  // ---- The line of a lane ----

  function StartedIn(started: seq<Ticket>, lane: Lane): seq<nat> {
    if started == [] then []
    else
      var last := started[|started| - 1];
      StartedIn(started[..|started| - 1], lane) + if last.lane == lane then [last.id] else []
  }

  function WaitingIn(st: State, lane: Lane): seq<nat> {
    match lane
    case PreviewLane => PreviewIds(st)
    case FitLane => Ids(st.fits)
    case ExportLane => Ids(st.exports)
  }

  /** What the lane has started, in this order, and then what waits in it. */
  function Line(s: Sys, lane: Lane): seq<nat> {
    StartedIn(s.started, lane) + WaitingIn(s.st, lane)
  }

  predicate Rising(ids: seq<nat>) {
    forall i, j :: 0 <= i < j < |ids| ==> ids[i] < ids[j]
  }

  /** The lane has started its submissions in the order they came, and will go on with those that wait. */
  predicate IsFifo(s: Sys, lane: Lane) {
    Rising(Line(s, lane))
  }

  predicate AllUpTo(ids: seq<nat>, n: nat) {
    forall i :: 0 <= i < |ids| ==> ids[i] <= n
  }

  /** Everybody waits in his own lane, and no ID is from the future. */
  predicate IsTidy(s: Sys) {
    && (forall i :: 0 <= i < |s.st.exports| ==> s.st.exports[i].lane == ExportLane)
    && (forall i :: 0 <= i < |s.st.fits| ==> s.st.fits[i].lane == FitLane)
    && (s.st.preview.Some? ==> s.st.preview.value.lane == PreviewLane)
    && AllUpTo(Line(s, ExportLane), s.st.nextId) && AllUpTo(Line(s, FitLane), s.st.nextId)
    && AllUpTo(Line(s, PreviewLane), s.st.nextId)
    && Rising(WaitingIn(s.st, ExportLane)) && Rising(WaitingIn(s.st, FitLane))
  }

  lemma StartedNext(started: seq<Ticket>, t: Ticket, lane: Lane)
    ensures StartedIn(started + [t], lane) == StartedIn(started, lane) + if t.lane == lane then [t.id] else []
  {
    assert (started + [t])[..|started|] == started;
  }

  lemma RisingNext(ids: seq<nat>, n: nat, k: nat)
    requires AllUpTo(ids, n) && k > n
    ensures Rising(ids + [k]) <==> Rising(ids)
    ensures AllUpTo(ids + [k], k)
  {
    assert forall i :: 0 <= i < |ids| ==> (ids + [k])[i] == ids[i];
  }

  lemma NotRising(ids: seq<nat>, rest: seq<nat>, k: nat)
    requires rest != [] && rest[0] < k
    ensures !Rising(ids + [k] + rest)
  {
    var all := ids + [k] + rest;
    assert all[|ids|] == k && all[|ids| + 1] == rest[0];
  }

  // ---- What each action does to a lane's line ----

  /** The lane takes this submission into its queue. */
  predicate Takes(st: State, lane: Lane) {
    match lane
    case PreviewLane => false
    case FitLane => |st.fits| < MAX_FIT_QUEUE
    case ExportLane => |st.exports| < MAX_EXPORT_QUEUE
  }

  lemma SubmitLine(s: Sys, w: Waiting, lane: Lane)
    requires w.id == s.st.nextId + 1
    ensures var t := After(s, DoSubmit(w.lane, w.renderKey));
            && t.st.nextId == w.id
            && (w.lane != lane ==> Line(t, lane) == Line(s, lane) && WaitingIn(t.st, lane) == WaitingIn(s.st, lane)
                                   && StartedIn(t.started, lane) == StartedIn(s.started, lane))
            && (w.lane == lane && s.st.active.None? ==>
                StartedIn(t.started, lane) == StartedIn(s.started, lane) + [w.id] && WaitingIn(t.st, lane) == WaitingIn(s.st, lane))
            && (w.lane == lane && s.st.active.Some? ==> StartedIn(t.started, lane) == StartedIn(s.started, lane))
            && (w.lane == lane && s.st.active.Some? && lane.PreviewLane? ==> WaitingIn(t.st, lane) == [w.id])
            && (w.lane == lane && s.st.active.Some? && !lane.PreviewLane? ==>
                WaitingIn(t.st, lane) == WaitingIn(s.st, lane) + if Takes(s.st, lane) then [w.id] else [])
  {
    if s.st.active.None? {
      SubmitStarts(s, w, lane);
    } else {
      SubmitWaits(s, w, lane);
      NobodyStarts(s, w);
    }
  }

  /** With nothing active the submission starts, and all queues stay as they are. */
  lemma SubmitStarts(s: Sys, w: Waiting, lane: Lane)
    requires w.id == s.st.nextId + 1 && s.st.active.None?
    ensures var t := After(s, DoSubmit(w.lane, w.renderKey));
            && t.st.nextId == w.id && WaitingIn(t.st, lane) == WaitingIn(s.st, lane)
            && StartedIn(t.started, lane) == StartedIn(s.started, lane) + (if w.lane == lane then [w.id] else [])
  {
    SubmitIs(s, w);
    StartedNext(s.started, TicketFor(s.st, w), lane);
  }

  /** Behind an active rendering the lane's queue grows by the submission, if it takes it, and no other changes. */
  lemma SubmitWaits(s: Sys, w: Waiting, lane: Lane)
    requires w.id == s.st.nextId + 1 && s.st.active.Some?
    ensures var t := After(s, DoSubmit(w.lane, w.renderKey));
            && t.st.nextId == w.id
            && (w.lane != lane ==> WaitingIn(t.st, lane) == WaitingIn(s.st, lane))
            && (w.lane == lane && lane.PreviewLane? ==> WaitingIn(t.st, lane) == [w.id])
            && (w.lane == lane && !lane.PreviewLane? ==>
                WaitingIn(t.st, lane) == WaitingIn(s.st, lane) + if Takes(s.st, lane) then [w.id] else [])
  {
    SubmitIs(s, w);
    IdsNext(s.st.fits, w);
    IdsNext(s.st.exports, w);
  }

  lemma IdsNext(ws: seq<Waiting>, w: Waiting)
    ensures Ids(ws + [w]) == Ids(ws) + [w.id] && Ids(ws) + [] == Ids(ws)
  {
  }

  lemma NobodyStarts(s: Sys, w: Waiting)
    requires w.id == s.st.nextId + 1 && s.st.active.Some?
    ensures After(s, DoSubmit(w.lane, w.renderKey)).started == s.started
  {
  }

  /** A completion that is not for the active ticket changes nothing; any other starts the next in line. */
  lemma CompleteIs(s: Sys, id: nat, generation: nat)
    ensures var t := After(s, DoComplete(id, generation));
            var (rest, next) := Popped(s.st.(active := None));
            if !IsActive(s.st, id, generation) then t.st == s.st && t.started == s.started
            else if next.None? then t.st == rest && t.started == s.started
            else t.st == Activate(rest, next.value) && t.started == s.started + [TicketFor(rest, next.value)]
  {
  }

  /** It moves the first who waits behind those started, and nobody else. */
  lemma CompleteLine(s: Sys, id: nat, generation: nat, lane: Lane)
    requires IsTidy(s)
    ensures var t := After(s, DoComplete(id, generation));
            && Line(t, lane) == Line(s, lane) && t.st.nextId == s.st.nextId
            && (WaitingIn(t.st, lane) == WaitingIn(s.st, lane)
                || (WaitingIn(s.st, lane) != [] && WaitingIn(t.st, lane) == WaitingIn(s.st, lane)[1..]))
  {
    CompleteIs(s, id, generation);
    var (rest, next) := Popped(s.st.(active := None));
    if IsActive(s.st, id, generation) && next.Some? {
      PoppedLine(s, lane);
      NextLine(s, rest, next.value, lane);
    }
  }

  lemma NextLine(s: Sys, rest: State, w: Waiting, lane: Lane)
    requires if w.lane == lane then WaitingIn(s.st, lane) == [w.id] + WaitingIn(rest, lane)
             else WaitingIn(s.st, lane) == WaitingIn(rest, lane)
    ensures StartedIn(s.started + [TicketFor(rest, w)], lane) + WaitingIn(rest, lane) == Line(s, lane)
    ensures WaitingIn(Activate(rest, w), lane) == WaitingIn(rest, lane)
  {
    StartedNext(s.started, TicketFor(rest, w), lane);
  }

  lemma PoppedLine(s: Sys, lane: Lane)
    requires IsTidy(s) && Popped(s.st.(active := None)).1.Some?
    ensures var (rest, next) := Popped(s.st.(active := None));
            if next.value.lane == lane then WaitingIn(s.st, lane) == [next.value.id] + WaitingIn(rest, lane)
            else WaitingIn(s.st, lane) == WaitingIn(rest, lane)
  {
    if s.st.exports != [] {
      IdsFirst(s.st.exports);
    } else if s.st.fits != [] {
      IdsFirst(s.st.fits);
    }
  }

  lemma IdsFirst(ws: seq<Waiting>)
    requires ws != []
    ensures Ids(ws) == [ws[0].id] + Ids(ws[1..])
  {
  }

  lemma GenerationLine(s: Sys, generation: nat, lane: Lane)
    ensures var t := After(s, DoSetGeneration(generation));
            Line(t, lane) == Line(s, lane) && t.st.nextId == s.st.nextId && WaitingIn(t.st, lane) == WaitingIn(s.st, lane)
  {
  }

  // ---- Every lane stays tidy ----

  predicate LaneIsTidy(s: Sys, lane: Lane) {
    AllUpTo(Line(s, lane), s.st.nextId) && (!lane.PreviewLane? ==> Rising(WaitingIn(s.st, lane)))
  }

  predicate LanesMatch(st: State) {
    && (forall i :: 0 <= i < |st.exports| ==> st.exports[i].lane == ExportLane)
    && (forall i :: 0 <= i < |st.fits| ==> st.fits[i].lane == FitLane)
    && (st.preview.Some? ==> st.preview.value.lane == PreviewLane)
  }

  lemma SubmitTidiesLane(s: Sys, w: Waiting, lane: Lane)
    requires LaneIsTidy(s, lane) && w.id == s.st.nextId + 1
    ensures LaneIsTidy(After(s, DoSubmit(w.lane, w.renderKey)), lane)
  {
    SubmitLine(s, w, lane);
    var before, waiting := StartedIn(s.started, lane), WaitingIn(s.st, lane);
    LineUpTo(before, waiting, s.st.nextId, w.id);
    RisingNext(waiting, s.st.nextId, w.id);
  }

  lemma LineUpTo(before: seq<nat>, waiting: seq<nat>, n: nat, k: nat)
    requires AllUpTo(before + waiting, n) && n < k
    ensures AllUpTo(before, n) && AllUpTo(waiting, n) && AllUpTo(before + waiting, k)
    ensures AllUpTo(before + [k] + waiting, k) && AllUpTo(before + (waiting + [k]), k) && AllUpTo(before + [k], k)
    ensures waiting + [] == waiting
  {
    forall i | 0 <= i < |before| ensures before[i] <= n {
      assert (before + waiting)[i] == before[i];
    }
    forall i | 0 <= i < |waiting| ensures waiting[i] <= n {
      assert (before + waiting)[|before| + i] == waiting[i];
    }
  }

  lemma CompleteTidiesLane(s: Sys, id: nat, generation: nat, lane: Lane)
    requires IsTidy(s)
    ensures LaneIsTidy(After(s, DoComplete(id, generation)), lane)
  {
    CompleteLine(s, id, generation, lane);
  }

  lemma ActionMatches(s: Sys, a: Action)
    requires LanesMatch(s.st)
    ensures LanesMatch(After(s, a).st)
  {
  }

  lemma TidyMeans(s: Sys)
    ensures IsTidy(s) <==> LanesMatch(s.st) && forall lane: Lane :: LaneIsTidy(s, lane)
  {
    if IsTidy(s) {
      forall lane: Lane ensures LaneIsTidy(s, lane) {
        match lane
        case PreviewLane =>
        case FitLane =>
        case ExportLane =>
      }
    }
    if LanesMatch(s.st) && forall lane: Lane :: LaneIsTidy(s, lane) {
      assert LaneIsTidy(s, PreviewLane) && LaneIsTidy(s, FitLane) && LaneIsTidy(s, ExportLane);
    }
  }

  lemma ActionTidies(s: Sys, a: Action)
    requires IsTidy(s)
    ensures IsTidy(After(s, a))
  {
    TidyMeans(s);
    ActionMatches(s, a);
    forall lane: Lane ensures LaneIsTidy(After(s, a), lane) {
      match a
      case DoSubmit(l, key) => SubmitTidiesLane(s, Waiting(s.st.nextId + 1, l, key), lane);
      case DoComplete(id, generation) => CompleteTidiesLane(s, id, generation, lane);
      case DoSetGeneration(generation) => GenerationLine(s, generation, lane);
    }
    TidyMeans(After(s, a));
  }

  lemma {:induction false} EveryRunIsTidy(generation: nat, actions: seq<Action>)
    ensures IsTidy(Run(generation, actions))
  {
    if actions != [] {
      EveryRunIsTidy(generation, actions[..|actions| - 1]);
      ActionTidies(Run(generation, actions[..|actions| - 1]), actions[|actions| - 1]);
    }
  }

  // ---- Exactly when a lane keeps its order ----

  /** Nothing is active, yet somebody waits in the lane: a submission to it starts ahead of him. */
  predicate Overtakes(s: Sys, a: Action, lane: Lane) {
    a.DoSubmit? && a.lane == lane && s.st.active.None? && WaitingIn(s.st, lane) != []
  }

  predicate NeverOvertakes(generation: nat, actions: seq<Action>, lane: Lane) {
    actions == [] ||
    (NeverOvertakes(generation, actions[..|actions| - 1], lane)
     && !Overtakes(Run(generation, actions[..|actions| - 1]), actions[|actions| - 1], lane))
  }

  lemma SubmitKeepsFifoExactlyWhen(s: Sys, w: Waiting, lane: Lane)
    requires IsTidy(s) && w.id == s.st.nextId + 1 && !lane.PreviewLane?
    ensures IsFifo(After(s, DoSubmit(w.lane, w.renderKey)), lane) <==>
            IsFifo(s, lane) && !Overtakes(s, DoSubmit(w.lane, w.renderKey), lane)
  {
    SubmitLine(s, w, lane);
    TidyMeans(s);
    assert LaneIsTidy(s, lane);
    var before, waiting := StartedIn(s.started, lane), WaitingIn(s.st, lane);
    if w.lane == lane {
      RisingNext(Line(s, lane), s.st.nextId, w.id);
      if s.st.active.None? {
        StartRises(before, waiting, s.st.nextId);
      } else if Takes(s.st, lane) {
        assert before + (waiting + [w.id]) == before + waiting + [w.id];
      } else {
        assert before + (waiting + []) == before + waiting;
      }
    }
  }

  lemma StartRises(before: seq<nat>, waiting: seq<nat>, n: nat)
    requires AllUpTo(before + waiting, n)
    ensures Rising(before + [n + 1] + waiting) <==> Rising(before + waiting) && waiting == []
  {
    if waiting != [] {
      assert (before + waiting)[|before|] == waiting[0];
      NotRising(before, waiting, n + 1);
    } else {
      assert before + waiting == before && before + [n + 1] + waiting == before + [n + 1];
      RisingNext(before, n, n + 1);
    }
  }

  /**
   * Over every run, generation changes included: the export lane and the fit lane start their submissions in the order
   * they came, and go on so with those that wait, if and only if no submission came to the lane while nothing was
   * active and somebody waited in it.
   */
  lemma {:induction false} LanesAreFifoExactlyWhen(generation: nat, actions: seq<Action>, lane: Lane)
    requires !lane.PreviewLane?
    ensures IsFifo(Run(generation, actions), lane) <==> NeverOvertakes(generation, actions, lane)
  {
    if actions != [] {
      var init, last := actions[..|actions| - 1], actions[|actions| - 1];
      var s := Run(generation, init);
      LanesAreFifoExactlyWhen(generation, init, lane);
      EveryRunIsTidy(generation, init);
      match last
      case DoSubmit(l, key) => SubmitKeepsFifoExactlyWhen(s, Waiting(s.st.nextId + 1, l, key), lane);
      case DoComplete(id, g) => CompleteLine(s, id, g, lane);
      case DoSetGeneration(g) => GenerationLine(s, g, lane);
    }
  }

  // ---- The preview lane: its one waiting submission may be replaced ----

  /** The waiting preview was overtaken since it came. */
  predicate IsOvertaken(generation: nat, actions: seq<Action>) {
    actions != [] &&
    (var init, last := actions[..|actions| - 1], actions[|actions| - 1];
     var s, t := Run(generation, init), Run(generation, actions);
     t.st.preview.Some?
     && if last.DoSubmit? && last.lane == PreviewLane then s.st.active.None? else IsOvertaken(generation, init))
  }

  /** No completion starts a preview that was overtaken while it waited. */
  predicate NeverStartsOvertaken(generation: nat, actions: seq<Action>) {
    actions == [] ||
    (var init, last := actions[..|actions| - 1], actions[|actions| - 1];
     NeverStartsOvertaken(generation, init)
     && !(last.DoComplete? && IsOvertaken(generation, init)
          && Run(generation, init).st.preview.Some? && Run(generation, actions).st.preview.None?))
  }

  lemma PreviewSubmitted(s: Sys, key: string)
    requires IsTidy(s)
    ensures var t := After(s, DoSubmit(PreviewLane, key));
            && (Rising(StartedIn(t.started, PreviewLane)) <==> Rising(StartedIn(s.started, PreviewLane)))
            && (IsFifo(t, PreviewLane) <==>
                Rising(StartedIn(s.started, PreviewLane)) && !(s.st.active.None? && s.st.preview.Some?))
            && (t.st.preview.Some? <==> s.st.active.Some? || s.st.preview.Some?)
  {
    var w := Waiting(s.st.nextId + 1, PreviewLane, key);
    var before := StartedIn(s.started, PreviewLane);
    SubmitIs(s, w);
    SubmitLine(s, w, PreviewLane);
    TidyMeans(s);
    assert LaneIsTidy(s, PreviewLane);
    forall i | 0 <= i < |before| ensures before[i] <= s.st.nextId {
      assert Line(s, PreviewLane)[i] == before[i];
    }
    RisingNext(before, s.st.nextId, w.id);
    if s.st.active.None? && s.st.preview.Some? {
      assert Line(s, PreviewLane)[|before|] == s.st.preview.value.id;
      NotRising(before, WaitingIn(s.st, PreviewLane), w.id);
    } else if s.st.active.None? {
      assert before + [w.id] + WaitingIn(s.st, PreviewLane) == before + [w.id];
    }
  }

  lemma CompletionAndPreview(s: Sys, id: nat, generation: nat)
    requires IsTidy(s)
    ensures var t := After(s, DoComplete(id, generation));
            && (t.st.preview.Some? ==> s.st.preview.Some?)
            && StartedIn(t.started, PreviewLane)
               == (if s.st.preview.Some? && t.st.preview.None? then Line(s, PreviewLane) else StartedIn(s.started, PreviewLane))
            && Line(t, PreviewLane) == Line(s, PreviewLane)
  {
    var t := After(s, DoComplete(id, generation));
    CompleteLine(s, id, generation, PreviewLane);
    var before, after := StartedIn(s.started, PreviewLane), StartedIn(t.started, PreviewLane);
    if t.st.preview.Some? || s.st.preview.None? {
      assert WaitingIn(t.st, PreviewLane) == WaitingIn(s.st, PreviewLane);
      assert before == Line(s, PreviewLane)[..|before|] && after == Line(t, PreviewLane)[..|after|];
    } else {
      assert after + [] == after;
    }
  }

  /**
   * Over every run: previews start in the order they came if and only if no completion starts one that was overtaken;
   * and with the waiting one they stand in order if and only if it was not overtaken either.
   */
  lemma {:induction false} PreviewsStartInOrderExactlyWhen(generation: nat, actions: seq<Action>)
    ensures Rising(StartedIn(Run(generation, actions).started, PreviewLane)) <==> NeverStartsOvertaken(generation, actions)
    ensures IsFifo(Run(generation, actions), PreviewLane) <==>
            NeverStartsOvertaken(generation, actions) && !IsOvertaken(generation, actions)
  {
    if actions != [] {
      var init, last := actions[..|actions| - 1], actions[|actions| - 1];
      var s := Run(generation, init);
      PreviewsStartInOrderExactlyWhen(generation, init);
      EveryRunIsTidy(generation, init);
      match last
      case DoSubmit(lane, key) =>
        if lane == PreviewLane {
          PreviewSubmitted(s, key);
        } else {
          SubmitLine(s, Waiting(s.st.nextId + 1, lane, key), PreviewLane);
          OtherSubmission(s, lane, key);
        }
      case DoComplete(id, g) => CompletionAndPreview(s, id, g);
      case DoSetGeneration(g) => GenerationLine(s, g, PreviewLane);
    }
  }

  lemma OtherSubmission(s: Sys, lane: Lane, key: string)
    requires lane != PreviewLane
    ensures After(s, DoSubmit(lane, key)).st.preview == s.st.preview
  {
  }

  // ---- A run in which a later export starts first ----

  function OvertakingRun(): seq<Action> {
    [DoSubmit(ExportLane, "a"), DoSubmit(ExportLane, "b"), DoSetGeneration(1), DoSubmit(ExportLane, "c"), DoComplete(3, 1)]
  }

  lemma RunNext(actions: seq<Action>, n: nat)
    requires n < |actions|
    ensures Run(0, actions[..n + 1]) == After(Run(0, actions[..n]), actions[n])
  {
    assert actions[..n + 1][..n] == actions[..n];
  }

  const FIRST := Ticket(1, 0, ExportLane, "a")
  const SECOND := Ticket(2, 1, ExportLane, "b")
  const THIRD := Ticket(3, 1, ExportLane, "c")
  const WAITING := Waiting(2, ExportLane, "b")

  lemma FirstStartsSecondWaits()
    ensures var s := Run(0, OvertakingRun()[..2]);
            s.started == [FIRST] && s.st == State(2, 0, Some(FIRST), None, [], [WAITING])
  {
    var actions := OvertakingRun();
    assert actions[..0] == [];
    RunNext(actions, 0);
    RunNext(actions, 1);
    assert [] + [FIRST] == [FIRST] && [] + [WAITING] == [WAITING];
  }

  lemma ThirdStartsSecondWaits()
    ensures var s := Run(0, OvertakingRun()[..4]);
            s.started == [FIRST] + [THIRD] && s.st == State(3, 1, Some(THIRD), None, [], [WAITING])
    ensures Overtakes(Run(0, OvertakingRun()[..3]), OvertakingRun()[3], ExportLane)
  {
    var actions := OvertakingRun();
    FirstStartsSecondWaits();
    RunNext(actions, 2);
    assert WaitingIn(Run(0, actions[..3]).st, ExportLane)[0] == 2;
    RunNext(actions, 3);
  }

  /** The second export waits, the worker is replaced, the third export starts at once, and the second after it. */
  lemma GenerationChangeLetsOneOvertake()
    ensures StartedIn(Run(0, OvertakingRun()).started, ExportLane) == [1, 3, 2]
    ensures !IsFifo(Run(0, OvertakingRun()), ExportLane) && !NeverOvertakes(0, OvertakingRun(), ExportLane)
  {
    var actions := OvertakingRun();
    ThirdStartsSecondWaits();
    RunNext(actions, 4);
    assert actions[..5] == actions;
    var s := Run(0, actions);
    assert s.started == [FIRST] + [THIRD] + [SECOND];
    StartedNext([], FIRST, ExportLane);
    StartedNext([FIRST], THIRD, ExportLane);
    StartedNext([FIRST] + [THIRD], SECOND, ExportLane);
    assert [] + [FIRST] == [FIRST];
    assert Line(s, ExportLane)[1] == 3 && Line(s, ExportLane)[2] == 2;
    LanesAreFifoExactlyWhen(0, actions, ExportLane);
  }

  // ---- Which lane goes next ----

  lemma RisingMeansFirstIsLeast(ws: seq<Waiting>)
    requires Rising(Ids(ws))
    ensures forall i :: 0 <= i < |ws| ==> ws[0].id <= ws[i].id
  {
    forall i | 0 <= i < |ws| ensures ws[0].id <= ws[i].id {
      assert Ids(ws)[0] == ws[0].id && Ids(ws)[i] == ws[i].id;
    }
  }

  /** In every run a completion starts the oldest of the first lane that has anything: exports, then fits, then the preview. */
  lemma CompletionPicksTheOldest(g: nat, actions: seq<Action>, id: nat, generation: nat)
    requires IsActive(Run(g, actions).st, id, generation)
    ensures var st := Run(g, actions).st;
            var next := CompleteOf(st, id, generation).1;
            && (next.None? <==> IsEmptyQueue(st))
            && (next.Some? ==>
                && (st.exports != [] ==> next.value.lane == ExportLane)
                && (st.exports == [] && st.fits != [] ==> next.value.lane == FitLane)
                && (st.exports == [] && st.fits == [] ==> next.value.lane == PreviewLane)
                && forall w :: w in AllWaiting(st) && w.lane == next.value.lane ==> next.value.id <= w.id)
  {
    EveryRunIsTidy(g, actions);
    var st := Run(g, actions).st;
    RisingMeansFirstIsLeast(st.exports);
    RisingMeansFirstIsLeast(st.fits);
  }
}
