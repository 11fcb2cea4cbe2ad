/** Export sessions under every interleaving of renders, writes, retries, give-ups and restores. */
module ExportSafety {
  import opened Contracts
  import opened ExportSessions

  // ---- The system: the host, the prepared writes that are out, and the receipts handed to the store ----

  datatype Sent = Sent(exportId: string, writeId: string, generation: nat, receipt: Receipt, stored: bool)

  /** `homes` remembers the generation in which each export ID was given out. */
  datatype Sys = Sys(host: State, clock: nat, out: seq<Prepared>, homes: map<string, nat>, log: seq<Sent>)

  datatype Action =
    | Wait(until: nat)
    | DoRegister(generation: nat, product: Export, exportId: string, clockOk: bool)
    | DoPrepare(exportId: string, artifactId: string, writeId: string, path: string, length: nat, digest: string)
    | DoFinish(index: nat, world: World)
    | DoAbandon(index: nat)
    | DoInvalidate

  const START: Sys := Sys(State(0, 0, map[]), 0, [], map[], [])

  function Without<T>(s: seq<T>, i: nat): seq<T>
    requires i < |s|
  {
    s[..i] + s[i + 1..]
  }

  function Logged(p: Prepared, f: Finished, w: World): seq<Sent> {
    if f.sent.Some? then [Sent(p.exportId, p.writeId, p.generation, f.sent.value, w.answer.Some?)] else []
  }

  /** Export IDs are fresh, clocks do not go back, and each prepared write is finished or abandoned once. */
  ghost predicate Next(s: Sys, a: Action, t: Sys) {
    match a
    case Wait(until) => until >= s.clock && t == s.(clock := until)
    case DoRegister(generation, product, exportId, clockOk) =>
      && exportId !in s.homes
      && t.clock == s.clock && t.out == s.out && t.log == s.log
      && t.homes == s.homes[exportId := s.host.generation]
      && exists error :: Registers(s.host, generation, product, exportId, s.clock, clockOk, t.host, error)
    case DoPrepare(exportId, artifactId, writeId, path, length, digest) =>
      var r := PrepareOf(s.host, exportId, artifactId, writeId, path, length, digest, s.clock);
      t == s.(host := r.state, out := if r.result.Ok? then s.out + [r.result.value] else s.out)
    case DoFinish(index, w) =>
      && index < |s.out|
      && var f := FinishOf(s.host, s.out[index], w);
         t == s.(host := f.state, out := Without(s.out, index), log := s.log + Logged(s.out[index], f, w))
    case DoAbandon(index) =>
      index < |s.out| && t == s.(host := AbandonOf(s.host, s.out[index]), out := Without(s.out, index))
    case DoInvalidate => t == s.(host := InvalidateOf(s.host))
  }

  // ---- Invariants ----

  predicate IsBoundedTicket(t: Ticket) {
    |t.writes| <= MAX_WRITES_PER_SESSION && 0 < |t.artifacts| <= MAX_ARTIFACTS
  }

  predicate IsBounded(st: State) {
    |st.tickets| <= MAX_SESSIONS && forall id :: id in st.tickets ==> IsBoundedTicket(st.tickets[id])
  }

  predicate SameKey(p: Prepared, q: Prepared) {
    p.exportId == q.exportId && p.writeId == q.writeId
  }

  /** No two prepared writes are out for the same export and write ID. */
  predicate AreDistinct(out: seq<Prepared>) {
    forall i, j :: 0 <= i < j < |out| ==> !SameKey(out[i], out[j])
  }

  predicate IsInFlight(st: State, exportId: string, writeId: string) {
    HasWrite(st, exportId, writeId) && WriteAt(st, exportId, writeId).inFlight
  }

  /** A prepared write of this generation has its write waiting on the host. */
  predicate IsAwaited(st: State, p: Prepared) {
    p.generation == st.generation ==> IsInFlight(st, p.exportId, p.writeId)
  }

  predicate AreAwaited(st: State, out: seq<Prepared>) {
    forall i :: 0 <= i < |out| ==> IsAwaited(st, out[i])
  }

  predicate IsOut(out: seq<Prepared>, exportId: string, writeId: string, generation: nat) {
    exists i :: 0 <= i < |out| && out[i].exportId == exportId && out[i].writeId == writeId && out[i].generation == generation
  }

  /** A write in flight on the host is out. */
  ghost predicate InFlightIsOut(st: State, out: seq<Prepared>) {
    forall e, w :: IsInFlight(st, e, w) ==> IsOut(out, e, w, st.generation)
  }

  predicate TicketsAtHome(st: State, homes: map<string, nat>) {
    forall id :: id in st.tickets ==> id in homes && homes[id] == st.generation
  }

  predicate OutAtHome(out: seq<Prepared>, homes: map<string, nat>) {
    forall i :: 0 <= i < |out| ==> out[i].exportId in homes && homes[out[i].exportId] == out[i].generation
  }

  predicate LogAtHome(log: seq<Sent>, homes: map<string, nat>) {
    forall i :: 0 <= i < |log| ==> log[i].exportId in homes && homes[log[i].exportId] == log[i].generation
  }

  /** The receipt of a written file is the one every earlier attempt handed over. */
  predicate IsKept(st: State, e: Sent) {
    e.exportId in st.tickets ==>
      && HasWrite(st, e.exportId, e.writeId)
      && WriteAt(st, e.exportId, e.writeId).written.Some?
      && WriteAt(st, e.exportId, e.writeId).written.value.receipt == e.receipt
  }

  predicate AreKept(st: State, log: seq<Sent>) {
    forall i :: 0 <= i < |log| ==> IsKept(st, log[i])
  }

  /** All attempts for one export and write ID handed over one and the same receipt. */
  predicate OneReceipt(log: seq<Sent>) {
    forall i, j :: 0 <= i < |log| && 0 <= j < |log| && log[i].exportId == log[j].exportId && log[i].writeId == log[j].writeId ==>
      log[i].receipt == log[j].receipt
  }

  predicate IsStored(log: seq<Sent>, receipt: Receipt) {
    exists i :: 0 <= i < |log| && log[i].stored && log[i].receipt == receipt
  }

  /** A write marked as recorded was accepted by the store. */
  ghost predicate RecordedIsStored(st: State, log: seq<Sent>) {
    forall e, w :: HasWrite(st, e, w) && IsRecorded(WriteAt(st, e, w)) ==>
      IsStored(log, WriteAt(st, e, w).written.value.receipt)
  }

  ghost predicate Inv(s: Sys) {
    && IsBounded(s.host)
    && AreDistinct(s.out) && AreAwaited(s.host, s.out) && InFlightIsOut(s.host, s.out)
    && TicketsAtHome(s.host, s.homes) && OutAtHome(s.out, s.homes) && LogAtHome(s.log, s.homes)
    && AreKept(s.host, s.log) && OneReceipt(s.log) && RecordedIsStored(s.host, s.log)
  }

  // ---- Registration ----

  /** What making room and entering a ticket do to the tickets. */
  ghost predicate Trimmed(before: map<string, Ticket>, after: map<string, Ticket>) {
    && (forall id :: id in after ==> id in before && after[id] == before[id])
    && (forall id :: id in before && InFlight(before[id]) ==> id in after)
  }

  lemma SmallerMap(a: map<string, Ticket>, b: map<string, Ticket>)
    requires forall id :: id in a ==> id in b
    ensures |a| <= |b|
  {
    assert a.Keys <= b.Keys;
    SmallerSet(a.Keys, b.Keys);
  }

  lemma {:induction false} SmallerSet(a: set<string>, b: set<string>)
    requires a <= b
    ensures |a| <= |b|
  {
    if a != {} {
      var x :| x in a;
      SmallerSet(a - {x}, b - {x});
    }
  }

  lemma RoomIsMade(before: map<string, Ticket>, now: nat, after: map<string, Ticket>, ok: bool)
    requires MadeRoom(before, now, after, ok)
    ensures Trimmed(before, after)
    ensures |before| <= MAX_SESSIONS ==> |after| <= MAX_SESSIONS && (ok ==> |after| < MAX_SESSIONS)
    ensures KeepsProofs(before, now, after)
  {
    var live := Live(before, now);
    SmallerMap(live, before);
    if |live| >= MAX_SESSIONS && exists id :: IsVictim(live, id) {
      var victim :| IsVictim(live, victim) && after == live - {victim};
      EvictableIsRecorded(live[victim]);
      assert after.Keys == live.Keys - {victim};
      assert |after.Keys| == |live.Keys| - 1;
    }
  }

  /** An evictable ticket has nothing in flight and nothing written but not yet recorded. */
  lemma EvictableIsRecorded(t: Ticket)
    requires IsEvictable(t)
    ensures !InFlight(t) && !HasUnrecorded(t)
  {
  }

  /** At most one ticket is added, without writes. */
  predicate Entered(room: map<string, Ticket>, after: map<string, Ticket>, exportId: string) {
    after == room ||
    (exportId in after && after == room[exportId := after[exportId]]
     && after[exportId].writes == map[] && IsBoundedTicket(after[exportId]))
  }

  /** Live tickets that hold an unrecorded proof are still there. */
  predicate KeepsProofs(before: map<string, Ticket>, now: nat, room: map<string, Ticket>) {
    forall id :: id in before && IsLive(before[id], now) && HasUnrecorded(before[id]) ==> id in room
  }

  lemma RegisterChange(st: State, generation: nat, product: Export, exportId: string, now: nat, clockOk: bool,
                       after: State, error: Option<SessionError>) returns (room: map<string, Ticket>)
    requires Registers(st, generation, product, exportId, now, clockOk, after, error)
    ensures after.generation == st.generation && Trimmed(st.tickets, room)
    ensures |st.tickets| <= MAX_SESSIONS ==> |after.tickets| <= MAX_SESSIONS
    ensures KeepsProofs(st.tickets, now, room) && Entered(room, after.tickets, exportId)
  {
    room := st.tickets;
    var artifacts := ArtifactsOf(product);
    if artifacts.Ok? && generation == st.generation {
      var r, ok :| MadeRoom(st.tickets, now, r, ok) && Enters(st, product.frozen, artifacts.value, exportId, now, clockOk, r, ok, after, error);
      RoomIsMade(st.tickets, now, r, ok);
      room := r;
      EntersOne(st, product.frozen, artifacts.value, exportId, now, clockOk, r, ok, after, error);
    }
  }

  lemma EntersOne(st: State, frozen: Frozen, artifacts: seq<Artifact>, exportId: string, now: nat, clockOk: bool,
                  room: map<string, Ticket>, ok: bool, after: State, error: Option<SessionError>)
    requires Enters(st, frozen, artifacts, exportId, now, clockOk, room, ok, after, error)
    requires 0 < |artifacts| <= MAX_ARTIFACTS
    ensures after.generation == st.generation && Entered(room, after.tickets, exportId)
    ensures |room| <= MAX_SESSIONS && (ok ==> |room| < MAX_SESSIONS) ==> |after.tickets| <= MAX_SESSIONS
  {
    if error.None? {
      OneMoreKey(room, exportId, Ticket(frozen, artifacts, now, map[]));
    }
  }

  lemma OneMoreKey(m: map<string, Ticket>, key: string, value: Ticket)
    ensures |m[key := value]| <= |m| + 1
  {
    assert m[key := value].Keys == m.Keys + {key};
  }

  /** Tickets may be gone, but those that stay are unchanged and a new one has no writes. */
  ghost predicate Shrunk(before: State, after: State, exportId: string) {
    && after.generation == before.generation
    && (forall id :: id in after.tickets && id != exportId ==> id in before.tickets && after.tickets[id] == before.tickets[id])
    && (exportId in after.tickets && exportId !in before.tickets ==> after.tickets[exportId].writes == map[])
    && (forall id :: id in before.tickets && InFlight(before.tickets[id]) ==> id in after.tickets)
  }

  lemma RegisterShrinks(st: State, generation: nat, product: Export, exportId: string, now: nat, clockOk: bool,
                        after: State, error: Option<SessionError>)
    requires Registers(st, generation, product, exportId, now, clockOk, after, error)
    requires exportId !in st.tickets && IsBounded(st)
    ensures Shrunk(st, after, exportId) && IsBounded(after)
  {
    var room := RegisterChange(st, generation, product, exportId, now, clockOk, after, error);
    EnteredIsShrunk(st, room, after, exportId);
    EnteredIsBounded(st, room, after, exportId);
  }

  lemma EnteredIsShrunk(st: State, room: map<string, Ticket>, after: State, exportId: string)
    requires after.generation == st.generation && Trimmed(st.tickets, room)
    requires Entered(room, after.tickets, exportId) && exportId !in st.tickets
    ensures Shrunk(st, after, exportId)
  {
  }

  lemma EnteredIsBounded(st: State, room: map<string, Ticket>, after: State, exportId: string)
    requires IsBounded(st) && Trimmed(st.tickets, room) && Entered(room, after.tickets, exportId)
    requires |after.tickets| <= MAX_SESSIONS
    ensures IsBounded(after)
  {
  }

  lemma ShrunkKeeps(s: Sys, t: Sys, exportId: string)
    requires Inv(s) && exportId !in s.homes && Shrunk(s.host, t.host, exportId) && IsBounded(t.host)
    requires t.out == s.out && t.log == s.log && t.homes == s.homes[exportId := s.host.generation]
    ensures Inv(t)
  {
    ShrunkTokens(s, t, exportId);
    ShrunkLog(s, t, exportId);
  }

  lemma SameWrites(before: State, after: State, exportId: string, e: string, w: string)
    requires Shrunk(before, after, exportId) && exportId !in before.tickets && HasWrite(after, e, w)
    ensures HasWrite(before, e, w) && WriteAt(before, e, w) == WriteAt(after, e, w)
  {
  }

  lemma ShrunkTokens(s: Sys, t: Sys, exportId: string)
    requires Inv(s) && exportId !in s.homes && Shrunk(s.host, t.host, exportId)
    requires t.out == s.out && t.homes == s.homes[exportId := s.host.generation]
    ensures AreAwaited(t.host, t.out) && InFlightIsOut(t.host, t.out)
    ensures TicketsAtHome(t.host, t.homes) && OutAtHome(t.out, t.homes)
  {
    forall i | 0 <= i < |t.out| ensures IsAwaited(t.host, t.out[i]) {
      var p := t.out[i];
      assert IsAwaited(s.host, p);
      if p.generation == s.host.generation {
        assert InFlight(s.host.tickets[p.exportId]);
      }
    }
    forall e, w | IsInFlight(t.host, e, w) ensures IsOut(t.out, e, w, t.host.generation) {
      SameWrites(s.host, t.host, exportId, e, w);
      assert IsInFlight(s.host, e, w);
    }
  }

  lemma ShrunkLog(s: Sys, t: Sys, exportId: string)
    requires Inv(s) && exportId !in s.homes && Shrunk(s.host, t.host, exportId)
    requires t.log == s.log && t.homes == s.homes[exportId := s.host.generation]
    ensures LogAtHome(t.log, t.homes) && AreKept(t.host, t.log) && RecordedIsStored(t.host, t.log)
  {
    forall i | 0 <= i < |t.log| ensures IsKept(t.host, t.log[i]) {
      assert IsKept(s.host, s.log[i]);
      assert s.log[i].exportId != exportId;
    }
    forall e, w | HasWrite(t.host, e, w) && IsRecorded(WriteAt(t.host, e, w))
      ensures IsStored(t.log, WriteAt(t.host, e, w).written.value.receipt)
    {
      SameWrites(s.host, t.host, exportId, e, w);
    }
  }

  // ---- One write changes ----

  /** Everything but one write is as before. */
  ghost predicate OnlyWrite(before: State, after: State, exportId: string, writeId: string) {
    && after.generation == before.generation && after.tickets.Keys == before.tickets.Keys
    && HasWrite(after, exportId, writeId)
    && (forall e, w :: (e != exportId || w != writeId) ==>
          (HasWrite(after, e, w) <==> HasWrite(before, e, w)) && (HasWrite(before, e, w) ==> WriteAt(after, e, w) == WriteAt(before, e, w)))
  }

  lemma SetWriteIsOnly(st: State, exportId: string, writeId: string, write: Write)
    requires exportId in st.tickets
    ensures OnlyWrite(st, SetWrite(st, exportId, writeId, write), exportId, writeId)
    ensures WriteAt(SetWrite(st, exportId, writeId, write), exportId, writeId) == write
  {
  }

  lemma SetWriteIsBounded(st: State, exportId: string, writeId: string, write: Write)
    requires IsBounded(st) && exportId in st.tickets
    requires HasWrite(st, exportId, writeId) || |st.tickets[exportId].writes| < MAX_WRITES_PER_SESSION
    ensures IsBounded(SetWrite(st, exportId, writeId, write))
  {
    var t := st.tickets[exportId];
    var after := SetWrite(st, exportId, writeId, write);
    assert after.tickets.Keys == st.tickets.Keys;
    assert t.writes[writeId := write].Keys == t.writes.Keys + {writeId};
    assert |after.tickets| == |after.tickets.Keys| && |st.tickets| == |st.tickets.Keys|;
    assert |after.tickets[exportId].writes| == |t.writes.Keys + {writeId}|;
    if writeId in t.writes {
      assert t.writes.Keys + {writeId} == t.writes.Keys;
    }
  }

  // ---- Preparing ----

  lemma PrepareKeeps(s: Sys, a: Action, t: Sys)
    requires Inv(s) && a.DoPrepare? && Next(s, a, t)
    ensures Inv(t)
  {
    var r := PrepareOf(s.host, a.exportId, a.artifactId, a.writeId, a.path, a.length, a.digest, s.clock);
    if r.result.Ok? {
      var p := r.result.value;
      var ticket := s.host.tickets[a.exportId];
      var artifact := FindArtifact(ticket.artifacts, a.artifactId).value;
      FoundHasId(ticket.artifacts, a.artifactId);
      var write := if a.writeId in ticket.writes then ticket.writes[a.writeId] else Write(a.path, artifact.id, false, None);
      assert r.state == SetWrite(s.host, a.exportId, a.writeId, write.(inFlight := true));
      SetWriteIsOnly(s.host, a.exportId, a.writeId, write.(inFlight := true));
      SetWriteIsBounded(s.host, a.exportId, a.writeId, write.(inFlight := true));
      PreparedTokens(s, t, p);
      PreparedLog(s, t, p, write);
    }
  }

  ghost predicate Takes(s: Sys, t: Sys, p: Prepared) {
    && p.generation == s.host.generation && p.exportId in s.host.tickets
    && !IsInFlight(s.host, p.exportId, p.writeId)
    && OnlyWrite(s.host, t.host, p.exportId, p.writeId) && IsInFlight(t.host, p.exportId, p.writeId)
    && t.out == s.out + [p] && t.homes == s.homes && t.log == s.log
  }

  lemma PreparedTokens(s: Sys, t: Sys, p: Prepared)
    requires Inv(s) && Takes(s, t, p)
    ensures AreDistinct(t.out) && AreAwaited(t.host, t.out) && InFlightIsOut(t.host, t.out)
    ensures TicketsAtHome(t.host, t.homes) && OutAtHome(t.out, t.homes)
  {
    forall i | 0 <= i < |s.out| ensures !SameKey(s.out[i], p) {
      assert IsAwaited(s.host, s.out[i]);
    }
    forall i | 0 <= i < |t.out| ensures IsAwaited(t.host, t.out[i]) {
      if i < |s.out| {
        assert IsAwaited(s.host, s.out[i]) && !SameKey(s.out[i], p);
      }
    }
    forall e, w | IsInFlight(t.host, e, w) ensures IsOut(t.out, e, w, t.host.generation) {
      if e == p.exportId && w == p.writeId {
        assert t.out[|s.out|] == p;
      } else {
        assert IsInFlight(s.host, e, w);
        var i :| 0 <= i < |s.out| && s.out[i].exportId == e && s.out[i].writeId == w && s.out[i].generation == s.host.generation;
        assert t.out[i] == s.out[i];
      }
    }
  }

  lemma PreparedLog(s: Sys, t: Sys, p: Prepared, write: Write)
    requires Inv(s) && Takes(s, t, p)
    requires if HasWrite(s.host, p.exportId, p.writeId) then write == WriteAt(s.host, p.exportId, p.writeId) else write.written.None?
    requires WriteAt(t.host, p.exportId, p.writeId) == write.(inFlight := true)
    ensures AreKept(t.host, t.log) && RecordedIsStored(t.host, t.log)
  {
    forall i | 0 <= i < |t.log| ensures IsKept(t.host, t.log[i]) {
      assert IsKept(s.host, s.log[i]);
    }
    forall e, w | HasWrite(t.host, e, w) && IsRecorded(WriteAt(t.host, e, w))
      ensures IsStored(t.log, WriteAt(t.host, e, w).written.value.receipt)
    {
      assert HasWrite(s.host, e, w) && IsRecorded(WriteAt(s.host, e, w));
    }
  }

  // ---- Finishing and abandoning ----

  /** A prepared write comes back; its write is no longer in flight. */
  ghost predicate Returns(s: Sys, t: Sys, index: nat) {
    && index < |s.out| && t.out == Without(s.out, index) && t.homes == s.homes
    && var p := s.out[index];
       if HasWrite(s.host, p.exportId, p.writeId)
       then OnlyWrite(s.host, t.host, p.exportId, p.writeId) && !IsInFlight(t.host, p.exportId, p.writeId)
       else t.host == s.host
  }

  lemma WithoutAt(out: seq<Prepared>, index: nat, i: nat)
    requires index < |out| && i < |out| && i != index
    ensures var k := if i < index then i else i - 1; k < |Without(out, index)| && Without(out, index)[k] == out[i]
  {
  }

  lemma ReturnedTokens(s: Sys, t: Sys, index: nat)
    requires Inv(s) && Returns(s, t, index)
    ensures AreDistinct(t.out) && AreAwaited(t.host, t.out) && InFlightIsOut(t.host, t.out)
    ensures TicketsAtHome(t.host, t.homes) && OutAtHome(t.out, t.homes)
  {
    var p := s.out[index];
    forall k | 0 <= k < |t.out| ensures IsAwaited(t.host, t.out[k]) {
      var i := if k < index then k else k + 1;
      assert t.out[k] == s.out[i] && IsAwaited(s.host, s.out[i]);
      assert !SameKey(s.out[i], p);
    }
    forall e, w | IsInFlight(t.host, e, w) ensures IsOut(t.out, e, w, t.host.generation) {
      StillOut(s, t, index, e, w);
    }
  }

  lemma StillOut(s: Sys, t: Sys, index: nat, e: string, w: string)
    requires Inv(s) && Returns(s, t, index) && IsInFlight(t.host, e, w)
    ensures IsOut(t.out, e, w, t.host.generation)
  {
    var p := s.out[index];
    assert IsInFlight(s.host, e, w);
    var i :| 0 <= i < |s.out| && s.out[i].exportId == e && s.out[i].writeId == w && s.out[i].generation == s.host.generation;
    if i != index {
      WithoutAt(s.out, index, i);
    }
  }

  /** A write of the current generation that was prepared is always still there to be finished. */
  lemma FinishFindsItsWrite(s: Sys, index: nat)
    requires Inv(s) && index < |s.out| && s.out[index].generation == s.host.generation
    ensures IsInFlight(s.host, s.out[index].exportId, s.out[index].writeId)
    ensures forall w :: FinishOf(s.host, s.out[index], w).result !in {Err(NoSession), Err(NoWrite), Err(Restored)}
  {
    assert IsAwaited(s.host, s.out[index]);
  }

  /** A prepared write of an earlier generation has no ticket any more. */
  lemma OldTokenIsForeign(s: Sys, index: nat)
    requires Inv(s) && index < |s.out| && s.out[index].generation != s.host.generation
    ensures s.out[index].exportId !in s.host.tickets
  {
  }

  lemma AbandonKeeps(s: Sys, a: Action, t: Sys)
    requires Inv(s) && a.DoAbandon? && Next(s, a, t)
    ensures Inv(t)
  {
    var p := s.out[a.index];
    if HasWrite(s.host, p.exportId, p.writeId) {
      var write := WriteAt(s.host, p.exportId, p.writeId).(inFlight := false);
      SetWriteIsOnly(s.host, p.exportId, p.writeId, write);
      SetWriteIsBounded(s.host, p.exportId, p.writeId, write);
      LandedLog(s, t.host, p);
    }
    ReturnedTokens(s, t, a.index);
  }

  /** Taking a write out of flight leaves its proof alone. */
  lemma LandedLog(s: Sys, after: State, p: Prepared)
    requires Inv(s) && HasWrite(s.host, p.exportId, p.writeId) && OnlyWrite(s.host, after, p.exportId, p.writeId)
    requires WriteAt(after, p.exportId, p.writeId) == WriteAt(s.host, p.exportId, p.writeId).(inFlight := false)
    ensures AreKept(after, s.log) && RecordedIsStored(after, s.log)
  {
    forall i | 0 <= i < |s.log| ensures IsKept(after, s.log[i]) {
      assert IsKept(s.host, s.log[i]);
    }
    forall e, w | HasWrite(after, e, w) && IsRecorded(WriteAt(after, e, w))
      ensures IsStored(s.log, WriteAt(after, e, w).written.value.receipt)
    {
      assert HasWrite(s.host, e, w) && IsRecorded(WriteAt(s.host, e, w));
    }
  }

  lemma FinishKeeps(s: Sys, a: Action, t: Sys)
    requires Inv(s) && a.DoFinish? && Next(s, a, t)
    ensures Inv(t)
  {
    var p := s.out[a.index];
    var f := FinishOf(s.host, p, a.world);
    if p.generation != s.host.generation {
      OldTokenIsForeign(s, a.index);
      assert s.log + [] == s.log;
    } else {
      FinishFindsItsWrite(s, a.index);
      FinishSets(s.host, p, a.world);
      if f.sent.None? {
        LandedLog(s, t.host, p);
        assert s.log + [] == s.log;
      } else {
        SentLog(s, t, p, f, a.world);
      }
    }
    ReturnedTokens(s, t, a.index);
  }

  /** Finishing sets the one write, out of flight; without a receipt sent nothing else about it changes. */
  lemma FinishSets(st: State, p: Prepared, w: World)
    requires IsBounded(st) && p.generation == st.generation && HasWrite(st, p.exportId, p.writeId)
    ensures var f := FinishOf(st, p, w);
            && OnlyWrite(st, f.state, p.exportId, p.writeId) && IsBounded(f.state)
            && !IsInFlight(f.state, p.exportId, p.writeId)
            && (f.sent.None? ==>
                WriteAt(f.state, p.exportId, p.writeId) == WriteAt(st, p.exportId, p.writeId).(inFlight := false))
  {
    var after := FinishWrites(st, p, w);
    SetWriteIsOnly(st, p.exportId, p.writeId, after);
    SetWriteIsBounded(st, p.exportId, p.writeId, after);
  }

  lemma FinishWrites(st: State, p: Prepared, w: World) returns (after: Write)
    requires p.generation == st.generation && HasWrite(st, p.exportId, p.writeId)
    ensures var f := FinishOf(st, p, w);
            && f.state == SetWrite(st, p.exportId, p.writeId, after) && !after.inFlight
            && (f.sent.None? ==> after == WriteAt(st, p.exportId, p.writeId).(inFlight := false))
  {
    after := WriteAt(FinishOf(st, p, w).state, p.exportId, p.writeId);
    assert FinishOf(st, p, w).state == SetWrite(st, p.exportId, p.writeId, after);
  }

  lemma SentLog(s: Sys, t: Sys, p: Prepared, f: Finished, w: World)
    requires Inv(s) && HasWrite(s.host, p.exportId, p.writeId) && p.generation == s.host.generation
    requires f == FinishOf(s.host, p, w) && f.sent.Some?
    requires t.host == f.state && t.homes == s.homes && t.log == s.log + Logged(p, f, w)
    requires OnlyWrite(s.host, t.host, p.exportId, p.writeId)
    ensures LogAtHome(t.log, t.homes) && AreKept(t.host, t.log) && OneReceipt(t.log) && RecordedIsStored(t.host, t.log)
  {
    var n := |s.log|;
    var write := WriteAt(s.host, p.exportId, p.writeId);
    assert write.written.Some? ==> write.written.value.receipt == f.sent.value;
    assert WriteAt(t.host, p.exportId, p.writeId).written.value.receipt == f.sent.value;
    forall i | 0 <= i < |t.log| ensures IsKept(t.host, t.log[i]) {
      if i < n {
        assert IsKept(s.host, s.log[i]);
      }
    }
    forall i | 0 <= i < n && s.log[i].exportId == p.exportId && s.log[i].writeId == p.writeId
      ensures s.log[i].receipt == f.sent.value
    {
      assert IsKept(s.host, s.log[i]);
    }
    StoredAfter(s, t, p, f, w);
  }

  lemma StoredAfter(s: Sys, t: Sys, p: Prepared, f: Finished, w: World)
    requires Inv(s) && HasWrite(s.host, p.exportId, p.writeId) && p.generation == s.host.generation
    requires f == FinishOf(s.host, p, w) && f.sent.Some?
    requires t.host == f.state && t.log == s.log + Logged(p, f, w)
    requires OnlyWrite(s.host, t.host, p.exportId, p.writeId)
    ensures RecordedIsStored(t.host, t.log)
  {
    forall e, w' | HasWrite(t.host, e, w') && IsRecorded(WriteAt(t.host, e, w'))
      ensures IsStored(t.log, WriteAt(t.host, e, w').written.value.receipt)
    {
      if e == p.exportId && w' == p.writeId && w.answer.Some? {
        assert t.log[|s.log|].stored && t.log[|s.log|].receipt == f.sent.value;
      } else {
        assert HasWrite(s.host, e, w') && IsRecorded(WriteAt(s.host, e, w'));
        var receipt := WriteAt(s.host, e, w').written.value.receipt;
        var i :| 0 <= i < |s.log| && s.log[i].stored && s.log[i].receipt == receipt;
        assert t.log[i] == s.log[i];
      }
    }
  }

  // ---- Every step ----

  lemma InvalidateKeeps(s: Sys, a: Action, t: Sys)
    requires Inv(s) && a.DoInvalidate? && Next(s, a, t) && OldOut(s.out, s.host.generation)
    ensures Inv(t)
  {
  }

  predicate OldOut(out: seq<Prepared>, generation: nat) {
    forall i :: 0 <= i < |out| ==> out[i].generation <= generation
  }

  lemma OldOutKept(s: Sys, a: Action, t: Sys)
    requires OldOut(s.out, s.host.generation) && Next(s, a, t)
    ensures OldOut(t.out, t.host.generation)
  {
    match a
    case DoRegister(generation, product, exportId, clockOk) =>
      var error :| Registers(s.host, generation, product, exportId, s.clock, clockOk, t.host, error);
      var room := RegisterChange(s.host, generation, product, exportId, s.clock, clockOk, t.host, error);
    case _ =>
  }

  lemma StepKeeps(s: Sys, a: Action, t: Sys)
    requires Inv(s) && OldOut(s.out, s.host.generation) && Next(s, a, t)
    ensures Inv(t) && OldOut(t.out, t.host.generation)
  {
    OldOutKept(s, a, t);
    match a
    case Wait(_) =>
    case DoRegister(generation, product, exportId, clockOk) =>
      var error :| Registers(s.host, generation, product, exportId, s.clock, clockOk, t.host, error);
      RegisterShrinks(s.host, generation, product, exportId, s.clock, clockOk, t.host, error);
      ShrunkKeeps(s, t, exportId);
    case DoPrepare(_, _, _, _, _, _) => PrepareKeeps(s, a, t);
    case DoFinish(_, _) => FinishKeeps(s, a, t);
    case DoAbandon(_) => AbandonKeeps(s, a, t);
    case DoInvalidate => InvalidateKeeps(s, a, t);
  }

  ghost predicate Reaches(s: Sys, actions: seq<Action>, t: Sys)
    decreases |actions|
  {
    if actions == [] then t == s
    else
      var init, last := actions[..|actions| - 1], actions[|actions| - 1];
      exists m :: Reaches(s, init, m) && Next(m, last, t)
  }

  /**
   * Over every run: at most eight tickets of at most 256 writes and 202 artifacts; at most one prepared write out
   * per export and write ID, out exactly while it is in flight on the host; one fixed receipt per export and write
   * ID over all attempts; every receipt handed over in the generation its export was registered in.
   */
  lemma {:induction false} EveryRunIsSafe(actions: seq<Action>, t: Sys)
    requires Reaches(START, actions, t)
    ensures Inv(t) && OldOut(t.out, t.host.generation)
    decreases |actions|
  {
    if actions != [] {
      var init, last := actions[..|actions| - 1], actions[|actions| - 1];
      var m :| Reaches(START, init, m) && Next(m, last, t);
      EveryRunIsSafe(init, m);
      StepKeeps(m, last, t);
    }
  }

  // ---- What single steps never do ----

  /** Only a restore removes a ticket with a write in flight. */
  lemma InFlightStays(s: Sys, a: Action, t: Sys, id: string)
    requires Inv(s) && Next(s, a, t) && id in s.host.tickets && InFlight(s.host.tickets[id])
    ensures id in t.host.tickets <==> !a.DoInvalidate?
  {
    if a.DoRegister? {
      var error :| Registers(s.host, a.generation, a.product, a.exportId, s.clock, a.clockOk, t.host, error);
      RegisterShrinks(s.host, a.generation, a.product, a.exportId, s.clock, a.clockOk, t.host, error);
    }
  }

  predicate IsUnrecorded(t: Ticket, w: string) {
    w in t.writes && t.writes[w].written.Some? && !t.writes[w].written.value.recorded
  }

  /** The write still has its proof of the same receipt, which only `finished` may turn into a recorded one. */
  predicate KeepsProof(before: Ticket, after: Ticket, w: string, finished: bool)
    requires IsUnrecorded(before, w)
  {
    && w in after.writes && after.writes[w].written.Some?
    && after.writes[w].written.value.receipt == before.writes[w].written.value.receipt
    && (IsRecorded(after.writes[w]) ==> finished)
  }

  predicate IsFor(p: Prepared, exportId: string, writeId: string) {
    p.exportId == exportId && p.writeId == writeId
  }

  /** A written but unrecorded proof is lost only to a restore or to the end of its ticket's time. */
  lemma UnrecordedProofStays(s: Sys, a: Action, t: Sys, id: string)
    requires Inv(s) && Next(s, a, t) && id in s.host.tickets && HasUnrecorded(s.host.tickets[id])
    requires s.clock - s.host.tickets[id].registered < SESSION_TTL && !a.DoInvalidate?
    ensures id in t.host.tickets
    ensures KeepsProofsOf(s.host.tickets[id], t.host.tickets[id], id, if a.DoFinish? then Some(s.out[a.index]) else None)
  {
    match a
    case DoRegister(generation, product, exportId, clockOk) =>
      var error :| Registers(s.host, generation, product, exportId, s.clock, clockOk, t.host, error);
      var room := RegisterChange(s.host, generation, product, exportId, s.clock, clockOk, t.host, error);
      EnteredKeepsTicket(s.host.tickets, room, t.host.tickets, exportId, id);
    case DoPrepare(exportId, artifactId, writeId, path, length, digest) =>
      PrepareKeepsProofs(s.host, exportId, artifactId, writeId, path, length, digest, s.clock, id);
    case DoFinish(index, w) => FinishKeepsProofs(s.host, s.out[index], w, id);
    case DoAbandon(index) => AbandonKeepsProofs(s.host, s.out[index], id);
    case Wait(_) =>
  }

  /** All unrecorded proofs stay, and only the write that `finished` names may get its proof recorded. */
  ghost predicate KeepsProofsOf(before: Ticket, after: Ticket, id: string, finished: Option<Prepared>) {
    forall w :: IsUnrecorded(before, w) ==>
      KeepsProof(before, after, w, finished.Some? && IsFor(finished.value, id, w))
  }

  lemma EnteredKeepsTicket(before: map<string, Ticket>, room: map<string, Ticket>, after: map<string, Ticket>, exportId: string, id: string)
    requires Trimmed(before, room) && Entered(room, after, exportId) && id in before && id in room && exportId !in before
    ensures id in after && KeepsProofsOf(before[id], after[id], id, None)
  {
  }

  lemma PrepareKeepsProofs(st: State, exportId: string, artifactId: string, writeId: string, path: string,
                           length: nat, digest: string, now: nat, id: string)
    requires id in st.tickets
    ensures var after := PrepareOf(st, exportId, artifactId, writeId, path, length, digest, now).state;
            id in after.tickets && KeepsProofsOf(st.tickets[id], after.tickets[id], id, None)
  {
  }

  lemma AbandonKeepsProofs(st: State, p: Prepared, id: string)
    requires id in st.tickets
    ensures id in AbandonOf(st, p).tickets && KeepsProofsOf(st.tickets[id], AbandonOf(st, p).tickets[id], id, None)
  {
  }

  lemma FinishKeepsProofs(st: State, p: Prepared, w: World, id: string)
    requires id in st.tickets
    ensures id in FinishOf(st, p, w).state.tickets
    ensures KeepsProofsOf(st.tickets[id], FinishOf(st, p, w).state.tickets[id], id, Some(p))
  {
  }

  /** After a restore, a write prepared before it sends nothing to the store and changes nothing. */
  lemma NoReceiptAcrossRestore(s: Sys, index: nat, w: World)
    requires Inv(s) && index < |s.out| && s.out[index].generation != s.host.generation
    ensures FinishOf(s.host, s.out[index], w) == Finished(s.host, None, Err(Restored))
    ensures AbandonOf(s.host, s.out[index]) == s.host
  {
    OldTokenIsForeign(s, index);
  }
}
