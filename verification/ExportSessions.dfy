/** Frozen exports on the host: tickets, the writes made from them, and the receipts that record the writes. */
module ExportSessions {
  import opened Contracts
  import opened Strings

  const SESSION_TTL: nat := 15 * 60 * 1000
  const MAX_SESSIONS: nat := 8
  const MAX_WRITES_PER_SESSION: nat := 256
  const MAX_ARTIFACTS: nat := 202
  const MAX_SEQUENCE: nat := 0xFFFF_FFFF_FFFF_FFFF

  datatype SessionError =
    | BadDigest | BadCount | Restored | TooManyExports | SequenceExhausted | ClockInvalid
    | InvalidWriteId | NoSession | Expired | ForeignArtifact | ForeignBytes | TooManyWrites
    | WriteIdReused | WriteInFlight
    | NoWrite | DiskMismatch | NoFilename | StoreFailed

  // ---- Artifacts of an export ----

  datatype FileFormat = Pdf | Png

  /** An encoded output: its decoded length (absent when it does not decode), its digest and the expected digest. */
  datatype Payload = Payload(length: Option<nat>, digest: string, expected: string)

  datatype PagePayload = PagePayload(page: nat, payload: Payload)

  /** What the receipt says of the rendering, fixed when the export is registered. */
  datatype Frozen = Frozen(
    cursor: AuthorityCursor, renderKey: string, source: string,
    sourcePageCount: nat, selectedPages: Option<seq<nat>>, dpi: nat)

  datatype Export = Export(frozen: Frozen, pdf: Option<Payload>, pages: seq<PagePayload>, long: Option<Payload>)

  datatype Artifact = Artifact(id: string, format: FileFormat, page: Option<nat>, bytes: nat, sha256: string)

  function ArtifactOf(id: string, format: FileFormat, page: Option<nat>, payload: Payload): Result<Artifact, SessionError> {
    if payload.length.None? || payload.length.value == 0 || payload.digest != payload.expected then Err(BadDigest)
    else Ok(Artifact(id, format, page, payload.length.value, payload.digest))
  }

  datatype Named = Named(id: string, format: FileFormat, page: Option<nat>, payload: Payload)

  function PageNames(pages: seq<PagePayload>): seq<Named> {
    if pages == [] then []
    else [Named("png:" + Decimal(pages[0].page), Png, Some(pages[0].page), pages[0].payload)] + PageNames(pages[1..])
  }

  function Names(product: Export): seq<Named> {
    (if product.pdf.Some? then [Named("pdf", Pdf, None, product.pdf.value)] else [])
    + PageNames(product.pages)
    + (if product.long.Some? then [Named("png:long", Png, Some(0), product.long.value)] else [])
  }

  function Checked(names: seq<Named>): Result<seq<Artifact>, SessionError> {
    if names == [] then Ok([])
    else
      match Checked(names[..|names| - 1])
      case Err(e) => Err(e)
      case Ok(before) =>
        var n := names[|names| - 1];
        match ArtifactOf(n.id, n.format, n.page, n.payload)
        case Err(e) => Err(e)
        case Ok(a) => Ok(before + [a])
  }

  function ArtifactsOf(product: Export): (r: Result<seq<Artifact>, SessionError>)
    ensures r.Ok? ==> 0 < |r.value| <= MAX_ARTIFACTS
  {
    match Checked(Names(product))
    case Err(e) => Err(e)
    case Ok(artifacts) => if artifacts == [] || |artifacts| > MAX_ARTIFACTS then Err(BadCount) else Ok(artifacts)
  }

  // ---- State ----

  datatype Receipt = Receipt(
    id: string, exportId: string, frozen: Frozen, artifact: Artifact, writtenAt: string, filename: string)

  datatype Proof = Proof(receipt: Receipt, recorded: bool)

  datatype Write = Write(path: string, artifactId: string, inFlight: bool, written: Option<Proof>)

  datatype Ticket = Ticket(frozen: Frozen, artifacts: seq<Artifact>, registered: nat, writes: map<string, Write>)

  /** A generation is a fresh number: identities of different generations never compare equal. */
  datatype State = State(generation: nat, sequence: nat, tickets: map<string, Ticket>)

  datatype Prepared = Prepared(
    exportId: string, writeId: string, generation: nat, path: string, artifact: Artifact, alreadyWritten: bool)

  predicate InFlight(t: Ticket) {
    exists w :: w in t.writes && t.writes[w].inFlight
  }

  predicate HasUnrecorded(t: Ticket) {
    exists w :: w in t.writes && t.writes[w].written.Some? && !t.writes[w].written.value.recorded
  }

  predicate IsWritten(t: Ticket, artifactId: string) {
    exists w :: w in t.writes && t.writes[w].written.Some? && t.writes[w].artifactId == artifactId
  }

  predicate IsPage(a: Artifact) {
    a.page.Some? && a.page.value > 0
  }

  /** Everything written is recorded, and the PDF, the long image or every page image is written. */
  predicate IsComplete(t: Ticket) {
    && !HasUnrecorded(t)
    && (|| IsWritten(t, "pdf")
        || IsWritten(t, "png:long")
        || ((exists a :: a in t.artifacts && IsPage(a))
            && forall a :: a in t.artifacts && IsPage(a) ==> IsWritten(t, a.id)))
  }

  /** Every write was given up before anything reached the disk. */
  predicate AllGivenUp(t: Ticket) {
    forall w :: w in t.writes ==> !t.writes[w].inFlight && t.writes[w].written.None?
  }

  predicate IsEvictable(t: Ticket) {
    !InFlight(t) && (t.writes == map[] || AllGivenUp(t) || IsComplete(t))
  }

  predicate IsLive(t: Ticket, now: nat) {
    now - t.registered < SESSION_TTL || InFlight(t)
  }

  function Live(tickets: map<string, Ticket>, now: nat): map<string, Ticket> {
    map id | id in tickets && IsLive(tickets[id], now) :: tickets[id]
  }

  /** The oldest evictable ticket. */
  predicate IsVictim(tickets: map<string, Ticket>, id: string) {
    && id in tickets && IsEvictable(tickets[id])
    && forall other :: other in tickets && IsEvictable(tickets[other]) ==>
         tickets[id].registered <= tickets[other].registered
  }

  // ---- Specification of the operations ----

  /** The tickets after making room: the live ones, less one victim when they fill all places. */
  ghost predicate MadeRoom(before: map<string, Ticket>, now: nat, after: map<string, Ticket>, ok: bool) {
    var live := Live(before, now);
    if |live| < MAX_SESSIONS then ok && after == live
    else if exists id :: IsVictim(live, id) then ok && exists id :: IsVictim(live, id) && after == live - {id}
    else !ok && after == live
  }

  /** The outcome of a registration, given the ID and time it uses. */
  ghost predicate Registers(st: State, generation: nat, product: Export, exportId: string, now: nat, clockOk: bool,
                            after: State, error: Option<SessionError>)
  {
    match ArtifactsOf(product)
    case Err(e) => after == st && error == Some(e)
    case Ok(artifacts) =>
      if generation != st.generation then after == st && error == Some(Restored)
      else exists room, ok :: MadeRoom(st.tickets, now, room, ok) && Enters(st, product.frozen, artifacts, exportId, now, clockOk, room, ok, after, error)
  }

  predicate Enters(st: State, frozen: Frozen, artifacts: seq<Artifact>, exportId: string, now: nat, clockOk: bool,
                   room: map<string, Ticket>, ok: bool, after: State, error: Option<SessionError>)
  {
    if !ok then after == st.(tickets := room) && error == Some(TooManyExports)
    else if st.sequence == MAX_SEQUENCE then after == st.(tickets := room) && error == Some(SequenceExhausted)
    else if !clockOk then after == st.(tickets := room, sequence := st.sequence + 1) && error == Some(ClockInvalid)
    else
      && after == State(st.generation, st.sequence + 1, room[exportId := Ticket(frozen, artifacts, now, map[])])
      && error == None
  }

  predicate IsWriteId(id: string) {
    && 0 < |id| <= 64
    && forall c :: c in id ==> 'a' <= c <= 'z' || 'A' <= c <= 'Z' || '0' <= c <= '9' || c == '-' || c == '_'
  }

  function FindArtifact(artifacts: seq<Artifact>, id: string): Option<Artifact> {
    if artifacts == [] then None
    else if artifacts[0].id == id then Some(artifacts[0])
    else FindArtifact(artifacts[1..], id)
  }

  function SetWrite(st: State, exportId: string, writeId: string, write: Write): State
    requires exportId in st.tickets
  {
    var t := st.tickets[exportId];
    st.(tickets := st.tickets[exportId := t.(writes := t.writes[writeId := write])])
  }

  datatype PrepareResult = PrepareResult(state: State, result: Result<Prepared, SessionError>)

  function PrepareIn(st: State, exportId: string, writeId: string, path: string, artifact: Artifact): PrepareResult
    requires exportId in st.tickets
  {
    var t := st.tickets[exportId];
    if writeId !in t.writes && |t.writes| >= MAX_WRITES_PER_SESSION then PrepareResult(st, Err(TooManyWrites))
    else
      var write := if writeId in t.writes then t.writes[writeId] else Write(path, artifact.id, false, None);
      if write.path != path || write.artifactId != artifact.id then PrepareResult(st, Err(WriteIdReused))
      else if write.inFlight then PrepareResult(st, Err(WriteInFlight))
      else PrepareResult(SetWrite(st, exportId, writeId, write.(inFlight := true)),
                         Ok(Prepared(exportId, writeId, st.generation, path, artifact, write.written.Some?)))
  }

  function PrepareOf(st: State, exportId: string, artifactId: string, writeId: string, path: string,
                     length: nat, digest: string, now: nat): PrepareResult
  {
    if !IsWriteId(writeId) then PrepareResult(st, Err(InvalidWriteId))
    else if exportId !in st.tickets then PrepareResult(st, Err(NoSession))
    else if now - st.tickets[exportId].registered >= SESSION_TTL then PrepareResult(st, Err(Expired))
    else
      match FindArtifact(st.tickets[exportId].artifacts, artifactId)
      case None => PrepareResult(st, Err(ForeignArtifact))
      case Some(artifact) =>
        if length != artifact.bytes || digest != artifact.sha256 then PrepareResult(st, Err(ForeignBytes))
        else PrepareIn(st, exportId, writeId, path, artifact)
  }

  predicate HasWrite(st: State, exportId: string, writeId: string) {
    exportId in st.tickets && writeId in st.tickets[exportId].writes
  }

  function WriteAt(st: State, exportId: string, writeId: string): Write
    requires HasWrite(st, exportId, writeId)
  {
    st.tickets[exportId].writes[writeId]
  }

  function AbandonOf(st: State, p: Prepared): State {
    if HasWrite(st, p.exportId, p.writeId)
    then SetWrite(st, p.exportId, p.writeId, WriteAt(st, p.exportId, p.writeId).(inFlight := false))
    else st
  }

  /** What was found on disk, the clock, the file name, and the store's answer to the receipt. */
  datatype World = World(
    bytes: nat, sha256: string, millis: Option<nat>, stamp: string, filename: Option<string>, answer: Option<Receipt>)

  /** `sent` is the receipt handed to the store, if any. */
  datatype Finished = Finished(state: State, sent: Option<Receipt>, result: Result<Receipt, SessionError>)

  function Padded(n: nat, width: nat): string
    decreases width
  {
    if width == 0 then "" else Padded(n / 10, width - 1) + [Digit(n % 10)]
  }

  function NewReceipt(frozen: Frozen, p: Prepared, w: World): Result<Receipt, SessionError> {
    if w.millis.None? then Err(ClockInvalid)
    else if w.filename.None? then Err(NoFilename)
    else
      var id := "export:" + Padded(w.millis.value, 20) + ":" + p.exportId + ":" + p.writeId;
      Ok(Receipt(id, p.exportId, frozen, p.artifact, w.stamp, w.filename.value))
  }

  function RecordIn(st: State, p: Prepared, write: Write, receipt: Receipt, w: World): Finished
    requires p.exportId in st.tickets
  {
    Finished(SetWrite(st, p.exportId, p.writeId,
                      write.(inFlight := false, written := Some(Proof(receipt, w.answer.Some? || IsRecorded(write))))),
             Some(receipt),
             if w.answer.Some? then Ok(w.answer.value) else Err(StoreFailed))
  }

  predicate IsRecorded(write: Write) {
    write.written.Some? && write.written.value.recorded
  }

  function FinishOf(st: State, p: Prepared, w: World): Finished {
    if p.generation != st.generation then Finished(st, None, Err(Restored))
    else if p.exportId !in st.tickets then Finished(st, None, Err(NoSession))
    else if p.writeId !in st.tickets[p.exportId].writes then Finished(st, None, Err(NoWrite))
    else
      var write := WriteAt(st, p.exportId, p.writeId);
      var landed := SetWrite(st, p.exportId, p.writeId, write.(inFlight := false));
      if w.bytes != p.artifact.bytes || w.sha256 != p.artifact.sha256 then Finished(landed, None, Err(DiskMismatch))
      else if write.written.Some? then RecordIn(st, p, write, write.written.value.receipt, w)
      else
        match NewReceipt(st.tickets[p.exportId].frozen, p, w)
        case Err(e) => Finished(landed, None, Err(e))
        case Ok(receipt) => RecordIn(st, p, write, receipt, w)
  }

  function InvalidateOf(st: State): State {
    State(st.generation + 1, st.sequence, map[])
  }

  // ---- The sessions ----

  class SessionTable {
    var generation: nat
    var sequence: nat
    var tickets: map<string, Ticket>

    constructor ()
      ensures Now() == State(0, 0, map[])
    {
      generation, sequence, tickets := 0, 0, map[];
    }

    function Now(): State
      reads this
    {
      State(generation, sequence, tickets)
    }

    method Invalidate()
      modifies this
      ensures Now() == InvalidateOf(old(Now()))
    {
      generation := generation + 1;
      tickets := map[];
    }

    /** The evictable ticket registered first, if there is one. */
    method FindVictim() returns (victim: Option<string>)
      ensures if victim.Some? then IsVictim(tickets, victim.value) else forall id :: !IsVictim(tickets, id)
    {
      victim := None;
      var open := set id | id in tickets && IsEvictable(tickets[id]);
      ghost var all := open;
      assert forall id :: id in tickets && IsEvictable(tickets[id]) ==> id in all;
      while open != {}
        invariant open <= all
        invariant victim.None? <==> open == all
        invariant victim.Some? ==> victim.value in all
        invariant victim.Some? ==>
                    forall id :: id in all - open ==> tickets[victim.value].registered <= tickets[id].registered
        decreases |open|
      {
        var id :| id in open;
        if victim.None? || tickets[id].registered < tickets[victim.value].registered {
          victim := Some(id);
        }
        open := open - {id};
      }
    }

    method MakeRoom(now: nat) returns (ok: bool)
      modifies this`tickets
      ensures MadeRoom(old(tickets), now, tickets, ok)
    {
      tickets := Live(tickets, now);
      if |tickets| >= MAX_SESSIONS {
        var victim := FindVictim();
        if victim.None? {
          return false;
        }
        tickets := tickets - {victim.value};
      }
      return true;
    }

    method Register(generation': nat, product: Export, exportId: string, now: nat, clockOk: bool)
      returns (error: Option<SessionError>)
      modifies this
      ensures Registers(old(Now()), generation', product, exportId, now, clockOk, Now(), error)
    {
      var artifacts := ArtifactsOf(product);
      if artifacts.Err? {
        return Some(artifacts.error);
      }
      if generation' != generation {
        return Some(Restored);
      }
      var ok := MakeRoom(now);
      ghost var room := tickets;
      if !ok {
        error := Some(TooManyExports);
      } else if sequence == MAX_SEQUENCE {
        error := Some(SequenceExhausted);
      } else {
        sequence := sequence + 1;
        if !clockOk {
          error := Some(ClockInvalid);
        } else {
          tickets := tickets[exportId := Ticket(product.frozen, artifacts.value, now, map[])];
          error := None;
        }
      }
      assert Enters(old(Now()), product.frozen, artifacts.value, exportId, now, clockOk, room, ok, Now(), error);
    }

    method PrepareWrite(exportId: string, artifactId: string, writeId: string, path: string,
                        length: nat, digest: string, now: nat)
      returns (result: Result<Prepared, SessionError>)
      modifies this
      ensures PrepareResult(Now(), result) == PrepareOf(old(Now()), exportId, artifactId, writeId, path, length, digest, now)
    {
      if !IsWriteId(writeId) {
        return Err(InvalidWriteId);
      }
      if exportId !in tickets {
        return Err(NoSession);
      }
      var ticket := tickets[exportId];
      if now - ticket.registered >= SESSION_TTL {
        return Err(Expired);
      }
      var found := FindArtifact(ticket.artifacts, artifactId);
      if found.None? {
        return Err(ForeignArtifact);
      }
      var artifact := found.value;
      FoundHasId(ticket.artifacts, artifactId);
      if length != artifact.bytes || digest != artifact.sha256 {
        return Err(ForeignBytes);
      }
      if writeId !in ticket.writes && |ticket.writes| >= MAX_WRITES_PER_SESSION {
        return Err(TooManyWrites);
      }
      var write := if writeId in ticket.writes then ticket.writes[writeId] else Write(path, artifactId, false, None);
      if write.path != path || write.artifactId != artifactId {
        return Err(WriteIdReused);
      }
      if write.inFlight {
        return Err(WriteInFlight);
      }
      tickets := tickets[exportId := ticket.(writes := ticket.writes[writeId := write.(inFlight := true)])];
      return Ok(Prepared(exportId, writeId, generation, path, artifact, write.written.Some?));
    }

    method AbandonWrite(p: Prepared)
      modifies this
      ensures Now() == AbandonOf(old(Now()), p)
    {
      if p.exportId in tickets && p.writeId in tickets[p.exportId].writes {
        var ticket := tickets[p.exportId];
        var write := ticket.writes[p.writeId].(inFlight := false);
        tickets := tickets[p.exportId := ticket.(writes := ticket.writes[p.writeId := write])];
      }
    }

    method FinishWrite(p: Prepared, w: World) returns (sent: Option<Receipt>, result: Result<Receipt, SessionError>)
      modifies this
      ensures Finished(Now(), sent, result) == FinishOf(old(Now()), p, w)
    {
      if p.generation != generation {
        return None, Err(Restored);
      }
      if p.exportId !in tickets {
        return None, Err(NoSession);
      }
      var ticket := tickets[p.exportId];
      if p.writeId !in ticket.writes {
        return None, Err(NoWrite);
      }
      var write := ticket.writes[p.writeId].(inFlight := false);
      tickets := tickets[p.exportId := ticket.(writes := ticket.writes[p.writeId := write])];
      if w.bytes != p.artifact.bytes || w.sha256 != p.artifact.sha256 {
        return None, Err(DiskMismatch);
      }
      if write.written.None? {
        var receipt := NewReceipt(ticket.frozen, p, w);
        if receipt.Err? {
          return None, Err(receipt.error);
        }
        write := write.(written := Some(Proof(receipt.value, false)));
      }
      var proof := write.written.value;
      if w.answer.Some? {
        proof := proof.(recorded := true);
      }
      write := write.(written := Some(proof));
      tickets := tickets[p.exportId := ticket.(writes := ticket.writes[p.writeId := write])];
      sent := Some(proof.receipt);
      result := if w.answer.Some? then Ok(w.answer.value) else Err(StoreFailed);
    }
  }

  lemma {:induction false} FoundHasId(artifacts: seq<Artifact>, id: string)
    ensures var a := FindArtifact(artifacts, id); a.Some? ==> a.value.id == id && a.value in artifacts
  {
    if artifacts != [] && artifacts[0].id != id {
      FoundHasId(artifacts[1..], id);
    }
  }
}
