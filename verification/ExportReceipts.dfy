/** When an export's calls succeed, and that receipts tell the truth about the export and the disk. */
module ExportReceipts {
  import opened Contracts
  import opened Strings
  import opened ExportSessions
  import opened ExportSafety

  // ---- The artifacts of an export ----

  predicate IsSound(payload: Payload) {
    payload.length.Some? && payload.length.value > 0 && payload.digest == payload.expected
  }

  predicate Describes(a: Artifact, id: string, format: FileFormat, page: Option<nat>, payload: Payload) {
    IsSound(payload) && a == Artifact(id, format, page, payload.length.value, payload.digest)
  }

  /** The PDF, then the pages in order, then the long image, each under its own ID. */
  predicate AreArtifacts(product: Export, artifacts: seq<Artifact>) {
    var p, n := if product.pdf.Some? then 1 else 0, |product.pages|;
    && |artifacts| == p + n + (if product.long.Some? then 1 else 0)
    && (product.pdf.Some? ==> Describes(artifacts[0], "pdf", Pdf, None, product.pdf.value))
    && (forall i :: 0 <= i < n ==> IsPageArtifact(artifacts[p + i], product.pages[i]))
    && (product.long.Some? ==> Describes(artifacts[p + n], "png:long", Png, Some(0), product.long.value))
  }

  predicate IsPageArtifact(a: Artifact, page: PagePayload) {
    Describes(a, "png:" + Decimal(page.page), Png, Some(page.page), page.payload)
  }

  predicate IsNamed(a: Artifact, n: Named) {
    Describes(a, n.id, n.format, n.page, n.payload)
  }

  lemma {:induction false} CheckedAre(names: seq<Named>)
    ensures Checked(names).Ok? <==> forall i :: 0 <= i < |names| ==> IsSound(names[i].payload)
    ensures Checked(names).Ok? ==> |Checked(names).value| == |names|
    ensures Checked(names).Ok? ==> forall i :: 0 <= i < |names| ==> IsNamed(Checked(names).value[i], names[i])
  {
    if names != [] {
      CheckedAre(names[..|names| - 1]);
    }
  }

  lemma {:induction false} PageNamesAre(pages: seq<PagePayload>)
    ensures |PageNames(pages)| == |pages|
    ensures forall i :: 0 <= i < |pages| ==> PageNames(pages)[i] == PageName(pages[i])
  {
    if pages != [] {
      PageNamesAre(pages[1..]);
    }
  }

  predicate AreNames(product: Export, names: seq<Named>) {
    var p, n := if product.pdf.Some? then 1 else 0, |product.pages|;
    && |names| == p + n + (if product.long.Some? then 1 else 0)
    && (product.pdf.Some? ==> names[0] == Named("pdf", Pdf, None, product.pdf.value))
    && (forall i :: 0 <= i < n ==> names[p + i] == PageName(product.pages[i]))
    && (product.long.Some? ==> names[p + n] == Named("png:long", Png, Some(0), product.long.value))
  }

  function PageName(page: PagePayload): Named {
    Named("png:" + Decimal(page.page), Png, Some(page.page), page.payload)
  }

  lemma NamesAre(product: Export)
    ensures AreNames(product, Names(product))
  {
    PageNamesAre(product.pages);
    var p := if product.pdf.Some? then 1 else 0;
    forall i | 0 <= i < |product.pages| ensures Names(product)[p + i] == PageName(product.pages[i]) {
      assert Names(product)[p + i] == PageNames(product.pages)[i];
    }
  }

  predicate AllSound(product: Export) {
    && (product.pdf.Some? ==> IsSound(product.pdf.value)) && (product.long.Some? ==> IsSound(product.long.value))
    && forall i :: 0 <= i < |product.pages| ==> IsSound(product.pages[i].payload)
  }

  lemma SoundNames(product: Export, names: seq<Named>)
    requires AreNames(product, names)
    ensures AllSound(product) <==> forall i :: 0 <= i < |names| ==> IsSound(names[i].payload)
  {
    var p, n := if product.pdf.Some? then 1 else 0, |product.pages|;
    if AllSound(product) {
      forall i | 0 <= i < |names| ensures IsSound(names[i].payload) {
        if p <= i < p + n {
          assert names[p + (i - p)] == PageName(product.pages[i - p]);
        }
      }
    }
    if forall i :: 0 <= i < |names| ==> IsSound(names[i].payload) {
      forall i | 0 <= i < n ensures IsSound(product.pages[i].payload) {
        assert names[p + i] == PageName(product.pages[i]);
      }
      assert AllSound(product);
    }
  }

  lemma NamedAreArtifacts(product: Export, names: seq<Named>, artifacts: seq<Artifact>)
    requires AreNames(product, names) && |artifacts| == |names|
    requires forall i :: 0 <= i < |names| ==> IsNamed(artifacts[i], names[i])
    ensures AreArtifacts(product, artifacts)
  {
    var p := if product.pdf.Some? then 1 else 0;
    forall i | 0 <= i < |product.pages| ensures IsPageArtifact(artifacts[p + i], product.pages[i]) {
      assert IsNamed(artifacts[p + i], names[p + i]);
    }
  }

  /** An export has artifacts exactly when all its payloads are as expected and it has one to 202 of them. */
  lemma ArtifactsByPayloads(product: Export)
    ensures var count := (if product.pdf.Some? then 1 else 0) + |product.pages| + (if product.long.Some? then 1 else 0);
            ArtifactsOf(product).Ok? <==> 1 <= count <= 202 && AllSound(product)
    ensures ArtifactsOf(product).Ok? ==> AreArtifacts(product, ArtifactsOf(product).value)
  {
    var names := Names(product);
    NamesAre(product);
    SoundNames(product, names);
    CheckedAre(names);
    if Checked(names).Ok? {
      NamedAreArtifacts(product, names, Checked(names).value);
    }
  }

  // ---- Registering an export ----

  /** Something of this artifact was written. */
  predicate WasWritten(t: Ticket, artifactId: string) {
    exists w :: w in t.writes && t.writes[w].artifactId == artifactId && t.writes[w].written.Some?
  }

  predicate IsPageImage(a: Artifact) {
    a.page.Some? && a.page.value >= 1
  }

  /** Nothing is in flight or unrecorded, and nothing was written, or the PDF, the long image, or all of the page images. */
  predicate MayGo(t: Ticket) {
    && (forall w :: w in t.writes ==> !t.writes[w].inFlight && (t.writes[w].written.Some? ==> t.writes[w].written.value.recorded))
    && (|| (forall w :: w in t.writes ==> t.writes[w].written.None?)
        || WasWritten(t, "pdf") || WasWritten(t, "png:long")
        || ((exists a :: a in t.artifacts && IsPageImage(a))
            && forall a :: a in t.artifacts && IsPageImage(a) ==> WasWritten(t, a.id)))
  }

  lemma EvictableExactlyWhen(t: Ticket)
    ensures IsEvictable(t) <==> MayGo(t)
  {
    forall id ensures IsWritten(t, id) <==> WasWritten(t, id) {}
    forall a ensures IsPage(a) <==> IsPageImage(a) {}
  }

  /** A ticket that is younger than fifteen minutes, or from which a write is under way. */
  predicate IsYoung(t: Ticket, now: nat) {
    now < t.registered + 15 * 60 * 1000 || exists w :: w in t.writes && t.writes[w].inFlight
  }

  function Young(tickets: map<string, Ticket>, now: nat): set<string> {
    set id | id in tickets && IsYoung(tickets[id], now)
  }

  lemma YoungAreLive(tickets: map<string, Ticket>, now: nat)
    ensures Live(tickets, now).Keys == Young(tickets, now)
    ensures forall id :: id in Live(tickets, now) ==> Live(tickets, now)[id] == tickets[id]
  {
    forall id ensures id in Live(tickets, now).Keys <==> id in Young(tickets, now) {}
  }

  /** There is a place for one more: fewer than eight young tickets, or one among them that may go. */
  ghost predicate HasPlace(tickets: map<string, Ticket>, now: nat) {
    |Young(tickets, now)| < 8 || exists id :: id in Young(tickets, now) && MayGo(tickets[id])
  }

  lemma RoomExactlyWhen(before: map<string, Ticket>, now: nat, after: map<string, Ticket>, ok: bool)
    requires MadeRoom(before, now, after, ok)
    ensures ok <==> HasPlace(before, now)
  {
    var live := Live(before, now);
    YoungAreLive(before, now);
    assert |live| == |live.Keys|;
    forall id | id in before ensures IsEvictable(before[id]) <==> MayGo(before[id]) {
      EvictableExactlyWhen(before[id]);
    }
    if exists id :: id in Young(before, now) && MayGo(before[id]) {
      var id := OldestEvictable(live);
    }
  }

  /** If some ticket may go, one of them is the oldest. */
  lemma OldestEvictable(tickets: map<string, Ticket>) returns (id: string)
    requires exists id :: id in tickets && IsEvictable(tickets[id])
    ensures IsVictim(tickets, id)
  {
    var open := set i | i in tickets && IsEvictable(tickets[i]);
    id :| id in tickets && IsEvictable(tickets[id]);
    var done := {id};
    while done != open
      invariant id in done && done <= open
      invariant forall other :: other in done ==> tickets[id].registered <= tickets[other].registered
      decreases |open - done|
    {
      var next :| next in open - done;
      assert open - (done + {next}) < open - done;
      SmallerThan(open - (done + {next}), open - done);
      done := done + {next};
      if tickets[next].registered < tickets[id].registered {
        id := next;
      }
    }
  }

  lemma SmallerThan(a: set<string>, b: set<string>)
    requires a < b
    ensures |a| < |b|
  {
    var x :| x in b && x !in a;
    SmallerSet(a, b - {x});
  }

  /** An export is registered exactly when it has artifacts, no restore came between, there is a place, a number and a clock. */
  lemma RegistersExactlyWhen(st: State, generation: nat, product: Export, exportId: string, now: nat, clockOk: bool,
                             after: State, error: Option<SessionError>)
    requires Registers(st, generation, product, exportId, now, clockOk, after, error)
    ensures error.None? <==>
            && ArtifactsOf(product).Ok? && generation == st.generation && HasPlace(st.tickets, now)
            && st.sequence != 0xFFFF_FFFF_FFFF_FFFF && clockOk
    ensures error.None? ==>
              && after.generation == st.generation && after.sequence == st.sequence + 1 && exportId in after.tickets
              && after.tickets[exportId] == Ticket(product.frozen, ArtifactsOf(product).value, now, map[])
  {
    if ArtifactsOf(product).Ok? && generation == st.generation {
      var artifacts := ArtifactsOf(product).value;
      var room, ok :| MadeRoom(st.tickets, now, room, ok)
                      && Enters(st, product.frozen, artifacts, exportId, now, clockOk, room, ok, after, error);
      RoomExactlyWhen(st.tickets, now, room, ok);
    }
  }

  /** The time in a receipt's ID is written with twenty digits. */
  lemma {:induction false} PaddedIsDecimal(n: nat, width: nat)
    ensures |Padded(n, width)| == width && forall c :: c in Padded(n, width) ==> IsDigit(c)
    ensures n < Pow10(width) ==> Value(Padded(n, width)) == n
  {
    if width > 0 {
      PaddedIsDecimal(n / 10, width - 1);
      var s := Padded(n, width);
      assert s[..width - 1] == Padded(n / 10, width - 1) && s[width - 1] == Digit(n % 10);
    }
  }

  // ---- Preparing a write ----

  /** The artifact is the first of the ticket's with this ID. */
  ghost predicate IsFirst(artifacts: seq<Artifact>, id: string, a: Artifact) {
    exists i :: 0 <= i < |artifacts| && artifacts[i] == a && a.id == id && forall j :: 0 <= j < i ==> artifacts[j].id != id
  }

  lemma {:induction false} FoundIsFirst(artifacts: seq<Artifact>, id: string, a: Artifact)
    ensures FindArtifact(artifacts, id) == Some(a) <==> IsFirst(artifacts, id, a)
  {
    if artifacts != [] && artifacts[0].id != id {
      FoundIsFirst(artifacts[1..], id, a);
      if IsFirst(artifacts, id, a) {
        var i :| 0 <= i < |artifacts| && artifacts[i] == a && a.id == id && forall j :: 0 <= j < i ==> artifacts[j].id != id;
        assert artifacts[1..][i - 1] == a;
        assert forall j :: 0 <= j < i - 1 ==> artifacts[1..][j].id == artifacts[j + 1].id;
        assert IsFirst(artifacts[1..], id, a);
      }
      if IsFirst(artifacts[1..], id, a) {
        var i :| 0 <= i < |artifacts[1..]| && artifacts[1..][i] == a && a.id == id && forall j :: 0 <= j < i ==> artifacts[1..][j].id != id;
        assert artifacts[i + 1] == a;
        assert forall j :: 0 < j < i + 1 ==> artifacts[j].id == artifacts[1..][j - 1].id;
        assert IsFirst(artifacts, id, a);
      }
    }
  }

  predicate IsExportFor(st: State, exportId: string, now: nat) {
    exportId in st.tickets && now < st.tickets[exportId].registered + 15 * 60 * 1000
  }

  /** A new write ID needs room; a known one must be for the same path and artifact, and not in flight. */
  predicate MayWrite(t: Ticket, writeId: string, path: string, artifact: Artifact) {
    if writeId in t.writes
    then t.writes[writeId].path == path && t.writes[writeId].artifactId == artifact.id && !t.writes[writeId].inFlight
    else |t.writes| < 256
  }

  /** The write as it was, or a new one. */
  function KnownWrite(t: Ticket, writeId: string, path: string, artifact: Artifact): Write {
    if writeId in t.writes then t.writes[writeId] else Write(path, artifact.id, false, None)
  }

  /** What a prepared write leaves: this write is in flight, and nothing else has changed. */
  predicate IsTaken(st: State, after: State, p: Prepared) {
    && p.exportId in st.tickets && p.generation == st.generation
    && after.generation == st.generation && after.sequence == st.sequence && after.tickets.Keys == st.tickets.Keys
    && (forall id :: id in st.tickets && id != p.exportId ==> after.tickets[id] == st.tickets[id])
    && var before, now := st.tickets[p.exportId], after.tickets[p.exportId];
       var write := KnownWrite(before, p.writeId, p.path, p.artifact);
       && now.frozen == before.frozen && now.artifacts == before.artifacts && now.registered == before.registered
       && now.writes == before.writes[p.writeId := write.(inFlight := true)]
       && p.alreadyWritten == write.written.Some?
  }

  /**
   * A write can be prepared exactly when the export is here and young, its first artifact of this ID has these bytes,
   * and the write ID is free for it; then it alone is in flight.
   */
  lemma PreparesExactlyWhen(st: State, exportId: string, artifactId: string, writeId: string, path: string,
                            length: nat, digest: string, now: nat)
    ensures var r := PrepareOf(st, exportId, artifactId, writeId, path, length, digest, now);
            && (r.result.Ok? <==> IsWriteId(writeId) && IsExportFor(st, exportId, now) && exists a ::
                  IsFirst(st.tickets[exportId].artifacts, artifactId, a) && a.bytes == length && a.sha256 == digest
                  && MayWrite(st.tickets[exportId], writeId, path, a))
            && (r.result.Err? ==> r.state == st)
            && (r.result.Ok? ==>
                  var p := r.result.value;
                  && p.exportId == exportId && p.writeId == writeId && p.path == path && IsTaken(st, r.state, p)
                  && IsFirst(st.tickets[exportId].artifacts, artifactId, p.artifact)
                  && p.artifact.bytes == length && p.artifact.sha256 == digest)
  {
    if IsWriteId(writeId) && IsExportFor(st, exportId, now) {
      var artifacts := st.tickets[exportId].artifacts;
      forall a ensures FindArtifact(artifacts, artifactId) == Some(a) <==> IsFirst(artifacts, artifactId, a) {
        FoundIsFirst(artifacts, artifactId, a);
      }
    }
  }

  // ---- Finishing a write ----

  predicate IsHere(st: State, p: Prepared) {
    p.generation == st.generation && HasWrite(st, p.exportId, p.writeId)
  }

  predicate WasFound(w: World, a: Artifact) {
    w.bytes == a.bytes && w.sha256 == a.sha256
  }

  /** A receipt of this write: what the export froze, the artifact, and when and under which name it was written. */
  predicate IsReceiptOf(receipt: Receipt, frozen: Frozen, p: Prepared, w: World) {
    && w.millis.Some? && w.filename.Some?
    && receipt.id == "export:" + Padded(w.millis.value, 20) + ":" + p.exportId + ":" + p.writeId
    && receipt.exportId == p.exportId && receipt.frozen == frozen && receipt.artifact == p.artifact
    && receipt.writtenAt == w.stamp && receipt.filename == w.filename.value
  }

  /**
   * A receipt is sent exactly when the write is still here, the disk has the artifact's bytes, and there is a receipt
   * already or a clock and a file name to make one; it is the one there is, or the one of this write.
   */
  lemma SendsExactlyWhen(st: State, p: Prepared, w: World)
    ensures var f := FinishOf(st, p, w);
            && (f.sent.Some? <==>
                  IsHere(st, p) && WasFound(w, p.artifact)
                  && (WriteAt(st, p.exportId, p.writeId).written.Some? || (w.millis.Some? && w.filename.Some?)))
            && (f.result.Ok? <==> f.sent.Some? && w.answer.Some?) && (f.result.Ok? ==> f.result.value == w.answer.value)
            && (f.sent.Some? ==>
                  var written := WriteAt(st, p.exportId, p.writeId).written;
                  if written.Some? then f.sent.value == written.value.receipt
                  else IsReceiptOf(f.sent.value, st.tickets[p.exportId].frozen, p, w))
  {
  }

  /** The write is landed in any case; a receipt that was sent is kept, and recorded once the store has answered. */
  lemma FinishLands(st: State, p: Prepared, w: World)
    ensures var f := FinishOf(st, p, w);
            if !IsHere(st, p) then f.state == st
            else
              var write, after := WriteAt(st, p.exportId, p.writeId), f.state;
              && OnlyWrite(st, after, p.exportId, p.writeId) && after.sequence == st.sequence
              && SameTickets(st, after)
              && var now := WriteAt(after, p.exportId, p.writeId);
                 && !now.inFlight && now.path == write.path && now.artifactId == write.artifactId
                 && (f.sent.None? ==> now.written == write.written)
                 && (f.sent.Some? ==> now.written == Some(Proof(f.sent.value, w.answer.Some? || IsRecorded(write))))
  {
    if IsHere(st, p) {
      var t := FinishOf(st, p, w).state.tickets[p.exportId];
      SetWriteIsOnly(st, p.exportId, p.writeId, t.writes[p.writeId]);
    }
  }

  /** The tickets' own data are as before. */
  predicate SameTickets(before: State, after: State) {
    after.tickets.Keys == before.tickets.Keys &&
    forall id :: id in before.tickets ==> SameTicket(before.tickets[id], after.tickets[id])
  }

  predicate SameTicket(before: Ticket, after: Ticket) {
    after.frozen == before.frozen && after.artifacts == before.artifacts && after.registered == before.registered
  }

  // ---- Whole runs ----

  /** An export with these frozen data and artifacts was registered under the ID. */
  predicate WasRegistered(actions: seq<Action>, exportId: string, frozen: Frozen, artifacts: seq<Artifact>) {
    exists i :: 0 <= i < |actions| && Registered(actions[i], exportId, frozen, artifacts)
  }

  predicate Registered(a: Action, exportId: string, frozen: Frozen, artifacts: seq<Artifact>) {
    a.DoRegister? && a.exportId == exportId && a.product.frozen == frozen && ArtifactsOf(a.product) == Ok(artifacts)
  }

  /** The bytes of the artifact were found on the disk. */
  predicate WasOnDisk(actions: seq<Action>, artifact: Artifact) {
    exists i :: 0 <= i < |actions| && SawOnDisk(actions[i], artifact)
  }

  predicate SawOnDisk(a: Action, artifact: Artifact) {
    a.DoFinish? && WasFound(a.world, artifact)
  }

  /** The receipt names an artifact of the export registered under its ID, with what that export froze, found on the disk. */
  ghost predicate IsTrue(actions: seq<Action>, receipt: Receipt) {
    && WasOnDisk(actions, receipt.artifact)
    && exists artifacts :: WasRegistered(actions, receipt.exportId, receipt.frozen, artifacts) && receipt.artifact in artifacts
  }

  ghost predicate ProofsAreTrue(actions: seq<Action>, writes: map<string, Write>) {
    forall w :: w in writes && writes[w].written.Some? ==> IsTrue(actions, writes[w].written.value.receipt)
  }

  ghost predicate TicketIsTrue(actions: seq<Action>, id: string, t: Ticket) {
    WasRegistered(actions, id, t.frozen, t.artifacts) && ProofsAreTrue(actions, t.writes)
  }

  ghost predicate TicketsAreTrue(actions: seq<Action>, tickets: map<string, Ticket>) {
    forall id :: id in tickets ==> TicketIsTrue(actions, id, tickets[id])
  }

  /** What is out is for an artifact of its ticket. */
  predicate IsOfTicket(st: State, p: Prepared) {
    p.generation == st.generation && p.exportId in st.tickets ==> p.artifact in st.tickets[p.exportId].artifacts
  }

  predicate AreOfTickets(st: State, out: seq<Prepared>) {
    forall i :: 0 <= i < |out| ==> IsOfTicket(st, out[i])
  }

  ghost predicate LogIsTrue(actions: seq<Action>, log: seq<Sent>) {
    forall i :: 0 <= i < |log| ==> IsTrue(actions, log[i].receipt)
  }

  ghost predicate Truth(actions: seq<Action>, s: Sys) {
    TicketsAreTrue(actions, s.host.tickets) && AreOfTickets(s.host, s.out) && LogIsTrue(actions, s.log)
  }

  lemma StaysTrue(actions: seq<Action>, a: Action, receipt: Receipt)
    requires IsTrue(actions, receipt)
    ensures IsTrue(actions + [a], receipt)
  {
    var artifacts :| WasRegistered(actions, receipt.exportId, receipt.frozen, artifacts) && receipt.artifact in artifacts;
    StaysRegistered(actions, a, receipt.exportId, receipt.frozen, artifacts);
    var i :| 0 <= i < |actions| && SawOnDisk(actions[i], receipt.artifact);
    assert (actions + [a])[i] == actions[i];
  }

  lemma StaysRegistered(actions: seq<Action>, a: Action, exportId: string, frozen: Frozen, artifacts: seq<Artifact>)
    requires WasRegistered(actions, exportId, frozen, artifacts)
    ensures WasRegistered(actions + [a], exportId, frozen, artifacts)
  {
    var i :| 0 <= i < |actions| && Registered(actions[i], exportId, frozen, artifacts);
    assert (actions + [a])[i] == actions[i];
  }

  lemma TruthStays(actions: seq<Action>, a: Action, s: Sys)
    requires Truth(actions, s)
    ensures TicketsAreTrue(actions + [a], s.host.tickets) && LogIsTrue(actions + [a], s.log)
  {
    forall id | id in s.host.tickets ensures TicketIsTrue(actions + [a], id, s.host.tickets[id]) {
      var t := s.host.tickets[id];
      StaysRegistered(actions, a, id, t.frozen, t.artifacts);
      forall w | w in t.writes && t.writes[w].written.Some? ensures IsTrue(actions + [a], t.writes[w].written.value.receipt) {
        StaysTrue(actions, a, t.writes[w].written.value.receipt);
      }
    }
    forall i | 0 <= i < |s.log| ensures IsTrue(actions + [a], s.log[i].receipt) {
      StaysTrue(actions, a, s.log[i].receipt);
    }
  }

  /** Registering: the new ticket is that of the registered export. */
  lemma RegisterIsTrue(actions: seq<Action>, s: Sys, a: Action, t: Sys)
    requires Inv(s) && Next(s, a, t) && a.DoRegister? && AreOfTickets(s.host, s.out)
    requires TicketsAreTrue(actions + [a], s.host.tickets)
    ensures TicketsAreTrue(actions + [a], t.host.tickets) && AreOfTickets(t.host, t.out)
  {
    var error :| Registers(s.host, a.generation, a.product, a.exportId, s.clock, a.clockOk, t.host, error);
    RegisterShrinks(s.host, a.generation, a.product, a.exportId, s.clock, a.clockOk, t.host, error);
    if a.exportId in t.host.tickets {
      NewTicket(s.host, a, s.clock, t.host, error);
      assert (actions + [a])[|actions|] == a;
      assert TicketIsTrue(actions + [a], a.exportId, t.host.tickets[a.exportId]);
    }
    ShrunkIsTrue(actions + [a], s.host, t.host, a.exportId);
    ShrunkOut(s.host, t.host, s.out, a.exportId);
  }

  lemma ShrunkIsTrue(actions: seq<Action>, before: State, after: State, exportId: string)
    requires TicketsAreTrue(actions, before.tickets) && Shrunk(before, after, exportId)
    requires exportId in after.tickets ==> TicketIsTrue(actions, exportId, after.tickets[exportId])
    ensures TicketsAreTrue(actions, after.tickets)
  {
  }

  lemma ShrunkOut(before: State, after: State, out: seq<Prepared>, exportId: string)
    requires AreOfTickets(before, out) && Shrunk(before, after, exportId)
    requires forall i :: 0 <= i < |out| ==> out[i].exportId != exportId
    ensures AreOfTickets(after, out)
  {
    forall i | 0 <= i < |out| ensures IsOfTicket(after, out[i]) {
      assert IsOfTicket(before, out[i]);
    }
  }

  lemma NewTicket(st: State, a: Action, now: nat, after: State, error: Option<SessionError>)
    requires a.DoRegister? && Registers(st, a.generation, a.product, a.exportId, now, a.clockOk, after, error)
    requires a.exportId !in st.tickets && a.exportId in after.tickets
    ensures ArtifactsOf(a.product).Ok?
    ensures after.tickets[a.exportId] == Ticket(a.product.frozen, ArtifactsOf(a.product).value, now, map[])
  {
    var artifacts := ArtifactsOf(a.product).value;
    var room, ok :| MadeRoom(st.tickets, now, room, ok)
                    && Enters(st, a.product.frozen, artifacts, a.exportId, now, a.clockOk, room, ok, after, error);
    RoomIsMade(st.tickets, now, room, ok);
  }

  lemma PrepareIsTrue(actions: seq<Action>, s: Sys, a: Action, t: Sys)
    requires Next(s, a, t) && a.DoPrepare? && TicketsAreTrue(actions, s.host.tickets) && AreOfTickets(s.host, s.out)
    ensures TicketsAreTrue(actions, t.host.tickets) && AreOfTickets(t.host, t.out)
  {
    PreparesExactlyWhen(s.host, a.exportId, a.artifactId, a.writeId, a.path, a.length, a.digest, s.clock);
    var r := PrepareOf(s.host, a.exportId, a.artifactId, a.writeId, a.path, a.length, a.digest, s.clock);
    if r.result.Ok? {
      TakenIsTrue(actions, s.host, t.host, r.result.value);
      TakenOut(s.host, t.host, s.out, r.result.value);
    }
  }

  lemma TakenOut(before: State, after: State, out: seq<Prepared>, p: Prepared)
    requires AreOfTickets(before, out) && IsTaken(before, after, p) && p.artifact in before.tickets[p.exportId].artifacts
    ensures AreOfTickets(after, out + [p])
  {
    forall i | 0 <= i < |out| ensures IsOfTicket(after, out[i]) {
      assert IsOfTicket(before, out[i]);
    }
  }

  lemma TakenIsTrue(actions: seq<Action>, st: State, after: State, p: Prepared)
    requires TicketsAreTrue(actions, st.tickets) && IsTaken(st, after, p)
    ensures TicketsAreTrue(actions, after.tickets)
  {
    assert TicketIsTrue(actions, p.exportId, st.tickets[p.exportId]);
    var writes := after.tickets[p.exportId].writes;
    forall w | w in writes && writes[w].written.Some? ensures IsTrue(actions, writes[w].written.value.receipt) {
      assert w in st.tickets[p.exportId].writes;
    }
  }

  /** One write landed; if a receipt is kept of it, it is a true one. */
  lemma LandedIsTrue(actions: seq<Action>, st: State, after: State, p: Prepared)
    requires TicketsAreTrue(actions, st.tickets) && HasWrite(st, p.exportId, p.writeId)
    requires OnlyWrite(st, after, p.exportId, p.writeId) && SameTickets(st, after)
    requires var written := WriteAt(after, p.exportId, p.writeId).written; written.Some? ==> IsTrue(actions, written.value.receipt)
    ensures TicketsAreTrue(actions, after.tickets)
  {
    forall id | id in after.tickets ensures TicketIsTrue(actions, id, after.tickets[id]) {
      assert TicketIsTrue(actions, id, st.tickets[id]) && SameTicket(st.tickets[id], after.tickets[id]);
      var writes := after.tickets[id].writes;
      forall w | w in writes && writes[w].written.Some? ensures IsTrue(actions, writes[w].written.value.receipt) {
        assert HasWrite(after, id, w);
        if id != p.exportId || w != p.writeId {
          assert HasWrite(st, id, w) && WriteAt(after, id, w) == WriteAt(st, id, w);
        }
      }
    }
  }

  lemma SentIsTrue(actions: seq<Action>, s: Sys, a: Action)
    requires Inv(s) && a.DoFinish? && a.index < |s.out| && AreOfTickets(s.host, s.out)
    requires TicketsAreTrue(actions + [a], s.host.tickets)
    ensures var f := FinishOf(s.host, s.out[a.index], a.world); f.sent.Some? ==> IsTrue(actions + [a], f.sent.value)
  {
    var p, f := s.out[a.index], FinishOf(s.host, s.out[a.index], a.world);
    SendsExactlyWhen(s.host, p, a.world);
    if f.sent.Some? {
      var t := s.host.tickets[p.exportId];
      assert TicketIsTrue(actions + [a], p.exportId, t) && IsOfTicket(s.host, p);
      assert (actions + [a])[|actions|] == a;
      if t.writes[p.writeId].written.None? {
        assert SawOnDisk(a, f.sent.value.artifact);
      }
    }
  }

  lemma FinishIsTrue(actions: seq<Action>, s: Sys, a: Action, t: Sys)
    requires Inv(s) && Next(s, a, t) && a.DoFinish? && AreOfTickets(s.host, s.out)
    requires TicketsAreTrue(actions + [a], s.host.tickets) && LogIsTrue(actions + [a], s.log)
    ensures Truth(actions + [a], t)
  {
    var p, f := s.out[a.index], FinishOf(s.host, s.out[a.index], a.world);
    SentIsTrue(actions, s, a);
    TicketsAfterFinish(actions + [a], s.host, p, a.world);
    FewerOut(s, t.host, a.index);
    LogGrows(actions + [a], s.log, p, f, a.world);
  }

  lemma TicketsAfterFinish(actions: seq<Action>, st: State, p: Prepared, w: World)
    requires TicketsAreTrue(actions, st.tickets)
    requires FinishOf(st, p, w).sent.Some? ==> IsTrue(actions, FinishOf(st, p, w).sent.value)
    ensures TicketsAreTrue(actions, FinishOf(st, p, w).state.tickets) && SameTickets(st, FinishOf(st, p, w).state)
    ensures FinishOf(st, p, w).state.generation == st.generation
  {
    FinishLands(st, p, w);
    if IsHere(st, p) {
      assert TicketIsTrue(actions, p.exportId, st.tickets[p.exportId]);
      LandedIsTrue(actions, st, FinishOf(st, p, w).state, p);
    }
  }

  lemma LogGrows(actions: seq<Action>, log: seq<Sent>, p: Prepared, f: Finished, w: World)
    requires LogIsTrue(actions, log) && (f.sent.Some? ==> IsTrue(actions, f.sent.value))
    ensures LogIsTrue(actions, log + Logged(p, f, w))
  {
  }

  lemma AbandonIsTrue(actions: seq<Action>, s: Sys, a: Action, t: Sys)
    requires Next(s, a, t) && a.DoAbandon? && TicketsAreTrue(actions, s.host.tickets) && AreOfTickets(s.host, s.out)
    ensures TicketsAreTrue(actions, t.host.tickets) && AreOfTickets(t.host, t.out)
  {
    TicketsAfterAbandon(actions, s.host, s.out[a.index]);
    FewerOut(s, t.host, a.index);
  }

  lemma TicketsAfterAbandon(actions: seq<Action>, st: State, p: Prepared)
    requires TicketsAreTrue(actions, st.tickets)
    ensures TicketsAreTrue(actions, AbandonOf(st, p).tickets) && SameTickets(st, AbandonOf(st, p))
    ensures AbandonOf(st, p).generation == st.generation
  {
    if HasWrite(st, p.exportId, p.writeId) {
      SetWriteIsOnly(st, p.exportId, p.writeId, WriteAt(st, p.exportId, p.writeId).(inFlight := false));
      assert TicketIsTrue(actions, p.exportId, st.tickets[p.exportId]);
      LandedIsTrue(actions, st, AbandonOf(st, p), p);
    }
  }

  lemma FewerOut(s: Sys, after: State, index: nat)
    requires index < |s.out| && AreOfTickets(s.host, s.out)
    requires after.generation == s.host.generation && SameTickets(s.host, after)
    ensures AreOfTickets(after, Without(s.out, index))
  {
    forall i | 0 <= i < |Without(s.out, index)| ensures IsOfTicket(after, Without(s.out, index)[i]) {
      assert IsOfTicket(s.host, s.out[if i < index then i else i + 1]);
    }
  }

  lemma TruthStep(actions: seq<Action>, s: Sys, a: Action, t: Sys)
    requires Inv(s) && OldOut(s.out, s.host.generation) && Truth(actions, s) && Next(s, a, t)
    ensures Truth(actions + [a], t)
  {
    TruthStays(actions, a, s);
    match a
    case Wait(_) =>
    case DoRegister(_, _, _, _) => RegisterIsTrue(actions, s, a, t);
    case DoPrepare(_, _, _, _, _, _) => PrepareIsTrue(actions + [a], s, a, t);
    case DoFinish(_, _) => FinishIsTrue(actions, s, a, t);
    case DoAbandon(_) => AbandonIsTrue(actions + [a], s, a, t);
    case DoInvalidate =>
  }

  lemma TruthGoesOn(actions: seq<Action>, s: Sys, a: Action, t: Sys)
    requires Reaches(START, actions, s) && Next(s, a, t) && Truth(actions, s)
    ensures Truth(actions + [a], t)
  {
    EveryRunIsSafe(actions, s);
    TruthStep(actions, s, a, t);
  }

  /** Over every run, each receipt handed to the store is true. */
  lemma {:induction false} ReceiptsTellTheTruth(actions: seq<Action>, t: Sys)
    requires Reaches(START, actions, t)
    ensures Truth(actions, t)
    decreases |actions|
  {
    if actions != [] {
      var init, last := actions[..|actions| - 1], actions[|actions| - 1];
      var m :| Reaches(START, init, m) && Next(m, last, t);
      ReceiptsTellTheTruth(init, m);
      TruthGoesOn(init, m, last, t);
      assert actions == init + [last];
    }
  }
}
