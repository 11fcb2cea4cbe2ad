/** The client's save loop against the host, and inputs on which it cannot succeed. */
module Persistence {
  import opened Contracts
  import opened Strings
  import opened Documents
  import opened Domain
  import opened DocumentBridge
  import opened SectionEdits
  import opened EntryEdits
  import opened SyncCost
  import opened SyncSections
  import opened Convergence

  const COMMAND_LIMIT: nat := 64

  datatype PersistOutcome =
    | Saved
    | Stuck          // no command left, yet the documents differ
    | Refused(code: ErrorCode)
    | LimitReached

  function EnvelopeFor(h: Host, contextId: Id, commandId: Id, payload: DomainCommand): CommandEnvelope {
    CommandEnvelope(1, commandId, h.document.documentId, contextId, Decimal(h.revision), h.branchId, h.headId, payload)
  }

  /** A fresh command built from the host's own cursor is judged by its payload alone. */
  lemma FreshSubmission(h: Host, actor: string, contextId: Id, commandId: Id, payload: DomainCommand)
    requires !IsBlank(actor) && !IsBlank(contextId) && commandId !in h.processed
    ensures var reply := Handle(h, actor, contextId, EnvelopeFor(h, contextId, commandId, payload));
            var applied := Apply(h.document, payload);
            if applied.Err? then reply == Reply(h, Err(applied.error))
            else
              && reply.outcome.Ok? && reply.host.document == applied.value && reply.host.revision == h.revision + 1
              && reply.host.processed.Keys == h.processed.Keys + {commandId}
  {
  }

  /** The host applied the command under its ID, or refused it and kept everything. */
  predicate IsSubmitted(before: Host, commandId: Id, payload: DomainCommand, result: Result<CommandResult, ErrorCode>, after: Host) {
    var applied := Apply(before.document, payload);
    if applied.Err? then result == Err(applied.error) && after == before
    else
      && result.Ok? && after.document == applied.value && after.revision == before.revision + 1
      && after.processed.Keys == before.processed.Keys + {commandId}
  }

  /** One command of the save loop, built from the host's own cursor. */
  method SubmitFresh(host: DocumentContext, actor: string, contextId: Id, commandId: Id, payload: DomainCommand)
    returns (result: Result<CommandResult, ErrorCode>)
    requires !IsBlank(actor) && !IsBlank(contextId) && commandId !in host.processed
    modifies host
    ensures IsSubmitted(old(host.State()), commandId, payload, result, host.State())
  {
    FreshSubmission(host.State(), actor, contextId, commandId, payload);
    var envelope := CommandEnvelope(1, commandId, host.document.documentId, contextId, Decimal(host.revision),
                                    host.branchId, host.headId, payload);
    result := host.ApplyCommand(actor, contextId, envelope);
  }

  predicate AreFresh(ids: seq<Id>, n: nat, used: set<Id>) {
    && (forall i, j :: 0 <= i < j < |ids| ==> ids[i] != ids[j])
    && forall i :: n <= i < |ids| ==> ids[i] !in used
  }

  lemma FreshNext(ids: seq<Id>, n: nat, used: set<Id>)
    requires n < |ids| && AreFresh(ids, n, used)
    ensures AreFresh(ids, n + 1, used + {ids[n]})
  {
  }

  /** Before the loop's turn numbered sent: the goal can still be reached exactly if it could be from the start. */
  predicate IsUnderway(h: Host, desired: ResumeDocument, ids: seq<Id>, sent: nat, revision: nat, reachable: bool) {
    && sent <= |ids| && Valid(h.document) && h.revision == revision + sent
    && AreFresh(ids, sent, h.processed.Keys)
    && reachable == Reaches(h.document, desired, |ids| - sent)
  }

  lemma TurnKeeps(before: Host, desired: ResumeDocument, ids: seq<Id>, sent: nat, revision: nat, reachable: bool,
                  result: Result<CommandResult, ErrorCode>, after: Host)
    requires IsUnderway(before, desired, ids, sent, revision, reachable) && sent < |ids| && before.document != desired
    requires NextCommand(before.document, desired).Some?
    requires IsSubmitted(before, ids[sent], NextCommand(before.document, desired).value, result, after)
    ensures result.Ok? ==> IsUnderway(after, desired, ids, sent + 1, revision, reachable)
    ensures result.Err? ==> after == before && !reachable
  {
    FreshNext(ids, sent, before.processed.Keys);
  }

  /** The loop may only stop without success when the goal cannot be reached. */
  lemma TurnStops(h: Host, desired: ResumeDocument, ids: seq<Id>, sent: nat, revision: nat, reachable: bool)
    requires IsUnderway(h, desired, ids, sent, revision, reachable)
    ensures h.document == desired ==> reachable
    ensures h.document != desired && (sent == |ids| || NextCommand(h.document, desired).None?) ==> !reachable
    ensures Valid(h.document) && h.revision == revision + sent
  {
  }

  /** The save loop with room for one command per given ID. */
  method PersistWithin(host: DocumentContext, actor: string, contextId: Id, desired: ResumeDocument, ids: seq<Id>)
    returns (outcome: PersistOutcome, sent: nat)
    requires Valid(host.document) && !IsBlank(actor) && !IsBlank(contextId)
    requires AreFresh(ids, 0, host.processed.Keys)
    modifies host
    ensures Valid(host.document)
    ensures outcome.Saved? <==> Reaches(old(host.document), desired, |ids|)
    ensures outcome.Saved? ==> host.document == desired
    ensures sent <= |ids| && host.revision == old(host.revision) + sent
  {
    ghost var revision, reachable := host.revision, Reaches(host.document, desired, |ids|);
    sent := 0;
    while sent < |ids|
      invariant IsUnderway(host.State(), desired, ids, sent, revision, reachable)
    {
      TurnStops(host.State(), desired, ids, sent, revision, reachable);
      if host.document == desired {
        return Saved, sent;
      }
      var command := NextDocumentCommand(host.document, desired);
      if command.None? {
        return Stuck, sent;
      }
      ghost var before := host.State();
      var result := SubmitFresh(host, actor, contextId, ids[sent], command.value);
      TurnKeeps(before, desired, ids, sent, revision, reachable, result, host.State());
      if result.Err? {
        return Refused(result.error), sent;
      }
      sent := sent + 1;
    }
    TurnStops(host.State(), desired, ids, sent, revision, reachable);
    outcome := if host.document == desired then Saved else LimitReached;
  }

  /**
   * The save loop on a quiet channel: at most 64 commands, each difference taken against the document the host
   * returned. It succeeds exactly when the goal is reached in 64 steps, so whenever the step bound allows it,
   * and never when the goal is not syncable.
   */
  method RunPersist(host: DocumentContext, actor: string, contextId: Id, desired: ResumeDocument, ids: seq<Id>)
    returns (outcome: PersistOutcome, sent: nat)
    requires Valid(host.document) && !IsBlank(actor) && !IsBlank(contextId)
    requires |ids| == COMMAND_LIMIT && AreFresh(ids, 0, host.processed.Keys)
    modifies host
    ensures Valid(host.document)
    ensures outcome.Saved? <==> Reaches(old(host.document), desired, COMMAND_LIMIT)
    ensures outcome.Saved? ==> host.document == desired
    ensures Syncable(old(host.document), desired) && StepBound(old(host.document), desired) <= COMMAND_LIMIT ==> outcome.Saved?
    ensures !Syncable(old(host.document), desired) ==> !outcome.Saved?
    ensures sent <= COMMAND_LIMIT && host.revision == old(host.revision) + sent
  {
    PersistVerdict(host.document, desired, |ids|);
    outcome, sent := PersistWithin(host, actor, contextId, desired, ids);
  }

  lemma PersistVerdict(c: ResumeDocument, d: ResumeDocument, limit: nat)
    requires Valid(c)
    ensures Syncable(c, d) && StepBound(c, d) <= limit ==> Reaches(c, d, limit)
    ensures Reaches(c, d, limit) ==> Syncable(c, d)
  {
    if Syncable(c, d) && StepBound(c, d) <= limit {
      ReachedWithinBound(c, d, limit);
    }
    if Reaches(c, d, limit) {
      ReachedWasSyncable(c, d, limit);
    }
  }

  // ---- Where the save loop fails ----

  /** Clearing a basic text other than the avatar is never saved: the patch cannot say "remove". */
  lemma ClearedTextIsNeverSaved(c: ResumeDocument, d: ResumeDocument, f: BasicText)
    requires Valid(c) && f != AvatarAssetId && f in c.basic.texts && f !in d.basic.texts
    ensures !Converges(c, d)
  {
    SyncConvergesExactly(c, d);
    assert !SameText(c.basic.texts, d.basic.texts, f);
  }

  function Sample(sections: seq<Section>): ResumeDocument {
    ResumeDocument(2, "doc", "Title", BasicInfo(map[], Age), sections,
                   Presentation("t", "1", Standard, "f", 10.0, 12.0, 0.0, 20.0, 10.0, 0.0, 0.0, "#000000", "d", "t", "s", "a", map[]),
                   None, map[])
  }

  const Moving := Entry("entry", map[], [])

  function Works(entries: seq<Entry>): Section { EntrySection("work", Work, "Work", true, entries) }

  function Clubs(entries: seq<Entry>): Section { EntrySection("orgs", Orgs, "Orgs", true, entries) }

  /** Two sections, with the one entry in the first or in the second. */
  function EntryInFirst(): ResumeDocument { Sample([Works([Moving]), Clubs([])]) }

  function EntryInSecond(): ResumeDocument { Sample([Works([]), Clubs([Moving])]) }

  lemma NotBlank(s: string)
    requires |s| > 0 && !IsWhitespace(s[0])
    ensures !IsBlank(s)
  {
    assert s[0] in s;
  }

  lemma SampleSections()
    ensures ValidSection(Works([])) && ValidSection(Works([Moving]))
    ensures ValidSection(Clubs([])) && ValidSection(Clubs([Moving]))
  {
    NotBlank("work");
    NotBlank("orgs");
    NotBlank("entry");
  }

  lemma ValidPair(a: Section, b: Section)
    requires ValidSection(a) && ValidSection(b) && a.id != b.id && (EntriesOf(a) == [] || EntriesOf(b) == [])
    ensures ValidSections([a, b])
  {
    NoEntryIds(a);
    NoEntryIds(b);
  }

  lemma NoEntryIds(s: Section)
    ensures EntriesOf(s) == [] ==> EntryIds(s) == {} && Known(s) == map[]
  {
  }

  lemma SamplesAreValid()
    ensures Valid(EntryInFirst()) && Valid(EntryInSecond())
  {
    NotBlank("doc");
    NotBlank("Title");
    SampleSections();
    ValidPair(Works([Moving]), Clubs([]));
    ValidPair(Works([]), Clubs([Moving]));
  }

  /** An entry that has to move to an earlier section is refused: it is added there while its old copy still exists. */
  lemma MovingEarlierFails()
    ensures !Converges(EntryInSecond(), EntryInFirst())
  {
    SamplesAreValid();
    SyncConvergesExactly(EntryInSecond(), EntryInFirst());
    var cs, ds := EntryInSecond().sections, EntryInFirst().sections;
    ByIdSound(cs);
    assert SectionsById(cs)[cs[1].id] == cs[1];
    KnownFacts(cs[1]);
    assert Moving in EntriesOf(cs[1]) && Moving in EntriesOf(ds[0]);
    assert !Clear(SectionsById(cs), ds, 0, 1);
  }

  lemma LaterMoveInReach()
    ensures SectionsSyncable(EntryInFirst().sections, EntryInSecond().sections)
  {
    SamplesAreValid();
    var cs, ds := EntryInFirst().sections, EntryInSecond().sections;
    ByIdSound(cs);
    var m := SectionsById(cs);
    assert m[cs[0].id] == cs[0] && m[cs[1].id] == cs[1];
    NoEntryIds(cs[1]);
    NothingShared(cs[0], ds[0]);
    NothingShared(cs[1], ds[1]);
    PairSyncable(m, ds);
  }

  lemma PairSyncable(m: map<Id, Section>, ds: seq<Section>)
    requires |ds| == 2 && ds[0].id in m && ds[1].id in m
    requires SameKind(m[ds[0].id], ds[0]) && SameKind(m[ds[1].id], ds[1])
    requires Reachable(m[ds[0].id], ds[0]) && Reachable(m[ds[1].id], ds[1])
    requires Known(m[ds[1].id]) == map[]
    ensures Present(m, ds) && KindsMatch(m, ds) && NoObstacle(m, ds) && NoEarlierMove(m, ds)
  {
    forall k, j | 0 <= k < j < |ds| ensures Clear(m, ds, k, j) {
      assert k == 0 && j == 1;
    }
  }

  lemma NothingShared(b: Section, d: Section)
    requires EntriesOf(d) == [] || Known(b) == map[]
    ensures Reachable(b, d)
  {
  }

  /** The opposite move is saved: the entry is deleted first and added afterwards. */
  lemma MovingLaterSucceeds()
    ensures Converges(EntryInFirst(), EntryInSecond())
  {
    SamplesAreValid();
    LaterMoveInReach();
    NothingToReach(EntryInSecond().basic.texts);
    SyncConvergesExactly(EntryInFirst(), EntryInSecond());
  }
}
