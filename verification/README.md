# ZineCV state machines, verified

ZineCV is a local resume editor. This project models its stateful algorithms in Dafny and proves what they promise:

- **Draft synchronisation** (`Contracts`, `Documents`, `Domain`, `DocumentBridge`, `SectionEdits`, `EntryEdits`, `SyncCost`,
  `SyncSteps`, `SyncSections`, `SyncOrder`, `Convergence`, `Persistence`, `SaveRuns`, `SaveEnds`, `HostLog`,
  `CommandEffects`). The web client picks one command at a time that moves the current document towards the desired one; the
  host applies it transactionally with revision checks and receipts.
- **Delivery** (`Strings`, `NativeDocumentClient`, `DeliveryProtocol`, `DeliverySafety`, `DeliveryQueue`, `ExactlyOnce`,
  `RevisionOrder`, `ReloadRace`, `ReloadWitness`, `SaveStatus`, `ClientGuards`). The client carries commands over a channel
  that may lose, repeat and delay answers, while others change the document too.
- **Text layer** (`Unicode`, `LeafWalk`, `LeafNames`, `LeafClashes`, `LeafContents`, `TextMap`, `LogicalText`,
  `TextMapBuild`, `HitRegions`, `RegionRoots`, `HeaderReplay`, `HeaderMarks`). Rich blocks become leaves of one logical text;
  glyph clusters addressed by bytes are mapped to its UTF-16 units and merged into hit regions.
- **Readers, writers and incremental forms** (`RichText`, `RichTextNames`, `RichTextComplete`, `RichTextWriter`,
  `RichTextRoundTrip`, `RichTextSettles`, `OneTrip`, `Snapshot`, `SnapshotMeaning`, `SnapshotRoundTrip`, `SnapshotSettles`,
  `SseFrames`, `SseRoundTrip`, `Utf8`, `StreamEnds`, `ReplyStream`, `ReplyRoundTrip`, `Versions`, `VersionMeaning`,
  `VersionOverlap`, `VersionLoss`).
- **Resources and scheduling** (`ExportSessions`, `ExportSafety`, `ExportReceipts`, `Fit`, `FitGrid`, `FitVerdict`,
  `PageCache`, `SingleFlight`, `FitClient`, `RenderScheduler`, `LaneOrder`, `RenderSupervisor`, `WorkerExchange`, `Agent`,
  `AgentJson`, `AgentScript`).

Classes stand for the objects the program updates in place. Their methods are proved against specification functions of the
old state; the lemmas are about those functions and about all runs built from them. Asynchronous operations are split at their
awaits into steps that may interleave freely. Clocks, randomness, the host's answers, the worker's messages and the model's
replies are parameters that may be anything. Presentation lengths and boxes are exact reals, counters are unbounded, canonical
hashes are equality of what they hash, and fresh IDs are fresh.

`dafny verify dfyconfig.toml` checks the whole project.

## Where the code does less than one might expect

- Draft synchronisation does not converge for every valid goal. `Convergence.Syncable` is the exact condition: the goal is valid
  and of the same document, schema and source; no basic text but the avatar is cleared and the avatar is not set to the empty
  string; each shared entry's differing texts are present in the goal and college and mode are not emptied; the section IDs and
  kinds are the same; and no entry moves to an earlier section (a later section works, by deletion and addition).
- `reload` installs the answer without comparing revisions. A reload can take the client back exactly when, at its start, another
  call of its session is out that fetches its state or whose envelope the host has applied or would apply
  (`ReloadRace.ReloadMayGoBackExactlyWhen`); two retries of one failed save get there (`ReloadWitness.ReloadDoesGoBack`). Without
  such overlaps the revision never goes back (`RevisionOrder.RevisionMonotoneOverRuns`).
- `build_text_map` indexes past the end exactly when the first cluster that cannot be mapped is empty and at the very end of the
  text (`TextMapBuild.BuildPanicsExactlyWhen`, `TextMapBuild.PanicHappens`).
- Leaf IDs are paths joined by colons, and IDs of the document may hold colons. Leaves of a valid document can share an ID exactly
  when one root with a body is the path of an item, at most eight lists down, below another one, such as `entry:a` and
  `entry:a:b0:i0` (`LeafClashes.DocumentIsSafeExactlyWhen`, `LeafClashes.DocumentDoesClash`).
- A repeated header that holds another one is walked wrongly, except where the outer one is new or nothing is at stake
  (`HeaderReplay.NestedIsErasedExactlyWhen`), and can lose text (`HeaderReplay.NestedReplayLosesText`).
- Rich text whose texts are empty, unsorted or touching comes back changed. One round trip settles it exactly when no two unmarked
  texts are separated only by empty texts of which one has a mark (`OneTrip.OneTripSettlesExactlyWhen`,
  `OneTrip.OneTripMayNotSettle`); two trips always do (`RichTextSettles.TwoTripsSettle`).
- A stream of exactly the maximal size is accepted by `push` but not by `finish`, and so is an open data line that is not UTF-8
  (`SseFrames.FinishClosesTheStream`, `StreamEnds.FullStreamCannotFinish`, `StreamEnds.BrokenTailCannotFinish`).
- Two overlapping refreshes of the version list can mix an older graph with a newer list; the result is right exactly when the
  snapshots used again were made from texts that read alike (`VersionOverlap.OverlapIsRightExactlyWhen`), and a run exists in
  which it is not (`VersionOverlap.OverlapMayLoseASnapshot`). Such a loss stays until the text of the commit or the context
  changes (`VersionLoss.LostStaysLost`, `VersionLoss.ChangeHealsInRuns`).
- After a generation change over a waiting queue a later render starts first, exactly when one comes to that lane before anything
  is active (`LaneOrder.LanesAreFifoExactlyWhen`, `LaneOrder.GenerationChangeLetsOneOvertake`); under the supervisor no queue
  ever forms (`RenderSupervisor.EveryCallStartsFromRest`).
- The host's check of a fit plan also lets through stopped plans that went on behind a layout with one page, which no search gives
  (`FitVerdict.AcceptedCouldComeExactlyWhen`, `FitVerdict.StoppedBehindOnePagePasses`).
- An expired ticket is dropped with its unrecorded proof; only capacity never drops one (`ExportSafety.UnrecordedProofStays`).

## Model

| member | source | states |
|---|---|---|
| `Documents.ValidatorIsExact` | crates/zinecv-domain/src/lib.rs:450-516 | The validator reports no error exactly for the documents meeting the declarative rules: unique section and entry IDs, allowed links, bounded nesting, a non-blank title |
| `Domain.ValidateDocument` | crates/zinecv-domain/src/lib.rs:450-478 | The validation loop with its growing ID sets returns the error that the recursive specification gives, or none |
| `Domain.DocumentContext.WithAuthority` | crates/zinecv-domain/src/lib.rs:34-49 | A context is made exactly for a valid document of schema version 2; it starts without receipts |
| `Domain.DocumentContext.ApplyCommand` | crates/zinecv-domain/src/lib.rs:65-75 | Host state and answer after a command are those of the transactional specification; on refusal the object is untouched |
| `Domain.DocumentContext.ApplyCommandInner` | crates/zinecv-domain/src/lib.rs:77-384 | The staged object gives the specified answer: permission, protocol, stored receipt, stale cursor, edit, validation, new revision and receipt |
| `Domain.DocumentContext.ApplyPayload` | crates/zinecv-domain/src/lib.rs:109-369 | Each in-place edit leaves the document that the pure edit gives, or fails with its code |
| `Domain.DocumentContext.EditOneSection` | crates/zinecv-domain/src/lib.rs:117-143 | Edits of a single section or entry in place give the edited section list or the specified code |
| `Domain.DocumentContext.DeleteEverywhere` | crates/zinecv-domain/src/lib.rs:204-217 | All entries with the ID are removed from all sections, and the answer says whether there were any |
| `Domain.DocumentContext.TakeEntry` | crates/zinecv-domain/src/lib.rs:218-245 | The first entry with the ID is taken out of its section and returned |
| `HostLog.OneRequest` | crates/zinecv-domain/src/lib.rs:65-143 | A request either commits one step, with revision plus one and a receipt for the new document, or leaves the whole host as it was |
| `HostLog.HostRefinesLog` | crates/zinecv-domain/src/lib.rs:65-384 | Over every run the document is valid and the fold of the accepted payloads, the revision counts the receipts, and the k-th receipt reports the k-th revision and document |
| `HostLog.ReplayReturnsTheReceipt` | crates/zinecv-domain/src/lib.rs:89-98 | Sending an accepted command again, after any further requests, returns the identical receipt and changes nothing |
| `HostLog.IdCommitsOnce` | crates/zinecv-domain/src/lib.rs:89-98 | After a command ID has committed, no request with that ID ever commits again |
| `HostLog.AnswersExactlyWhen` | crates/zinecv-domain/src/lib.rs:77-106 | A request commits if and only if actor and context are given, the protocol is the first, its ID is new, it expects the present cursor and the document takes the command; a known ID gets its receipt if and only if envelope and actor are the same |
| `HostLog.OtherRequestConflicts` | crates/zinecv-domain/src/lib.rs:89-98 | After a command ID has committed, every other envelope or actor with that ID is refused as a conflict, and nothing changes, after any further requests |
| `HostLog.MoveSectionConserves` | crates/zinecv-domain/src/lib.rs:130-143 | An accepted section move permutes the sections and puts the section at the index |
| `HostLog.MoveEntryConserves` | crates/zinecv-domain/src/lib.rs:218-245 | An accepted entry move keeps the multiset of entries over all sections and lands at the requested place |
| `CommandEffects.EveryCommandMeans` | crates/zinecv-domain/src/lib.rs:109-369 | For every valid document and each of the fourteen commands: the host accepts it with a result if and only if the result is valid and stands in the relation the command asks for, field by field and entry by entry |
| `CommandEffects.EveryRefusalMeans` | crates/zinecv-domain/src/lib.rs:109-369 | A refused command says "not found" if and only if what it names is missing; any other refusal is of an argument, or of what the result would be |
| `DocumentBridge.CompareFields` | src/platform/documentBridge.ts:251-272 | The field loop collects exactly the differing texts that the desired side has |
| `DocumentBridge.ComputeBasicPatch` | src/platform/documentBridge.ts:255-283 | The patch loop returns the specified patch, with the empty avatar as the clearing value, and none when nothing differs |
| `DocumentBridge.ComputeEntryFieldPatch` | src/platform/documentBridge.ts:285-303 | The entry patch loop returns the specified patch or none |
| `DocumentBridge.ComputeContentCommand` | src/platform/documentBridge.ts:322-353 | The content loops return the first needed body, add, field or delete command of one section |
| `DocumentBridge.FirstMismatch` | src/platform/documentBridge.ts:368-393 | The index loop returns the first place where the wanted IDs differ |
| `DocumentBridge.NextDocumentCommand` | src/platform/documentBridge.ts:307-408 | The early-return loops choose the command that the declarative specification chooses |
| `DocumentBridge.NextSectionsCommand` | src/platform/documentBridge.ts:320-393 | Content of all sections comes first, then headings, section order and entry order |
| `SyncCost.EntryPatchIsExact` | src/platform/documentBridge.ts:285-303 | Applying the entry patch gives the desired texts exactly when every differing text is present on the desired side and college and mode are not emptied |
| `SyncCost.BasicPatchIsExact` | src/platform/documentBridge.ts:255-283 | Applying the basic patch gives the desired basic information exactly when no text but the avatar is cleared and the avatar is not set to the empty string |
| `SyncSections.CommandSource` | src/platform/documentBridge.ts:322-393 | Every section command other than a section move comes from one desired section and edits its current counterpart |
| `SyncSections.LocalGetsCloser` | src/platform/documentBridge.ts:322-393 | An accepted section edit strictly lowers the section measure |
| `SyncSections.LocalKeepsSyncable` | src/platform/documentBridge.ts:322-393 | An accepted section edit keeps the sections reachable |
| `SyncOrder.MoveGetsCloser` | src/platform/documentBridge.ts:368-376 | A section move strictly lowers the section measure |
| `Convergence.SilentOnlyWhenEqual` | src/platform/documentBridge.ts:307-408 | For a reachable goal no command is chosen exactly at equality |
| `Convergence.Progress` | src/platform/documentBridge.ts:307-408 | For a reachable goal the chosen command is accepted by the host, keeps the goal reachable and strictly lowers the step bound |
| `Convergence.Reflect` | src/platform/documentBridge.ts:307-408 | If the chosen command is accepted and the goal is reachable afterwards, it was reachable before |
| `Convergence.ReachedWithinBound` | src/platform/useNativeResumePersistence.ts:62-77 | A reachable goal is reached within the step bound |
| `Convergence.ReachedWasSyncable` | src/platform/useNativeResumePersistence.ts:62-77 | A goal reached in any number of steps was reachable in the declarative sense |
| `Convergence.SyncConvergesExactly` | src/platform/useNativeResumePersistence.ts:52-83 | From a valid document draft synchronisation converges if and only if the goal is syncable |
| `Persistence.RunPersist` | src/platform/useNativeResumePersistence.ts:52-83 | The save loop of at most 64 commands succeeds exactly when the goal is reached in 64 steps; it then holds the goal, and it never succeeds for an unsyncable goal |
| `Persistence.FreshSubmission` | src/platform/NativeDocumentClient.ts:285-294 | A fresh command built from the host cursor is judged by its payload alone |
| `Persistence.PersistVerdict` | src/platform/useNativeResumePersistence.ts:62-82 | A step bound of at most 64 is enough, and success means the goal was syncable |
| `Persistence.ClearedTextIsNeverSaved` | src/platform/documentBridge.ts:267-272 | Clearing a basic text other than the avatar can never be saved |
| `Persistence.MovingEarlierFails` | src/platform/documentBridge.ts:334-352 | An entry moved to an earlier section is never saved: its addition is refused as a duplicate |
| `Persistence.MovingLaterSucceeds` | src/platform/documentBridge.ts:334-352 | An entry moved to a later section is saved, by deletion and addition |
| `SaveRuns.EverySaveIsSound` | src/platform/useNativeResumePersistence.ts:52-83 | Over every run of saves without another writer, however many answers are lost, late or repeated: the client makes at most as many commands as the way is long, none is refused, and at rest the client shows what the host holds or keeps the failed command; a save reads the status alone, which tells at rest whether a command has failed |
| `SaveEnds.SaveCanEnd` | src/platform/useNativeResumePersistence.ts:52-83 | From every point of every such run some course of events ends with client and host at the goal |
| `SaveEnds.DraftIsSaved` | src/platform/useNativeResumePersistence.ts:52-83 | A draft that can be synchronised, saved over a lossy channel: at most as many commands as the step bound says, each applied at most once, none refused, and every run can be brought to its end at the goal |
| `SaveStatus.StatusTellsFailure` | src/platform/NativeDocumentClient.ts:368-408 | With other writers, retries that overlap and reloads made while no command is out: whenever no command is out, the status is "failed" exactly when a command has failed and been kept; else it is "saved" after a confirmation |
| `Strings.CanonicalMeansDecimal` | src/platform/NativeDocumentClient.ts:479-487 | The revision pattern accepts exactly the decimal forms of natural numbers |
| `Strings.NewerRevisionIsNumericOrder` | src/platform/NativeDocumentClient.ts:22-25 | On canonical decimals the text comparison of revisions is numeric order |
| `NativeDocumentClient.NativeDocumentClient.AssertTarget` | src/platform/NativeDocumentClient.ts:80-90 | A captured target holds exactly when session, document, context, branch and head agree and the revision has not gone back |
| `NativeDocumentClient.NativeDocumentClient.StartSubmit` | src/platform/NativeDocumentClient.ts:275-301 | The queued submission sends an envelope from the present cursor and remembers it, or refuses |
| `NativeDocumentClient.NativeDocumentClient.StartRetry` | src/platform/NativeDocumentClient.ts:303-318 | A retry resends the remembered failed envelope unchanged |
| `NativeDocumentClient.NativeDocumentClient.OnReceipt` | src/platform/NativeDocumentClient.ts:368-408 | A receipt is installed, sent to reconciliation or refused as specified; one that belongs to a document the host has left is refused |
| `NativeDocumentClient.NativeDocumentClient.OnReconcile` | src/platform/NativeDocumentClient.ts:383-399 | A reconciling state is installed only if it is for the envelope, not older than receipt and client, and not of a document the host has left |
| `NativeDocumentClient.NativeDocumentClient.OnReload` | src/platform/NativeDocumentClient.ts:116-138 | A reload installs the state of its own session, starts a new session when the lineage changed, even if the state is then refused, and refuses states of documents the host has left |
| `ClientGuards.SubmitSendsExactlyWhen` | src/platform/NativeDocumentClient.ts:275-301 | A submission is sent if and only if nothing has failed and its target is the document shown, no newer, in this session; its envelope is for exactly the cursor shown |
| `ClientGuards.ReceiptIsTakenExactlyWhen` | src/platform/NativeDocumentClient.ts:368-384 | Whatever the host answers: a receipt is taken if and only if it is for the command, durable, of a sound state of the same document that is newer than expected, in this session; it is installed at once if and only if it is newer than what is shown and not of a retry |
| `ClientGuards.StateIsTakenExactlyWhen` | src/platform/NativeDocumentClient.ts:383-399 | A fetched state settles a receipt if and only if it is sound, of its document, not older than the receipt or what is shown, and not of a document left |
| `ClientGuards.StepHolds` | src/platform/NativeDocumentClient.ts:275-408 | Whatever is answered, what is shown stays sound, and only the answer of a reload changes document or context or lowers the revision |
| `ClientGuards.WhateverIsAnswered` | src/platform/NativeDocumentClient.ts:116-408 | So over every run of calls, answers and reloads in which retries are for the document of their session |
| `DeliverySafety.StepKeeps` | src/platform/NativeDocumentClient.ts:275-408 | Every send, serve, loss, delivery, reconcile, reload and foreign command keeps the protocol invariant |
| `DeliverySafety.ServeKeeps` | crates/zinecv-domain/src/lib.rs:86-106 | Serving any envelope ever issued, any number of times, keeps the invariant |
| `DeliverySafety.DeliveryKeeps` | src/platform/NativeDocumentClient.ts:368-408 | Delivering any answer the host really gave keeps the invariant |
| `ExactlyOnce.EveryReachableStateIsSafe` | src/platform/NativeDocumentClient.ts:275-408 | The invariant holds in every reachable state, for all interleavings |
| `ExactlyOnce.ClientStateIsAuthoritative` | src/platform/NativeDocumentClient.ts:462-477 | The revision and document of the client are always a pair the host really had |
| `ExactlyOnce.ResolvedWasAppliedOnce` | src/platform/NativeDocumentClient.ts:394-399 | A resolved submission was applied by the host exactly once |
| `ExactlyOnce.ServedAgainChangesNothing` | crates/zinecv-domain/src/lib.rs:89-98 | Once an envelope has been answered, serving it again leaves the host as it is |
| `ExactlyOnce.AppliedAtMostOnce` | crates/zinecv-domain/src/lib.rs:86-106 | Over every run, however often an envelope is sent, repeated or delayed, it changes the host at most once, and not at all once it is applied |
| `ExactlyOnce.AppliedInQueueOrder` | src/platform/NativeDocumentClient.ts:275-301 | Over every run submissions take effect in the order in which they were called: of two that were sent the earlier one made its envelope first, and if both were applied it was applied first; a confirmed one was applied |
| `DeliveryQueue.StepKeepsQueue` | src/platform/NativeDocumentClient.ts:275-318 | Every step keeps the order of the promise chain: whoever waits for the host is waited for by all that are queued, and envelopes are made in the order of their submissions |
| `ExactlyOnce.StaleNeverApplies` | crates/zinecv-domain/src/lib.rs:100-106 | An envelope whose expected revision has passed never applies |
| `ExactlyOnce.ResolvedStays` | src/platform/NativeDocumentClient.ts:394-399 | A resolved submission stays resolved with its answer |
| `RevisionOrder.RevisionNeverGoesBack` | src/platform/NativeDocumentClient.ts:363-408 | No step other than the answer of a reload lowers the revision of the client |
| `RevisionOrder.RevisionMonotoneOverRuns` | src/platform/NativeDocumentClient.ts:116-138 | Over every run, reloads included, the revision never goes back if each reload starts while no other call of its session is out that could still be confirmed |
| `RevisionOrder.RevisionNeverGoesBackInRuns` | src/platform/NativeDocumentClient.ts:116-138 | From a freshly loaded client: at the end of such a run the revision is not below that at any point of it |
| `RevisionOrder.LoneReloadsNeverGoBack` | src/platform/NativeDocumentClient.ts:116-138 | So it is in particular when each reload starts while no other call of its session is out at all |
| `ReloadRace.ReloadMayGoBackExactlyWhen` | src/platform/NativeDocumentClient.ts:116-138 | A reload that starts now can take the client back in some course of events if and only if another call of its session is out that fetches its state, or whose envelope the host has applied or would apply |
| `ReloadWitness.ReloadDoesGoBack` | src/platform/NativeDocumentClient.ts:303-318 | From every freshly loaded client with a serving host a run exists in which it happens: two retries of one failed save, and a reload |
| `LeafWalk.FlattenInlinesInto` | crates/zinecv-engine/src/text_map.rs:122-148 | The recursive walk appends the leaves of the specification, numbered through links and breaks |
| `LeafWalk.WalkList` | crates/zinecv-engine/src/text_map.rs:151-161 | The list walk appends the items of the specification in order |
| `LeafWalk.WalkBlocks` | crates/zinecv-engine/src/text_map.rs:164-172 | The block walk appends the leaves of the specification in order |
| `LeafWalk.BlocksDistinct` | crates/zinecv-engine/src/text_map.rs:116-172 | Leaf IDs under one path are pairwise distinct and start with the number of their block |
| `LeafWalk.BodyLeavesAreDistinct` | crates/zinecv-engine/src/text_map.rs:116-172 | The leaves of one body have distinct IDs, as the text map needs |
| `LeafNames.WalkEntry` | crates/zinecv-engine/src/text_map.rs:226-261 | The leaves of one entry are the head of the title format, then the body |
| `LeafNames.WalkSections` | crates/zinecv-engine/src/text_map.rs:217-277 | The section loop gives heading, entries and bodies of all visible sections in order |
| `LeafNames.LeavesAreDistinct` | crates/zinecv-engine/src/text_map.rs:217-277 | In valid sections whose roots are safe, all leaves, heads and bodies, have distinct IDs |
| `LeafClashes.RootsNeverClashExactlyWhen` | crates/zinecv-engine/src/text_map.rs:150-172 | Valid bodies under two roots never hold printed leaves of one name, whatever they contain, if and only if neither root is the other one or the path of an item at most eight lists below it |
| `LeafClashes.DocumentIsSafeExactlyWhen` | crates/zinecv-engine/src/text_map.rs:217-277 | For every valid document: no other valid texts and bodies under the same IDs make two leaves share a name, if and only if no root with a body reaches another one |
| `LeafClashes.DocumentDoesClash` | crates/zinecv-engine/src/text_map.rs:217-277 | A valid document with entries a and a:b0:i0 in which two leaves share a name |
| `LeafContents.ParagraphIsNumbered` | crates/zinecv-engine/src/text_map.rs:116-148 | A paragraph is a boundary, then its texts and breaks numbered through from zero, links dissolved, each text with the target of the innermost link around it |
| `LeafContents.BodyLeavesAreItsTexts` | crates/zinecv-engine/src/text_map.rs:116-172 | The leaves of a body are exactly its texts, each named by the address at which the text stands |
| `LeafContents.BlockInPlace` | crates/zinecv-engine/src/text_map.rs:164-172 | The leaves of a block follow those of the blocks before it and precede those of the blocks behind it |
| `LeafContents.ItemInPlace` | crates/zinecv-engine/src/text_map.rs:151-161 | So do the leaves of a list item |
| `LeafContents.LeavesAreTheTexts` | crates/zinecv-engine/src/text_map.rs:217-277 | The leaves of a document are exactly the headings, entry heads (by the title format) and body texts of its visible sections |
| `LeafContents.SectionInPlace` | crates/zinecv-engine/src/text_map.rs:217-277 | The leaves of a section follow those of the sections before it |
| `LeafContents.HeadsInOrder` | crates/zinecv-engine/src/text_map.rs:226-261 | A section begins with its heading, an entry with the three lines of its head, each behind a boundary |
| `TextMap.AssembleLogical` | crates/zinecv-engine/src/text_map.rs:282-311 | The running text, unit count and pending flag give the specified logical text and leaf offsets |
| `TextMap.LeafIsPlaced` | crates/zinecv-engine/src/text_map.rs:295-307 | Each recorded leaf stands in the logical text at its recorded UTF-16 offset |
| `TextMap.LeavesInOrder` | crates/zinecv-engine/src/text_map.rs:282-311 | The unit ranges of different leaves are disjoint and in leaf order |
| `LogicalText.LeavesAreSeparated` | crates/zinecv-engine/src/text_map.rs:282-311 | Between two successive leaves of the logical text stands one line break per break between them, else one for a boundary unless the first ends its line, else nothing; their offsets count the units before them |
| `LogicalText.FirstLeafStands` | crates/zinecv-engine/src/text_map.rs:282-311 | Before the first leaf stand only the line breaks of the breaks before it |
| `LogicalText.LastLeafEnds` | crates/zinecv-engine/src/text_map.rs:282-311 | Behind the last leaf stand only the line breaks of the breaks behind it |
| `LogicalText.NoLeafNoText` | crates/zinecv-engine/src/text_map.rs:282-311 | Without a leaf there are only the line breaks of the breaks |
| `Unicode.BuildLookup` | crates/zinecv-engine/src/text_map.rs:494-500 | The byte table holds at every character boundary the UTF-16 count of the prefix before it |
| `TextMap.BuildOffsets` | crates/zinecv-engine/src/text_map.rs:491-503 | One exact table is built per leaf |
| `TextMap.SpreadLevels` | crates/zinecv-engine/src/text_map.rs:482-488 | Character levels are spread to one flag per UTF-16 unit |
| `TextMap.MapOne` | crates/zinecv-engine/src/text_map.rs:505-533 | Looking one cluster up in its table gives what recounting the prefix gives |
| `TextMap.BuildTextMap` | crates/zinecv-engine/src/text_map.rs:473-538 | The map is the sorted, numbered list of all mapped clusters, or the first failure |
| `TextMap.ClusterIsExact` | crates/zinecv-engine/src/text_map.rs:505-533 | A mapped cluster slices the logical text to exactly its glyph text and lies within its own leaf |
| `TextMap.ClustersFollowLeaves` | crates/zinecv-engine/src/text_map.rs:505-533 | Clusters of an earlier leaf end before clusters of a later leaf begin |
| `TextMap.SortIsStable` | crates/zinecv-engine/src/text_map.rs:534-537 | The result is sorted by start, keeps every cluster, and keeps ties in order |
| `TextMap.EveryClusterMapped` | crates/zinecv-engine/src/text_map.rs:504-533 | Success maps every raw cluster, one to one and in order |
| `TextMap.PanicExactlyAtTheEnd` | crates/zinecv-engine/src/text_map.rs:531 | Indexing the direction flags runs past the end exactly for an empty cluster at the very end of the logical text |
| `TextMapBuild.BuildSucceedsExactlyWhen` | crates/zinecv-engine/src/text_map.rs:505-533 | The whole build succeeds if and only if every cluster can be mapped |
| `TextMapBuild.BuildPanicsExactlyWhen` | crates/zinecv-engine/src/text_map.rs:505-533 | The whole build runs past the direction flags if and only if its first cluster that cannot be mapped is empty and at the very end of the text |
| `TextMapBuild.PanicHappens` | crates/zinecv-engine/src/text_map.rs:531 | One leaf and an empty cluster behind its text make the build run past the end |
| `TextMapBuild.BuiltMapIsExact` | crates/zinecv-engine/src/text_map.rs:473-538 | A successful build is exact as a whole: one cluster per raw cluster, sorted and numbered, each cutting exactly its glyph text out of the logical text, inside its own leaf |
| `HitRegions.BuildHitRegions` | crates/zinecv-engine/src/text_map.rs:25-92 | The one-pass loop gives one region per region ID in order of first sight, each with the merged fragments of its clusters |
| `HitRegions.GrowFragments` | crates/zinecv-engine/src/text_map.rs:65-89 | A cluster extends the last fragment in place or starts a new one |
| `HitRegions.RegionIsLongestOwner` | crates/zinecv-engine/src/text_map.rs:42-55 | A cluster's region is the longest root that is followed by a colon in its node ID, or the node itself, and nothing else |
| `RegionRoots.RootsAreSectionsAndEntries` | crates/zinecv-engine/src/text_map.rs:26-41 | The roots are the sections of both kinds and the entries of the entry sections, and nothing else |
| `RegionRoots.RegionsByName` | crates/zinecv-engine/src/text_map.rs:25-92 | Told by section and entry IDs: each region is made of just the clusters that lie in it, the longest section or entry whose name and a colon begin the node, regions are distinct, and a cluster has its region |
| `RegionRoots.SectionRegion` | crates/zinecv-engine/src/text_map.rs:42-55 | A cluster whose node continues a section lies in the section, and nowhere else, unless a longer root is there too |
| `RegionRoots.EntryRegion` | crates/zinecv-engine/src/text_map.rs:42-55 | The same for an entry |
| `HitRegions.RegionIdsAreDistinct` | crates/zinecv-engine/src/text_map.rs:56-64 | Region IDs are distinct and every cluster has one of them |
| `HitRegions.OrderIsFirstAppearance` | crates/zinecv-engine/src/text_map.rs:56-64 | Semantic order is the order of first appearance |
| `HitRegions.EveryClusterInOneRegion` | crates/zinecv-engine/src/text_map.rs:45-90 | The regions together hold each cluster exactly once |
| `HitRegions.FragmentsCover` | crates/zinecv-engine/src/text_map.rs:65-89 | The clusters of a region split in order into one chain per fragment, each fragment is exactly the range and horizontal hull of its chain, and no two fragments could have been joined |
| `HitRegions.FragmentUnits` | crates/zinecv-engine/src/text_map.rs:65-89 | A UTF-16 unit lies in a fragment exactly when one of its clusters has it |
| `HeaderReplay.ClusterWalk.OnTag` | crates/zinecv-engine/src/text_map.rs:365-402 | A metadata tag changes marker, seen headers and saved marker as specified |
| `HeaderReplay.ClusterWalk.Collect` | crates/zinecv-engine/src/text_map.rs:340-414 | The recursive frame walk is the fold over the flattened events |
| `HeaderReplay.ClusterWalk.CollectPages` | crates/zinecv-engine/src/text_map.rs:588-602 | Pages are walked in order with one shared state |
| `HeaderReplay.ReplayIsSkipped` | crates/zinecv-engine/src/text_map.rs:368-383 | A header seen before leaves the whole state, so also the marker, as it was |
| `HeaderReplay.ReplaysAreErased` | crates/zinecv-engine/src/text_map.rs:340-414 | Walking a stream gives what walking it without every second and later header occurrence gives |
| `HeaderReplay.PairedSplits` | crates/zinecv-engine/src/text_map.rs:368-383 | Every stream with paired, non-nested headers is a sequence of headers and single events |
| `HeaderReplay.NestedIsErasedExactlyWhen` | crates/zinecv-engine/src/text_map.rs:368-383 | A header inside another is walked as if the headers seen before were deleted, if and only if the outer one is new, or both were seen and what is behind the inner one shows nothing and ends on the marker that stood before |
| `HeaderReplay.NestedLosesTheMarkerExactlyWhen` | crates/zinecv-engine/src/text_map.rs:368-383 | Inside a repeated outer header, with nothing behind the inner one, the marker survives if and only if the inner header is new or the marker was the decorative one |
| `HeaderReplay.NestedReplayLosesText` | crates/zinecv-engine/src/text_map.rs:368-383 | A stream from the start of a document in which a nested repetition loses a glyph run |
| `HeaderMarks.TagsByText` | crates/zinecv-engine/src/text_map.rs:365-402 | Every tag says exactly one thing by its text, and the walk takes it for that: a header, the decorative marker, a node, a node with an offset cut at the first separator, a bad offset, or nothing |
| `HeaderMarks.EachItemAdds` | crates/zinecv-engine/src/text_map.rs:340-414 | Each item of a frame adds its events in its place: a tag what it says, a run its glyphs, a group what its items add |
| `HeaderMarks.EachPageAdds` | crates/zinecv-engine/src/text_map.rs:588-602 | The events of a page follow those of the pages before, under its number from one |
| `HeaderMarks.GlyphGoes` | crates/zinecv-engine/src/text_map.rs:403-414 | In a stream that repeats no header each glyph with a text gives one cluster, in order, under the node whose marker was set last; there are no other clusters |
| `HeaderMarks.WalkGoesByMarkers` | crates/zinecv-engine/src/text_map.rs:340-414 | For every paired stream: the clusters are those of the stream without replays, glyph by glyph under the marker set last |
| `HeaderMarks.ProblemsByMarkers` | crates/zinecv-engine/src/text_map.rs:340-414 | And the walk complains exactly of the unmarked glyphs and bad offsets of that stream |
| `RichText.RichTextReader.CheckAttributes` | src/platform/legacyRichText.ts:42-48 | Exactly the attributes outside the allowed set are reported, in order |
| `RichText.RichTextReader.ParseInlines` | src/platform/legacyRichText.ts:62-107 | One node gives the specified inlines and appends the specified issues |
| `RichText.RichTextReader.ParseInlineChildren` | src/platform/legacyRichText.ts:54-60 | The children are read in order with their numbered paths |
| `RichText.RichTextReader.ParseList` | src/platform/legacyRichText.ts:109-135 | A list element gives the specified list and issues |
| `RichText.RichTextReader.ParseItems` | src/platform/legacyRichText.ts:121-133 | The item loop gives the specified items and issues |
| `RichText.RichTextReader.ParseBlocks` | src/platform/legacyRichText.ts:137-178 | The block loop with its pending paragraph gives the specified blocks and issues |
| `RichText.ParseLegacyRichHtml` | src/platform/legacyRichText.ts:27-194 | The whole reading, with length and whitespace cases, head and doctype issues, is the specified one |
| `RichTextNames.HtmlIsReadByName` | src/platform/legacyRichText.ts:27-194 | Told by element names alone: a text is read as the paragraphs, lists and items of its tree, and in them every text, break and link within the depth limit, in order, a text with exactly the marks that the names of the elements around it call for, in their fixed order |
| `RichTextNames.NodesAreRead` | src/platform/legacyRichText.ts:54-107 | The same for inline content under any marks |
| `RichTextNames.LinkByScheme` | src/platform/legacyRichText.ts:86-96 | A link is accepted exactly when it is trimmed, has no control characters and begins with a known scheme in any case; the scheme is written in lower case |
| `RichTextNames.LowerByLetter` | src/platform/legacyRichText.ts:87 | The 26 capitals become their letters and nothing else changes |
| `RichTextComplete.ReportedAttributes` | src/platform/legacyRichText.ts:42-48 | Each attribute that is not allowed is reported under its name, and nothing else is |
| `RichTextComplete.CompleteExactlyWhen` | src/platform/legacyRichText.ts:27-194 | A text is read completely if and only if it is not too long or blank, the head is empty, there is no doctype, and the body has only known elements in their places with the attributes they may have, within the depth limit, and no stray blanks |
| `RichTextComplete.AliasesAreReadAlike` | src/platform/legacyRichText.ts:20-23 | With strong, em and strike written as b, i and s a text is read as the same blocks, and completely if and only if it was before |
| `RichTextWriter.EscapedIsInert` | src/platform/legacyRichText.ts:197-200 | Escaped text has no angle bracket or quote |
| `RichTextWriter.BlocksTreeText` | src/platform/legacyRichText.ts:202-234 | The tree of a block list, written out, is exactly the HTML the writer gives |
| `RichTextRoundTrip.ReadsBack` | src/platform/legacyRichText.ts:27-234 | What fits is read back completely, as the list with empty texts dropped, marks sorted and touching unmarked texts merged |
| `RichTextRoundTrip.RoundTripIsExact` | src/platform/legacyRichText.ts:27-234 | For every list that can be written, with links not nested, writing and reading give the same list without issues if and only if it is short enough, within the depth limit, with trimmed links and in normal form |
| `RichTextRoundTrip.BlocksAreFixed` | src/platform/legacyRichText.ts:137-178 | Reading back changes nothing exactly in normal form |
| `RichTextSettles.TwoTripsSettle` | src/platform/legacyRichText.ts:27-234 | For every list whose first trip is complete: it can be written again, only its length may keep it from the second trip, and after a complete second trip HTML and blocks never change again |
| `RichTextSettles.FilledSettlesInOne` | src/platform/legacyRichText.ts:27-234 | Without empty texts and items one trip gives the normal form and the HTML stays as it is |
| `OneTrip.OneTripSettlesExactlyWhen` | src/platform/legacyRichText.ts:27-234 | For every list whose first trip is complete, what comes back is in normal form, and a complete second trip returns the same, if and only if nowhere, link texts included, two unmarked texts are separated only by empty texts of which one has a mark |
| `OneTrip.OneTripMayNotSettle` | src/platform/legacyRichText.ts:27-234 | Two actual trips of a paragraph: two letters apart come back touching, and from the second trip as one text |
| `RichTextRoundTrip.ReadTextTree` | src/platform/legacyRichText.ts:99-103 | A text under its mark elements is read with exactly these marks, within the depth limit |
| `Snapshot.SnapshotFromDocument` | src/platform/documentBridge.ts:168-208 | The section loop fills titles, entries, summary and visible order as specified, or fails with the first body that cannot be written |
| `Snapshot.InspectEntries` | src/platform/legacySnapshot.ts:104-122 | The entry loop converts every entry and collects duplicates and rich-text problems, or fails at a blank ID |
| `Snapshot.InspectLegacySnapshot` | src/platform/legacySnapshot.ts:84-125 | The conversion goes through the ordered keys and gives the specified sections and problems |
| `SnapshotMeaning.MissingSectionsAreEmpty` | src/platform/documentBridge.ts:168-208 | Title, texts less the avatar, age display and visible order are those of the document, and a section that it does not have is empty in the snapshot, under its built-in title |
| `SnapshotMeaning.InspectedExactlyWhen` | src/platform/legacySnapshot.ts:84-125 | Any snapshot is converted if and only if document ID, title and entry IDs are not blank; then it has the eleven sections by their keys, listed ones first, each with its title, visibility, entries and bodies |
| `SnapshotMeaning.NothingReportedExactlyWhen` | src/platform/legacySnapshot.ts:84-125 | Nothing is reported if and only if no section is listed twice, all entry IDs are different and all bodies are read completely |
| `SnapshotRoundTrip.TripReturnsTheDocument` | src/platform/documentBridge.ts:40-208 | For a document with all eleven sections the part of the trip modelled here, without presentation and layout, fails exactly for blank IDs or titles, else it returns title, texts less the avatar, and the reordered sections with their bodies as read back |
| `SnapshotRoundTrip.TripIsIdentityExactlyWhen` | src/platform/legacySnapshot.ts:84-125 | The sections come back the same, but for their IDs, exactly when visible ones come first, hidden ones are in key order, and every body reads back the same |
| `SnapshotRoundTrip.ReorderingIsIdentityExactlyWhenInOrder` | src/platform/legacySnapshot.ts:88-89 | Nothing moves exactly when the list is in that order |
| `SnapshotRoundTrip.ReorderingIsIdempotent` | src/platform/legacySnapshot.ts:88-89 | A second trip moves nothing |
| `SnapshotRoundTrip.NormalBodiesAreKept` | src/platform/legacyRichText.ts:27-234 | A body in normal form within the limits comes back the same |
| `SnapshotSettles.TwoTripsSettleTheDocument` | src/platform/documentBridge.ts:168-208 | A document whose bodies go through HTML twice comes back from every trip through the part of the snapshot modelled here, and the third trip returns exactly the document of the second |
| `SseFrames.SseDecoder.Push` | crates/zinecv-agent/src/gateway.rs:432-457 | The line loop gives the frames, errors and state of the specification |
| `SseFrames.SseDecoder.Finish` | crates/zinecv-agent/src/gateway.rs:459-464 | Finishing is two pushes after an uncounted line end |
| `SseFrames.DrainIsSteps` | crates/zinecv-agent/src/gateway.rs:438-455 | The line loop does what single byte steps do, and fails exactly at a frame that is not UTF-8 |
| `SseFrames.ChunkingDoesNotMatter` | crates/zinecv-agent/src/gateway.rs:432-457 | However a stream is cut, all pushes succeed exactly when it is within the limit and its frames are UTF-8; frames and state are those of the stream split at once into lines and events |
| `SseFrames.SameAsOnePush` | crates/zinecv-agent/src/gateway.rs:432-457 | Any cutting gives what one push gives, and fails exactly when it fails |
| `SseFrames.FinishClosesTheStream` | crates/zinecv-agent/src/gateway.rs:459-464 | Finishing adds at most one frame; it fails exactly when the stream already fills the whole limit or that frame is not UTF-8 |
| `StreamEnds.FullStreamCannotFinish` | crates/zinecv-agent/src/gateway.rs:459-464 | A stream that fills the limit is accepted however it is cut, and cannot be finished |
| `StreamEnds.FullStreamExists` | crates/zinecv-agent/src/gateway.rs:459-464 | There is such a stream |
| `StreamEnds.BrokenTailCannotFinish` | crates/zinecv-agent/src/gateway.rs:459-464 | An open data line that is not UTF-8 is accepted while the stream runs and fails at its end |
| `StreamEnds.BrokenTailExists` | crates/zinecv-agent/src/gateway.rs:459-464 | The byte 255 is such a line |
| `SseFrames.LinesAreTheStream` | crates/zinecv-agent/src/gateway.rs:438-443 | The lines and the open rest put together are the stream |
| `SseRoundTrip.FramesAreDelivered` | crates/zinecv-agent/src/gateway.rs:432-457 | Frames written as events, with line feeds or with both bytes, are delivered as they were however the stream is cut, if and only if they are UTF-8 and fit the limit |
| `SseRoundTrip.OtherLinesAreIgnored` | crates/zinecv-agent/src/gateway.rs:438-455 | A line that is no data line may stand between any lines and changes nothing |
| `Utf8.Utf8MeansEncoded` | crates/zinecv-agent/src/gateway.rs:448 | Bytes pass as UTF-8 if and only if they are the encoding of some sequence of scalar values |
| `ReplyStream.ReplyBuilder.TakePiece` | crates/zinecv-agent/src/gateway.rs:493-518 | One tool-call piece extends its call within the limits, or fails |
| `ReplyStream.ReplyBuilder.Accept` | crates/zinecv-agent/src/gateway.rs:467-532 | A frame changes text, model and calls as specified; on failure the text is unchanged |
| `ReplyStream.ContentIsTheDeltas` | crates/zinecv-agent/src/gateway.rs:526-531 | The accumulated text is the concatenation of the emitted deltas, within the limit |
| `ReplyStream.CallsAreTheirPieces` | crates/zinecv-agent/src/gateway.rs:491-519 | Each tool call is made of exactly its own pieces in order, within its limits |
| `ReplyRoundTrip.CutReplyIsWhole` | crates/zinecv-agent/src/gateway.rs:467-532 | However a reply is cut into frames it is accepted if and only if text, call IDs and arguments keep their limits; then it is the whole text, the parts of each call joined in order and the model named last, and the shown texts are its non-empty pieces |
| `ReplyRoundTrip.AcceptedExactlyWhen` | crates/zinecv-agent/src/gateway.rs:467-532 | Frames are accepted if and only if each is the mark of the end or an object without an error, with a first choice, its delta and well-formed pieces of tool calls, if any, and together they keep the limits |
| `ExportSessions.SessionTable.Register` | src-tauri/src/export_sessions.rs:216-298 | A registration checks artifacts and generation, makes room and enters a ticket as specified |
| `ExportSessions.SessionTable.FindVictim` | src-tauri/src/export_sessions.rs:234-247 | The ticket given up is the oldest evictable one, and there is none only if none is evictable |
| `ExportSessions.SessionTable.PrepareWrite` | src-tauri/src/export_sessions.rs:300-375 | Preparing checks ID, session, age, artifact, bytes, count and reuse, and marks the write in flight |
| `ExportSessions.SessionTable.AbandonWrite` | src-tauri/src/export_sessions.rs:377-387 | Giving up takes the write out of flight if it is still there |
| `ExportSessions.SessionTable.FinishWrite` | src-tauri/src/export_sessions.rs:389-457 | Finishing records the fixed receipt of the write, or reports why not |
| `ExportSessions.SessionTable.Invalidate` | src-tauri/src/export_sessions.rs:209-214 | A restore starts a new generation without tickets |
| `ExportSafety.EveryRunIsSafe` | src-tauri/src/export_sessions.rs:170-457 | Over every run: bounds on tickets, writes and artifacts; one prepared write out per export and write ID, out exactly while in flight; one fixed receipt per export and write ID; receipts stay in their generation |
| `ExportSafety.FinishFindsItsWrite` | src-tauri/src/export_sessions.rs:397-408 | A prepared write of the present generation always finds its write in flight |
| `ExportSafety.NoReceiptAcrossRestore` | src-tauri/src/export_sessions.rs:397-399 | After a restore an earlier prepared write sends no receipt and changes nothing |
| `ExportSafety.InFlightStays` | src-tauri/src/export_sessions.rs:227-257 | Only a restore removes a ticket with a write in flight |
| `ExportSafety.UnrecordedProofStays` | src-tauri/src/export_sessions.rs:227-257 | A written but unrecorded proof is never lost to capacity, only to a restore or to the end of its time: its write keeps the proof with its receipt, and only a finish of that write may get it recorded |
| `ExportSafety.EvictableIsRecorded` | src-tauri/src/export_sessions.rs:175-199 | A ticket that may be evicted has nothing in flight and nothing unrecorded |
| `ExportReceipts.ArtifactsByPayloads` | src-tauri/src/export_sessions.rs:115-168 | An export has artifacts if and only if all payloads decode, are not empty and have the expected digest, and there are 1 to 202: the PDF, the pages in order and the long image, each under its ID |
| `ExportReceipts.RegistersExactlyWhen` | src-tauri/src/export_sessions.rs:216-298 | An export is registered if and only if it has artifacts, no restore came between, a sequence number and a clock are there, and fewer than eight tickets are young or in flight, or one of these may go |
| `ExportReceipts.EvictableExactlyWhen` | src-tauri/src/export_sessions.rs:175-199 | A ticket may go if and only if nothing is in flight or unrecorded, and nothing was written, or the PDF, the long image, or all page images |
| `ExportReceipts.PaddedIsDecimal` | src-tauri/src/export_sessions.rs:417-425 | The time in the ID of a receipt is its decimal form with twenty digits |
| `ExportReceipts.PreparesExactlyWhen` | src-tauri/src/export_sessions.rs:300-375 | A write can be prepared if and only if the export is here and young, its first artifact of the ID has these bytes, and the write ID is free for it; then it alone is in flight |
| `ExportReceipts.SendsExactlyWhen` | src-tauri/src/export_sessions.rs:389-457 | A receipt is sent if and only if the write is still here, the disk has the bytes of the artifact, and there is a receipt already or a clock and a name to make one; it is that one, or tells of this write |
| `ExportReceipts.FinishLands` | src-tauri/src/export_sessions.rs:389-457 | Finishing changes this write alone: it is no longer in flight, and a receipt that was sent is kept, and recorded once the store has answered |
| `ExportReceipts.ReceiptsTellTheTruth` | src-tauri/src/export_sessions.rs:170-457 | Over every run each receipt names an artifact of the export registered under its ID, with what that export froze, and the bytes of that artifact were found on the disk |
| `Versions.VersionList.Parse` | src/platform/useNativeResumeVersions.ts:94-123 | The commit loop keeps, parses or leaves out documents as specified |
| `Versions.VersionList.BuildList` | src/platform/useNativeResumeVersions.ts:60-79 | The list loop reuses or converts snapshots as specified |
| `Versions.VersionList.Release` | src/platform/useNativeResumeVersions.ts:84-86 | All documents but that of the current head are cleared in place |
| `Versions.VersionList.Refresh` | src/platform/useNativeResumeVersions.ts:182-201 | A refresh publishes graph and list together, or leaves both as they were |
| `Versions.ReuseEqualsScratch` | src/platform/useNativeResumeVersions.ts:45-123 | From every sound pair a refresh gives what a refresh with no previous state gives, and fails exactly when that fails |
| `Versions.RefreshesForgetTheirHistory` | src/platform/useNativeResumeVersions.ts:182-201 | After any sequence of graphs and contexts the published pair is the latest readable graph read from scratch |
| `Versions.HeadDocumentIsKept` | src/platform/useNativeResumeVersions.ts:80-86 | The head keeps its parsed document whenever its text is not empty, and no other commit keeps one |
| `VersionMeaning.ScratchMeans` | src/platform/useNativeResumeVersions.ts:45-123 | Reading from scratch works if and only if every text is empty or can be read; it lists every commit with its own data and the snapshot of its text, the branches, the current branch, and keeps the document of its head |
| `VersionOverlap.OverlapIsRightExactlyWhen` | src/platform/useNativeResumeVersions.ts:182-196 | Over every interleaving of refreshes: what a refresh builds from its answer is what reading the answer from scratch gives, if and only if each snapshot used again was made from a text that reads like the text of the commit now |
| `VersionOverlap.SameTextsDecide` | src/platform/useNativeResumeVersions.ts:60-65 | That the graph captured earlier and the list in place stem from the same texts is enough, and if different texts give different snapshots nothing less is |
| `VersionOverlap.UndisturbedRefreshesAreRight` | src/platform/useNativeResumeVersions.ts:182-196 | However refreshes interleave, if none publishes between the start and the answer of another, everything published is the latest answer read from scratch |
| `VersionOverlap.OverlapMayLoseASnapshot` | src/platform/useNativeResumeVersions.ts:182-196 | A run of two overlapping refreshes after which the list has no snapshot for a commit whose text is there and can be read |
| `VersionLoss.ShownStays` | src/platform/useNativeResumeVersions.ts:60-65 | From every point of every run: what is listed for a commit, right or wrong, stays listed through all further refreshes, however they interleave, while none is disturbed and neither the text of the commit nor the context changes |
| `VersionLoss.LostStaysLost` | src/platform/useNativeResumeVersions.ts:60-65 | The snapshot lost in that run stays lost in every such continuation |
| `VersionLoss.ChangeHealsInRuns` | src/platform/useNativeResumeVersions.ts:60-65 | Over every interleaving an undisturbed answer that changes the text of the commit or the context lists what the text means |
| `Fit.BuildCandidates` | crates/zinecv-engine/src/fit.rs:49-72 | The nested loops give each grid layout once, in grid order |
| `Fit.SolveOnePage` | crates/zinecv-engine/src/fit.rs:145-206 | The bounded search gives the specified plan or error |
| `Fit.CandidatesAreSound` | crates/zinecv-engine/src/fit.rs:49-72 | Candidates of a readable layout are readable, distinct, change only lengths, and start with the layout itself |
| `Fit.SearchPassesHost` | crates/zinecv-engine/src/fit.rs:75-143 | A plan from the search passes the host check exactly when no tried layout has more than 200 pages |
| `Fit.HostPlanPassesClient` | src/preview/engineFit.ts:10-31 | Every plan the host accepts passes the plan checks of the web client |
| `Fit.FittedIsFirstOnePage` | crates/zinecv-engine/src/fit.rs:145-206 | The layout proposed is the first candidate with one page |
| `Fit.SearchIsComplete` | crates/zinecv-engine/src/fit.rs:145-206 | A search that is not stopped finds a layout exactly when some candidate has one page |
| `FitGrid.ProposalIsFirstOfGrid` | crates/zinecv-engine/src/fit.rs:49-72 | In figures: the layout proposed is the first with one page when fonts are tried from the original size down to 9 points in thirds, and for each font the spacings 1.0, 0.9, 0.8, 0.7 |
| `FitVerdict.AcceptedCouldComeExactlyWhen` | crates/zinecv-engine/src/fit.rs:74-143 | Of the plans the host accepts, some search gives exactly those with no one-page layout before the last one tried, and it accepts every plan of a search within 200 pages |
| `FitVerdict.OtherwiseItWasStopped` | crates/zinecv-engine/src/fit.rs:135-139 | Any other plan it accepts was stopped, behind a layout with one page |
| `FitVerdict.StoppedBehindOnePagePasses` | crates/zinecv-engine/src/fit.rs:135-139 | There is such a plan |
| `Fit.FittingAgainChangesNothing` | crates/zinecv-engine/src/fit.rs:145-206 | Searching again from the layout found says at once that it already fits |
| `PageCache.EnginePageCache.Acquire` | src/preview/enginePreview.ts:77-97 | Acquiring refuses conflicting contents, else counts the use, gives a lease and prunes |
| `PageCache.EnginePageCache.Release` | src/preview/enginePreview.ts:90-96 | The first release of a lease gives back its use and prunes; later ones do nothing |
| `PageCache.EnginePageCache.Dispose` | src/preview/enginePreview.ts:111-114 | Disposal revokes every URL and empties the cache |
| `PageCache.Evict` | src/preview/enginePreview.ts:99-109 | Pages go in order of last use until both budgets hold or the unleased pages are used up |
| `PageCache.EveryRunIsConsistent` | src/preview/enginePreview.ts:72-115 | Over every run user counts equal unreleased leases, leased pages are cached, and every URL is cached once or revoked |
| `PageCache.LeasedUrlIsAlive` | src/preview/enginePreview.ts:77-114 | The URL of an unreleased lease is revoked exactly by disposal |
| `PageCache.BudgetsHoldOrAllAreLeased` | src/preview/enginePreview.ts:99-109 | After pruning both budgets hold or only leased pages remain |
| `PageCache.LeastRecentlyUsedGoFirst` | src/preview/enginePreview.ts:99-109 | Only unleased pages go, each used no later than every unleased page that stays |
| `PageCache.NothingGoesWithoutNeed` | src/preview/enginePreview.ts:104 | Pruning stops as soon as both budgets hold |
| `SingleFlight.EnginePreviewClient.Ask` | src/preview/enginePreview.ts:128-135 | A request replaces the pending one, takes a new epoch and starts if nothing is active |
| `SingleFlight.EnginePreviewClient.Invalidate` | src/preview/enginePreview.ts:123-127 | Invalidation takes a new epoch and answers the pending request with nothing |
| `SingleFlight.EnginePreviewClient.OnAnswer` | src/preview/enginePreview.ts:141-146 | An answer that is still wanted is checked, any other settles with nothing |
| `SingleFlight.EnginePreviewClient.OnChecked` | src/preview/enginePreview.ts:146-147 | After the check the result goes to the request only if it is still the newest |
| `SingleFlight.EnginePreviewClient.OnError` | src/preview/enginePreview.ts:148-151 | An error reaches the request only if it is still the newest |
| `SingleFlight.EveryRunIsSingleFlight` | src/preview/enginePreview.ts:118-156 | Over every interleaving at most one call is out, every promise is pending, called or settled once, and an idle client has nothing pending |
| `SingleFlight.QuietMeansSettled` | src/preview/enginePreview.ts:118-156 | When no call is out every promise has been settled, once |
| `SingleFlight.OnlyTheNewestGetsAResult` | src/preview/enginePreview.ts:141-147 | A result is delivered only to the newest request that was not invalidated |
| `FitClient.EngineFitClient.OnAnswer` | src/preview/engineFit.ts:77-94 | A fit answer that is still wanted is checked at once against the cursor it was asked for, and becomes a proposal of the present epoch whatever its status |
| `FitClient.EngineFitClient.Apply` | src/preview/engineFit.ts:62-74 | Applying does nothing unless the result is a proposal of the present epoch and cursor, throws if it fails the check, does nothing unless it is a fit, and else uses it up and sends its layout as a command that expects its cursor |
| `FitClient.EveryProposalIsUsedOnce` | src/preview/engineFit.ts:35-97 | Over every run no result is dispatched twice, only checked fits are dispatched, and the rules of the flight hold |
| `FitClient.AppliesExactlyWhen` | src/preview/engineFit.ts:62-74 | In every reachable state applying a proposal never throws, and sends it if and only if it is of the present epoch, for the present cursor, and a fit |
| `FitClient.CancelledProposalsAreDead` | src/preview/engineFit.ts:47-74 | In every run, once a request is cancelled or replaced by a newer one, no proposal accepted before is dispatched any more, whatever happens afterwards |
| `FitClient.ProposalIsAliveExactlyWhen` | src/preview/engineFit.ts:62-88 | In every reachable state an accepted proposal can still be dispatched in some course of events if and only if it is of the present epoch and its status is fitted; other statuses are accepted and never dispatched |
| `RenderScheduler.Scheduler.Submit` | src-tauri/src/render_scheduler.rs:78-123 | A submission starts, replaces the waiting preview, joins its queue or is refused as specified |
| `RenderScheduler.Scheduler.Complete` | src-tauri/src/render_scheduler.rs:125-137 | Completing the active ticket starts the next in line; a stale completion changes nothing |
| `RenderScheduler.EverySubmissionIsSomewhere` | src-tauri/src/render_scheduler.rs:61-149 | Over every run each submitted ID is in exactly one of active, queued, replaced, refused, finished and dropped, and no ID starts twice |
| `LaneOrder.CompletionPicksTheOldest` | src-tauri/src/render_scheduler.rs:125-137 | In every run a completion starts the oldest of the first lane that has anything: exports, fits, preview; and none exactly when nothing waits |
| `LaneOrder.LanesAreFifoExactlyWhen` | src-tauri/src/render_scheduler.rs:61-149 | Over every run the export and the fit lane start their submissions in the order they came if and only if none came to the lane while nothing was active and somebody waited in it |
| `LaneOrder.PreviewsStartInOrderExactlyWhen` | src-tauri/src/render_scheduler.rs:78-137 | Over every run previews start in the order they came if and only if no completion starts one that was overtaken |
| `LaneOrder.GenerationChangeLetsOneOvertake` | src-tauri/src/render_scheduler.rs:69-72 | A run from the start in which a worker change lets the third export start before the second |
| `RenderSupervisor.WorkerSupervisor.EnsureWorker` | src-tauri/src/render_worker.rs:524-543 | A live worker is kept, else one of the next generation is started and the scheduler follows |
| `RenderSupervisor.WorkerSupervisor.RenderOutput` | src-tauri/src/render_worker.rs:547-606 | A call renders once and, after a crash, once more with the same key |
| `RenderSupervisor.Exchange` | src-tauri/src/render_worker.rs:368-502 | Whatever the worker sends, the exchange gives the specified outcome, each role is served at most once, and it ends with the verdict on the first message that is not a servable request |
| `RenderSupervisor.EverySubmissionStarts` | src-tauri/src/render_worker.rs:547-627 | From rest, whatever the workers send, every submission starts at once; there are at most two, with the same key, the second exactly when the first exchange lost the worker and another could be started |
| `RenderSupervisor.EveryCallStartsFromRest` | src-tauri/src/render_worker.rs:516-635 | Over every sequence of calls, whatever the workers send, the supervisor comes back to rest |
| `RenderSupervisor.CrashMeansLost` | src-tauri/src/render_worker.rs:348-502 | Over every message stream an exchange allows a retry if and only if the connection was lost before it ended; the worker is then out of use |
| `WorkerExchange.ExchangeEndsExactlyWhen` | src-tauri/src/render_worker.rs:348-502 | An exchange succeeds if and only if, behind proper requests for different roles that were all answered, the valid result of just this rendering comes; it is refused, or allows a retry, exactly when the worker says so there, or is lost there; anything else breaks the worker |
| `WorkerExchange.RendersExactlyWhen` | src-tauri/src/render_worker.rs:547-606 | From rest a call succeeds if and only if inputs and manifest are in order, a live worker is there or a new one starts, and its first exchange brings the result of just this rendering, or loses the worker, another starts, and the second exchange brings it |
| `Agent.ValidateMessages` | crates/zinecv-agent/src/gateway.rs:393-422 | The check with its running byte count passes exactly the requests within count, role, call, ID and byte rules |
| `Agent.GatewayCountsNoMore` | crates/zinecv-agent/src/gateway.rs:397-419 | The bytes the gateway counts are at most the JSON size the loop limits |
| `AgentJson.CountsPrintedBytes` | crates/zinecv-agent/src/agent.rs:595 | The size that the loop counts is the number of bytes of the conversation printed as JSON |
| `AgentJson.GatewayCountsPrintedCalls` | crates/zinecv-agent/src/gateway.rs:397-419 | The gateway counts the bytes of each text, and of its calls printed as JSON |
| `AgentScript.BuiltExactlyWhen` | crates/zinecv-agent/src/agent.rs:72-101 | A conversation is built if and only if the last stored message is of the user and policy and text are given: the policy, the last 22 of what user and assistant said before, in order, and the text |
| `Agent.BuiltIsFirstRequest` | crates/zinecv-agent/src/agent.rs:72-101 | A built conversation has at most 24 plain messages and no calls |
| `Agent.AgentRun.RunTurns` | crates/zinecv-agent/src/agent.rs:567-733 | The loop of six turns gives the specified requests and result or error |
| `Agent.AgentRun.TakeReply` | crates/zinecv-agent/src/agent.rs:615-731 | One reply ends the run, fails it, or runs its tools in order |
| `AgentScript.SucceedsExactlyWhen` | crates/zinecv-agent/src/agent.rs:567-733 | A run succeeds with a result if and only if there are replies, each to the conversation made of the first messages and all replies and tool answers before, of which all but the last had calls that ran without a suggestion, and the last had no calls, or calls that ran and made one; the result is what was said, the suggestions and the counts |
| `Agent.EveryRequestPasses` | crates/zinecv-agent/src/agent.rs:588-733 | From a built conversation every request passes the check of the gateway, whatever model and tools do |
| `Agent.EveryRequestIsTold` | crates/zinecv-agent/src/agent.rs:646-712 | In every request all call IDs are distinct, each call is answered right after its message and in order, and the tool messages of the conversation answer exactly its calls, each once |
| `Agent.SuccessIsBounded` | crates/zinecv-agent/src/agent.rs:588-733 | A successful run used at most 6 model calls and 12 tool calls and made at most 4 suggestions |

## Left out

- SQLite storage, backup, restore, legacy migration, import review and the updater: what decides them is not in the modelled files; the store is a document host and a receipt map.
- Typst compilation, fonts, glyph shaping, PDF and PNG encoding and bidi levels: page counts, glyph texts, boxes and levels are inputs.
- HTML parsing, JSON text, HTTP and digests: the DOM, parsed values and digests are inputs; `BlocksTreeText` ties the DOM of written HTML to its text.
- Nested links in the rich-text round trip: an HTML parser does not nest anchors, so the tree of such a text is another one.
- The order of text runs within transforms, and the leaves of name and contact lines: sections are walked here.
- Links of the text map and the bidi resolution: easy members that add nothing to the offsets.
- 32-bit and 64-bit overflow of revisions, offsets, counters and IDs: unbounded numbers, except the sequence number of export sessions.
- Rounding of 32-bit lengths, `normalizePresentation` and density spacing: presentation is opaque in synchronisation, real in the fit search, and absent from snapshots.
- The list of changed IDs in command results and the wording of errors.
- Import requests, switching context or document, creating documents and `load`: they repeat the submit and reload pattern.
- NativeDocumentClient.NativeDocumentClient.OnReceipt: leaves out the shape of the metadata fields of a state (recent exports, number of pending imports), which nothing here reads, and host epochs that are not safe integers.
- NativeDocumentClient.NativeDocumentClient.OnReconcile: leaves out the same two checks.
- NativeDocumentClient.NativeDocumentClient.OnReload: leaves out the same two checks.
- Persistence.RunPersist: drives the host directly on a quiet channel and leaves out the avatar upload, the target checks and the retry before the loop; lost answers and that retry are the subject of `SaveRuns` and `SaveEnds`.
- SaveRuns.EverySaveIsSound: the limit of 64 commands for one save is not counted there; by its bound it is not reached when the step bound is at most 64.
- ExactlyOnce.AppliedInQueueOrder: the turns of those that wait for an operation come right after it; calls made between its end and their turns are not modelled.
- RichTextRoundTrip.RoundTripIsExact: speaks of the tree of the written text; an HTML parser also turns carriage returns into line feeds and drops or replaces the character NUL, so in a browser texts that hold these come back changed.
- RichTextSettles.TwoTripsSettle: speaks of the tree of the written text in the same way.
- SnapshotRoundTrip.TripReturnsTheDocument: leaves out that the conversion also refuses a blank font, a theme that is not six hex digits, unknown layout choices and overrides that cannot be kept.
- SnapshotSettles.TwoTripsSettleTheDocument: leaves out the same refusals.
- The avatar, presentation, layout and imported template in snapshots: their conversion depends on rounding and on resources.
- The transport, cancellation inside a reply, and the bodies of the agent's tools: a tool is any function from a call to a text and at most one suggestion.
- `finish_reply`, endpoint vetting, model discovery and account storage: thin or storage-bound.
- The final page check of a rendering and file writing: its outcome, or that of the disk, is an input.
