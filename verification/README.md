# Verification of the collaboration and conversion core

Dafny models of the parts of this repository where a mistake would lose or invent content, with proofs about all their
inputs and runs.

- `ResidentPersistence`, `BlockBaseline`, `BlockPlans`, `BlockDocument`, `CanonicalJson`: saving a resident room. The room is
  diffed against the last acknowledged blocks, the batch is sent with the revisions it expects, and retried unchanged until
  it is acknowledged, while edits go on. The store is a map of blocks with a revision; it may apply a batch, refuse it, or
  apply it and lose the reply. Mutations have a meaning of their own (`Apply`), against which the diff is proved.
- `RoomEpoch`, `BlockRoomAdmission`: room epoch tokens, a cache with expiry and least-recently-used eviction, proved equal to
  a history that forgets nothing; and the admission of connections built on it.
- `TableGeometry`: the two interval sweeps over table cells, proved against the slot-by-slot grid of section 4.9.12.1
  (Forming a table) of the HTML standard.
- `EditSession`, `PendingActor`: edit sessions with their contributors, timers, retries and shutdown drain, proved against
  the log of accepted edits; and the pending mutation actor of each document.
- `ShutdownDrain`, `DrainBalance`: the drain of admissions and connections at shutdown, and the admissions of one socket; and
  the account of tracked and open connections, which says exactly when the drain resolves early and when it never does.
- `PersistenceQueue`: the per-key queue of persistence operations.
- `InlineContent`: inline rich text, read from ProseMirror nodes and written back.
- `DurableMedia`, `DurableMediaPlaces`: the media sanitizer against the media scanner, and both against the forbidden places of a
  document. `MediaCodec` shows that what it assumes of JSON holds of the text
  JSON.stringify writes.
- `MetadataMerge`: the three-way merge of document metadata.
- `Wrappers`: `Option` and `Result`.

Each stateful part has a specification on values (a state, its events, `Step` and `Run`) about which the run theorems are
proved, and a class or methods in the form of the source, proved equal to that specification.

## Hypotheses

They are preconditions of the lemmas, or of the events (`Can`), and not axioms.

- Saving: a change set names every block whose base or locale data changed since the last drain; the decode is faithful;
  decode and planning do not throw; revisions are fresh; an external mutation is accepted only when no batch is pending.
  That nothing throws and that no batch is pending is needed: see `ThrowingDrainForgetsChanges` and
  `ExternalNeedsNoPendingBatch`, with runs that fail in `RefusedInsertIsForgotten` and `FailedSaveAcceptsExternal`. They are runs of the
  room and its store alone: before an insertion into a target room is recorded the server refuses it
  (lib/collaboration/block-room-protocol.ts:99-128 and 180-208). Block data
  is compared as values, which is what the canonical text decides when keys are compared by a total order.
- Tokens and epochs are fresh ids and never empty; the clock does not go back.
- Edit sessions: the resident document is not swapped while its session lives (unloading is vetoed). Once shutdown began no
  connection reaches a session: lib/collaboration/server.ts:418-422 begins it for sessions and connections in one stretch, and
  from then on a connected hook returns first (lib/collaboration/connection-handler-helpers.ts:113-133).
- Locale mutations are sorted when ids are compared by a total order (`LocalesInOrder` alone).
- Pending actors: edits of a document come only through its inbound lane (`LanesNeverFail` alone).
- Shutdown: a connection presents only an admission that was granted, and the check runs only when scheduled. Nothing is
  assumed of which connections close, or when.
- Media: decoding gives JSON no larger than its text, with the fields of a record distinct and in the order objects list them
  (section 10.1.11.1 of ECMA-262), and decoding an encoded value gives what was written (`Lawful`, which `LawfulIsPossible`
  shows to hold of the text JSON.stringify writes). A number is its JSON text, so zero has one sign. What text refers to
  managed media is a parameter.

## Where the code differs from what one might expect

- The rich-text table check refuses a row without cells that cells above it fill, which the email check accepts
  (`RowWithoutCells`). Otherwise they accept the same tables of safe width (`CompareChecks`).
- The pending change set is cleared before decoding and planning, so a decode that throws forgets it.
- Accepting an external mutation drops a pending batch: readiness looks at the change set and the origins only.
- While a conflict handler runs, the session is neither finalizing nor timed, and an edit accepted then goes with the session.
  The handler fences the documents first (lib/collaboration/server.ts:72-83 and 287-293), so block rooms refuse edits by then,
  and it is stateless changes that can still be recorded.
- An edit resets the retries of a session, so the bound on drain passes holds from the last edit on (`EditOutlastsDrain`).
- A refused connection that closes beside an open one of the same document and socket makes the drain forget the open one, and
  the drain can resolve while it is open (`RefusedCloseResolvesEarly`).
- A colour mark with an empty attribute record is read; when it is the last of its colour on a text that starts a run, and
  only then, what was read cannot be written again (`WrittenExactlyWhenValued`, `EmptyColourCannotBeWritten`).
- Two keys that `localeCompare` calls equal make the canonical text depend on their order.
- The drain forgets the oldest connection under a key, whichever closed; when connections that share a document and a socket
  do not close in turn and the one forgotten is then tracked again, the drain never resolves (`DrainsExactlyWhenPaid`).
- `adapterData` is not compared by the diff; a block that differs in it alone is not saved.
- A merged list of ids keeps the current order: a reordering by the author is not applied.

## Model

| member | source | states |
|---|---|---|
| `ResidentPersistence.RunIsSafe` | lib/collaboration/resident-block-persistence.ts:231-276 | In every run of edits, refused saves, applied saves with or without a reply, retries, metadata saves and external mutations: when the baseline revision is the store revision their blocks are equal, and what the last successful persist returned is a revision at which the store holds the room as the drain of that persist found it, edits accepted during a retry included |
| `ResidentPersistence.StepIsSafe` | lib/collaboration/resident-block-persistence.ts:231-276 | Each single event of the room, the store or their environment keeps the safety invariant of the save protocol |
| `ResidentPersistence.RegisteredIsSafe` | lib/collaboration/resident-block-persistence.ts:112-139 | A room registered from a snapshot the store holds at the loaded revision starts out safe |
| `ResidentPersistence.DrainIsSafe` | lib/collaboration/resident-block-persistence.ts:245-275 | Taking the change set, decoding and planning captures the room: what is returned at once, or what the acknowledgement of the batch will establish, is the room as it stands |
| `ResidentPersistence.StoreAppliesIsSafe` | lib/collaboration/resident-block-persistence.ts:238-241 | When the store applies the pending batch at the revision it expects, the new version is exactly what acknowledging that batch makes the baseline, whether or not the reply arrives |
| `ResidentPersistence.ReplyIsSafe` | lib/collaboration/resident-block-persistence.ts:238-276 | A reply acknowledges the batch that was sent; after a retry the change set accepted meanwhile is drained in the same call, so that what returns, then or after the save it makes, is the room as it stands |
| `ResidentPersistence.StepReports` | lib/collaboration/resident-block-persistence.ts:238-275 | A persist returns the room of its own drain and revision, and with no change set waiting unless it was already saving; a save starts with the room as it stands and an empty change set; nothing else returns |
| `ResidentPersistence.RunReports` | lib/collaboration/resident-block-persistence.ts:231-276 | In every run what a persist newly returned was drained at some point of the run, from the room as it stood there |
| `ResidentPersistence.RunStaysInStep` | lib/collaboration/resident-block-persistence.ts:231-379 | As long as no one else writes and no reply is lost, in every run of saves, metadata saves and external mutations the store at rest is at the revision of the room and holds its acknowledged blocks |
| `ResidentPersistence.SaveGoesThrough` | lib/collaboration/resident-block-persistence.ts:238-276 | A save that the store applies and answers returns the acknowledged revision with the drained room, which the store then holds; nothing is pending, and the edits made meanwhile still wait to be saved |
| `ResidentPersistence.EventsTakeEffect` | lib/collaboration/resident-block-persistence.ts:167-379 | An edit waits to be saved, another writer moves the store alone, and a metadata save or an accepted external mutation moves store and room to one new revision |
| `ResidentPersistence.ThrowingDrainReturnsNothing` | lib/collaboration/resident-block-persistence.ts:252-266 | A drain that throws returns nothing and leaves the baseline alone, while the change set is gone |
| `ResidentPersistence.AgreeAfterEdit` | lib/collaboration/resident-block-persistence.ts:167-181 | Merged change sets name everything that differs between the room and its baseline, whatever the order of edits |
| `ResidentPersistence.DecodedCaptures` | lib/collaboration/resident-block-persistence.ts:263-266 | Changes decoded for the named blocks make the acknowledged baseline equal to the room, with every locale change covered by the plan |
| `ResidentPersistence.FullDecodeCaptures` | lib/collaboration/resident-block-persistence.ts:257-262 | A full decode makes the acknowledged baseline equal to the room |
| `ResidentPersistence.ExternalNeedsNoPendingBatch` | lib/collaboration/resident-block-persistence.ts:183-229 | Accepting an external mutation, whatever blocks it writes, keeps the baseline equal to the store if and only if it writes every block a pending batch would have changed; so with none of them written, exactly when no batch is pending, which the readiness test does not look at |
| `ResidentPersistence.FailedSaveAcceptsExternal` | lib/collaboration/resident-block-persistence.ts:183-229 | After an insertion, a drain and a failed call, from an empty registered room, a batch is pending and the readiness test passes: that state is reached |
| `ResidentPersistence.ThrowingDrainForgetsChanges` | lib/collaboration/resident-block-persistence.ts:255-266 | Because the change set is cleared before decoding and planning, a drain that throws stays safe exactly when there was nothing to save |
| `ResidentPersistence.RefusedInsertIsForgotten` | lib/collaboration/resident-block-persistence.ts:252-266 | When an inserted block fails the identity test, or the room is a target room, the drain throws, and the room is not safe afterwards: the failing run exists for the class |
| `ResidentPersistence.ResidentRoom.RecordChange` | lib/collaboration/resident-block-persistence.ts:167-181 | Adds a change set to the pending one, its value targets after those already there, and counts the observed origin, leaving the baseline alone |
| `ResidentPersistence.ResidentRoom.AcknowledgeSave` | lib/collaboration/resident-block-persistence.ts:95-106 | Acknowledges the pending batch; a target room whose acknowledgement has no target revision loses its locale and fails |
| `ResidentPersistence.ResidentRoom.DrainAffected` | lib/collaboration/resident-block-persistence.ts:252-266 | Without exactly one contributor it fails and changes nothing; otherwise the change set is gone and the batch is the planned one, or the planning error |
| `ResidentPersistence.ResidentRoom.DrainFull` | lib/collaboration/resident-block-persistence.ts:252-262 | A full save: applying the batch to the acknowledged blocks gives the snapshot, and so does its acknowledgement; it fails exactly without a single contributor, for a malformed snapshot or another locale, and in a target room without target revision or when the base of some block differs, with that error |
| `ResidentPersistence.ResidentRoom.AcceptExternalMutation` | lib/collaboration/resident-block-persistence.ts:183-229 | Succeeds exactly when no change is waiting, both revisions match and the snapshot is well formed; the baseline is then the snapshot at the accepted revision |
| `ResidentPersistence.ResidentRoom.AcknowledgeMetadataRevision` | lib/collaboration/resident-block-persistence.ts:350-379 | A metadata save moves the revisions and no block, never with a batch pending, and never the document revision of a target room; a target room whose new target revision is missing loses its locale, and no other does |
| `BlockBaseline.PendingBatchIsPatch` | lib/collaboration/block-mutation-batch.ts:268-321 | Applying the pending batch to the stored blocks gives exactly the blocks that acknowledging it builds, if and only if the change set names every kept block whose locale data changed |
| `BlockBaseline.EmptyPlanIsUnchanged` | lib/collaboration/block-mutation-batch.ts:318-320 | The planned batch is empty, and so not kept as pending, exactly when acknowledging the changes would change nothing |
| `BlockBaseline.PendingExpectsBaseline` | lib/collaboration/block-mutation-batch.ts:296-300 | The revisions a pending batch expects are always those of the baseline |
| `BlockBaseline.RunKeeps` | lib/collaboration/block-mutation-batch.ts:243-370 | In every run of calls the baseline stays consistent, a source room never gains a target revision, a target room changes its document revision only by an advance and never has a base mutation pending, and a pending batch stays unchanged until it is acknowledged; it carries the contributors and value targets of a call that was made, with the fingerprint and locale of the header |
| `BlockBaseline.StepKeeps` | lib/collaboration/block-mutation-batch.ts:243-370 | The same for each single call, including the ones that fail and leave everything as it was |
| `BlockBaseline.CallsTakeEffect` | lib/collaboration/block-mutation-batch.ts:243-370 | What each call does when it does not fail: what is prepared becomes pending exactly when acknowledging it would change what is stored, an acknowledgement makes the stored blocks the baseline, an advance moves its revision alone |
| `BlockBaseline.FullPlanIsSnapshot` | lib/collaboration/block-mutation-batch.ts:323-351 | Planned from the ids of both sides, the batch turns the stored blocks into exactly the given snapshot, and so does its acknowledgement |
| `BlockBaseline.BlockMutationBaseline.FromSnapshot` | lib/collaboration/block-mutation-batch.ts:219-229 | Succeeds exactly on well-formed snapshots and holds their blocks at the given revisions with nothing pending |
| `BlockBaseline.BlockMutationBaseline.PrepareAffected` | lib/collaboration/block-mutation-batch.ts:268-321 | Returns a pending batch unchanged; otherwise plans one from the changes that carries the contributors of the call, the value targets of the changes, the revisions of the baseline and the fingerprint and locale of the header; it fails, changing nothing, exactly for another locale, an invalid block, a target room without target revision or with base mutations, with the error of the first of these |
| `BlockBaseline.BlockMutationBaseline.FullChanges` | lib/collaboration/block-mutation-batch.ts:323-349 | The changes of a full save name every block of either side, for well-formed snapshots only |
| `BlockBaseline.BlockMutationBaseline.PrepareFull` | lib/collaboration/block-mutation-batch.ts:323-351 | The batch applied to the baseline is the snapshot and carries the contributors and value targets of the call; what stays pending acknowledges to the snapshot; without a pending batch a well-formed snapshot fails exactly as its locale, the target revision and the bases of the blocks decide, in whatever order the ids are listed |
| `BlockBaseline.BlockMutationBaseline.Acknowledge` | lib/collaboration/block-mutation-batch.ts:353-370 | Checks the authority of the acknowledgement and folds the pending changes into the baseline, or fails and changes nothing |
| `BlockBaseline.BlockMutationBaseline.AcknowledgeBase` | lib/collaboration/block-mutation-batch.ts:114-126 | Affected blocks become what the changes say, or go; the rest stays |
| `BlockBaseline.BlockMutationBaseline.AcknowledgeLocale` | lib/collaboration/block-mutation-batch.ts:128-146 | Only locale data of affected blocks that exist on both sides and were not replaced as a whole changes |
| `BlockBaseline.BlockMutationBaseline.AdvanceDocumentRevision` | lib/collaboration/block-mutation-batch.ts:243-254 | Moves the document revision when nothing is pending, the expectation holds and the new one is given; fails otherwise |
| `BlockBaseline.BlockMutationBaseline.AdvanceTargetRevision` | lib/collaboration/block-mutation-batch.ts:256-264 | Moves the target revision when nothing is pending, and never gives a source room one |
| `BlockPlans.PlanIsPatch` | lib/collaboration/block-mutation-plans.ts:124-234 | Applying the planned mutations to the stored blocks gives what acknowledging the changes gives exactly when every block whose locale data alone differs is named as a locale change too |
| `BlockPlans.FullPlanReplaces` | lib/collaboration/block-mutation-plans.ts:159-234 | A plan over all ids turns the previous blocks into the current ones |
| `BlockPlans.PlanBasePlacementMutations` | lib/collaboration/block-mutation-plans.ts:159-181 | The loop and the stable sort give moves, then upserts, then deletes, each block planned by itself, and the set of blocks whose kind changed |
| `BlockPlans.PlanLocaleMutations` | lib/collaboration/block-mutation-plans.ts:211-234 | The two loops and the sort give the locale mutations of blocks whose kind changed and of the other changed blocks |
| `BlockPlans.PlannedBaseMembers` | lib/collaboration/block-mutation-plans.ts:159-181 | A base mutation is planned for an affected block exactly when it was added, removed, moved or changed, and it is the one for that block |
| `BlockPlans.PlannedLocaleMembers` | lib/collaboration/block-mutation-plans.ts:183-234 | The same for locale mutations, from both affected lists |
| `BlockPlans.BaseMutationMeansChange` | lib/collaboration/block-mutation-plans.ts:124-157 | A block has a base mutation exactly when its base data, kind, place or presence changed |
| `BlockPlans.LocaleMutationMeansChange` | lib/collaboration/block-mutation-plans.ts:183-209 | A named block of unchanged kind has a locale mutation exactly when its locale data changed |
| `BlockPlans.LocaleMutationOfNewKind` | lib/collaboration/block-mutation-plans.ts:183-198 | A new block, or one of another kind, has a locale mutation exactly when it has or had locale data |
| `BlockPlans.AtMostOneBaseMutation` | lib/collaboration/block-mutation-plans.ts:159-181 | No two base mutations of a plan are for one block |
| `BlockPlans.AtMostOneLocaleMutation` | lib/collaboration/block-mutation-plans.ts:211-234 | No two locale mutations of a plan are for one block |
| `BlockPlans.MutationsCarryTheirBlock` | lib/collaboration/block-mutation-plans.ts:124-234 | Every mutation says the kind of its block and brings its adapter data: of the block as it is, or as it was if it is gone |
| `BlockPlans.OperationsInOrder` | lib/collaboration/block-mutation-plans.ts:113-181 | A plan moves, then upserts, then deletes, each in the order of the affected ids |
| `BlockPlans.LocalesInOrder` | lib/collaboration/block-mutation-plans.ts:211-234 | The locale mutations come in the order of their ids, and sorting neither drops nor repeats one |
| `BlockPlans.FirstOccurrences` | lib/collaboration/block-mutation-plans.ts:211-234 | Without duplicates the affected ids keep the order in which each first occurs, none left out |
| `BlockPlans.DeletesComeLast` | lib/collaboration/block-mutation-plans.ts:113-117 | Once deletes begin, only deletes follow |
| `BlockPlans.KeptBlocksStayPlaced` | lib/collaboration/block-mutation-plans.ts:113-181 | For any change set, partial or full: from the moment only deletes are left, whatever part of them is done, every block of the acknowledged document is in the store in its final place with its kind and base data, and so is its parent when that document is a forest |
| `BlockBaseline.PendingBatchKeepsBlocksPlaced` | lib/collaboration/block-mutation-batch.ts:268-321 | The same of a pending batch, whichever change set it was planned from, and the document its acknowledgement will establish |
| `BlockPlans.FullPlanKeepsBlocksPlaced` | lib/collaboration/block-mutation-plans.ts:113-181 | For a full save that document is the snapshot |
| `BlockPlans.EmptyPlanMeansUnchanged` | lib/collaboration/block-mutation-plans.ts:124-234 | A plan is empty exactly when the acknowledged changes equal what was stored |
| `BlockDocument.InitialBlocks` | lib/collaboration/block-mutation-batch.ts:164-195 | Accepts exactly the block lists with a complete header, valid blocks, unique ids, unique (parent, slot, position) places, and parents that form a forest; the result holds each block under its id |
| `BlockDocument.IndexBlocks` | lib/collaboration/block-mutation-batch.ts:172-183 | The loop accepts exactly the lists of valid blocks with distinct ids and places |
| `BlockDocument.UuidsAreGroups` | lib/collaboration/block-mutation-batch.ts:7-8 | The block ids that are accepted are exactly the texts of five groups of hexadecimal digits of either case with version 1 to 8 and variant 8 to b, each in one way |
| `BlockDocument.IdentityExactly` | lib/collaboration/block-mutation-batch.ts:148-162 | A block is accepted by itself exactly when its ids are UUIDs and slot, kind and a safe position are given; the first lack is reported |
| `BlockDocument.HeaderExactly` | lib/collaboration/block-mutation-batch.ts:164-171 | A header is complete exactly when the fingerprint is not empty and no locale is only white space; the first lack is reported |
| `BlockDocument.WalksAreRanks` | lib/collaboration/block-mutation-batch.ts:184-193 | The parent walks of all blocks end without error exactly when there is a rank that decreases from block to parent, all parents being present |
| `BlockDocument.PositionKeyIsInjective` | lib/collaboration/block-mutation-batch.ts:178-181 | Two valid blocks have equal NUL-joined position keys exactly when parent, slot and position are equal, even for slots that contain NUL |
| `BlockDocument.SplitAtNuls` | lib/collaboration/block-mutation-batch.ts:178 | A text without NUL, then NUL, any slot, NUL and a text without NUL is split only one way |
| `BlockDocument.DecimalReadsBack` | lib/collaboration/block-mutation-batch.ts:178 | The decimal text of a position determines it |
| `CanonicalJson.CanonicalTextIsFaithful` | lib/collaboration/block-mutation-plans.ts:21-48 | Given a total order of keys, two JSON values have equal canonical text if and only if they are equal up to the order of keys |
| `CanonicalJson.EqualTextEqualMeaning` | lib/collaboration/block-mutation-plans.ts:21-48 | Whatever the key order, equal text means equal values up to the order of keys: the diff misses no change |
| `CanonicalJson.EqualMeaningEqualSorted` | lib/collaboration/block-mutation-plans.ts:32-39 | Given a total order of keys, reordering keys never changes the sorted value, so the diff invents no change |
| `CanonicalJson.TiedKeysInventAChange` | lib/collaboration/block-mutation-plans.ts:35 | Two different keys that compare as equal make the text depend on their order: the total order is needed |
| `CanonicalJson.SortedMeaning` | lib/collaboration/block-mutation-plans.ts:34-36 | Sorting the entries of every object changes no value |
| `CanonicalJson.WriteUnambiguous` | lib/collaboration/block-mutation-plans.ts:21-42 | The written text determines the value, also when more text follows |
| `CanonicalJson.StringReadsBack` | lib/collaboration/block-mutation-plans.ts:26 | A string written as section 7 of RFC 8259 has it, with lone surrogates escaped, reads back unit by unit |
| `CanonicalJson.StringUnambiguous` | lib/collaboration/block-mutation-plans.ts:26 | Two written strings with text after them are equal only if the strings and what follows are |
| `RoomEpoch.RegistryRefinesHistory` | lib/collaboration/room-epoch.ts:81-209 | On every run of issue, validate, mark, retire over all rooms with a nondecreasing clock, the pruning cache answers as the history does: a token of the current epoch is honoured exactly when less than the TTL has passed since its last use and fewer than the limit of distinct tokens of the room were issued or validated after it |
| `RoomEpoch.RunsAgree` | lib/collaboration/room-epoch.ts:81-209 | The same from any state in which cache and history agree |
| `RoomEpoch.StepAgrees` | lib/collaboration/room-epoch.ts:81-173 | Each operation on a room gives the answer of the history and keeps them in agreement |
| `RoomEpoch.PutAgrees` | lib/collaboration/room-epoch.ts:183-209 | An operation on one room leaves the agreement of every other room intact, though the access counter is shared |
| `RoomEpoch.PruneAgrees` | lib/collaboration/room-epoch.ts:183-209 | Expiry followed by eviction of the least recently used tokens leaves exactly the live ones: the two never interfere |
| `RoomEpoch.UseAgrees` | lib/collaboration/room-epoch.ts:102-112 | Refreshing a token and pruning again keeps the agreement |
| `RoomEpoch.IssueTokenAgrees` | lib/collaboration/room-epoch.ts:93-112 | Issuing reads the clock twice and prunes twice, and still agrees with one logged use |
| `RoomEpoch.ValidateAgrees` | lib/collaboration/room-epoch.ts:114-136 | Validation honours exactly the live tokens and logs their use |
| `RoomEpoch.MarkAgrees` | lib/collaboration/room-epoch.ts:158-168 | Marking succeeds exactly for live tokens and is no use of them |
| `RoomEpoch.CachedIsLive` | lib/collaboration/room-epoch.ts:183-209 | In a pruned cache that agrees with the log, being cached is being live |
| `RoomEpoch.OldestDropped` | lib/collaboration/room-epoch.ts:193-204 | Dropping the smallest access order until the limit is met leaves exactly the most recently used tokens |
| `RoomEpoch.NewestSize` | lib/collaboration/room-epoch.ts:193-204 | What is left is within the limit |
| `RoomEpoch.UnissuedIsRefused` | lib/collaboration/room-epoch.ts:114-168 | A token with no use in the log is refused by every validation and mark until it is issued |
| `RoomEpoch.RetiredTokensStayVoid` | lib/collaboration/room-epoch.ts:170-173 | After a retirement no earlier token validates again, whatever follows |
| `RoomEpoch.RoomEpochRegistry.DeleteExpired` | lib/collaboration/room-epoch.ts:187-191 | The loop deletes exactly the tokens whose TTL has run out |
| `RoomEpoch.RoomEpochRegistry.FindOldest` | lib/collaboration/room-epoch.ts:195-202 | The loop finds the token with the smallest access order |
| `RoomEpoch.RoomEpochRegistry.DeleteOldest` | lib/collaboration/room-epoch.ts:193-204 | The loop leaves the most recently used tokens, as many as the limit allows |
| `RoomEpoch.RoomEpochRegistry.PruneTokens` | lib/collaboration/room-epoch.ts:183-209 | Prunes one room, and drops its entry when no token is left |
| `RoomEpoch.RoomEpochRegistry.IssueEpoch` | lib/collaboration/room-epoch.ts:81-91 | Gives the epoch of the room, making one when there is none |
| `RoomEpoch.RoomEpochRegistry.IssueRoomToken` | lib/collaboration/room-epoch.ts:93-112 | The registry after issuing a token is the room value after issuing it, and no other room changes |
| `RoomEpoch.RoomEpochRegistry.ValidateToken` | lib/collaboration/room-epoch.ts:114-136 | Answers and updates as the room value does |
| `RoomEpoch.RoomEpochRegistry.MarkTokenSynchronized` | lib/collaboration/room-epoch.ts:158-168 | Answers and updates as the room value does |
| `RoomEpoch.RoomEpochRegistry.ValidateAdmission` | lib/collaboration/room-epoch.ts:138-156 | An admission is honoured exactly while its epoch is the active one of this server |
| `RoomEpoch.RoomEpochRegistry.RetireRoom` | lib/collaboration/room-epoch.ts:170-173 | Takes the epoch and all tokens of the room |
| `BlockRoomAdmission.RunKeepsSound` | lib/collaboration/block-room-protocol.ts:131-208 | In every run of authentications, connections, acknowledgements, fences and retirements, a token is synchronized only after an accepted acknowledgement; each of those came from the connection its challenge was issued to and dominates the issued state vector; and every accepted connection has such a challenge of its own epoch |
| `BlockRoomAdmission.HonouredWasAcknowledged` | lib/collaboration/block-room-protocol.ts:58-73 | From the start, a connection is honoured in the active epoch only after a dominating acknowledgement in that epoch, its own or that of the connection whose token it resumed |
| `BlockRoomAdmission.RetiredIsNeverHonoured` | lib/collaboration/block-room-protocol.ts:58-73 | After a retirement no connection that had been issued a challenge or accepted is ever honoured again, and no earlier challenge validates |
| `BlockRoomAdmission.RunAdmitsExactly` | lib/collaboration/block-room-protocol.ts:131-311 | In every run with a clock that does not go back, the history of the tokens tells exactly who gets in: whoever answers its live challenge in time with a state that includes what was issued is accepted, whoever resumes with a live synchronized token is accepted, and no one else |
| `BlockRoomAdmission.StepAdmits` | lib/collaboration/block-room-protocol.ts:131-311 | The same for each event: a connection without a token waits in the active epoch, one that waits is issued its challenge with the state of the document, and a refusal changes no connection |
| `BlockRoomAdmission.AcknowledgedFacts` | lib/collaboration/block-room-protocol.ts:271-311 | A token is marked synchronized only together with the acceptance of the connection it was issued to, for an answer that includes the issued state |
| `BlockRoomAdmission.ConnectedFacts` | lib/collaboration/block-room-protocol.ts:131-178 | A pending connection is issued a challenge in the epoch then active, and no other token changes but by pruning |
| `BlockRoomAdmission.StateVectorIncludes` | lib/collaboration/block-room-protocol-messages.ts:281-293 | The loop decides whether every client clock of the expected vector is reached, a missing client counting as zero |
| `BlockRoomAdmission.IncludesDominates` | lib/collaboration/block-room-protocol-messages.ts:281-293 | Including a state vector is having seen every client, listed or not, at least as far |
| `BlockRoomAdmission.BlockRoomProtocol.Authenticate` | lib/collaboration/authentication.ts:35-64 | Without a token the context is pending; with one it is accepted exactly when the token validates and was acknowledged, and refused otherwise |
| `BlockRoomAdmission.BlockRoomProtocol.Connect` | lib/collaboration/block-room-protocol.ts:131-178 | Issues a challenge to pending connections of rooms that are not fenced; accepted ones are left alone and all others are told to reload |
| `BlockRoomAdmission.BlockRoomProtocol.AcceptBootstrap` | lib/collaboration/block-room-protocol.ts:271-311 | Accepts exactly when the connection was issued this challenge, it validates, the answer includes the issued state and the mark succeeds; otherwise only the use of the token is recorded |
| `BlockRoomAdmission.BlockRoomProtocol.CurrentAdmission` | lib/collaboration/block-room-protocol.ts:58-73 | Honours exactly accepted connections of the active epoch in rooms that are not fenced |
| `TableGeometry.AssertIntervalTableGeometry` | lib/convert/email/validation/table-geometry.ts:102-132 | Accepts a table with width w if and only if its cells, placed row by row in the first free slots, cover every slot of a rows-by-w grid once and nothing else, and w is at most the largest safe integer; no rows give no width |
| `TableGeometry.GeometryForTableRow` | lib/convert/email/validation/table-geometry.ts:56-100 | The sweep of one row fails only when no completion of the grid is a rectangle; otherwise the row is covered up to the returned width and the kept intervals stand for the rows below |
| `TableGeometry.CellIntervals` | lib/convert/email/validation/table-geometry.ts:63-89 | The cells of a row get the columns the grid gives them, or cannot be placed without overlap, overhang or too large a width |
| `TableGeometry.PlaceCell` | lib/convert/email/validation/table-geometry.ts:66-88 | One cell goes to the first free slot of its row |
| `TableGeometry.MergeTableIntervals` | lib/convert/email/validation/table-geometry.ts:12-36 | The two-index loop gives the ordered merge of both lists |
| `TableGeometry.MergedSorted` | lib/convert/email/validation/table-geometry.ts:12-36 | Merging sorted, disjoint lists gives a sorted, disjoint list |
| `TableGeometry.AdvancePastActiveTableIntervals` | lib/convert/email/validation/table-geometry.ts:38-54 | Stops at the first column that no active interval holds, and every column passed is held |
| `TableGeometry.RectangularRowWidth` | lib/convert/tiptap-document/table-content.ts:408-416 | Gives the width exactly when the intervals leave no gap; the same loop ends the email sweep |
| `TableGeometry.SweepNextRow` | lib/convert/email/validation/table-geometry.ts:109-129 | Keeps what the swept rows mean, or shows that no width makes the whole a table |
| `TableGeometry.SweptIsTable` | lib/convert/email/validation/table-geometry.ts:131 | When all rows are swept the grid is a rectangle of that width |
| `TableGeometry.NoTable` | lib/convert/email/validation/table-geometry.ts:117-122 | A broken row, an empty row or one of another width rules out every table |
| `TableGeometry.BrokenNeverTiles` | lib/convert/email/validation/table-geometry.ts:67-96 | No cells in later rows repair an overlap, an overhang or a gap |
| `TableGeometry.WidthIsUnique` | lib/convert/email/validation/table-geometry.ts:131 | A table has one width |
| `TableGeometry.AssertTableLayout` | lib/convert/tiptap-document/table-content.ts:45-74 | The rich-text check accepts exactly the tables with rows, a cell in every row, fitting column widths and cells that form a rectangle; its list of column widths is as long as the table is wide, and at the columns of each cell of the first row stand the widths of that cell, or none when it has none |
| `TableGeometry.ColumnWidthsMatch` | lib/convert/tiptap-document/table-content.ts:418-427 | The widths of the first row have one entry for each column of the table |
| `TableGeometry.FirstRowStands` | lib/convert/tiptap-document/table-content.ts:418-427 | At the columns where the grid puts a cell of the first row stand exactly the widths of that cell |
| `TableGeometry.FirstRowOffsets` | lib/convert/tiptap-document/table-content.ts:418-427 | The grid puts the cells of the first row side by side, each after the column spans before it |
| `TableGeometry.CompareChecks` | lib/convert/tiptap-document/table-content.ts:45-74 | The two checks accept the same tables of safe width with the same width, but that the rich-text check wants a cell in every row and fitting column widths |
| `TableGeometry.RowWithoutCells` | lib/convert/tiptap-document/table-content.ts:188-190 | A row held wholly by cells above it is a table to the email check, while the rich-text check refuses it |
| `EditSession.RunKeepsContributors` | lib/collaboration/edit-session-finalization.ts:146-234 | In every run of edits, connects, disconnects, timers, failed, conflicting and successful checkpoints, the present and next contributors of a live session are exactly the members with an accepted edit no successful version checkpoint covers, and a checkpoint under way names exactly the members of the edits it will cover |
| `EditSession.StepAccounted` | lib/collaboration/edit-session-finalization.ts:146-234 | Each single event keeps that account |
| `EditSession.NoEditIsLost` | lib/collaboration/edit-session-finalization.ts:146-234 | In every run in which the session never gives up (retries spent, a conflict, a deletion), an accepted edit is at every later point covered by a successful checkpoint that named its member, or its member is still among the contributors of a live session |
| `EditSession.SessionEndsExactly` | lib/collaboration/edit-session-finalization.ts:214-234 | A session ends exactly by giving up or by a successful checkpoint during which no edit came, and that checkpoint names every member with an edit not yet covered |
| `EditSession.CheckpointGoesThrough` | lib/collaboration/edit-session-finalization.ts:146-234 | Left alone, a timed session is checkpointed: the timer, its turn, the save and the checkpoint can follow, every edit not yet covered is covered by then, and the session ends |
| `EditSession.TimerStartsExactly` | lib/collaboration/edit-session-finalization.ts:62-81 | A timer starts a finalization unless it waited for the room to close and an editor is there again, and then a new timer is set |
| `EditSession.ProceedsExactly` | lib/collaboration/edit-session-finalization.ts:410-435 | A finalization goes on exactly when no edit came since it began, and no editor either if it waited for none |
| `EditSession.TimerModes` | lib/collaboration/edit-session-finalization.ts:62-81 | Which timer is newly set at which event: for the active window after an edit, a connection or with an editor connected, for the room to close otherwise |
| `EditSession.DisconnectExactly` | lib/collaboration/edit-session-lifecycle.ts:143-160 | The last editor leaving replaces any timer by a room-close timer, unless a checkpoint is under way or the retries are spent, and changes nothing else |
| `EditSession.RetriesRestored` | lib/collaboration/edit-session-lifecycle.ts:124-135 | An edit or a connection gives the session its retries back and leaves no room-close timer |
| `EditSession.RetriesSpent` | lib/collaboration/edit-session-finalization.ts:236-292 | A failure costs one retry, and nothing else does |
| `EditSession.RunKeepsAttended` | lib/collaboration/edit-session-finalization.ts:62-81 | Before shutdown a live session is finalizing or has a timer, and never both, while no conflict handler runs |
| `EditSession.MindedLostExactly` | lib/collaboration/edit-session-finalization.ts:236-292 | A session that is finalizing or timed stays so at every event exactly when the event is not a conflict before shutdown |
| `EditSession.ConflictLeavesSessionUnattended` | lib/collaboration/edit-session-finalization.ts:316-345 | While a conflict handler runs the session has neither, and an edit accepted then is dropped with it |
| `EditSession.DrainEmpties` | lib/collaboration/edit-session-finalization.ts:83-109 | From any point of a shutdown, without new edits, once EDIT_SESSION_MAX_RETRIES + 1 passes have run their course no session is left, whatever fails, so the exhausted error is not thrown |
| `EditSession.RunDraining` | lib/collaboration/edit-session-finalization.ts:87-104 | After each pass without edits a session that is still live has failed once more, a connection or disconnection notwithstanding |
| `EditSession.EditOutlastsDrain` | lib/collaboration/edit-session-contributors.ts:157-182 | An edit during the drain resets the retries, and the session outlasts all passes: the condition is needed |
| `EditSession.EditSessionState.Schedule` | lib/collaboration/edit-session-finalization.ts:62-81 | Sets a timer only when there is none and shutdown has not begun |
| `EditSession.EditSessionState.Merge` | lib/collaboration/edit-session-finalization.ts:249-253 | The loop puts the next contributors back among the present ones |
| `EditSession.EditSessionState.Record` | lib/collaboration/edit-session-contributors.ts:165-181 | An edit cancels a room-close timer, counts a generation, resets the retries and joins the right set of contributors |
| `EditSession.EditSessionState.Connect` | lib/collaboration/edit-session-lifecycle.ts:124-135 | A connection cancels a room-close timer, resets the retries and starts a timer when the session is idle |
| `EditSession.EditSessionState.Disconnect` | lib/collaboration/edit-session-lifecycle.ts:143-160 | The last editor leaving replaces the timer by a room-close timer, unless finalizing or exhausted |
| `EditSession.EditSessionLifecycle.RecordCheckpointContributor` | lib/collaboration/edit-session-contributors.ts:157-182 | Gets or creates the session and records the member, as the edit event says |
| `EditSession.EditSessionLifecycle.TimerFired` | lib/collaboration/edit-session-finalization.ts:71-78 | A room-close timer with an editor connected is rescheduled; otherwise finalization starts |
| `EditSession.EditSessionLifecycle.Start` | lib/collaboration/edit-session-finalization.ts:146-148 | Remembers the generation and the contributors |
| `EditSession.EditSessionLifecycle.MayContinue` | lib/collaboration/edit-session-finalization.ts:410-435 | Goes on only when nothing changed since the start; otherwise puts the checkpoint off and reschedules |
| `EditSession.EditSessionLifecycle.Complete` | lib/collaboration/edit-session-finalization.ts:214-234 | Removes the session exactly when nobody edited during the checkpoint; otherwise continues with exactly those who did |
| `EditSession.EditSessionLifecycle.HandleFailure` | lib/collaboration/edit-session-finalization.ts:236-292 | Merges the contributors back, counts the attempt, and settles, throws or reschedules by the kind of failure |
| `EditSession.EditSessionLifecycle.StartShutdown` | lib/collaboration/edit-session-lifecycle.ts:190-195 | Cancels the timer, and no other is set from then on |
| `EditSession.EditSessionLifecycle.StartDrainPass` | lib/collaboration/edit-session-finalization.ts:92-98 | A pass finalizes the session ignoring connections |
| `PendingActor.RunKeepsActors` | lib/collaboration/edit-session-lifecycle.ts:76-89 | In every run, with any number of saves under way, a document has a pending actor exactly when it has an edit that no finished save covers, the actor is then one member, and no uncovered edit is by anyone else |
| `PendingActor.StepAgrees` | lib/collaboration/edit-session-lifecycle.ts:76-89 | Each event keeps the entries as the history of edits and saves determines them |
| `PendingActor.SaveClearsExactly` | lib/collaboration/edit-session-lifecycle.ts:233-250 | A successful save clears the actor exactly when the document got no edit after the snapshot of the save |
| `PendingActor.DroppedIsForgotten` | lib/collaboration/edit-session-lifecycle.ts:202-206 | Unloading a document forgets its actor and no other |
| `PendingActor.LanesNeverFail` | lib/collaboration/edit-session-contributors.ts:35-67 | When edits come only through the lane of their document, in every run, with any saves and unloads of any documents in between, an edit waits for a save exactly when another member is pending, no lane meets a mixed actor, no flush is incomplete, and every applied edit is logged and marked under its author |
| `PendingActor.LaneStepSafe` | lib/collaboration/edit-session-contributors.ts:35-67 | Each event keeps every lane safe: since a flush began its document got no edit, and past it no other actor is pending |
| `PendingActor.FlushLeavesNoActor` | lib/collaboration/edit-session-contributors.ts:119-140 | When a document gets no edit during the save its lane waits for, nothing is pending afterwards: the flush is never incomplete and the mark that follows never fails |
| `PendingActor.PendingContributors.MarkPendingContributor` | lib/collaboration/edit-session-lifecycle.ts:76-89 | Fails exactly when another member is pending, and then changes nothing; otherwise records a new sequence number |
| `PendingActor.PendingContributors.AdvancePendingContributors` | lib/collaboration/edit-session-lifecycle.ts:233-250 | The loop removes the members whose number has not moved since the snapshot, and the entry when it is empty |
| `ShutdownDrain.RunKeepsSound` | lib/collaboration/shutdown-connection-drain.ts:40-147 | In every run an admission granted is pending, handed to a connection or released, and only one of these; every tracked connection is open or has closed; and when nothing is left after shutdown began, a check is scheduled or the promise is resolved. Refused connections close as they like, and connected hooks may come late |
| `DrainBalance.RunSurplus` | lib/collaboration/shutdown-connection-drain.ts:64-130 | The account of every run, key by key: the tracked connections exceed the open ones by what was tracked again or late, plus the closes that found nothing to forget, less the closes of connections that were not open |
| `DrainBalance.StepSurplus` | lib/collaboration/shutdown-connection-drain.ts:64-130 | What each event does to that account, even where keys of different names collide |
| `DrainBalance.CoveredExactlyUnlessOvertaken` | lib/collaboration/shutdown-connection-drain.ts:86-99 | At every point of a run at least as many connections are tracked under each key as are open, if and only if no connection that is not open closes beside one that is while none is tracked to spare |
| `DrainBalance.StepCovered` | lib/collaboration/shutdown-connection-drain.ts:86-99 | A single event loses that exactly when it is such a close |
| `DrainBalance.ResolvesOnlyWhenGone` | lib/collaboration/shutdown-connection-drain.ts:132-147 | The promise resolves only in the check, when no admission is pending; and then no connection is open if and only if every key is covered |
| `DrainBalance.NeverResolvesEarly` | lib/collaboration/shutdown-connection-drain.ts:132-147 | From the start: a run that resolves does so with no connection open if and only if its account is not negative under any key, in particular when no such close ever came |
| `DrainBalance.RefusedCloseResolvesEarly` | lib/collaboration/shutdown-connection-drain.ts:70-99 | Two admissions under one key, the second released before its connection arrives: that connection is refused, its close makes the drain forget the first one, and the drain resolves while the first is open |
| `ShutdownDrain.ResolvedStaysEmpty` | lib/collaboration/shutdown-connection-drain.ts:64-84 | Once resolved it stays resolved, and nothing is tracked again if and only if every connection presents an admission, since none is granted after shutdown began |
| `ShutdownDrain.ExactWhileInTurn` | lib/collaboration/shutdown-connection-drain.ts:64-99 | Exactly the open connections are tracked, in order, at every point of a run, if and only if connections under one key close in the order they opened, none closes that is not open beside one that is, and none is tracked after it closed |
| `ShutdownDrain.RunInTurnIsExact` | lib/collaboration/shutdown-connection-drain.ts:86-99 | In such a run, once all connections and admissions are gone, the drain has resolved or its scheduled check resolves it |
| `ShutdownDrain.StepExact` | lib/collaboration/shutdown-connection-drain.ts:64-99 | A single event keeps the tracked connections exact if and only if it is in turn |
| `DrainBalance.DrainsExactlyWhenPaid` | lib/collaboration/shutdown-connection-drain.ts:86-130 | In every run, once all connections are gone nothing is tracked if and only if the account of every key is even |
| `DrainBalance.DrainsExactlyUnlessForgotten` | lib/collaboration/shutdown-connection-drain.ts:86-130 | When no close takes another connection, as when only open ones close or others close with nothing tracked beside them, nothing is tracked in the end if and only if no forgotten or closed connection was ever tracked again |
| `ShutdownDrain.OutOfTurnCloseBlocksDrain` | lib/collaboration/shutdown-connection-drain.ts:86-110 | A younger connection that closes before an older one under its key makes shutdown track the older one twice over, and the drain never resolves |
| `ShutdownDrain.StepPlaced` | lib/collaboration/shutdown-connection-drain.ts:40-84 | Each event keeps every admission in exactly one place |
| `ShutdownDrain.StepKnown` | lib/collaboration/shutdown-connection-drain.ts:64-130 | Each event keeps every tracked connection one that is open or has closed, and no key for none |
| `ShutdownDrain.StepAwake` | lib/collaboration/shutdown-connection-drain.ts:132-147 | Each event keeps the wake-up |
| `ShutdownDrain.ShutdownConnectionDrain.BeginAdmission` | lib/collaboration/shutdown-connection-drain.ts:40-54 | Grants a fresh admission, or none once shutdown began |
| `ShutdownDrain.ShutdownConnectionDrain.ReleaseAdmission` | lib/collaboration/shutdown-connection-drain.ts:56-62 | Releases it and schedules a check when nothing is left |
| `ShutdownDrain.ShutdownConnectionDrain.Connect` | lib/collaboration/shutdown-connection-drain.ts:64-84 | Refuses an admission that is not this connection or not pending; otherwise tracks the connection before releasing, and rejects it once shutdown began |
| `ShutdownDrain.ShutdownConnectionDrain.Disconnect` | lib/collaboration/shutdown-connection-drain.ts:86-99 | Forgets the oldest connection under the key, and the key with the last one |
| `ShutdownDrain.ShutdownConnectionDrain.BeginDrain` | lib/collaboration/shutdown-connection-drain.ts:101-116 | The two loops track every connection of every document once, and a second call changes nothing |
| `ShutdownDrain.FlattenHolds` | lib/collaboration/shutdown-connection-drain.ts:101-116 | What is tracked at shutdown is the connections of all documents and no others |
| `ShutdownDrain.FlattenKeepsOrder` | lib/collaboration/shutdown-connection-drain.ts:101-116 | The connections of one document are tracked together, in their order |
| `ShutdownDrain.ShutdownConnectionDrain.ScheduleEmptyCheck` | lib/collaboration/shutdown-connection-drain.ts:132-147 | Schedules one check, only after shutdown began and when nothing is left |
| `ShutdownDrain.ShutdownConnectionDrain.RunEmptyCheck` | lib/collaboration/shutdown-connection-drain.ts:141-146 | Resolves only if nothing is left when it runs |
| `ShutdownDrain.OthersLeaveScopeAlone` | lib/collaboration/shutdown-connection-drain.ts:156-208 | Nothing else at the drain makes an admission of a scope pending again |
| `ShutdownDrain.ShutdownSocketAdmissionScope.BeginAdmission` | lib/collaboration/shutdown-connection-drain.ts:164-176 | A closed scope begins none; an open one remembers what it began |
| `ShutdownDrain.ShutdownSocketAdmissionScope.ReleaseAdmission` | lib/collaboration/shutdown-connection-drain.ts:178-184 | Releases at the drain and forgets it |
| `ShutdownDrain.ShutdownSocketAdmissionScope.Connect` | lib/collaboration/shutdown-connection-drain.ts:186-196 | Forgets the admission, which is no longer pending at the drain either |
| `ShutdownDrain.ShutdownSocketAdmissionScope.Close` | lib/collaboration/shutdown-connection-drain.ts:198-207 | None of the admissions the socket ever began is left pending, no other one changes, and the drain keeps its wake-up |
| `InlineContent.ReadingKeepsMeaning` | lib/convert/tiptap-document/inline-content.ts:37-66 | Nodes are read exactly when each is valid, and reading keeps the sequence of characters and formulas with the styles that show and the link target of each, attribute records without their value included, a hard break counting as a newline that looks like the text before it, a formula without children being its attribute and one with children their texts |
| `InlineContent.FormulaIsShown` | lib/convert/tiptap-document/inline-content.ts:113-139 | A formula node is read as its latex attribute, or empty, when it has no children, and as their texts when it has; it is refused exactly for marks, for a child that is not plain text, or for an attribute that says something else, which alone is reported as a conflict |
| `InlineContent.FormulaInAttribute` | lib/convert/tiptap-document/inline-content.ts:113-124 | A formula in attribute form is read as that formula, whatever it is |
| `InlineContent.FormulaHoldsText` | lib/convert/tiptap-document/inline-content.ts:113-130 | A formula whose children are plain texts, their joined text agreeing with the attribute if there is one, is read as that text |
| `InlineContent.MarksShow` | lib/convert/tiptap-document/node-validation.ts:83-101 | Marks show the target of the last link and, for each other name in the order of first occurrence, the value of its last mark; they are read exactly when each is well formed, or refused for the first that is not |
| `InlineContent.ShownExactly` | lib/convert/tiptap-document/inline-content.ts:195-200 | Exactly the styles with a value show in the JSON text by which runs are compared, in their order |
| `InlineContent.WrittenExactlyWhenValued` | lib/convert/tiptap-document/inline-content.ts:37-75 | What was read can be written if and only if no text that starts a run, being first, after a formula or of another look than what is before it, has a style without a value |
| `InlineContent.ReadingSettles` | lib/convert/tiptap-document/inline-content.ts:37-75 | What was read from well-formed nodes can be written under exactly that condition, and then the nodes written mean the same, and reading them again gives the first result |
| `InlineContent.ValuedColoursAreWritten` | lib/convert/tiptap-document/node-validation.ts:83-101 | In particular it can be written when each colour mark has its value |
| `InlineContent.ReadsBackExactlyWhenCanonical` | lib/convert/tiptap-document/inline-content.ts:68-75 | Content that can be written reads back unchanged if and only if it has no empty text or link, no neighbours that would merge, and no newline that would go to the run before |
| `InlineContent.ReadIsCanonical` | lib/convert/tiptap-document/inline-content.ts:140-185 | Reading merges all equal neighbours: the result is canonical when no text node is empty or starts with a newline |
| `InlineContent.EmptyTextLosesStyle` | lib/convert/tiptap-document/inline-content.ts:181-185 | An empty styled text before a hard break reads as styled text but is written as a bare break: the condition is needed |
| `InlineContent.EmptyColourCannotBeWritten` | lib/convert/tiptap-document/node-validation.ts:83-101 | A single text whose colour mark has an empty record is read as a style without a value, which the writer refuses |
| `InlineContent.EmptyColourJoinsRun` | lib/convert/tiptap-document/inline-content.ts:140-160 | The same mark on a text that looks like the plain run before it joins that run, and what was read is written |
| `InlineContent.WrittenTextIsTyped` | lib/convert/tiptap-document/inline-content.ts:248-268 | Reading what was written for a text is typing it character by character, newlines as hard breaks |
| `InlineContent.TypedIsOneRun` | lib/convert/tiptap-document/inline-content.ts:140-185 | A text that starts a run is read back as one run, whatever newlines it holds |
| `InlineContent.MarksReadBack` | lib/convert/tiptap-document/inline-content.ts:270-285 | The marks written for styles and link read back as them, in order |
| `InlineContent.LinesAreSplit` | lib/convert/tiptap-document/inline-content.ts:260-262 | The lines hold no newline, and joined by newlines they are the text |
| `InlineContent.WrittenIsWellFormed` | lib/convert/tiptap-document/inline-content.ts:260-267 | The writer writes no empty text and no newline inside a text |
| `InlineContent.ReadIsStyled` | lib/convert/tiptap-document/inline-content.ts:140-193 | Node by node: the styles read so far can all be written exactly when every text so far that starts a run has its values, and the output ends in a run exactly when the last node is no formula |
| `InlineContent.ReadIsRecords` | lib/convert/tiptap-document/node-validation.ts:83-101 | Styles that were read have each name once |
| `InlineContent.MarksOnlyWhenSupported` | lib/convert/tiptap-document/inline-content.ts:270-285 | Marks can be written exactly when every style is a supported one of the right kind |
| `InlineContent.AppendTextKeeps` | lib/convert/tiptap-document/inline-content.ts:140-179 | Appending text, merged or not, adds exactly its characters with its look |
| `InlineContent.HardBreakKeeps` | lib/convert/tiptap-document/inline-content.ts:181-193 | A hard break adds one newline with the look of the last run, or plain |
| `InlineContent.InlineContentFromNode` | lib/convert/tiptap-document/inline-content.ts:37-66 | The reader loop gives what reading the nodes one by one gives, formulas in attribute form included, or the first error |
| `InlineContent.StyleValues` | lib/convert/tiptap-document/node-validation.ts:83-101 | The loop over marks gives styles in order of first occurrence with the last value, and the last link, which a record without target takes away; or the first invalid mark |
| `InlineContent.StyleMarks` | lib/convert/tiptap-document/inline-content.ts:270-285 | The loop gives the marks of the styles in order and then the link, or the first unsupported style |
| `DurableMedia.CountsAgree` | lib/durable-media/sanitize.ts:10-98 | For plain values, JSON inside strings included, the sanitizer removes as many fields as the scanner reports |
| `DurableMedia.SanitizedScansClean` | lib/durable-media/scan.ts:10-36 | A sanitized value scans clean, also where its record no longer counts as media |
| `DurableMedia.SanitizingSettles` | lib/durable-media/sanitize.ts:10-98 | Sanitizing again changes nothing, and a value is left unchanged exactly when nothing is reported of it |
| `DurableMedia.ChangesWhenRemoved` | lib/durable-media/sanitize.ts:10-98 | A value changes exactly when a field of it is removed |
| `DurableMedia.MediaStaysMedia` | lib/durable-media/constants.ts:144-155 | Sanitizing never turns a record into a media record |
| `DurableMedia.JsonStaysJson` | lib/durable-media/sanitize.ts:38-45 | What is left of decoded JSON after sanitizing could be decoded JSON: fields distinct and in the order objects list them, so that encoding and decoding gives it back |
| `DurableMedia.SanitizedHoldsNothingManaged` | lib/durable-media/constants.ts:166-181 | No record anywhere in a sanitized value, JSON inside strings included, has a title in a media record, a value under a managed or media field name, or a text that refers to managed media |
| `DurableMedia.CleanMeansFree` | lib/durable-media/scan.ts:10-36 | When the scanner reports nothing, no record anywhere in the value has a field that should not be there |
| `DurableMedia.OnlyForbiddenFieldsGo` | lib/durable-media/sanitize.ts:60-79 | Every field that holds JSON or may stay is kept |
| `DurableMedia.WrittenScansClean` | lib/durable-media/sanitize.ts:38-45 | Encoding a value as JSON, where numbers that are not finite become null, brings no violation |
| `MediaCodec.EncodeUnambiguous` | lib/durable-media/sanitize.ts:38-45 | The text JSON.stringify writes for decoded JSON, escapes included, determines what was written and where it ends |
| `MediaCodec.LawfulIsPossible` | lib/durable-media/sanitize.ts:38-48 | What is assumed of JSON holds of that text, whatever texts finite numbers have: there is a decoding that reads it back |
| `DurableMedia.SharedCountsAgree` | lib/durable-media/sanitize.ts:100-193 | The counts agree on shared maps and arrays, nested to any depth, and nothing changes unless a field is removed |
| `DurableMedia.SharedSettles` | lib/durable-media/sanitize.ts:100-193 | Sanitized shared maps and arrays scan clean and sanitizing again changes nothing |
| `DurableMediaPlaces.ReportsForbiddenPlaces` | lib/durable-media/scan.ts:10-116 | The scanner reports exactly the forbidden places of a document, plain or shared and also inside the JSON its fields hold: each once, in document order, under its field name and the path that leads there |
| `DurableMediaPlaces.KeepsTheRest` | lib/durable-media/sanitize.ts:10-193 | What the sanitizer gives is the one document without those fields: lists keep all their parts, records the fields that stay, in order, JSON that held one is written anew without it, and all else is as it was |
| `DurableMediaPlaces.ChangesExactly` | lib/durable-media/sanitize.ts:10-98 | A plain value is reported as changed exactly when some place in it is forbidden |
| `DurableMedia.SanitizePlainValue` | lib/durable-media/sanitize.ts:84-98 | The recursion gives the specified outcome |
| `DurableMedia.SanitizePlainArray` | lib/durable-media/sanitize.ts:10-23 | The loop with its accumulators gives the specified outcome, the same value when nothing changed |
| `DurableMedia.SanitizePlainJsonField` | lib/durable-media/sanitize.ts:25-49 | Handles exactly the non-blank JSON fields that can be decoded |
| `DurableMedia.SanitizePlainRecord` | lib/durable-media/sanitize.ts:51-82 | The loop drops forbidden fields and keeps the rest in order |
| `DurableMedia.SanitizeYMap` | lib/durable-media/sanitize.ts:100-144 | The loop over a shared map gives the specified fields and count |
| `DurableMedia.SanitizeYArray` | lib/durable-media/sanitize.ts:167-193 | Going from the last element to the first, each replaced in place, gives the same as going forwards |
| `DurableMedia.DurableMediaScan.ScanValue` | lib/durable-media/scan.ts:85-116 | Pushes exactly the violations of the value after those already found |
| `DurableMedia.DurableMediaScan.ScanRecord` | lib/durable-media/scan.ts:10-36 | Pushes exactly the violations of the record, with their paths |
| `DurableMedia.DurableMediaScan.ScanYType` | lib/durable-media/scan.ts:38-83 | Pushes exactly the violations of a shared map or array |
| `DurableMedia.DeterministicSanitizerClientId` | lib/durable-media/sanitize.ts:260-274 | Sorts the ids and gives the smallest that no client has |
| `PersistenceQueue.RunKeepsTurns` | lib/collaboration/resident-block-runtime.ts:501-519 | In every run at most one operation of a key is under way, and one that has started was queued after none that has not settled, also when operations are queued while the entry of a settled tail is being removed |
| `PersistenceQueue.SomeOperationCanGo` | lib/collaboration/resident-block-runtime.ts:501-510 | While an operation has not settled, it or one before it of its key is under way or can start: a rejection blocks none |
| `PersistenceQueue.EveryOperationSettles` | lib/collaboration/resident-block-runtime.ts:501-519 | From every state of a run, starting what can start and settling what is under way settles any given operation in the end, even if all are rejected |
| `PersistenceQueue.OperationsGoOn` | lib/collaboration/resident-block-runtime.ts:501-519 | Starting or settling an operation changes its status alone, and a cleanup forgets the tail of its queue exactly when it is that operation |
| `PersistenceQueue.StepOrderly` | lib/collaboration/resident-block-runtime.ts:501-519 | Each event keeps the chain and the tail |
| `PersistenceQueue.CleanupOrderly` | lib/collaboration/resident-block-runtime.ts:513-516 | Removing the entry only when it is still the settled tail keeps the chain |
| `PersistenceQueue.PersistenceQueues.EnqueueOperation` | lib/collaboration/document-persistence.ts:37-50 | Chains the operation to the tail of its queue and becomes the tail |
| `PersistenceQueue.PersistenceQueues.CleanUp` | lib/collaboration/document-persistence.ts:51-55 | Removes the entry only if it is still this operation |
| `MetadataMerge.ListMembers` | lib/collaboration/resident-metadata-merge.ts:22-44 | A merged list holds the current ids the author did not remove, in their order, then once each the ids the author added that are missing |
| `MetadataMerge.ListsConverge` | lib/collaboration/resident-metadata-merge.ts:22-44 | For two authors who observed the same list the merged ids are the same in either order |
| `MetadataMerge.ListMergeSettles` | lib/collaboration/resident-metadata-merge.ts:22-44 | Merging the same change again, or no change, alters nothing |
| `MetadataMerge.RecordsConvergeExactly` | lib/collaboration/resident-metadata-merge.ts:57-90 | For two authors who observed the same record the order does not matter, for every current record, if and only if they change no key differently |
| `MetadataMerge.MergedAt` | lib/collaboration/resident-metadata-merge.ts:57-90 | Key by key the merged record is what the author did to it, and the current value where the author did nothing |
| `MetadataMerge.MergedKeys` | lib/collaboration/resident-metadata-merge.ts:57-90 | A key the author added or gave another value has that value, one the author removed is gone, and every other key is as it was; lists and records read separately count as other values |
| `MetadataMerge.MergeStringLists` | lib/collaboration/resident-metadata-merge.ts:22-44 | The filter and the push loop give the merged list |
| `MetadataMerge.MergeRecords` | lib/collaboration/resident-metadata-merge.ts:57-69 | The two loops give the merged record |
| `MetadataMerge.DeleteRemovedKeys` | lib/collaboration/resident-metadata-merge.ts:71-79 | Deletes exactly the keys that were observed and are not desired |
| `MetadataMerge.ApplyChangedKeys` | lib/collaboration/resident-metadata-merge.ts:81-90 | Sets exactly the keys whose desired value is new or another |
| `MetadataMerge.MergeMetadataValue` | lib/collaboration/resident-metadata-merge.ts:6-16 | Merges two lists of ids or two records, an absent current value counting as empty, and refuses everything else with the right error |

## Left out

- Yjs, Hocuspocus, HTTP, Postgres and the shared codecs: they are the environment. A room is a map of blocks, a state vector a map from client to clock, a decode an event input.
- BlockPlans.PlanIsPatch: a store keeps a block by id; how the store encodes blocks, and `adapterData`, which it takes as context for that, are not modelled.
- ResidentPersistence.RunIsSafe: waits are events between which anything allowed may happen; promises and exceptions of the adapter other than refusal, loss and failure are not modelled, nor is the version checkpoint of `checkpoint`.
- BlockBaseline.BlockMutationBaseline.PrepareAffected: contributor ids are a set, not a sorted list; value targets are opaque texts.
- CanonicalJson.CanonicalTextIsFaithful: number text is any text of a JSON number that determines the number; objects that contain themselves, numbers that are not finite, and values that are not JSON, which the code refuses, cannot be written as model values.
- RoomEpoch.RegistryRefinesHistory: the clock is any real, and the access counter does not run out.
- BlockRoomAdmission.RunKeepsSound: permissions, metadata requests and the check of locale changes in accepted updates are not part of this model; what a pending connection may send before it is admitted neither.
- TableGeometry.AssertTableLayout: cell content and attribute validation, and which of several faults is reported first, are not modelled; sums of column spans beyond 2^53, which lose precision in the rich-text check, neither.
- EditSession.RunKeepsContributors: one entity; delays are abstract, so a timer may fire at any time; finalizations of a session that is gone have no effect and are dropped; contributor lists are sets.
- EditSession.DrainEmpties: one entity, so that passes over several sessions are passes over each.
- PendingActor.LanesNeverFail: edits that wait for their lane are not listed; an edit refused after its flush, as of a deleted entity or by validation, is the event `Rejected`, whatever the reason.
- ShutdownDrain.RunKeepsSound: closing a connection that was refused or rejected is the caller's; it is the event `Disconnected`, which may come at any time or never.
- InlineContent.ReadsBackExactlyWhenCanonical: attributes that are not allowed or not strings are modelled only as invalid marks; code blocks and executable sources are left out, since newlines do not survive there.
- Writing of tables with spans: no round trip holds there.
- DurableMedia.SharedSettles: shared maps and arrays are values, so that updating them in place, and aliasing, are not modelled; the order of fields is that of the map.
- DurableMedia.CountsAgree: XML elements, whose attributes the scanner decodes and the sanitizer does not, and an own field named `__proto__` are left out; texts hold no lone surrogates.
- The patterns for managed media references, the origins they are configured with, and the encoding of the document state.
- PersistenceQueue.SomeOperationCanGo: an operation that waits for another one queued behind it never settles; that callers do not do so is not modelled.
- MetadataMerge.MergeRecords: the order of the keys of a record is not modelled.
- Room ownership, the API, handlers, events, logging, telemetry, servers, HTML rendering and schemas: plumbing, or guarantees that rest on other systems.
