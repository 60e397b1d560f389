# The orchestrator's chain bridge, outbox, storage and codecs in Dafny

The orchestrator records the tasks, bids and results of a market of agents. A *replay worker* reads
finalized blocks of a chain and projects their events into database tables. An *outbox worker*
submits queued calls to the chain and records what became of them, while the replay worker, a
backfill worker and request handlers write to the same rows. Records are kept either in hash maps
or in Postgres. This project models these parts and proves what they keep, over every run.

`dafny verify dfyconfig.toml` verifies all of it.

| file | what it models |
|---|---|
| `Basics`, `Json`, `Decimal` | options and results, signed casts, JSON values, decimal text |
| `IdText` | reading ids out of printed event payloads |
| `OutboxRows` | the table `outbound_extrinsics`: enqueueing, outcomes, finalization by hash, placeholder patching |
| `Projection` | the other tables, the SQL statements of the projections, the statements of an event and of a block |
| `EventEffects` | what the projection of one event does to the tables, for each kind |
| `WriteRules` | who wins when statements write the same row |
| `PatchCalm`, `Convergence` | a block that is cut off anywhere, any number of times, and replayed ends in the same tables |
| `Divergence` | from which databases it does not, exactly |
| `Reachability` | which outboxes come about: none from which it does not, as long as no id is enqueued twice |
| `ReplayMachine`, `EventLog`, `ReplayProgress` | the replay worker as a machine with crashes and reconnects; its log, its cursor, and that it gets to the end |
| `ReplayWorker` | the same statements in place, on a class |
| `OutboxMachine` | any number of outbox workers and all other writers, interleaved |
| `OutboxWorker` | the loop of a sole outbox worker: counters, order, draining |
| `Backfill` | the nested loops that fill missing chain ids |
| `StorageModel`, `Storage`, `StorageRefinement`, `StorageHistory` | both storages as classes, when they answer alike, and which earlier write a lookup shows |
| `Handlers`, `Records` | request handlers as interleaved sequences of storage calls, and where the stored records come from |
| `Submissions`, `Base64`, `Hex`, `CodecTables` | request payloads and codecs, the latter against the tables of their standards |
| `Calls`, `CallMeanings`, `PatchedCalls` | the calls an outbox row may ask for: the payload check, the builder, which payload means which call, and what becomes of patched placeholders |
| `WasmAbi` | the call between the WASM host and a guest |

## Main results

* **Replay converges, exactly when.** Tasks are written last-writer-wins, bids first-writer-wins,
  results keep their first agent and their last output, and some statements run only if a task is
  found. Still, a causally ordered block that is cut off anywhere, any number of times, and then
  completed leaves the tables of one clean pass, up to generated ids, timestamps and the stub kept
  in `stored_json` (`Convergence.ReplayConvergesAfterCrashes`). This needs one condition on the
  outbox, which `Divergence.ConvergesIffCalm` shows to be necessary too: whether placeholder
  patches have an effect must not change during a block. A pending payload that Postgres cannot
  cast, for an id that is no number or for a U+0000 in any text, makes the whole patching UPDATE
  fail; such payloads pass the check at the enqueue endpoint (`Reachability.NulIsAccepted`). If a
  finalization then takes that row out of the way in the middle of the block, the replayed patches
  find work that the first pass found blocked.
* **And the condition holds in every reachable state**, as long as each id is enqueued once: a
  pending row then has no transaction hash yet, and no finalization can reach it
  (`Reachability.FreshIdsConverge`). All callers draw a fresh id (main.rs:322, 396, 456, 542, 693,
  759), so replay converges in the system as it is, under the assumptions below. With an id enqueued
  twice it need not: a run from the empty table reaches an outbox that is not calm
  (`Reachability.RecordingTwiceDiverges`).
* **And it gets there.** From every state that crashes and reconnects can lead to there is a way on,
  to the tables of one clean pass over the whole chain (`ReplayProgress.CanFinish`).
* **What each event does** to every table, stated on the tables (`EventEffects.RegistrationEffect` and
  its neighbours).
* **The other tables need no condition on the outbox at all.** Whatever other actors write to the
  outbox meanwhile, agents, tasks, bids, results and the log are those of one clean pass
  (`ReplayMachine.SettledTablesAreClean`).
* **The log is exact.** Over every run with crashes, reconnects and repeated blocks, on any chain and
  whatever others write to the outbox, the log holds every supported event up to the saved cursor
  once, nothing unsupported, and beyond the cursor at most part of one block
  (`EventLog.ExactlyOnceLog`); the cursor never moves back (`ReplayMachine.CursorMonotone`).
* **What a failed fetch costs.** `events()` failing skips the block. `EventLog.SkippedBlockLosesEvents`
  says exactly when events are lost: when a later block of the same subscription is fetched and
  holds a supported event beyond the cursor.
* **Outbox.** With any number of workers and writers the row locks, the lifecycle and the hashes
  are kept (`OutboxMachine.RunKeepsInv`); what is committed is what was submitted
  (`CommittedPayload`); a settled row rests until it is enqueued anew (`SettledRowRests`). A row is
  accepted by the chain at most once exactly when no worker stops between the chain's answer and
  its commit, and no finalized row is enqueued anew (`AtMostOnceIff`).
* **Two storages, one behaviour, exactly when** (`StorageRefinement.StepAgreesIff`,
  `BackendsAnswerAlike`).
* **Handlers**: over every interleaving with requests abandoned anywhere
  (`Handlers.EveryInterleaving`); a completed task has its result, or a request on its way to insert
  it, exactly when no such request is lost (`CompletedHasResultIff`); and every stored record has the
  contents that some request submitted (`Records.EveryRecordWasSubmitted`).
* **Codecs**: base64 and hex are inverses in both directions on everything they accept; the payload
  check and the argument builder agree exactly as far as `Calls.BuiltExactlyIff` says; `CallMeanings`
  says for each of the seven calls from which payloads exactly it is built; the guest's
  bounds checks let nothing else through than `WasmAbi.AnswersIff` says.

## Where the code and its documentation differ

The model follows the code.

* `docs/operations/orchestrator-storage.md:31` says that a completed task cannot go back to pending.
  A replayed `TaskCreated` does it, until the completion is replayed (`ReplayWorker.StatusRegressesIff`).
* The stub in `stored_json` gets a new id each time a creation is replayed, while its row keeps the
  first one (`ReplayWorker.StubIdDrifts`).
* Backfill compares event hashes, "0x...", with the generated ids of outbox rows, and so never finds
  a row (`Backfill.BackfillIsInert`). What it would do otherwise is proved as well.
* Failed rows are never tried again unless enqueued anew, and an error text that mentions
  "closed", "disconnect" or "Connection" is taken for a lost connection, so a job with such an error
  holds up the queue (`OutboxWorker.HeadOfLineBlocks`).
* The check of a payload calls `get_u64` for its numbers and drops the outcome, so a deadline of more
  than 32 bits is cut at submission rather than refused (`Calls.BuiltExactlyIff`).
* The host writes its input at offset 0 while the guest's slice starts at `__heap_base`. If that is
  0, the agent gets exactly its input (`WasmAbi.RunsAgentIff`); an input that ends at or before
  `__heap_base` does not reach it at all (`WasmAbi.InputMissed`).
* A budget beyond 64 bits aborts the request that submits it, after its task has been stored
  (`Handlers.SubmitTask`).

## Assumptions

* Blocks are delivered contiguously from the saved cursor, possibly repeatedly; a failed fetch is
  the one exception and has its own theorem. Block numbers fit `u32`.
* Causal order: an event that needs a task comes after the event that creates it, unless the task is
  never created. `Divergence.BidBeforeTaskDiverges` shows that this is needed.
* The hash of an event's extrinsic is a function of the event, although the code drops it when the
  extrinsics cannot be fetched.
* The `ON CONFLICT` keys are unique and the written columns exist. The migrations do not declare
  uniqueness of `tasks.chain_task_id`, nor of `results.task_id` alone, nor a column `updated_at` on
  agents and results. The columns also take what is bound to them: `tasks.id`, `bids.task_id` and
  `results.task_id` are UUID columns, and the replay worker binds and reads them as text.
* The database encodes text in UTF-8, and a patched payload stays within the 4096 characters that the
  table allows; otherwise the patching UPDATE would fail as a whole.
* The code drops the errors of projection statements. Here such a statement succeeds unless the
  worker stops; the patches, whose errors do matter, are modelled with their failure.
* `LIMIT 1` without an order is a parameter, `Pick`. WHERE conditions are evaluated from left to right.
* An outbox payload is the JSON value its text denotes.

## Model

| member | source | states |
|---|---|---|
| `IdText.ExtractorsAgree` | orchestrator/api/src/chain.rs:773-785 | on every payload whatsoever the two extractors agree about the first id |
| `IdText.ExtractInvertsPrint` | orchestrator/api/src/chain.rs:773-785 | from every printed nonempty list of 64-bit ids the first extractor reads the first id and the other the first two, the second absent exactly for a list of one |
| `OutboxRows.PatchRowFrame` | orchestrator/api/src/chain.rs:808-842 | a patch touches only a zero id of a pending row, makes it the given id, and keeps the payload's other keys and their values, printed as jsonb and read again |
| `OutboxRows.PatchClearsPlaceholders` | orchestrator/api/src/chain.rs:808-842 | one UPDATE leaves no placeholder exactly when there was none, or the id is nonzero and every pending payload can be cast; it changes nothing but placeholders, and of them only the one key |
| `OutboxRows.PatchIdsClearsAll` | orchestrator/api/src/chain.rs:808-842 | with payloads that can be cast, patching with two nonzero ids, negative ones included, leaves no pending row with a zero task or agent id |
| `OutboxRows.PlaceholderWrittenOnce` | orchestrator/api/src/chain.rs:808-842 | over any sequence of patches a placeholder is written once, by the first nonzero id, and every other id field, payload field and column stays |
| `OutboxRows.OnePoisonBlocksAllPatches` | orchestrator/api/src/chain.rs:808-842 | one pending payload that cannot be cast keeps every patch of that key from having any effect |
| `PatchedCalls.PlaceholderSpells` | orchestrator/api/src/chain.rs:808-842 | a placeholder is a zero under `task_id` or `agent_id` of a pending payload, as an integer, a whole number or a text |
| `PatchedCalls.PoisonSpells` | orchestrator/api/src/chain.rs:808-842 | a payload cannot be cast exactly for a field under that key that is neither null nor a 64-bit integer, or for a U+0000 anywhere |
| `PatchedCalls.PatchedBidIsSubmitted` | orchestrator/api/src/chain.rs:825-838 | a bid queued with zeros is submitted, after a patch with both ids, with those ids under the keys the call reads; an id whose statement some pending payload makes fail stays zero |
| `PatchedCalls.PatchedResultIsSubmitted` | orchestrator/api/src/chain.rs:825-838 | the same for a result |
| `OutboxRows.OutboxTable.Record` | orchestrator/api/src/storage.rs:647-674 | enqueueing inserts a pending row, or makes the row of the same id pending again and replaces its payload only by a given one |
| `Projection.AgentBytesDiffer` | orchestrator/api/src/chain.rs:865-869 | different chain ids never share the 32-byte key of an agent |
| `EventEffects.AgentBytesSpell` | orchestrator/api/src/chain.rs:865-869 | the key of an agent is 32 bytes, little-endian its chain id |
| `EventEffects.LoggedKinds` | orchestrator/api/src/chain.rs:844-863 | exactly these fifteen kinds of events are supported |
| `EventEffects.BeyondOrders` | orchestrator/api/src/chain.rs:106-111 | an event is beyond the cursor exactly when it is later in the order of blocks, and within a block of events |
| `EventEffects.RegistrationEffect` | orchestrator/api/src/chain.rs:139-190 | after a registration the agent has its did, id and account, agents of that account without an id have this one, the outbox row of its extrinsic is finalized with the id, and all else stays |
| `EventEffects.CreationEffect` | orchestrator/api/src/chain.rs:191-281 | after a creation the task is pending, row and stub show requester and description, the stub the budget; an inserted row has the budget, one already there keeps id, budget and hash; the outbox row of its extrinsic is finalized with the id, and then pending zeros under `task_id` take it |
| `EventEffects.BidEffect` | orchestrator/api/src/chain.rs:282-354 | a bid changes nothing without its task; else the first of its agent is recorded under the did of a known agent or one made from the id, and the outbox row of its extrinsic is finalized with both ids |
| `EventEffects.CompletionEffect` | orchestrator/api/src/chain.rs:355-447 | a completion changes nothing without its task; else the task is completed with the hash, the result shows the block, the outbox row of its extrinsic is finalized with both ids, and then pending zeros of either kind take them |
| `EventEffects.OtherEffect` | orchestrator/api/src/chain.rs:137-482 | every other event, also one that cannot be decoded, changes nothing but the log |
| `Convergence.PassIsIdempotent` | orchestrator/api/src/chain.rs:137-482 | replaying a complete causal block changes nothing but generated ids |
| `Convergence.ReplayConverges` | orchestrator/api/src/chain.rs:137-482 | any prefix of a block, then the whole block, gives the tables of the whole block once |
| `Convergence.ReplayConvergesAfterCrashes` | orchestrator/api/src/chain.rs:137-482 | the same after any number of prefixes of any lengths |
| `Convergence.DoneStays` | orchestrator/api/src/chain.rs:137-471 | what a projection has established no later projection takes back, unless that one creates the task the first had been waiting for |
| `Convergence.OutboxKeysKept` | orchestrator/api/src/chain.rs:150-447 | the replay worker neither adds nor removes outbox rows, and never changes a transaction hash |
| `Divergence.ConvergesIffCalm` | orchestrator/api/src/chain.rs:808-842 | replay is harmless for every causal block and every point of interruption exactly when whether patches have an effect cannot change during a block |
| `Divergence.PatchOrderMatters` | orchestrator/api/src/chain.rs:808-842 | the counterexample: a finalization that lifts the blockade lets the replayed first id win where the last had won |
| `Divergence.BidBeforeTaskDiverges` | orchestrator/api/src/chain.rs:300-347 | without causal order a bid is lost by a clean pass and kept by an interrupted one |
| `Reachability.UnsentIsCalm` | orchestrator/api/src/chain.rs:808-842 | an outbox whose pending rows have no hash yet is calm |
| `Reachability.FreshIdsConverge` | orchestrator/api/src/main.rs:382-425 | over every run of workers, enqueuers, replayer and backfiller in which no id is enqueued twice, and any further statements of the replay worker, the outbox is calm, and every causal block can be interrupted anywhere and replayed |
| `Reachability.RecordingTwiceDiverges` | orchestrator/api/src/storage.rs:655-663 | a run from the empty table with one id enqueued twice, all of whose payloads pass the check, ends in an outbox from which some causal block is not replayed safely |
| `Reachability.NulIsAccepted` | orchestrator/api/src/chain.rs:1181-1184 | a payload with U+0000 in a text passes the check and builds, and makes every patch of either key fail |
| `WriteRules.NothingOutside` | orchestrator/api/src/chain.rs:288-294 | before the first and after the last statement for a row that is not skipped for want of its task, no statement for it counts |
| `WriteRules.FirstBidWins` | orchestrator/api/src/chain.rs:295-336 | over any list of statements a bid that is there stays, and another is there exactly when some statement for it counts, and is as the first of these made it |
| `WriteRules.FirstAgentLastBlock` | orchestrator/api/src/chain.rs:368-411 | over any list of statements a result keeps the agent of the first statement that counts and shows the block of the last, its stub also that one's agent |
| `WriteRules.LastStatusShows` | orchestrator/api/src/chain.rs:214-250 | over any list of statements a task is completed or pending by the last of its statements that counts; id and budget never change |
| `WriteRules.LastCreationShows` | orchestrator/api/src/chain.rs:196-250 | over any list of statements row and stub of a task show requester, description and budget of the last creation, the budget column the first one, and without a creation all but status and hash stay |
| `WriteRules.LastRegistrationShows` | orchestrator/api/src/chain.rs:144-190 | over any list of statements a registered agent shows its last registration; any other keeps title and account, and its chain id if it has one, else gets the first one offered to its account |
| `WriteRules.FinalizedByHash` | orchestrator/api/src/chain.rs:164-177 | over any list of statements an outbox row becomes finalized exactly by an event of an extrinsic with its own hash, takes the last ids such events bring, and keeps every other column but its payload |
| `WriteRules.UnsentStays` | orchestrator/api/src/chain.rs:164-177 | a row without a hash keeps everything but its payload |
| `ReplayMachine.NextCursorIsLast` | orchestrator/api/src/chain.rs:81-111 | the cursor after a block is its last supported event beyond the old cursor, or the old cursor |
| `ReplayMachine.RunInv` | orchestrator/api/src/chain.rs:68-491 | in every state of every run the saved cursor is the last supported event of its block, all unfinished passes are over the next block with work, and the tables are those passes applied to a clean state |
| `ReplayMachine.SettledStateIsClean` | orchestrator/api/src/chain.rs:68-491 | after any run with crashes and reconnects, when no pass is under way or cut off, the tables are those of one clean pass over all blocks up to the cursor |
| `ReplayMachine.RunKeepsCursor` | orchestrator/api/src/chain.rs:68-491 | the cursor's part of this, on any chain, from any database, with the outbox rewritten by others at any time |
| `ReplayMachine.SettledTablesAreClean` | orchestrator/api/src/chain.rs:68-491 | agents, tasks, bids, results and log are those of one clean pass whatever others write to the outbox, calm or not |
| `ReplayMachine.CursorMonotone` | orchestrator/api/src/chain.rs:484-491 | along every run, on any chain and with any other writers, the saved cursor never decreases lexicographically |
| `ReplayProgress.PassCompletes` | orchestrator/api/src/chain.rs:75-491 | an undisturbed pass over any block handed out leaves the tables after all its statements in order, and the cursor on its last supported event beyond the old one |
| `ReplayProgress.CanFinish` | orchestrator/api/src/chain.rs:55-491 | from every state that crashes and reconnects can lead to there is a way on, to the tables of one clean pass over the whole chain |
| `EventLog.BlockWrites` | orchestrator/api/src/chain.rs:106-116 | the log statements of a block name exactly its supported events beyond the cursor |
| `EventLog.LogAfterRun` | orchestrator/api/src/storage.rs:586-612 | over any list of statements a log entry that is there stays, and every event a statement names has one |
| `EventLog.ExactlyOnceLog` | orchestrator/api/src/chain.rs:68-491 | in every run on any chain, from an empty log, with any other writers, the log holds exactly the supported events up to the cursor, as they are on the chain, and beyond it only events of one block |
| `EventLog.SkippedBlockLosesEvents` | orchestrator/api/src/chain.rs:84-90 | in a session from any block on, a block whose fetch failed loses events for good exactly when a later block is fetched and holds a supported event beyond the cursor |
| `ReplayWorker.ChainStore.UpdateChainCursor` | orchestrator/api/src/storage.rs:614-645 | a saved cursor is loaded as the same pair of unsigned numbers, whatever the signed casts do |
| `ReplayWorker.ChainStore.LastChainCursor` | orchestrator/api/src/storage.rs:634-645 | loading gives the stored cursor, read back as unsigned numbers |
| `ReplayWorker.ChainStore.UpsertStub` | orchestrator/api/src/chain.rs:214-250 | a first creation inserts a pending row; a repeated one replaces requester, description and stub, puts the status back to pending, and keeps id and budget |
| `ReplayWorker.ChainStore.InsertStubBid` | orchestrator/api/src/chain.rs:318-336 | the first bid of an agent on a task stays |
| `ReplayWorker.ChainStore.UpsertStubResult` | orchestrator/api/src/chain.rs:388-411 | a result keeps its first agent and takes the last output |
| `ReplayWorker.ChainStore.MarkCompleted` | orchestrator/api/src/chain.rs:412-424 | a completed task takes the status and the result hash, and keeps the rest |
| `ReplayWorker.ChainStore.ProjectAgentRegistered` | orchestrator/api/src/chain.rs:139-190 | the statements of a registration, in their order |
| `ReplayWorker.ChainStore.ProjectTaskCreated` | orchestrator/api/src/chain.rs:191-281 | the statements of a creation, in their order |
| `ReplayWorker.ChainStore.ProjectBidSubmitted` | orchestrator/api/src/chain.rs:282-354 | the statements of a bid, which fall away without the task |
| `ReplayWorker.ChainStore.ProjectTaskCompleted` | orchestrator/api/src/chain.rs:355-447 | the statements of a completion, which fall away without the task |
| `ReplayWorker.ChainStore.ProjectEvent` | orchestrator/api/src/chain.rs:137-471 | all four kinds of events equal their lists of statements, and any other event has none |
| `ReplayWorker.ChainStore.IngestEvent` | orchestrator/api/src/chain.rs:106-482 | projections first, the log entry last; a failing log insert leaves the projections |
| `ReplayWorker.ChainStore.IngestBlock` | orchestrator/api/src/chain.rs:81-491 | a block that succeeds has the effect of its list of statements and saves the cursor if it moved; one whose log insert fails leaves a prefix of that effect and the cursor where it was |
| `ReplayWorker.StubIdDrifts` | orchestrator/api/src/chain.rs:214-260 | the id inside `stored_json` is the row's id exactly as long as the creation has been executed once |
| `ReplayWorker.StatusRegressesIff` | orchestrator/api/src/chain.rs:214-260 | a completed task goes back to pending exactly when its creation is projected again |
| `OutboxMachine.RunKeepsInv` | orchestrator/api/src/chain.rs:542-653 | over every interleaving: a failed row has 1 to 5 attempts and a dead one 6 or more, a finalized row has a hash and so an attempt, no two workers hold one row, a held row is as its worker read it, and every hash is one the chain gave for that row |
| `OutboxMachine.CommittedPayload` | orchestrator/api/src/chain.rs:542-606 | the payload a worker submitted is the row's payload when it commits |
| `OutboxMachine.RunGrows` | orchestrator/api/src/chain.rs:583-648 | retry counts never fall, hashes and chain ids are never cleared, rows are never deleted |
| `OutboxMachine.SettledRowRests` | orchestrator/api/src/chain.rs:547-556 | a row that is not pending keeps payload, attempts and hash until it is enqueued again, whatever all the actors do |
| `OutboxMachine.AcceptedAtMostOnce` | orchestrator/api/src/chain.rs:576-653 | over every interleaving the chain accepts a row at most once, if no worker stops between the answer for it and the commit and it is not enqueued anew once finalized |
| `OutboxMachine.AtMostOnceIff` | orchestrator/api/src/chain.rs:576-653 | both conditions are needed: at most once over all runs exactly when both are ruled out |
| `OutboxMachine.FinalizeRowByRow` | orchestrator/api/src/chain.rs:164-177 | a finalization of one row is what the UPDATE by hash does to it, and waits for a held row |
| `OutboxMachine.PatchRowByRow` | orchestrator/api/src/chain.rs:808-842 | the same for a patch that can be cast |
| `OutboxMachine.FillRowByRow` | orchestrator/api/src/chain.rs:721-766 | a fill sets missing ids and nothing else, and waits for a held row |
| `OutboxWorker.Worker.FetchJob` | orchestrator/api/src/chain.rs:547-561 | an oldest pending row, and none exactly when nothing is pending |
| `OutboxWorker.Worker.Iterate` | orchestrator/api/src/chain.rs:541-653 | one iteration of the loop on table and counters |
| `OutboxWorker.Worker.RunOutbox` | orchestrator/api/src/chain.rs:541-671 | the loop and its surroundings follow the given ticks |
| `OutboxWorker.ConnectionErrIff` | orchestrator/api/src/chain.rs:787-789 | an error is taken for a connection error exactly when one of three words stands anywhere in it |
| `OutboxWorker.IterationEffect` | orchestrator/api/src/chain.rs:576-648 | an iteration settles an oldest pending row: finalized under its hash, untouched by a connection error, failed up to the fifth attempt and dead from the sixth on with at most 512 characters of the error |
| `OutboxWorker.IterationIsTransaction` | orchestrator/api/src/chain.rs:542-653 | with no row held an iteration is one transaction of the machine of many workers |
| `OutboxWorker.CountersCount` | orchestrator/api/src/chain.rs:583-630 | submitted, failed and dead count the commits that leave their row finalized, failed and dead, and retried the latter two |
| `OutboxWorker.AttemptsConserved` | orchestrator/api/src/chain.rs:583-648 | at every loop head retried is failed plus dead, and submitted plus retried is the growth of all retry counts |
| `OutboxWorker.QueueOrder` | orchestrator/api/src/chain.rs:547-611 | with increasing stamps and new ids, rows leave pending in enqueue order, whatever connection errors, patches and finalizations of submitted rows come between |
| `OutboxWorker.DrainMeasure` | orchestrator/api/src/chain.rs:542-653 | under the same ticks pending rows plus committed jobs grow exactly by the arrivals |
| `OutboxWorker.DrainsCompletely` | orchestrator/api/src/chain.rs:542-653 | without arrivals n pending jobs are drained by n iterations that are not connection errors, however these are mixed with others, with patches and finalizations |
| `OutboxWorker.HeadOfLineBlocks` | orchestrator/api/src/chain.rs:606-613 | a job taken for a connection error every time stays at the head, and no other job or counter moves, whatever arrives, is patched or finalized meanwhile |
| `Backfill.UseEvent` | orchestrator/api/src/chain.rs:716-769 | the UPDATEs for one matching event fill only what is missing |
| `Backfill.PrintedOffers` | orchestrator/api/src/chain.rs:716-766 | a printed registration offers its agent id, the other three kinds their task id, and nothing else |
| `Backfill.BackfillOnce` | orchestrator/api/src/chain.rs:685-771 | the nested loops compute the simple rule: each selected row gets the first offered id of each kind |
| `Backfill.FirstOfferIsNewest` | orchestrator/api/src/chain.rs:693-769 | that id is the one of the newest event of the row's correlation id that can be read |
| `Backfill.PassIsStable` | orchestrator/api/src/chain.rs:707-769 | a missing id of a selected row becomes the first one offered; a set id, any other column and any other row never change, and a second pass changes nothing |
| `Backfill.PassChangesIff` | orchestrator/api/src/chain.rs:707-769 | a pass changes the table exactly when a selected row misses an id that an event of its own correlation id offers |
| `Backfill.BackfillIsInert` | orchestrator/api/src/chain.rs:685-771 | with hashes on the events and generated ids on the rows a pass has no effect |
| `StorageHistory.MemShowsLast` | orchestrator/api/src/storage.rs:51-93 | over any run of calls an agent or a task in memory is found as its last write under that very id text left it |
| `StorageHistory.MemShowsLastAnswer` | orchestrator/api/src/storage.rs:95-123 | the same for bids and results by their own ids |
| `StorageHistory.PgShowsLastAgent` | orchestrator/api/src/storage.rs:280-308 | in Postgres an agent is found as its last registration that was not refused left it |
| `StorageHistory.PgShowsTask` | orchestrator/api/src/storage.rs:325-427 | in Postgres a task is found as its last upsert left it, or else as it was before or as its first insert made it |
| `StorageHistory.TaskVerdict` | orchestrator/api/src/storage.rs:325-409 | which task writes Postgres refuses, with which error, and that a refused one has no effect |
| `StorageHistory.BidVerdict` | orchestrator/api/src/storage.rs:446-474 | the same for a bid, and what one accepted leaves: a used id keeps its row |
| `StorageHistory.ResultVerdict` | orchestrator/api/src/storage.rs:493-534 | the same for a result, and that one accepted replaces the one the task had |
| `Storage.InMemoryStorage.GetTask` | orchestrator/api/src/storage.rs:82-88 | the task stored under the id's very text, or not found |
| `Storage.InMemoryStorage.GetResultForTask` | orchestrator/api/src/storage.rs:116-123 | some result of the task, and not found exactly when there is none |
| `Storage.InMemoryStorage.DashboardCounts` | orchestrator/api/src/storage.rs:125-134 | the loop counts the completed tasks; the rest are pending |
| `Storage.PostgresStorage.CheckTask` | orchestrator/api/src/storage.rs:325-345 | which tasks are refused before the statement, and with which error |
| `Storage.PostgresStorage.InsertTask` | orchestrator/api/src/storage.rs:325-361 | the first task of an id stays |
| `Storage.PostgresStorage.UpsertTask` | orchestrator/api/src/storage.rs:363-409 | the last task of an id wins |
| `Storage.PostgresStorage.GetTask` | orchestrator/api/src/storage.rs:411-427 | the stored value under the status of the column, by any spelling of the id |
| `Storage.PostgresStorage.InsertBid` | orchestrator/api/src/storage.rs:446-474 | a bid is refused without its task or beside another of the same task and agent; a used id is ignored |
| `Storage.PostgresStorage.InsertResult` | orchestrator/api/src/storage.rs:493-534 | a task's result is replaced by the next, unless its id belongs to another task |
| `Storage.PostgresStorage.GetResultForTask` | orchestrator/api/src/storage.rs:536-548 | the one result of the task, or not found |
| `StorageRefinement.StepAgreesIff` | orchestrator/api/src/storage.rs:49-580 | from corresponding states a call is answered alike and leads to corresponding states exactly when it is admissible: canonical ids, new or saying the same; no U+0000 in a text; amounts and deadlines in range; one bid for each task and agent; one result for each task |
| `StorageRefinement.RunsMatch` | orchestrator/api/src/storage.rs:49-580 | over every admissible run the states correspond |
| `StorageRefinement.BackendsAnswerAlike` | orchestrator/api/src/storage.rs:49-580 | from empty storage, over every admissible run, both give the same answer to every call, lists taken without their order |
| `StorageRefinement.DashboardAgrees` | orchestrator/api/src/storage.rs:550-580 | the counts by the status column equal the counts over the map |
| `Handlers.EveryInterleaving` | orchestrator/api/src/main.rs:524-537 | in every interleaving, with requests abandoned and writes failing anywhere: each result's task exists and is completed, each bid's task exists, no task goes back to pending, no other task field ever changes |
| `Handlers.CompletedHasResult` | orchestrator/api/src/main.rs:524-537 | over every run without abandoned requests between the two writes and without a failed insert, each completed task has a result or a request on its way to insert it |
| `Handlers.CompletedHasResultIff` | orchestrator/api/src/main.rs:524-537 | over all runs this holds exactly when such losses are ruled out |
| `Records.EveryRecordWasSubmitted` | orchestrator/api/src/main.rs:524-537 | over every interleaving each stored task, bid and result is one that was there at the start or has, field by field, the contents some request submitted, under the id it was given |
| `Records.SubmittedIsStored` | orchestrator/api/src/main.rs:524-537 | what a request submits is carried by that request, and stays with it until it is stored, unless the request ends before |
| `Handlers.SubmitTask` | orchestrator/api/src/main.rs:381-428 | undisturbed: refused exactly for a blank description or input that is no base64, and then without effect; otherwise the task with the submitted fields is stored and returned, nothing else changes, and its payload is always queued, unless the write fails or the budget exceeds 64 bits |
| `Handlers.SubmitBid` | orchestrator/api/src/main.rs:443-511 | undisturbed: refused exactly without its task or with a blank agent id, and then without effect; otherwise the bid with the submitted fields is stored and returned, nothing else changes, and its payload is queued |
| `Handlers.SubmitResult` | orchestrator/api/src/main.rs:524-595 | undisturbed: refused exactly without its task, with a blank agent id or with output that is no base64, and then without effect; otherwise the task is completed, the result with the submitted fields is stored and returned, nothing else changes, and its payload is queued |
| `Handlers.ExecuteTaskLocal` | orchestrator/api/src/main.rs:716-734 | the same for local execution, with the engine's output in the result; a failing engine leaves the storage as it was |
| `Submissions.TaskShownBack` | orchestrator/api/src/model.rs:225-255 | a task is accepted exactly when described and when its input is the encoding of some bytes; it is shown back as submitted, pending, its requester readable as 32 bytes |
| `Submissions.ResultShownBack` | orchestrator/api/src/model.rs:298-326 | a result is accepted exactly when it names its agent and its output is the encoding of some bytes, and is shown back with the identical output text |
| `Submissions.EngineOutputSurvives` | orchestrator/api/src/execution.rs:63-80 | every output of an engine survives encoding and decoding; the codec is never the reason for a refusal |
| `Submissions.InputComesBack` | orchestrator/api/src/execution.rs:63-80 | with an engine that returns its input, the submitted input text comes back as the output text |
| `Base64.DecodeEncode` | orchestrator/api/src/model.rs:213-223 | decoding undoes encoding, for every byte string (sections 3.5 and 4 of RFC 4648) |
| `Base64.EncodeDecode` | orchestrator/api/src/model.rs:309-311 | an accepted text is the only encoding of its bytes: padding is complete and its stray bits are zero |
| `Base64.AcceptsExactlyEncodings` | orchestrator/api/src/model.rs:309-311 | the decoder accepts the encodings and nothing else |
| `CodecTables.EncodeByThrees` | orchestrator/api/src/model.rs:309-311 | the encoding goes by groups of three bytes and four symbols, padded at the end (section 4 of RFC 4648) |
| `CodecTables.HexDigitAt` | orchestrator/api/src/model.rs:425-433 | each byte is its upper and its lower hex digit, in this order (section 8 of RFC 4648) |
| `CodecTables.Utf8Spells` | orchestrator/api/src/chain.rs:898 | the bytes of a character are its UTF-8 (section 3 of RFC 3629) |
| `Hex.HexRoundTrip` | orchestrator/api/src/chain.rs:1230-1238 | "0x" and lower-case digits, or the digits alone, are read back as the same bytes exactly if these are 32 (section 8 of RFC 4648) |
| `Hex.HexAcceptsIff` | orchestrator/api/src/chain.rs:1230-1238 | accepted are 64 hex digits of either case after any number of prefixes; re-encoding gives the trimmed, lower-cased text |
| `Hex.SameValueIff` | orchestrator/api/src/chain.rs:1230-1238 | two accepted texts mean the same value exactly when they differ in case and prefixes only |
| `Hex.TrimPrefixMeaning` | orchestrator/api/src/chain.rs:1230-1233 | trimming removes whole prefixes from the front, and leaves none |
| `Hex.RequesterHex` | orchestrator/api/src/model.rs:425-433 | the loop writes the lower-case hex of the requester, which reads back as the same 32 bytes |
| `Calls.SamePairs` | orchestrator/api/src/chain.rs:886-1207 | check and builder call the same pairs of pallet and call unsupported, on every payload |
| `Calls.CheckedRegisterBuilds` | orchestrator/api/src/chain.rs:1135-1157 | a checked registration always builds, and each checked limit holds of the bytes that are built |
| `Calls.AttestationIsUnbounded` | orchestrator/api/src/chain.rs:907-910 | an attestation of any length passes the check and is built |
| `Calls.BuiltExactlyIff` | orchestrator/api/src/chain.rs:936-1075 | a checked call of the task market builds exactly when its numbers are present as 64-bit unsigned integers, and carries them unchanged exactly when the checks whose outcome is dropped would have passed |
| `Calls.CheckedTransferIff` | orchestrator/api/src/chain.rs:1071-1084 | a checked transfer builds exactly when its address parses, and is then one to that account of the amount in the payload |
| `Calls.LevelIff` | orchestrator/api/src/chain.rs:1209-1228 | each level is named by its text in any letter case and nothing else, best effort also by an absent field |
| `Calls.TaskPayloadBuilds` | orchestrator/api/src/main.rs:391-402 | a new task's payload exists exactly when its budget fits 64 bits; it is then always queued and built, and its deadline arrives unchanged exactly when it fits 32 bits |
| `Calls.BidPayloadBuildsIff` | orchestrator/api/src/main.rs:455-492 | a bid's payload is always queued, and builds exactly when both chain ids are non-negative |
| `Calls.ResultPayloadBuildsIff` | orchestrator/api/src/main.rs:539-574 | the same for a result |
| `CallMeanings.RegisterMeaning` | orchestrator/api/src/chain.rs:890-931 | for every payload and every registration: the one becomes the other exactly when did, capabilities, metadata, attestation and level are those of the payload and within their limits |
| `CallMeanings.CreateMeaning` | orchestrator/api/src/chain.rs:932-957 | the same for a creation; the deadline is the lower 32 bits |
| `CallMeanings.BidMeaning` | orchestrator/api/src/chain.rs:958-988 | the same for a bid; the duration is the lower 32 bits |
| `CallMeanings.RevealMeaning` | orchestrator/api/src/chain.rs:989-1018 | the same for a revealed bid |
| `CallMeanings.AllocateMeaning` | orchestrator/api/src/chain.rs:1019-1036 | the same for an allocation |
| `CallMeanings.ResultMeaning` | orchestrator/api/src/chain.rs:1037-1070 | the same for a result and its proof of at most 4096 bytes |
| `CallMeanings.TransferMeaning` | orchestrator/api/src/chain.rs:1071-1084 | the same for a transfer: the amount of the payload, to the account its address of at most 128 bytes stands for |
| `CallMeanings.NothingToBuild` | orchestrator/api/src/chain.rs:880-886 | a row without a payload never builds, nor one whose payload is not JSON |
| `CallMeanings.FaucetTransfers` | orchestrator/api/src/main.rs:662-699 | a faucet request is queued exactly with an address of at most 128 bytes, and becomes a transfer to its account of the amount asked for, or of 10^12 |
| `WasmAbi.AnswersIff` | agents/foundation/echo-wasm/src/lib.rs:18-50 | for every pair of 32-bit arguments the guest answers exactly when they are non-negative, the input lies in the slice, the agent succeeds and the output fits behind the input; it then lies in bounds and apart from the input |
| `WasmAbi.UnpackPack` | agents/foundation/echo-wasm/src/lib.rs:48-49 | packing by shift and or, unpacking by mask and arithmetic shift lose nothing |
| `WasmAbi.HostUnpacks` | runtimes/wasm-rust/src/lib.rs:78-85 | the host recovers exactly pointer and length of an answer, and rejects exactly the guest's -1 |
| `WasmAbi.Execute` | agents/foundation/echo-wasm/src/lib.rs:18-50 | on linear memory: the returned word, and the output written into its place with all other bytes unchanged |
| `WasmAbi.CallAndRead` | runtimes/wasm-rust/src/lib.rs:74-96 | the call of the guest, the unpacking of its return and the read have the stated outcome |
| `WasmAbi.Run` | runtimes/wasm-rust/src/lib.rs:48-96 | the host's write, call and read have the stated outcome |
| `WasmAbi.RunsAgentIff` | runtimes/wasm-rust/src/lib.rs:61-96 | with the slice at offset 0 the host gets exactly the agent's output for exactly its input whenever both fit, otherwise an error; a length of 2^32 is cut to zero |
| `WasmAbi.InputMissed` | agents/foundation/echo-wasm/src/lib.rs:52-63 | with the slice behind the input, all inputs of one length end alike |

## Left out

* The Subxt client, signing, finalization of extrinsics, SS58 addresses and blake3: an answer of the chain, an address parser and a hash are parameters.
* Parsing and printing of JSON text, and serde: `stored_json` and payloads are the values their text denotes.
* The UPDATE that links the oldest unlinked task (chain.rs:267-278): Postgres rejects its form and the error is dropped.
* The `TaskMatched` branch (chain.rs:448-470): `is_supported` does not list it, so it is never reached.
* Timestamps, except as the sort key of outbox rows and as a range check on deadlines; sleeps, metrics, logging, routing and HTTP errors.
* Rows are keyed by their natural key, with the generated id as an attribute; the database's own concurrency below single statements is not modelled.
* `OutboxWorker.Worker.RunOutbox`: runs over a given finite list of ticks, because the original loop never ends.
* `OutboxMachine.RunKeepsInv`: patches row by row, without the failure of a whole patching statement, which `OutboxRows` models; the overflow of a 32-bit retry count is not modelled.
* `Divergence.ConvergesIffCalm`: is exact under the assumption on the length of patched payloads above; the table's CHECK on it is not modelled.
* `OutboxRows.OutboxTable.Record`: cuts of error texts elsewhere in that table count characters, not bytes, so a cut within a multi-byte character is not modelled.
* `Handlers.EveryInterleaving`: is stated over the hash maps with writes that may fail; what Postgres does on the same calls is the matter of `StorageRefinement`. What the handlers enqueue is in `Handlers.SubmitTask` and its neighbours, undisturbed; the chain ids they look up are parameters.
* `StorageRefinement.StepAgreesIff`: knows the limits of 64-bit amounts, of timestamps and of text; a size limit, such as that of an index entry on a very long agent id, is not modelled.
* `WasmAbi.Run`: instantiation, missing exports and traps of the guest are not modelled.
* `Submissions.TaskShownBack`: task type, client id, specification metadata and the random core task id are not modelled; nor are quality score and completion time of a bid.
* The HTTP clients, the `web/` tree, scripts, deployment files, and the constants and traits of `ainur-core`.
