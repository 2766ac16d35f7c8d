# go-pg-dts: what copying a table and following its changes guarantees

go-pg-dts copies PostgreSQL tables with many snapshot workers and then follows their changes through a
logical replication slot. This project models the parts that carry its promise to lose nothing, and proves when
the promise holds. Where the code does not keep it, the exact condition is proved.

The model has four connected parts.

* **Decoding.** `Bytes`, `Tuples`, `Messages` are the pgoutput decoder: a cursor over a byte string, the relation
  cache and the streamed-transaction flag as decoder state, the substitution of unchanged TOAST columns. `WireStream`
  is the server's encoder (section 55.9, "Logical Replication Message Formats", of the PostgreSQL 16 documentation)
  and the round trips, `WireBytes` checks the encoder against the byte strings of the repository's tests, and
  `DecodeLimits` treats what is too short, cut off or unknown. `Lsn` is the text form of positions. An out-of-range
  slice is Go's panic and is the error value `Panic`.
* **The acknowledge pipeline.** `Sink` and `Stream` are the receive loop that holds one message back, the acknowledge
  closure and the start gate; `Producer`, `Flush` and `KafkaWorker` are the consumers that batch, write and
  acknowledge. `Pipeline` puts them together as a step system over server log, connection, sink, channel, queue,
  target and confirmed position, with a crash possible after every step. Transactions are logged in commit order, but
  the changes of one may lie before the commits of others. `Confirm` is about the progress of the slot.
  `KafkaDelivery` is the same pipeline where writing a batch is not atomic. `Acks` compares acknowledging a batch's
  last item with acknowledging all. `Rows` and `Convergence` say what the target holds.
* **The snapshot.** `GoInt` is Go's wrapping int64, `ChunkPlan` the three planners and the queries built from their
  chunks, `ChunkCover` the exact condition under which they read every row once, `ChunkSizes` how large they are and
  which tables get none. `SnapshotTables` holds the chunk and job
  rows and the statements on them. `SnapshotProtocol` interleaves any number of workers with failures, retries, releases,
  stale reclaims and crashes; `SnapshotRuns` and `SnapshotProgress` treat the runs with fresh heartbeats and the runs
  without errors, `SnapshotEnds` how runs with failing chunks end, `SnapshotRecovery` how every run can be completed.
* **The hand-off.** `Schedule` is about snapshot rows and changes that reach the target in any order, and about batches
  that hold both. `Handoff` takes slot, position and export in the order of the code, while other transactions commit,
  attempts are retried and rows land; `Landing` opens the stream behind it and says exactly when the target becomes the
  source. `Migration` composes planning, workers, hand-off and stream into one statement about the target.

The classes follow the source's objects; their methods are proved against specification functions (`SinkRun`,
`BatchMeaning`, `Dispatch`, `WorkedOff`, `TablePlan`), and the lemmas are about these functions.

## What the results rest on

* **No streamed transactions in the pipeline.** The code requests `streaming 'true'`
  (`pq/replication/replication.go:24-28`), and a streamed transaction's commit is silent. `Sink.NothingLostIff` is the
  exact condition for any sequence of events; `Pipeline` and what builds on it use transactions that end with a commit message.
* **Undecodable messages are skipped** (`pq/replication/stream.go:255-258`) **and updates may change their primary key.**
  Neither is excluded from the exact results `Convergence.DrainedEqualsSourceIff`, `Landing.LandingIff`,
  `Landing.BarrierIff` and `Migration.MigrationIff`: they name the two ways in which a key then ends wrong, a row left
  behind under a key that an update left for good, and a skipped last change that nothing made up for.
  `Convergence.AddressedAgain` and `Convergence.DrainedDecodableIff` are the special cases. The good cases
  (`Convergence.DrainedEqualsSource`, `Landing.SnapshotThenStream`, `Migration.MigrationReachesSource`) take decodable
  changes that keep their key as hypotheses; `Pipeline.ConfirmedIsDurable` speaks of the decodable changes.
* **A transaction must end with a message the consumer queues** for its end to be confirmed. The database consumer drops
  relation messages without acknowledging them (`example/postgresql/main.go:258-308`). If one is the last message of a
  transaction, because its own change is skipped, the end of the transaction goes with it: the rows are written,
  but the transaction is delivered again after every restart (`Confirm.ConfirmedIff`, `Confirm.RelationLast`).
* **Full row images** (`REPLICA IDENTITY FULL`) for convergence, a target schema with the same columns, and a source that
  accepted its own changes (no insert of a present key, no update of an absent one).
* **One coordinator epoch.** No job is cleaned up between the completion check and the completion mark.
* **Every commit below the captured position is visible to the export.** The code takes slot, position and export in
  this order (`connector.go:385-392`, `pq/snapshot/coordinator.go:209-216`); the comment at
  `pq/snapshot/snapshot.go:86-98` asks for the slot to be created last, and `Handoff.LateSlotLosesRow` shows what that would lose.
* **When handed-over rows are written.** Nothing in the exact results (`Landing.LandingIff`, `Migration.MigrationIff`)
  depends on it: rows may land at any time, also between the changes of the stream. They name the four ways in
  which a key can end wrong by it: its row is missing, it holds a stale row, a row brings it back after its deletion,
  or a row in a mixed batch overwrites its last change. The code waits 60 s to rule the last two out (`connector.go:286-291`), but
  before the gate that polls the job (`pq/replication/stream.go:415-418`): an instance that finishes early does not wait
  again after the others, and a row handed to a worker that dies before writing it is not handed over again.
  `Schedule.LateRowRevives` is a deleted row that comes back; `Landing.SnapshotThenStream` and
  `Migration.MigrationReachesSource` take the barrier as a hypothesis.
* **One attempt, or nothing stale from earlier ones.** A retry after copying began exports again but leaves the rows of the
  first copy in the target (`connector.go:383`, `pq/snapshot/coordinator.go:30-57`), and insert-if-absent never
  replaces them. `Landing.BarrierIff` is the exact condition; `Handoff.RetryKeepsStaleRow` is a run that ends with a row
  the source no longer has.
* **Mixed batches.** A snapshot row in a batch with a change item is upserted. `Schedule.MixedBatchIff` says
  exactly which batches do no harm.
* **No failing chunk in the last worker** for completion. A worker that fails a chunk goes on and returns no error
  (`pq/snapshot/worker.go:187-197`), and the job is then left incomplete. `SnapshotEnds.StoppedJobIff` says exactly when it
  is completed once all workers have stopped; otherwise nothing completes it until another worker joins
  (`SnapshotEnds.StoppedForGood`), and the stream goes on polling. One worker that joins is enough
  (`SnapshotRecovery.JobCanAlwaysComplete`).
* **Fresh heartbeats** for claim exclusion. Nothing enforces them: a chunk id that finds the heartbeat channel full is dropped
  (`pq/snapshot/worker.go:242-247`).

Where code and comments disagree the model follows the code. The stamps of the stream are not monotone, although
`example/postgresql/main.go:486` says so (`Acks.StampsNotMonotone`); acknowledging the last item is safe for
another reason, `Pipeline.StampCovers`. Releasing a chunk is unconditional (`pq/snapshot/worker.go:594-611`), so a
completed chunk can become pending again; safety is stated over what was handed over, not over the status.

## Model

| member | source | states |
|---|---|---|
| Sink.SinkRefinesLookahead | pq/replication/stream.go:163-168 | For any event sequence, what the one-message buffer sends and holds is decided message by message by the next relevant event: a commit restamps, a message lets pass, a begin drops. |
| Sink.TransactionRefinesBatch | pq/replication/stream.go:259-283 | A transaction that is not streamed sends its decodable messages in order, only the last restamped with the commit's end position, whatever was held before, and leaves nothing held. |
| Sink.NothingLostIff | pq/replication/stream.go:255-283 | Sent plus held messages are all decoded messages in order if and only if no message is followed by a begin before a commit or another message. |
| Sink.StreamedTransactionLoses | pq/message/message.go:50-61 | A streamed transaction followed by an ordinary one loses its last change. |
| Stream.Stream.constructor | pq/replication/stream.go:71-86 | A new stream has acknowledged nothing and does not start from the snapshot. |
| Stream.Stream.Sink | pq/replication/stream.go:158-291 | The receive loop leaves buffer and channel as the fold of the sink step says; it sends one report for every keepalive that asks for it and, once a position was acknowledged, for every idle interval, and each is the acknowledged position and nothing higher. |
| Stream.Stream.Process | pq/replication/stream.go:295-327 | The listener receives the oldest message of the channel. |
| Stream.Stream.UpdateXLogPos | pq/replication/stream.go:356-363 | The position becomes the maximum of itself and the argument. |
| Stream.Stream.SendStandbyStatusUpdate | pq/replication/stream.go:449-465 | The acknowledged position is reported; reports never decrease. |
| Stream.Stream.Ack | pq/replication/stream.go:298-312 | Acknowledging a message raises the position to at least its stamp and reports the result once; reports stay non-decreasing. |
| Stream.Stream.OpenFromSnapshotLSN | pq/replication/stream.go:371-373 | The next setup takes its position from the job. |
| Stream.Stream.Setup | pq/replication/stream.go:128-146 | With a snapshot, replication starts at l if and only if the first decisive poll finds a completed job with position l, and fails for a missing job if and only if that poll finds none; failed queries and incomplete jobs are retried. |
| Pipeline.StepKeepsDelivery | pq/replication/stream.go:158-327 | Commit, receive, enqueue, write, acknowledge, report and restart all keep the delivery invariant: what the session owes is written, queued, in the channel, held or on the wire, in order, and no position is ahead of what is written. |
| Pipeline.StampCovers | pq/replication/stream.go:264-271 | The ordering argument: when a message is written, every transaction whose commit lies below its stamp has been written completely, although stamps are not monotone. |
| Pipeline.ConfirmedIsDurable | example/postgresql/main.go:459-508 | After any run with any number of crashes, every transaction that ends at or below the confirmed position, or that the slot would skip, has all its decodable messages among the written ones, each as often as decoded, in order and with nothing between; and the target is what the written changes, in the order of writing, make of the initial one. |
| Pipeline.CanDrain | example/postgresql/main.go:380-436 | Nothing is stuck: from every reachable state receiving, queueing, writing and acknowledging alone drain everything on the way, the last acknowledgement included. |
| Confirm.StepKeepsNoted | example/postgresql/main.go:488-496 | Every step keeps: the stamp of the last item written is acknowledged or about to be, and nothing but stamps of written items is. |
| Confirm.CanAcknowledge | pq/replication/stream.go:304-312 | From every reachable state there are steps after which everything the session has to deliver is written and the acknowledged position is at least the stamp of its last item. |
| Confirm.ConfirmedIff | pq/replication/stream.go:264-271 | Then the next report confirms the last transaction that has anything for the consumer, and the next session skips it, if and only if its last message is one that the consumer queues. |
| Confirm.EverythingConfirmed | pq/replication/stream.go:356-363 | In that case no transaction with anything for the consumer is left unconfirmed, and a restart has nothing to deliver. |
| Confirm.RelationLast | example/postgresql/main.go:258-308 | A transaction in which the other case happens: a change, then a relation message whose own change is skipped. |
| Acks.AckLastNeverMore | example/postgresql/main.go:486-496 | About any batch of stamps: acknowledging the last item never confirms more than acknowledging all, and as much if and only if no earlier stamp is above it. |
| Acks.AckLastAtTransactionEnd | example/kafka/main.go:188-195 | In the stream: it confirms as much for every batch that ends at a transaction's last message, wherever the batch begins. |
| Acks.StampsNotMonotone | example/postgresql/main.go:486-487 | Positions inside the stream are not monotone: a log of two interleaved transactions shows it. |
| Rows.KeyPreservingSame | example/postgresql/main.go:667-678 | With full images and key-preserving updates, upserts and deletes do to the target what the changes did to the source. |
| Rows.UpsertColumns | example/postgresql/main.go:770-776 | An upsert sets the columns of its image and keeps every other column and every other row. |
| Rows.TouchedDecides | example/postgresql/main.go:770-776 | The last change of a key decides its row, whatever the target held. |
| Rows.ReplayHeals | example/postgresql/main.go:667-678 | Replaying a suffix of the history turns any mixture of old and new rows into the source state, if the keys the suffix does not address were right. |
| Rows.ConvergesIffNoDanglingMove | example/postgresql/main.go:670-672 | For all accepted histories, with key changes: the target equals the source if and only if no key is left by an update and never addressed again. |
| Rows.KeyChangeDiverges | example/postgresql/main.go:670-672 | One update of a primary key leaves the old row behind. |
| Rows.ConvergesIff | pq/replication/stream.go:255-258 | With updates that change keys and changes that are skipped because they cannot be decoded: upserts and deletes of the decodable ones reproduce the source if and only if no row is left behind under a key that an update left for good, and no key whose last change was skipped holds something else than that change left. |
| Convergence.StepKeepsHealing | example/postgresql/main.go:459-508 | Every step, crashes included, keeps the target repairable by the session, also with updates that change keys. |
| Convergence.RecoveryConverges | pq/replication/stream.go:304-312 | Stop at any point of any run: replaying from the confirmed position makes the target equal to the source, if changes are decodable and keep their keys. |
| Convergence.DrainedEqualsSource | example/postgresql/main.go:459-508 | After any run, whenever nothing is on the way the target equals the source, if changes are decodable and keep their keys. |
| Convergence.DrainedEqualsSourceIff | pq/replication/stream.go:255-283 | The same for every run of the pipeline with any number of crashes: what the log says about left and skipped keys decides whether the drained target equals the source. |
| Convergence.DrainedDecodableIff | example/postgresql/main.go:670-672 | If everything is decodable: the drained target equals the source if and only if no key of the whole log is left by an update and never addressed again. |
| Convergence.AddressedAgain | pq/replication/stream.go:255-258 | A skipped change does no harm when a later change addresses its key and from then on every change of the key is decodable. |
| Convergence.CopyHeals | pq/replication/stream.go:128-146 | A target that starts as a copy of the source is a state these results apply to. |
| Producer.Producer.constructor | example/postgresql/main.go:335-366 | The loop starts with an empty queue and an unarmed timer. |
| Producer.Producer.Flush | example/postgresql/main.go:368-378 | A flush writes the queue as one batch, disarms the timer and acknowledges the position of its last change item, if it has one; if the write fails the process ends with target and acknowledgements unchanged, if the report fails it ends with the batch written. |
| Producer.Producer.Receive | example/postgresql/main.go:382-424 | A message is queued with its statement if it has one, its source and its position, the timer is armed exactly when a change item is queued, and the queue is written if and only if it is full; a change whose statement cannot be built ends the process with nothing queued or written. |
| Producer.Producer.OnCdcTimer | example/postgresql/main.go:426-429 | When the change timer fires the queue is not empty and is written. |
| Producer.Producer.OnTick | example/postgresql/main.go:431-434 | The queue is written and acknowledged if it is not empty and nothing arrived for a second, and otherwise nothing changes. |
| Producer.Producer.OnClose | example/postgresql/main.go:383-389 | Closing the channel drains everything. |
| Producer.Producer.Wake | example/postgresql/main.go:380-435 | After a wake-up everything received is written if a batch is full, the timer fired on a queued change, or a second passed without messages; otherwise nothing is. |
| Producer.Producer.Produce | example/postgresql/main.go:380-436 | Over any wake-ups: written batches are the received items in order, cut where a full queue, the change timer or an idle second demands and nowhere else; a stream of changes is applied statement by statement, a stream of snapshot rows row by row if absent; only written items are acknowledged, closing drains everything; the process gives up only if a write or report failed or a statement could not be built, and what it wrote is then a prefix. |
| Flush.SendBatch | example/postgresql/main.go:470-483 | A batch is one transaction: all statements in order, or none, exactly when a statement or the close fails. |
| Flush.FindLastCdc | example/postgresql/main.go:488-496 | The scan from the end finds the position of the change item behind which no other lies, and nothing if and only if the batch has none. |
| Flush.FlushBatchGeneric | example/postgresql/main.go:459-508 | Statements run in queue order; the change item behind which no other lies is acknowledged only after the whole batch succeeded; a failed write changes and acknowledges nothing, a failed report leaves the batch written. |
| Flush.GroupByTable | example/postgresql/main.go:537-541 | Every row is in the group of its table, in queue order. |
| Flush.CopyFrom | example/postgresql/main.go:596-608 | One COPY piece inserts its rows exactly, or there is a key conflict in the batch. |
| Flush.CopyTable | example/postgresql/main.go:564-609 | The rows of one table are inserted exactly, in pieces of 5000 rows in queue order, only the last smaller. |
| Flush.FlushBatchSnapshotCopy | example/postgresql/main.go:536-621 | COPY by table, in any order of tables, succeeds if and only if no key is repeated or present, and then equals insert-if-absent in queue order. |
| Flush.FlushBatchSnapshotDoNothing | example/postgresql/main.go:626-655 | The fallback is insert-if-absent, and the count it logs is the growth of the target. |
| Flush.FlushBatchSnapshot | example/postgresql/main.go:515-534 | Either way a snapshot batch inserts each row in queue order only if its key is absent. |
| Flush.InsertAllLookup | example/postgresql/main.go:510-514 | Insert-if-absent keeps every existing row and gives each other key of the batch its first row. |
| Flush.FlushBatch | example/postgresql/main.go:439-457 | A batch of snapshot rows only never overwrites; any other batch upserts and deletes, and acknowledges its last change item. |
| Flush.ChangeBatchingIrrelevant | example/postgresql/main.go:417-434 | However timers cut a stream of changes into batches, the target ends the same. |
| Flush.SnapshotBatchingIrrelevant | example/postgresql/main.go:515-534 | The same for a stream of snapshot rows. |
| Flush.MixedBatchOverwrites | example/postgresql/main.go:444-456 | A batch with a snapshot row and a placeholder that overwrites a newer row. |
| Schedule.MixedBatchIff | example/postgresql/main.go:439-457 | For every batch of full images: it does what its items should, rows inserted if absent and changes applied, if and only if it holds snapshot rows only or no snapshot item finds a different row under a key that no later item addresses. |
| Schedule.KeyOutcome | example/postgresql/main.go:510-514 | For any order of writes a key ends with the last overwriting row after its last change, or else that change's outcome, or else the first row. |
| Schedule.ScheduleIff | connector.go:286-291 | For any order of rows and changes and any initial target: the result is what the changes alone make of the snapshot if and only if no key misses its row, holds a stale one, is revived after its deletion, or is overwritten after its last change. |
| Schedule.OneSnapshotIff | connector.go:286-291 | With rows of one snapshot, inserted if absent: if and only if every key no change addresses held the snapshot's row, or nothing and got it, and no row arrives after the change that deleted its key. |
| Schedule.LateRowRevives | connector.go:286-291 | A row written after its deletion was replayed comes back. |
| KafkaWorker.FlushWorker.constructor | example/kafka/main.go:171-176 | The worker starts with nothing batched and nothing acknowledged. |
| KafkaWorker.FlushWorker.WriteKafkaBatch | example/kafka/main.go:235-247 | The write succeeds if and only if one of five attempts does, and stops there; the topic then ends with the whole batch, behind exactly what the failed attempts stored. |
| KafkaWorker.FlushWorker.Flush | example/kafka/main.go:178-196 | The last position is acknowledged only when every payload up to it is in the topic; after five failed attempts the process ends and nothing is acknowledged. |
| KafkaWorker.FlushWorker.OnPending | example/kafka/main.go:200-207 | Placeholders keep their place; a batch of 500 messages is written and acknowledged, a smaller one waits; an acknowledgement happens only when all received payloads are in the topic in order, exactly once each if no attempt ever failed. |
| KafkaWorker.FlushWorker.OnTick | example/kafka/main.go:208-209 | After a tick everything received is in the topic in order and acknowledged, or five attempts failed and the process ended without acknowledging. |
| KafkaDelivery.ConfirmedIsInTopic | example/kafka/main.go:171-196 | At least once, end to end: after any run with crashes, failed attempts and partly written batches, every transaction at or below the confirmed position has all its decodable row changes in the topic, in order. |
| ChunkPlan.CreateRangeChunks | pq/snapshot/coordinator.go:710-771 | The loop returns the planned ranges in int64 arithmetic; how many key values each holds is ChunkSizes.RangeChunkSizes. |
| ChunkPlan.CreateCTIDBlockChunks | pq/snapshot/coordinator.go:774-867 | The loop returns the planned block ranges, the last without an upper bound; how many blocks each covers is ChunkSizes.CtidChunkSizes. |
| ChunkPlan.CreateOffsetChunks | pq/snapshot/coordinator.go:897-943 | The loop returns the planned slices, or one slice if the count is zero or unreadable. |
| ChunkPlan.RangeHoldsFewRows | pq/snapshot/coordinator.go:487-501 | A key range of n integers holds at most n rows, so the LIMIT of the query drops none. |
| ChunkCover.RangeCoversIff | pq/snapshot/coordinator.go:733-761 | Ranges read every row once if and only if the range arithmetic and the end of the last range stay inside int64. |
| ChunkCover.CtidContiguous | pq/snapshot/coordinator.go:825-839 | Each block chunk ends where the next starts; the clamp to the block count changes nothing. |
| ChunkCover.CtidCoversIff | pq/snapshot/coordinator.go:797-856 | Block chunks read every row once, also rows in blocks added later, if and only if the count of chunks does not wrap; the row estimate does not matter. |
| ChunkCover.OffsetCoversIff | pq/snapshot/coordinator.go:897-943 | Slices of a totally ordered table are the whole table if and only if their count does not wrap; with an unreadable count, if and only if one slice is enough. |
| ChunkCover.CreateTableChunks | pq/snapshot/coordinator.go:621-708 | The choice of planner and its fallbacks. |
| ChunkCover.TableCoveredIff | pq/snapshot/coordinator.go:632-708 | For every strategy and every combination of failed metadata queries, a table with rows is read completely and once if and only if an arithmetic condition on bounds, block count, row count and chunk size holds for the branch that plans it. |
| ChunkCover.RangeGivesUpIff | pq/snapshot/coordinator.go:733-761 | When the wrapped count of ranges is zero, so that the next planner is asked, and when it is negative and the allocation panics. |
| ChunkCover.CtidGivesUpIff | pq/snapshot/coordinator.go:817-823 | The same for the count of block chunks. |
| ChunkCover.LargestKeyMissed | pq/snapshot/coordinator.go:738-743 | A row with the largest bigint key is not read by a range plan with the default chunk size. |
| ChunkCover.RangeRequestSkipsTable | pq/snapshot/coordinator.go:645-654 | A range request on a table without a single integer key, with an unreadable block count, plans nothing: the table is skipped. |
| ChunkCover.EmptyTableCovered | pq/snapshot/coordinator.go:717-731 | A table without rows is covered by every plan. |
| ChunkSizes.CtidChunkSizes | pq/snapshot/coordinator.go:811-860 | Each block chunk but the last covers the most blocks that hold no more than chunk-size rows at the estimate of rows per block (100 if that is below one), and at least one; the last has no upper bound and covers no more of the counted blocks. |
| ChunkSizes.RangeChunkSizes | pq/snapshot/coordinator.go:733-763 | Each range but the last holds exactly chunk-size key values; the last ends with the largest key where its arithmetic stays inside int64. |
| ChunkSizes.OffsetChunkSizes | pq/snapshot/coordinator.go:922-939 | One slice for every chunk-size rows begun, each starting where the one before it is full. |
| ChunkSizes.TableNumbered | pq/snapshot/coordinator.go:738-757 | Whatever the strategy, chunks carry their place in the table as index, the order in which workers claim them, and the configured size. |
| ChunkSizes.EmptyTablePlans | pq/snapshot/coordinator.go:906-920 | An empty or uncounted table gets one chunk: by blocks it reads all rows, also those added later, otherwise the first chunk-size rows. |
| ChunkSizes.TableSkippedIff | pq/snapshot/coordinator.go:632-702 | A table gets no chunk at all, and is passed over without an error, if and only if the last planner that is asked has no usable answer or a count that wraps to zero. |
| SnapshotTables.ClaimWindow | pq/snapshot/worker.go:439-472 | With both timestamps cut to seconds: exactly which heartbeats are stale; never before the timeout, always one second after it. |
| SnapshotTables.MetadataStore.CreateMetadata | pq/snapshot/coordinator.go:65-101 | All chunk rows, pending and in table order, then the job row with their number: after every statement, whoever sees the job sees all its chunks. |
| SnapshotTables.MetadataStore.SaveChunksBatch | pq/snapshot/coordinator.go:1071-1090 | One statement for each 1000 rows appends exactly the chunk rows in order. |
| SnapshotTables.MetadataStore.ClaimNextChunk | pq/snapshot/worker.go:409-472 | The claim takes a pending or stale chunk with the lowest index, which then has the worker as owner, is in progress and has a heartbeat of now, or there is none; all other chunks stay. |
| SnapshotTables.MetadataStore.UpdateChunkHeartbeat | pq/snapshot/worker.go:544-554 | Status, owner and all other chunks stay, and a chunk that is not pending cannot be claimed before the timeout has passed from this beat. |
| SnapshotTables.HeartbeatWorker | pq/snapshot/worker.go:367-388 | The heartbeat loop changes nothing but heartbeats: each chunk has that of the last tick that found it active and reached the database. |
| SnapshotTables.MetadataStore.MarkChunkCompleted | pq/snapshot/worker.go:559-590 | The chunk is completed whatever its status was, keeps owner and heartbeat, all others stay, and the counter goes up by one. |
| SnapshotTables.MetadataStore.ReleaseChunk | pq/snapshot/worker.go:594-611 | Whatever the chunk's status was, it has no owner, anyone can claim it at any time, the job is not complete, and all other chunks stay. |
| SnapshotTables.HandleInvalidSnapshot | pq/snapshot/worker.go:201-219 | The worker stops; the chunk can be claimed at once if the release reached the database and stays claimed otherwise. |
| SnapshotTables.MetadataStore.CheckJobCompleted | pq/snapshot/job.go:138-174 | True if and only if there are chunks and all are completed, independent of the counter. |
| SnapshotTables.MetadataStore.MarkJobAsCompleted | pq/snapshot/worker.go:391-406 | The job is completed; marking twice changes nothing more. |
| SnapshotTables.WorkerProcess | pq/snapshot/worker.go:125-186 | A worker alone takes every claimable chunk exactly once in index order, hands over its rows, completes those that do not fail, leaves the failed ones claimed, and stops when nothing is claimable. |
| SnapshotTables.Execute | pq/snapshot/snapshot.go:139-181 | After working, the job is completed if and only if it was, or there are chunks and all are completed. |
| SnapshotProtocol.StepKeepsSafe | pq/snapshot/worker.go:177-219 | Every step of every worker keeps: completed chunks, and chunks a worker has read, were handed over completely. |
| SnapshotProtocol.CompletedJobHandedEverything | pq/snapshot/snapshot.go:165-181 | In every interleaving with failures, retries, releases, crashes, stale reclaims and double completion, a completed job means every row of every chunk was handed over at least once. |
| SnapshotProtocol.RunKeepsOnlyRows | pq/snapshot/coordinator.go:382-433 | Handlers are given rows of the chunk and nothing else. |
| SnapshotRuns.StepKeepsExclusive | pq/snapshot/worker.go:439-472 | One owner per chunk is kept by every step, if claims happen while heartbeats are fresh. |
| SnapshotRuns.FreshRunIsExclusive | pq/snapshot/worker.go:439-472 | While no owner's heartbeat is older than the timeout no chunk has two owners, also with failures, releases and crashes. |
| SnapshotRuns.StepKeepsClean | pq/snapshot/worker.go:151-186 | Without errors, log, status, counter and the knowledge of each worker stay in step; the counter plus the marks not yet counted is the number of completed chunks. |
| SnapshotRuns.CleanRunHandsEachRowOnce | pq/snapshot/worker.go:125-186 | When all workers of a run without errors have stopped, every row was handed over exactly once and in order, the job is completed and its counter equals its total. |
| SnapshotProgress.CleanRunIsBounded | pq/snapshot/worker.go:129-138 | A run without errors takes at most one step per row, four per chunk and three per worker, besides clock ticks and heartbeats. |
| SnapshotProgress.CleanRunEndsComplete | pq/snapshot/snapshot.go:165-181 | Where no worker can go on, every row was handed over exactly once and the job is completed: no worker waits for ever. |
| SnapshotProgress.CompletionReachable | pq/snapshot/worker.go:125-139 | Every snapshot job with chunks and a worker has a run that completes it. |
| SnapshotEnds.StoppedJobIff | pq/snapshot/snapshot.go:164-173 | In runs with failing chunks, retries, lost marks and stale reclaims, where each worker stops by finding nothing more to claim: once all have stopped the job is completed if and only if there are chunks and every chunk is completed. |
| SnapshotEnds.StoppedForGood | pq/replication/stream.go:415-418 | When all workers have stopped, the job stays as it is, however long the stream polls, until a worker joins. |
| SnapshotEnds.FailedChunkStalls | pq/snapshot/worker.go:188-197 | One failed chunk in the only worker: all workers stop and the job is not completed. |
| SnapshotRecovery.JobCanAlwaysComplete | pq/snapshot/worker.go:125-186 | After any run, with failures, invalid snapshots, crashes and lost marks, any one worker that is started again completes the job alone once no heartbeat is fresh, and every row has then been handed over. |
| SnapshotRecovery.RetryHandsAgain | pq/snapshot/worker.go:177-186 | A transient error: the rows handed over before it are handed over again. |
| SnapshotRecovery.LostReplyCountsAgain | pq/snapshot/worker.go:559-590 | A mark whose reply is lost is counted twice. |
| SnapshotRecovery.BeatProtects | pq/snapshot/worker.go:367-388 | A heartbeat protects a claimed chunk from every claim for the whole timeout, whatever its heartbeat was before. |
| SnapshotRecovery.FailureEffects | pq/snapshot/worker.go:187-219 | An invalid snapshot stops the worker and frees its chunk for anyone at once; any other failure keeps the worker going and the chunk claimed. |
| Handoff.StepKeepsPrepared | connector.go:382-411 | Slot, position and export in this order, with retries, landing rows and commits of others in between: the slot is never ahead of the position, the export is right about every key that nothing from the position on concerns, and the target is what the rows of all attempts made of it. |
| Handoff.SeenAgrees | pq/snapshot/coordinator.go:49-58 | An export that also sees some later transactions is right about all keys those do not concern: neither addressed nor left by an update. |
| Handoff.RetryKeepsStaleRow | pq/snapshot/coordinator.go:30-57 | A run in which a retry leaves the first copy's row, the second copy does not replace it and the replay does not address it. |
| Handoff.LateSlotLosesRow | pq/snapshot/snapshot.go:86-98 | The steps in the order of the comment, slot last: a run in which a row inserted before the slot exists is in neither the export nor the stream. |
| Landing.ReplayIff | pq/replication/stream.go:128-146 | Replay repairs a target if and only if it is right about the keys the replay does not address. |
| Landing.HandoffIff | connector.go:382-411 | After any number of attempts, rows of any export landing before and between the changes of one pass from the position, with key changes and skipped changes: the result is the source if and only if no key keeps a row it was moved away from, depends on a skipped change, misses its row, holds a stale one, is revived or is overwritten. |
| Landing.LandingIff | connector.go:246-301 | The same for every run of the stream with any number of crashes and later commits, rows landing at any time, alone or in mixed batches: when nothing is on the way, the target is the source if and only if none of the six happened to a key. |
| Landing.BarrierIff | connector.go:286-291 | If nothing lands once the stream is open, retries included: if and only if no row is left behind, no skipped change matters, and every other key that no written change addresses holds the row of the last export. |
| Landing.OpenedIsInit | pq/replication/stream.go:128-146 | The session opened from the position starts in a state from which the pipeline's guarantees hold, if the target is right about the keys the replay does not address. |
| Landing.SnapshotThenStream | connector.go:246-301 | If changes are decodable and keep their keys, and every key outside the replay holds its row of the last export when the stream opens, after any number of attempts: after any run, when nothing is on the way the target equals the source, and replaying from the confirmed position always makes it so. |
| Migration.ChunksHoldAllRows | pq/snapshot/coordinator.go:65-101 | The chunks of all tables together hold every row of the snapshot exactly once. |
| Migration.CompletedJobCopiesSnapshot | pq/snapshot/job.go:138-174 | A completed job, in any interleaving, means the whole snapshot and nothing else was handed over. |
| Migration.MigrationIff | connector.go:246-301 | Planning, workers with failures, retries, rows written at any time and a stream with crashes, key changes and skipped changes: once everything handed over was written no row is missing, and when nothing is on the way the target equals the source if and only if no key is left behind, depends on a skipped change, holds a stale row, is revived or is overwritten. |
| Migration.MigrationReachesSource | connector.go:246-301 | The good case: decodable changes that keep their keys, exactly the handed-over rows in an empty target before the stream opens. Then the target equals the source when nothing is on the way. |
| Migration.MigrationCanFinish | connector.go:382-411 | For every well-planned export with chunks there are worker steps that complete the job, landings of what they handed over and consumer steps that drain the stream; if changes are decodable and keep their keys the target is then the source. |
| Migration.CleanMigrationHandsEachRowOnce | pq/snapshot/worker.go:125-186 | Without errors the multiset of rows the handlers get is the multiset of the snapshot's rows. |
| Bytes.NameBack | pq/message/format/relation.go:92-99 | A name without NUL is read back, and the cursor ends behind its terminator. |
| Tuples.Data.Decode | pq/message/tuple/data.go:53-77 | The cursor loop reads the announced number of columns and leaves the cursor where the column reader ends; it panics exactly when that one does. |
| Tuples.NewTuple | pq/message/tuple/data.go:41-51 | A wrong tag is an error, otherwise the tuple behind the tag is read. |
| Tuples.TupleBack | pq/message/tuple/data.go:41-77 | An encoded tuple anywhere in a message is read back exactly, with the cursor at its end. |
| Tuples.SubstituteToast | pq/message/format/update.go:98-105 | The loop fills in exactly the omitted columns from the old tuple and leaves the others; it panics if and only if one of them lies behind the end of the old tuple. |
| Tuples.SubstitutionIff | pq/message/format/update.go:98-105 | Substitution recovers the new row if and only if the old image has the row's value in every column left out. |
| Tuples.FullOldRowRecovers | pq/message/format/update.go:98-105 | With the full old row nothing is lost, whichever unchanged columns are left out. |
| Tuples.KeyImageRecoversIff | pq/message/format/update.go:87-105 | With a key-only old tuple the row is recovered if and only if every omitted column outside the key is null: others are read as null. |
| Tuples.KeyImageNullsText | pq/message/format/update.go:87-105 | A text that did not change and was omitted is read as null. |
| Tuples.DecodeWithColumn | pq/message/tuple/data.go:79-96 | The loop returns the columns by name, the first unreadable text as error, and panics on more columns than the relation has. |
| Tuples.NamedMeaning | pq/message/tuple/data.go:79-96 | With distinct column names every null or text column is found under its own name with its own value, and no other name is present. |
| Tuples.NamedIff | pq/message/tuple/data.go:79-108 | Exactly which row images are refused: one unreadable text among the named columns refuses the message, otherwise an excess column ends the process. |
| Messages.NewRelation | pq/message/format/relation.go:30-90 | The decoder of relation messages, column loop included. |
| Messages.DecodeUpdate | pq/message/format/update.go:63-111 | The three forms of an update, with substitution after an old tuple. |
| Messages.Decoder.constructor | pq/message/message.go:36-36 | The decoder starts outside a stream block and without relations. |
| Messages.Decoder.New | pq/message/message.go:38-65 | Dispatch changes the stream flag and the relation cache exactly as specified; errors change nothing. |
| Messages.Decoder.ReceiveInsert | pq/message/format/insert.go:25-80 | Length check, tuple, relation lookup and naming in this order, with the first error. |
| Messages.Decoder.ReceiveUpdate | pq/message/format/update.go:30-61 | Body, relation lookup, old and new columns by name. |
| Messages.Decoder.ReceiveDelete | pq/message/format/delete.go:22-78 | The old tuple of a delete, under the relation's names. |
| DecodeLimits.BigEndian | pq/message/format/begin.go:23-37 | Integers are read most significant byte first, and reading past the end of the message ends the process. |
| DecodeLimits.RefusedIff | pq/message/message.go:38-65 | A message is too short if and only if it is shorter than the minimum of its kind, inside or outside a stream block, and unsupported if and only if its kind is none of the ten. |
| DecodeLimits.LengthGap | pq/message/format/commit.go:23-40 | A begin or commit of exactly the minimum length passes the check and ends the process, one byte more decodes. |
| DecodeLimits.TagRefused | pq/message/format/update.go:84-108 | An insert without a new tuple, and an update with none of the three kinds, is refused. |
| DecodeLimits.TupleCut | pq/message/tuple/data.go:53-77 | A tuple whose last bytes are missing is decoded if and only if they are missing from the text of its last column, which then ends in NUL bytes; every other cut ends the process. |
| DecodeLimits.FlagFollowsControl | pq/message/message.go:50-61 | Over any byte strings: transaction ids are expected if and only if the latest control message was a stream start. |
| DecodeLimits.CacheChanges | pq/message/message.go:53-58 | Only a relation message that decodes changes the cache, and only for its own table. |
| DecodeLimits.UnknownTable | pq/message/format/insert.go:34-37 | A row of a table without a cached relation is refused and changes nothing. |
| WireStream.MessageBack | pq/message/message.go:38-65 | Decoding the encoding of any legal message, in any decoder state, returns its meaning and moves flag and cache accordingly. |
| WireStream.StreamRoundTrip | pq/message/message.go:38-65 | Any legal sequence of messages decodes to its meaning message by message, the transaction id read exactly inside stream blocks. |
| WireStream.KnownIsLatest | pq/message/message.go:53-58 | Rows are named by the latest relation message of their table. |
| WireStream.OpenIsLatest | pq/message/message.go:50-61 | The transaction id is that of the latest stream start that was not stopped. |
| WireStream.UpdateRecoversRow | pq/message/format/update.go:63-111 | Through the bytes: an update with the full old row decodes to the true new row and its columns by name, whichever unchanged columns were omitted. |
| WireStream.EmptyInsertRefused | pq/message/format/insert.go:64-66 | An insert into a table without columns is shorter than the length check admits and is refused. |
| WireBytes.InsertBytes | pq/message/format/insert_test.go:12-12 | The encoded insert is the byte string of the repository's test; so are the encodings of the other five kinds. |
| WireBytes.UpdateBytes | pq/message/format/update_test.go:12-12 | The same for an update with the old row. |
| WireBytes.DeleteBytes | pq/message/format/delete_test.go:12-12 | The same for a delete. |
| WireBytes.RelationBytes | pq/message/format/relation_test.go:11-11 | The same for a relation message. |
| WireBytes.BeginBytes | pq/message/format/begin_test.go:16-21 | The same for a begin. |
| WireBytes.CommitBytes | pq/message/format/commit_test.go:16-22 | The same for a commit. |
| WireBytes.TypeBytes | pq/message/message.go:11-26 | The type bytes of messages, tuples and columns are the characters of the format, and only text and binary columns carry bytes. |
| Lsn.PrintedParsesBack | pq/lsn.go:11-29 | Parsing the printed form of any 64-bit position returns it. |
| Lsn.PrintedForm | pq/lsn.go:11-13 | The printed form is the high half, a slash and the low half, each in upper-case digits without leading zeros. |
| Lsn.SamePositionIff | pq/lsn.go:15-29 | Halves are not limited to 32 bits: two texts mean one position if and only if upper * 2^32 + lower agree modulo 2^64. |
| Lsn.ParsesIff | pq/lsn.go:15-29 | Exactly which texts are positions, and which position each is: two hexadecimal numbers of at most 64 bits in either case, behind blanks but no line break, with a slash directly behind the first; what follows is ignored. |

## Left out

- Network, connections, pooling, HTTP server, metrics, logging, signals: the environment decides which write fails and when the process dies.
- SQL text, quoting and JSON columns: each statement is its meaning on a map from primary keys to rows.
- Column codecs and the decoder cache: `Tuples` takes the text parser as a parameter.
- Timestamps of messages: the raw integers are kept, their conversion is not modelled.
- Delivery of streamed transactions: the pipeline does not support it; `Sink.NothingLostIff` says what happens to their messages.
- Channels: the message channel of the stream and the channel of the consumer are one queue, first in first out and unbounded; back-pressure is not modelled.
- Heartbeat tables, skipped events in `Pipeline`: a placeholder writes nothing and is acknowledged in its place (`Flush.FlushBatchGeneric`, `KafkaWorker.FlushWorker.OnPending`).
- The server's slot: a report may be adopted or ignored, and after a crash the session begins at the first transaction whose commit is not below the confirmed position.
- Clock skew between workers: one clock; the result is about the age of heartbeats on it.
- The retry of a claim whose reply was lost: the chunk stays claimed until it is stale, as after a failed chunk.
- Cleanup of incomplete jobs and coordinator election: one epoch.
- Early commit of the exported snapshot, back-off delays, publications, replica identity setup, TimescaleDB, configuration, the table-validate tool.
- SnapshotTables.WorkerProcess: time stands still while the worker runs, because interleaving and time are the subject of `SnapshotProtocol`.
- ChunkPlan.CreateRangeChunks: takes the answers of the metadata queries as arguments, and so do the other planners.
- Convergence.DrainedEqualsSource: speaks of decodable, key-preserving updates only; `Convergence.DrainedEqualsSourceIff` is the exact condition without this. Images that are not full are not part of this model.
- Landing.SnapshotThenStream: speaks of decodable, key-preserving updates only; `Landing.LandingIff` and `Landing.BarrierIff` are the exact conditions without this.
- Migration.MigrationReachesSource: takes the write barrier before streaming, a target without rows of earlier attempts, and decodable, key-preserving updates as hypotheses; `Migration.MigrationIff` is the exact condition without them.
- SnapshotEnds.StoppedJobIff: takes no crash and no invalid snapshot as hypotheses; a worker that crashes behind its last mark may leave a job whose chunks are all completed unmarked until another worker checks.
- KafkaDelivery.ConfirmedIsInTopic: speaks of row changes; relation messages, which that consumer queues as placeholders, are not in its queue in the model.
