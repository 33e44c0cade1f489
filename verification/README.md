# A verified model of ocrypt's protocols and codecs

This project models the parts of ocrypt where a small mistake costs money or monitoring, and proves
what they keep over every input and every run:

- the replacement of a scanner container, with rollback, against a container daemon whose requests may
  fail or take effect and lose their reply (`Repair.dfy`);
- the webhook consumer's inbox, orders and outbox under at-least-once delivery (`Webhook.dfy`,
  `WebhookRuns.dfy`, `WebhookCalls.dfy`);
- the scanner watchdog: alerts, and one bounded outbox per channel (`Watchdog.dfy`, `WatchdogRuns.dfy`,
  `WatchdogOutbox.dfy`);
- the lock-file protocol of the agent workflow, for all interleavings and kills (`Workflow.dfy`,
  `WorkflowRuns.dfy`);
- the store of financial idempotency keys as a refinement of a bounded map (`Idempotency.dfy`,
  `IdempotencyRuns.dfy`);
- the workbook writer: a table-driven CRC-32 against the bit-serial register, and a ZIP archive against an
  independent reader (`Crc32.dfy`, `Zip.dfy`, `ZipWriter.dfy`), and column names (`ColumnName.dfy`);
- base58, CSV, exact amounts, the ranking of candidate orders and the majority of RPC endpoints
  (`Positional.dfy`, `Base58.dfy`, `Csv.dfy`, `Money.dfy`, `Ranking.dfy`, `Majority.dfy`).

Programs that change things step by step are classes and methods; each method is tied to a function of its
inputs, and the lemmas are about those functions. What the network, git, the clock, the daemon or a person
decides is an input or a nondeterministic choice, so every statement holds for all of it.

Verify everything with `dafny verify dfyconfig.toml`.

## Where a promise fails

In these places the code does not keep the promise for all inputs. Each has a lemma with a concrete input and
an exact condition.

- The repair cannot roll back when the reply to the create request was lost and the daemon built another image
  or environment than it was asked for; otherwise a recovery without failing requests always restores the
  scanner, unless it exits at the final look (`OneScannerIsNotRestored`, `RestoreOriginal`).
- An order whose first settlement event has the empty id can be fulfilled twice; otherwise never
  (`EmptyIdFulfillsTwice`, `RunsFulfillOnceExactly`).
- The idempotency store forgets all its keys when their JSON text exceeds 131072 characters, which six
  requests with many escaped characters reach (`SixAwkwardRequestsAreForgotten`, `RefinesExactly`).
- The candidate comparator contradicts itself when a close candidate has no readable date, and then a list may
  have no stable ranking (`NoRankingOfThree`, `RankingExistsExactly`, `TransitiveExactly`).
- An archive is readable exactly when every size, offset and count fits its field (`TooManyEntries`,
  `ReadableExactlyWhenFits`). The workbook writer, the only caller, always packs six parts, so only the size of
  their contents matters (`WorkbookReadableExactly`).
- An empty CSV table or row reads back as one empty cell (`EmptyTableReadsAsCell`, `RoundTripExactly`).
- A watchdog channel loses messages exactly when old and new ones exceed 50 in some tick (`OneTickOverflows`,
  `DeliveredExactly`).

## Model

| member | source | states |
|---|---|---|
| `ScannerRepair.RepairPlan` | scripts/repair_scanner_healthcheck.py:13-29 | the plan exists exactly for scanners with the shell probe and no static address; a daemon honours it exactly by building the same scanner with the new probe, pinned to the running image object, with the endpoint keys that can be asked for |
| `ScannerRepair.ScannerNames` | scripts/repair_scanner_healthcheck.py:15 | names that are and are not a scanner's |
| `ScannerRepair.Daemon.Inspect` | scripts/repair_scanner_healthcheck.py:55-61 | a truthful answer with 404 as absence, or a failure; containers may meanwhile exit but nothing else changes |
| `ScannerRepair.Daemon.SetRunning` | scripts/repair_scanner_healthcheck.py:39-52 | a stop or start that is served, dropped, or done with its reply lost |
| `ScannerRepair.Daemon.Rename` | scripts/repair_scanner_healthcheck.py:39-52 | a rename under the same three fates, refused when the name is taken |
| `ScannerRepair.Daemon.Create` | scripts/repair_scanner_healthcheck.py:39-52 | a create under the same three fates: a stopped container under an unused id, whose id is returned when the request is served under a free name |
| `ScannerRepair.Daemon.Delete` | scripts/repair_scanner_healthcheck.py:39-52 | a delete under the same three fates |
| `ScannerRepair.FindReplacement` | scripts/repair_scanner_healthcheck.py:74-78 | finds exactly the container that the forward steps made, by id or by name, unless it is unrecognisable |
| `ScannerRepair.StopAndDelete` | scripts/repair_scanner_healthcheck.py:79-82 | sends a stop and a delete, whatever the first answers, and counts the ones without an answer; without faults the replacement is gone; the original stays stopped and others are untouched |
| `ScannerRepair.Unname` | scripts/repair_scanner_healthcheck.py:83-88 | going on means that the replacement is absent or stopped; it is renamed exactly when it still has the scanner's name; without an error it does not have it any more |
| `ScannerRepair.RegainName` | scripts/repair_scanner_healthcheck.py:89-93 | a rename is sent exactly when the name differs; without an error the original has its name |
| `ScannerRepair.StartOriginal` | scripts/repair_scanner_healthcheck.py:96-98 | a start is sent exactly when the original is not seen running; without faults the original runs; starting it never makes two scanners run |
| `ScannerRepair.LookAgain` | scripts/repair_scanner_healthcheck.py:99-102 | a normal return means that the original runs, with its real name; without faults it fails exactly when the original exited at this look |
| `ScannerRepair.RestartOriginal` | scripts/repair_scanner_healthcheck.py:89-102 | a recovery without faults gives the original its name and reports success exactly unless the original exits at the final look, whatever happened to it before |
| `ScannerRepair.RestoreOriginal` | scripts/repair_scanner_healthcheck.py:64-102 | from every state the forward steps can leave: a recovery without faults restores the original and leaves no replacement, exactly when the replacement is recognisable and the original does not exit at the final look; what it sends; the reported count is that of the requests without an answer |
| `ScannerRepair.StepAside` | scripts/repair_scanner_healthcheck.py:123-124 | sends a stop and then, if it was acknowledged, a rename; without faults and with a free backup name it succeeds; otherwise it leaves a state that recovery can handle |
| `ScannerRepair.Build` | scripts/repair_scanner_healthcheck.py:125-129 | without faults a container is made, and it is accepted exactly when it has the original's image and environment |
| `ScannerRepair.Launch` | scripts/repair_scanner_healthcheck.py:130-140 | without faults the looks decide: healthy, exited, or looking again until the time is up; the loop ends for every clock |
| `ScannerRepair.Preflight` | scripts/repair_scanner_healthcheck.py:106-119 | the verdict of the checks, exactly: bad names, no such container, not running, not repairable, dry run, backup name taken, or go on; nothing is sent |
| `ScannerRepair.Attempt` | scripts/repair_scanner_healthcheck.py:122-140 | the forward steps end in a healthy replacement, without faults exactly when the looks say so, or in a state that recovery can handle |
| `ScannerRepair.Replace` | scripts/repair_scanner_healthcheck.py:120-144 | the forward steps and the rollback end in a healthy replacement, a real rollback, or a reported failure |
| `ScannerRepair.Repair` | scripts/repair_scanner_healthcheck.py:105-144 | only a running, repairable scanner goes on, and each refusal has its exact condition; refusals and dry runs send nothing; success sends exactly stop, rename, create and start; without faults the outcome is what the looks say, and a failure is rolled back; in every state between two requests the original exists and never runs together with a replacement |
| `ScannerRepair.WrongBuildIsUnrecognisable` | scripts/repair_scanner_healthcheck.py:74-77 | from every start, stop, rename and a create that built another image or environment are all possible and lead to a state in which recovery is blocked |
| `ScannerRepair.OneScannerIsNotRestored` | scripts/repair_scanner_healthcheck.py:74-77 | one such sequence of requests: neither scanner runs and the rollback is blocked |
| `WebhookInbox.Database.UpdateOrder` | examples/python/webhook_consumer.py:249-261 | the order update, refused by the unique settlement id |
| `WebhookInbox.Database.InsertOutbox` | examples/python/webhook_consumer.py:253-265 | the outbox insert, refused by the unique event id and the foreign key |
| `WebhookInbox.SettlementConstraint` | examples/python/webhook_consumer.py:130 | the first constraint refuses exactly the updates after which two orders would share a settlement id |
| `WebhookInbox.OutboxConstraint` | examples/python/webhook_consumer.py:140 | the second refuses exactly the inserts after which two rows would share an event id |
| `WebhookInbox.Database.Statements` | examples/python/webhook_consumer.py:235-270 | the statements of the transaction either fail with the specified error or give exactly the accepted tables |
| `WebhookInbox.Database.ApplyVerifiedEvent` | examples/python/webhook_consumer.py:180-275 | the new tables and the reply are those of the specification, with rollback on every error |
| `WebhookRuns.OnlyAcceptanceWrites` | examples/python/webhook_consumer.py:219-275 | a rejection, a conflicting digest and a duplicate leave every table as it was; acceptance needs matching order terms |
| `WebhookRuns.AcceptedExactly` | examples/python/webhook_consumer.py:219-275 | on consistent tables: a new valid event is accepted exactly when it is no payment, or its order exists with these terms and it is a reorg or the order has no settlement with a non-empty id; and the error or stored reply that every other one gets |
| `WebhookRuns.StaysStored` | examples/python/webhook_consumer.py:221-233 | what was acknowledged once stays in the inbox with its acknowledgement for the rest of every run |
| `WebhookRuns.RepeatIsAcknowledged` | examples/python/webhook_consumer.py:221-233 | a redelivery at any later point returns the stored acknowledgement and changes nothing |
| `WebhookRuns.RepeatsChangeNothing` | examples/python/webhook_consumer.py:180-275 | a run with any number of redeliveries at any later points ends in the same tables as the run without them |
| `WebhookRuns.ConsistentFulfillsOnce` | examples/python/webhook_consumer.py:122-147 | consistent tables have at most one fulfil row per order, and the settlement id is set exactly when that row exists with that id |
| `WebhookRuns.DeliverKeepsConsistent` | examples/python/webhook_consumer.py:235-275 | one delivery keeps the tables consistent, and orders fulfilled once, unless it is exactly this: a new settlement with the order's own terms for an order whose stored settlement id is the empty text; no table constraint fires on consistent tables |
| `WebhookRuns.AcceptedPayment` | examples/python/webhook_consumer.py:245-265 | the same for an accepted payment event |
| `WebhookRuns.RunsFulfillOnce` | examples/python/webhook_consumer.py:180-275 | every run with non-empty ids from unpaid orders keeps the tables consistent and fulfils each order at most once |
| `WebhookRuns.RunsFulfillOnceExactly` | examples/python/webhook_consumer.py:246-252 | every run: orders are fulfilled at most once exactly when no delivery meets an order in that state |
| `WebhookRuns.RunsKeepJournal` | examples/python/webhook_consumer.py:235-270 | every run: the inbox is the log of accepted deliveries, the outbox its payments in order, and order terms never change |
| `WebhookRuns.RunsTrackOrders` | examples/python/webhook_consumer.py:245-261 | every run: an order's state is that of the last payment event accepted for it |
| `WebhookRuns.RowsOfLog` | examples/python/webhook_consumer.py:245-265 | an accepted settlement or reorg has exactly one outbox row, about that payment, and another accepted event has none |
| `WebhookRuns.RowsAreDistinct` | examples/python/webhook_consumer.py:253-265 | no two outbox rows share an event |
| `WebhookRuns.RunsPairRows` | examples/python/webhook_consumer.py:235-270 | every run, whatever its ids: the inbox row of a payment event has one outbox row, every other inbox row has none, and no two outbox rows share an event |
| `WebhookRuns.RowComesFromLog` | examples/python/webhook_consumer.py:253-265 | every outbox row comes from an accepted payment event |
| `WebhookInbox.ValidatedExactly` | examples/python/webhook_consumer.py:166-213 | an event moves an order exactly when it is for this merchant and environment and is a complete settlement or reorg of that order; it is accepted without effect on orders exactly when it is ours and of another type |
| `WebhookInbox.RejectedExactly` | examples/python/webhook_consumer.py:160-213 | which error a rejected event gets, in the order of the checks |
| `WebhookCalls.LogIsAccepted` | examples/python/webhook_consumer.py:221-272 | the log holds deliveries of the run that were accepted for the first time |
| `WebhookCalls.RowsComeFromCalls` | examples/python/webhook_consumer.py:166-275 | every run: an outbox row comes from an accepted webhook for this merchant and environment that is a complete settlement or reorg, with that order's own amount and currency |
| `WebhookCalls.CallsHaveRows` | examples/python/webhook_consumer.py:166-275 | every run: an accepted settlement or reorg webhook has exactly one outbox row, which does what it asks for |
| `WebhookCalls.TablesByHistory` | examples/python/webhook_consumer.py:221-270 | every run with non-empty ids: an id is in the inbox, and an order is settled, exactly when a delivery before was accepted for it |
| `WebhookCalls.AcceptedByHistory` | examples/python/webhook_consumer.py:219-275 | every run with non-empty ids: which deliveries are accepted, told by the earlier deliveries alone: valid, a new id, the order's terms, and a reorg or the first settlement |
| `WebhookCalls.CallsAcceptedByHistory` | examples/python/webhook_consumer.py:166-275 | the same, told by the webhooks |
| `WebhookCalls.EmptyIdFulfillsTwice` | examples/python/webhook_consumer.py:246-256 | two settlement webhooks for one order, the first with the empty id, are both fulfilled |
| `Watchdog.Monitor.CheckTargets` | scripts/scanner_watchdog.py:288-299 | the loop over targets gives every configured target its evaluation and the events in order |
| `Watchdog.Monitor.NoteRemoved` | scripts/scanner_watchdog.py:309-311 | one removed event for every alerted target that is no longer configured |
| `Watchdog.Monitor.Deliver` | scripts/scanner_watchdog.py:313-321 | the channel receives the oldest messages it accepts and the rest stays, in order |
| `Watchdog.Monitor.DeliverAll` | scripts/scanner_watchdog.py:312-322 | every configured channel gets its own queue, and only those |
| `Watchdog.Monitor.RunOnce` | scripts/scanner_watchdog.py:282-323 | a tick leaves exactly the specified state |
| `WatchdogRuns.MessagesAreOwed` | scripts/scanner_watchdog.py:286-311 | the messages of a tick hold for each target exactly what the tick owes it |
| `WatchdogRuns.MessagesInOrder` | scripts/scanner_watchdog.py:288-311 | the messages of a tick come in the order of the configuration and then, for removed targets, of the state file |
| `WatchdogRuns.EvaluateMoves` | scripts/scanner_watchdog.py:194-215 | an evaluation emits at most one event, and the one that fits the change of the alert state |
| `WatchdogRuns.OwedMoves` | scripts/scanner_watchdog.py:286-311 | the same for a tick, including targets that are no longer configured |
| `WatchdogRuns.EventsAreIncidents` | scripts/scanner_watchdog.py:194-215 | every run: the events of a target are a prefix of (alert repeat* (recovered or removed))*, and an incident is open exactly while the target is saved as alerted |
| `WatchdogRuns.StretchIsUnbroken` | scripts/scanner_watchdog.py:284-293 | the stretch behind an alert is bad at every tick, its clock never goes back, and it has no gap above the limit |
| `WatchdogRuns.BadSinceIsStretchStart` | scripts/scanner_watchdog.py:194-215 | every run: a bad target that is not alerted remembers exactly when its stretch began |
| `WatchdogRuns.AlertsAreJustified` | scripts/scanner_watchdog.py:194-215 | every run: a tick alerts exactly when no incident is open and the unbroken bad stretch is at least the configured time long, and reports its length |
| `WatchdogRuns.AlertedAtIsEarliest` | scripts/scanner_watchdog.py:194-215 | every run: the saved alert time is the earliest clock reading since the last alert or repeat of the open incident |
| `WatchdogRuns.EarliestIsFirst` | scripts/scanner_watchdog.py:196-199 | which is the time of that notice while the clock does not go back |
| `WatchdogRuns.RepeatsAreTimely` | scripts/scanner_watchdog.py:201-214 | every run: exactly when a tick repeats an alert, reports a recovery, and reports a removal |
| `WatchdogRuns.OpenIsAlerted` | scripts/scanner_watchdog.py:194-215 | every run: a target is saved as alerted exactly while an incident is open |
| `WatchdogRuns.BadSinceIsEarliest` | scripts/scanner_watchdog.py:206-214 | every run: an alerted target has been bad since the earliest clock reading from the start of the stretch that was alerted on |
| `WatchdogRuns.EventsWithoutIncident` | scripts/scanner_watchdog.py:194-215 | every run, while no incident is open: the whole event, with problem, lag and duration, told by the observations and the clock |
| `WatchdogRuns.EventsOfIncident` | scripts/scanner_watchdog.py:194-215 | every run, while an incident is open: the whole repeat, recovery or removal, with problem, lag and duration, and a recovery from moment zero reported as zero |
| `WatchdogOutbox.PendingIsSuffix` | scripts/scanner_watchdog.py:312-322 | every run: a channel's pending queue is the newest generated messages, at most 50 |
| `WatchdogOutbox.UnconfiguredIsForgotten` | scripts/scanner_watchdog.py:312-322 | a channel that is no longer configured loses its queue |
| `WatchdogOutbox.AcknowledgedInOrder` | scripts/scanner_watchdog.py:312-322 | every run: accepted messages are generated ones in their order, each at most once, all older than what is pending |
| `WatchdogOutbox.MessagesAreConserved` | scripts/scanner_watchdog.py:312-322 | every run: each message is accepted, pending or cut off by the bound |
| `WatchdogOutbox.NothingIsLost` | scripts/scanner_watchdog.py:312-322 | without overflow, accepted followed by pending is everything generated |
| `WatchdogOutbox.DeliveredExactly` | scripts/scanner_watchdog.py:312-322 | accepted followed by pending is everything generated exactly when pending plus new never exceeds 50 |
| `WatchdogOutbox.OneTickOverflows` | scripts/scanner_watchdog.py:312-322 | one tick with 51 unreachable targets, alerts without delay and a channel that is down: 51 messages, 50 pending, one lost |
| `WatchdogOutbox.ChannelsAreIndependent` | scripts/scanner_watchdog.py:312-322 | every run: what other channels accept, and whether they exist, changes neither the messages nor this channel's queue |
| `Workflow.Repository.Acquire` | scripts/agent_workflow.py:85-91 | creates the lock file, or fails when it exists |
| `Workflow.Repository.Release` | scripts/agent_workflow.py:90-93 | removes the lock file after success and after failure |
| `Workflow.Repository.Precheck` | scripts/agent_workflow.py:120-127 | goes on exactly for a valid, unknown worker without a worktree directory, and the error of each other case |
| `Workflow.SlugsMatchPattern` | scripts/agent_workflow.py:18 | slugs are a small letter or digit and at most 47 of these or hyphens |
| `Workflow.RecordsAreDistinct` | scripts/agent_workflow.py:124-136 | different workers, or workers of different tasks, never share a branch or a directory |
| `Workflow.Repository.Allocate` | scripts/agent_workflow.py:131-137 | under the lock: creates the worktree and writes the record on the current base, or leaves the file as it was, with the error of each case |
| `Workflow.Repository.AddWorker` | scripts/agent_workflow.py:119-138 | succeeds exactly under the listed conditions; the record has the worker's branch and directory and the task's base commit, and nothing else in the file changes; the lock is left as it was found; and the call is one path of the process below |
| `Workflow.Repository.Complete` | scripts/agent_workflow.py:99-116 | under the lock: completes all workers and moves the base, or leaves the file as it was |
| `Workflow.Repository.SnapshotTask` | scripts/agent_workflow.py:96-116 | succeeds exactly when everything is clean and every active worker is integrated in HEAD; then HEAD is the base, no worker is active and all are completed; and the call is one path of the process below |
| `Workflow.AllIntegrated` | scripts/agent_workflow.py:102-110 | the loop accepts exactly when every active worker is clean and integrated |
| `WorkflowRuns.MoveWrites` | scripts/agent_workflow.py:96-138 | a step replaces the state file only by a whole legal operation on its present contents |
| `WorkflowRuns.MoveLocks` | scripts/agent_workflow.py:85-93 | while the lock exists, a process that does not hold it cannot change shared state |
| `WorkflowRuns.StepExcludes` | scripts/agent_workflow.py:85-93 | at most one process holds the lock, and only while the lock file exists |
| `WorkflowRuns.StepKeepsCurrent` | scripts/agent_workflow.py:98-99 | what a process read under the lock stays the contents of the file until it writes |
| `WorkflowRuns.ApplyKeepsWellFormed` | scripts/agent_workflow.py:111-114 | allocation and snapshot keep names disjoint and active workers on the current base |
| `WorkflowRuns.ApplyKeepsRecords` | scripts/agent_workflow.py:111-114 | allocation adds one record and snapshot none; existing records are unchanged |
| `WorkflowRuns.RunsAreSerializable` | scripts/agent_workflow.py:85-138 | every interleaving, with kills: the state file is that of some sequence of whole legal operations |
| `WorkflowRuns.RunsStayWellFormed` | scripts/agent_workflow.py:85-138 | every interleaving: active and completed names are disjoint and every active worker's base is the task's current base |
| `WorkflowRuns.NoRecordIsLost` | scripts/agent_workflow.py:85-138 | every interleaving: a record that was written stays, unchanged |
| `WorkflowRuns.OneProcessSucceeds` | scripts/agent_workflow.py:119-138 | every interleaving: a worker is recorded exactly when it was at the start or exactly one process succeeded in adding it |
| `WorkflowRuns.RunsHaveTrees` | scripts/agent_workflow.py:134-137 | every interleaving: no record is written before its worktree exists |
| `WorkflowRuns.LockIsReleased` | scripts/agent_workflow.py:85-93 | without kills the lock file exists exactly while a process holds it |
| `WorkflowRuns.AbandonedLockStopsWrites` | scripts/agent_workflow.py:85-93 | a lock file left by a killed process stops every later change |
| `Idempotency.Storage.Read` | apps/admin/src/financial-idempotency.ts:16-31 | returns the stored entries, or nothing and an emptied store when they are too long, too many or invalid |
| `Idempotency.ReadByRule` | apps/admin/src/financial-idempotency.ts:8-31 | entries are read back exactly when their text is at most 131072 long and they are at most 24 valid ones |
| `Idempotency.JsonHasLength` | apps/admin/src/financial-idempotency.ts:33-36 | the computed length is that of the JSON text, with its escapes |
| `Idempotency.KeysMatchPattern` | apps/admin/src/financial-idempotency.ts:6 | a key is a text that matches the pattern character by character |
| `Idempotency.RandomKeysAreKeys` | apps/admin/src/financial-idempotency.ts:46 | every key that is created by default is a key |
| `Idempotency.Storage.Write` | apps/admin/src/financial-idempotency.ts:33-36 | keeps the last 24 entries |
| `Idempotency.PendingKey` | apps/admin/src/financial-idempotency.ts:46-57 | the new entries and the reply are those of the specified call, with both errors and a missing store |
| `Idempotency.Complete` | apps/admin/src/financial-idempotency.ts:59-62 | the new entries are those of the specified call |
| `IdempotencyRuns.StepRefines` | apps/admin/src/financial-idempotency.ts:16-62 | one call within the length limit is one step of a first-in-first-out map of 24 keys, with the same reply |
| `IdempotencyRuns.RunRefines` | apps/admin/src/financial-idempotency.ts:16-62 | every run within the limit is a run of that map; fingerprints stay distinct |
| `IdempotencyRuns.EvictedExactly` | apps/admin/src/financial-idempotency.ts:33-36 | a fingerprint is evicted exactly when another one is added to a full queue that it leads |
| `IdempotencyRuns.KeepsItsKey` | apps/admin/src/financial-idempotency.ts:46-57 | a fingerprint keeps its key while it and all that came later are at most 24 |
| `IdempotencyRuns.KeyIsHandedOutAgain` | apps/admin/src/financial-idempotency.ts:46-57 | the key handed out first is handed out again until completion or 24 newer fingerprints |
| `IdempotencyRuns.PlainFits` | apps/admin/src/financial-idempotency.ts:19-22 | 24 entries whose fingerprints need no JSON escapes always fit the limit |
| `IdempotencyRuns.PlainRunsFit` | apps/admin/src/financial-idempotency.ts:16-62 | so runs over such fingerprints need no length condition |
| `IdempotencyRuns.KeyKeptExactly` | apps/admin/src/financial-idempotency.ts:19-22 | every run: a stored fingerprint gets its key back exactly while the text is within 131072 characters |
| `IdempotencyRuns.RunsStayWellFormed` | apps/admin/src/financial-idempotency.ts:16-62 | every run, however long its text: at most 24 valid entries with distinct fingerprints |
| `IdempotencyRuns.RefinesExactly` | apps/admin/src/financial-idempotency.ts:16-62 | every run: the store reads as the first-in-first-out map after every call exactly when its text stays within the limit after every call |
| `IdempotencyRuns.SixAwkwardRequestsAreForgotten` | apps/admin/src/financial-idempotency.ts:19-22 | six valid requests after which the store reads as empty |
| `Crc32.RunIsTimes` | apps/admin/src/xlsx.ts:13-17 | for any linear shift, feeding inputs one per step is xoring them in beforehand and shifting |
| `Crc32.ShiftIsRegister` | apps/admin/src/xlsx.ts:15 | the shift with polynomial 0xEDB88320 is linear over xor and moves words with a clear low bit down |
| `Crc32.PolynomialPowers` | apps/admin/src/xlsx.ts:15 | the powers of the polynomial, reflected, and the register of ones |
| `Crc32.NumberOfBits` | apps/admin/src/xlsx.ts:15 | a word is the number whose binary digits it holds |
| `Crc32.FeedByte` | apps/admin/src/xlsx.ts:15-20 | feeding eight message bits is xoring the byte in and shifting eight times |
| `Crc32.LookUp` | apps/admin/src/xlsx.ts:20 | eight shifts split into the table entry of the low byte and the word moved down by eight |
| `Crc32.StepFeedsByte` | apps/admin/src/xlsx.ts:20 | one table lookup is eight steps of the bit-serial register |
| `Crc32.Checksum.BuildTable` | apps/admin/src/xlsx.ts:11-18 | the 256 entries are the eightfold shifts of their indices |
| `Crc32.Checksum.Compute` | apps/admin/src/xlsx.ts:10-22 | the checksum is the bit-serial CRC of section 8 of RFC 1952, with the table built once and kept |
| `Crc32.Checksum.Checked` | apps/admin/src/xlsx.ts:19-21 | the same for the loop over the bytes, for every byte sequence |
| `Zip.LocalHeadIsRead` | apps/admin/src/xlsx.ts:33-46 | a reader finds every field of a local header where section 4.3.7 of PKWARE APPNOTE.TXT puts it: version, flags, method, time, date, checksum, sizes and lengths |
| `Zip.CentralHeadIsRead` | apps/admin/src/xlsx.ts:47-61 | the same for a central header and section 4.3.12, with the maker's version, disk, attributes and offset |
| `Zip.EndFields` | apps/admin/src/xlsx.ts:67-73 | the same for the end record and section 4.3.16, with disk numbers and comment length |
| `Zip.FieldBytes` | apps/admin/src/xlsx.ts:35-36 | fields are written lowest byte first; the three signatures, byte by byte |
| `Zip.SignatureBytes` | apps/admin/src/xlsx.ts:35-69 | every record starts with its signature, and the archive with one |
| `Zip.ReadDirectoryEntries` | apps/admin/src/xlsx.ts:47-64 | following the central directory's offsets finds every entry |
| `Zip.ReadUndoesWrite` | apps/admin/src/xlsx.ts:25-81 | the reader recovers exactly the names, data and checksums of every entry list that fits |
| `Zip.OnlyFittingIsRead` | apps/admin/src/xlsx.ts:25-81 | an archive that the reader recovers has entries that fit |
| `Zip.ReadableExactlyWhenFits` | apps/admin/src/xlsx.ts:25-81 | the archive reads back as its entries exactly when sizes, offsets and counts fit their 16 and 32 bit fields |
| `Zip.TooManyEntries` | apps/admin/src/xlsx.ts:67-73 | 65536 entries: the archive does not read back |
| `Zip.WorkbookReadableExactly` | apps/admin/src/xlsx.ts:144-151 | the six parts of a workbook read back exactly when their contents are below 4 GiB less 288 bytes |
| `ZipWriter.WriteLocal` | apps/admin/src/xlsx.ts:33-46 | filling the buffer through fixed offsets gives the local record |
| `ZipWriter.WriteCentral` | apps/admin/src/xlsx.ts:47-61 | filling the buffer gives the central record, unset fields being zero |
| `ZipWriter.WriteEnd` | apps/admin/src/xlsx.ts:67-73 | filling the buffer gives the end record |
| `ZipWriter.WriteRecords` | apps/admin/src/xlsx.ts:26-65 | the running offset is the size of the local records, and each central record has its entry's offset |
| `ZipWriter.TotalSize` | apps/admin/src/xlsx.ts:66 | the sum of the parts' lengths is the length of their concatenation |
| `ZipWriter.Assemble` | apps/admin/src/xlsx.ts:74-80 | copying the parts at a running position gives their concatenation |
| `ZipWriter.WriteArchive` | apps/admin/src/xlsx.ts:25-81 | the program writes exactly the archive that the reader lemmas are about |
| `ColumnName.Name` | apps/admin/src/xlsx.ts:83-87 | the loop ends for every index, and the name's number in bijective base 26 is index + 1 |
| `ColumnName.NumberOfName` | apps/admin/src/xlsx.ts:83-87 | decoding a name gives its number back |
| `ColumnName.NumberIsInjective` | apps/admin/src/xlsx.ts:83-87 | different names have different numbers |
| `ColumnName.NameOfNumber` | apps/admin/src/xlsx.ts:83-87 | every string of letters is the name of its number |
| `Positional.RecodeUndone` | scripts/signup_screening_import.py:105-113 | changing the base and back is the identity, leading zeros included, for any two bases |
| `Base58.FindAlphabet` | scripts/signup_screening_import.py:39 | every one of the 58 digits has its own character |
| `Base58.AlphabetExactly` | scripts/signup_screening_import.py:39 | the alphabet is the ASCII letters and digits without 0, I, O and l |
| `Base58.Accumulate` | scripts/signup_screening_import.py:105-111 | the loop gives the number in base 58, or nothing exactly when a character is outside the alphabet |
| `Base58.ToBytesIsShortest` | scripts/signup_screening_import.py:112 | the byte count from the bit length gives the shortest big-endian body |
| `Base58.OnesAreZeros` | scripts/signup_screening_import.py:113 | leading ones are leading zero digits |
| `Base58.Base58Decode` | scripts/signup_screening_import.py:105-113 | nothing exactly outside the alphabet, otherwise the specified change of base |
| `Base58.DecodeUndoesEncode` | scripts/signup_screening_import.py:105-113 | decoding an encoded byte string gives it back |
| `Base58.EncodeUndoesDecode` | scripts/signup_screening_import.py:105-113 | encoding a decoded base58 string gives it back |
| `Csv.Guard` | apps/admin/src/csvExport.ts:8-11 | no cell starts a formula, and only cells that did are changed |
| `Csv.GuardedCell` | apps/admin/src/csvExport.ts:8-11 | an apostrophe in front of exactly the six characters |
| `Csv.ParsedCellsAreSafe` | apps/admin/src/csvExport.ts:8-17 | no cell that a reader gets begins with one of the six characters |
| `Csv.QuotedExactly` | apps/admin/src/csvExport.ts:12 | a cell is quoted exactly when it holds a quote, a comma or a line break |
| `Csv.ParseCell` | apps/admin/src/csvExport.ts:10-13 | a parser of section 2 of RFC 4180 reads a cell back, with quotes, commas and line breaks |
| `Csv.ParseUndoesWrite` | apps/admin/src/csvExport.ts:15-17 | parsing any exported table gives the guarded cells, missing rows and cells reading as one empty cell |
| `Csv.RoundTripExactly` | apps/admin/src/csvExport.ts:10-17 | parsing gives exactly the guarded cells if and only if the table and all its rows are non-empty |
| `Csv.EmptyTableReadsAsCell` | apps/admin/src/csvExport.ts:15-17 | the empty table reads back as a table with one empty cell |
| `Money.ExactMinorDenotes` | apps/admin/src/csvExport.ts:19-24 | the text is a canonical whole part and `scale` digits that denote exactly value / 10^scale |
| `Money.ExactMinorWhole` | apps/admin/src/LiveAdminPages.tsx:58-63 | without decimals the text is the canonical number |
| `Money.FormatAtomicDenotes` | apps/admin/src/LiveAdminPages.tsx:65-68 | the short text denotes the same amount and has no trailing zero |
| `Money.TokenFormattersAgree` | apps/admin/src/sanctions.ts:3-9 | both token formatters give the same text for every digit string and 0 to 77 decimals |
| `Money.AtomicAmountAsGiven` | apps/admin/src/sanctions.ts:4 | anything but digits, and decimals outside 0 to 77, leave the text as it is |
| `Ranking.CompareIsTotal` | apps/admin/src/LiveAdminPages.tsx:467-484 | the comparator is antisymmetric and total for all candidates |
| `Ranking.DatedIsTransitive` | apps/admin/src/LiveAdminPages.tsx:467-484 | it is transitive when close candidates have dates, although ages count only between close ones |
| `Ranking.TransitiveExactly` | apps/admin/src/LiveAdminPages.tsx:467-484 | on a set of candidates it is transitive exactly when, beside an undated close candidate, the dated ones of its group have equal age, score, distance and rank |
| `Ranking.UndatedOrderContradicts` | apps/admin/src/LiveAdminPages.tsx:475-478 | three candidates, one undated, on which it contradicts itself |
| `Ranking.SortedIsUnique` | apps/admin/src/LiveAdminPages.tsx:467-484 | a stable sort has only one possible result |
| `Ranking.RankIsTheRanking` | apps/admin/src/LiveAdminPages.tsx:465-484 | a list is a stable ranking of the candidates that are not disqualified exactly when it is the computed one and nothing obstructs it; it then has exact matches first |
| `Ranking.CloseIsFivePercent` | apps/admin/src/LiveAdminPages.tsx:438-456 | close means within a twentieth of a positive expected amount, exact means equal; what cannot be read counts as no distance |
| `Ranking.BeforeByKeys` | apps/admin/src/LiveAdminPages.tsx:467-484 | the comparator with the stable sort, key by key: exact, close, age between close dated ones, score, distance, rank, place |
| `Ranking.RankingIsByKeys` | apps/admin/src/LiveAdminPages.tsx:465-484 | in every ranking each candidate comes before all later ones in that order |
| `Ranking.RankingIsComplete` | apps/admin/src/LiveAdminPages.tsx:465-467 | a ranking holds exactly the candidates that are not disqualified, each once |
| `Ranking.RankingExistsExactly` | apps/admin/src/LiveAdminPages.tsx:465-484 | a stable ranking exists exactly when no undated close candidate stands between two dated ones of its group that are listed in the wrong order |
| `Ranking.DatedListsAreRanked` | apps/admin/src/LiveAdminPages.tsx:465-484 | with readable dates the ranking always exists |
| `Ranking.NoRankingOfThree` | apps/admin/src/LiveAdminPages.tsx:474-478 | three candidates, one undated, that have no stable ranking |
| `Majority.Count` | scripts/rpc_provider_probe.py:229-230 | the counter holds the number of votes of every digest |
| `Majority.MajorityOf` | scripts/rpc_provider_probe.py:227-235 | returns a digest exactly when more than half of the answering endpoints gave it |
| `Majority.MajorityIsUnique` | scripts/rpc_provider_probe.py:227-235 | two digests cannot both have a majority |
| `Majority.VotesOfPermutation` | scripts/rpc_provider_probe.py:227-235 | votes do not depend on the order of the answers |
| `Majority.Agreement` | scripts/rpc_provider_probe.py:260-266 | the agreeing endpoints are exactly those that gave the majority digest in both ranges, and the verdict counts them |
| `Majority.AgreeingGaveTheSame` | scripts/rpc_provider_probe.py:260-265 | any two agreeing endpoints gave equal digests in both ranges |

## Left out

- The Go services under `backend/`: the domain packages are not part of this model.
- React pages, hooks, translations, SDKs, wallet connectors and the installer: thin wrappers or user interface.
- HMAC, SHA-256, signatures, header parsing and HTTP: a webhook enters the model after its verification.
- A `status` of a webhook intent that is not hashable raises another exception in the source; the model treats it as an invalid event.
- The bytes of the acknowledgement: it stands for the event id that it names.
- `published_at`, the worker that reads the outbox, and a monotone order of `paid` and `reorg_review`, which the consumer does not promise.
- Other actors on the container daemon, restart policies, killed repairs, and exceptions that are neither a runtime nor an operating-system error.
- Containers created with auto-remove, which a real daemon deletes when they stop: the model assumes that a stopped container stays.
- `ScannerRepair.Launch`: the clock is arbitrary, so the pause between two looks is only known to be at least two seconds long.
- Container references by id prefix, and percent-encoding of names in request paths.
- Watchdog probes, message texts and secrets: an observation per target and the number of messages a channel accepts are inputs; an event stands for its text.
- The watchdog's status file and its states `down`, `degraded` and `ok`.
- The cleaning of a corrupt watchdog state file, and ticks whose state file cannot be written.
- Times are real numbers; floating-point rounding is not modelled.
- Corrupt workflow state files, the checks of `run_checks`, `init_task`, and a person who removes a stale lock file.
- `Workflow.Repository.SnapshotTask`: which of several failing checks is reported first is not modelled.
- Storage quota errors and other writers of the browser's session storage; fingerprints and keys are UTF-16 texts.
- `xmlText`, styles and sheet names of the workbook, and UTF-8 encoding: the archive takes names and data as bytes.
- `approximateUnmatchedMoney` and `candidateIsShortfall`: display helpers without state.
- Parsing of amounts and dates in the ranking: a text that does not parse is `None`; scores are numbers.
- The median head, block windows and the sorting of agreeing ids in `probe_chain`.
- `Majority.Count`: the counter's order among equal counts is that of first appearance, which the result does not depend on.
