# HikBridge verification

A Dafny model of HikBridge, the bridge between Hikvision attendance terminals and a Firestore cloud, with proofs of what its
protocols and calculations promise. It models the logic of the bridge (Go) and of the cloud functions (TypeScript). To verify it,
use `dafny verify dfyconfig.toml`.

## What is modelled

- **Device commands** (`Commands`, `CommandRepository`, `CommandBridge`, `CommandProtocol`, `CommandStarts`, `CommandTraces`,
  `SecondStart`, `CommandResults`, `CommandPromises`, `EnrollmentLock`, `EnrollmentRows`, `ProtocolLimits`). The two transactions
  of a command exchange, the queueing of commands, and the bridge's receipts form one state machine for a device: clock ticks,
  queueing, result and delivery transactions, lost responses, a crash between any two durable writes. A transaction is an atomic
  step; the candidate query and the delivery transaction are separate steps. Three results are about all runs: when terminal work
  starts at most once, when the fingerprint lock excludes, and when an enrollment row follows its enrollment.
- **Event queue and upload** (`EventDisk`, `EventStore`, `EventExclusion`, `EventPipeline`, `CloudIngest`, `Acknowledgements`,
  `EventIntake`, `UploadOutcomes`, `EventSync`). The store's methods report the list of their durable writes, so that a crash is a
  prefix of the list; over all such runs no event is lost and none is falsely synced. The upload accepts only an exact partition
  of its batch, which makes its loop drain the queue. Cloud documents are write-once and the counts of unmapped identities are
  conserved.
- **Polling** (`Polling`). Any number of polls interleave; what a checkpoint means is proved for all of them, and that it means no
  more.
- **Attendance** (`Sorting`, `PunchSelection`, `AttendanceDay`, `DayMeaning`, `CandidateDates`). Choosing punches, the figures of
  a day, and which days an event must be recalculated for.
- **Recalculation jobs** (`RecalculationJobs`, `JobAccounts`, `JobRuns`, `JobAttempts`, `JobQueue`). Paging, child jobs and
  retries, with two sums over the queue: effort, which every run of a job uses up, and the employee-days owed, which together with
  those committed stay the same.
- **Assignments and billing** (`Assignments`, `Billing`, `BillingConvergence`, `BillingRaces`, `BillingAccess`). Disjoint shift
  assignments and the limited scan they justify; the three writers of the mirrored subscription documents, when the order of
  webhooks matters, and what a check is worth at its batch.
- **Sequential cores** (`DeviceSearch`, `LogRotation`, `SemanticVersion`). Paged search, log rotation, version precedence.

Instants are milliseconds, dates are day numbers, the time zone is a fixed offset, and hashes are injective ids. Code that changes
state is modelled by classes and loops; each such method is proved against a specification function, and the results are proved
about that function. Lists of writes or steps that a method returns are ghost values.

## Assumptions and findings

- `docs/REALTIME_COMMAND_DELIVERY.md:59` says that a repeated signal cannot duplicate a command. The delivery transaction
  (`firestore-repository.ts:304-328`) does not re-read whether a candidate is still open, so with overlapping exchanges it can:
  `OverlappingExchangesStartTwice` is such a run. `AtMostOnce` holds over all runs in which no delivery hands out a finished, once
  started command whose receipt is gone or about to go, and `ForgottenStartsAgain` continues every run that comes to such a
  delivery to another start, up to the command's expiry. Serial exchanges, where the cloud has finished one before the next is
  sent, are sufficient for this and for the lock.
- The lock excludes in exactly the runs in which no delivery hands out a finished enrollment before it expires: `MutualExclusion`.
- What one delivery transaction does to finished commands: `DeliveryKeepsOutcomes`.
- A row changes hands in a delivery exactly as `RowKeptExactly` says; serial exchanges alone do not exclude it, since an
  enrollment may be queued between the moment an exchange's request is received and its delivery: `LateDeliveryTakesRow` is such a
  run.
- `MarkFailed` writes the failed record before it removes the queued one, so an id can be both: exactly when a crash comes between
  the two (`RejectionCutOff`, `ReplayKeepsExclusion`), of which `RejectedCanStayQueued` is a run. Opening the store keeps exactly
  those pairs whose record it keeps (`RecoverPending`).
- The engine's window is closed at its right end and the loader's query is half-open: `LastInstantIsLost`.
- The two candidate dates suffice only for shifts whose window lies within two days: `CandidateDatesExactly`.
- The overlap check reads a hundred assignments: `GuaranteeExactly`.
- Webhooks converge exactly when the newest events write the same (`SchedulesAgreeExactly`), and the trial marker exactly as
  `MarkersAgreeExactly` says; both fail for some events (`EqualTimesKeepTheLast`, `TrialMarkerDependsOnOrder`). An event without a
  time of its own takes the time of its delivery, so it is outside these results. A manual activation forgets the provider's time:
  `UnseenAppliesExactly`, `ActivationForgetsEventTime`.
- A manual activation checks before its batch, and not in it, that no provider subscription runs. It replaces one exactly as
  `ReplacesRunningExactly` says; `FirstSubscriptionReplaced` and `ResumedSubscriptionReplaced` are such inputs. A status change
  asks the provider before its batch about the subscription it finds, and sets another one exactly as `SetsUnaskedExactly` says;
  `UnaskedSubscriptionSet` is such an input. The mirror does not depend on it.
- Polling and the command protocol assume a clock that does not go back, and that the device keeps its records.

## Model

| member | source | states |
|---|---|---|
| Commands.AcknowledgedExactly | Infact-HikBridge-v0.1/cloud/functions/src/ingest/firestore-repository.ts:222-282 | The acknowledged ids are exactly the reported ids whose command exists and belongs to the authenticated device, open or finished. |
| Commands.ResultsComplete | Infact-HikBridge-v0.1/cloud/functions/src/ingest/firestore-repository.ts:222-282 | A result transaction finishes exactly the reported open commands of the device, alters no other command and no finished one, and frees the fingerprint lock exactly when it finishes the enrollment that the lock names. |
| CommandResults.ResultsDecide | Infact-HikBridge-v0.1/cloud/functions/src/ingest/firestore-repository.ts:222-237 | Every reported, owned, open command ends succeeded if and only if its result succeeded, with the result's code, and is otherwise unchanged; of several results for one command the last counts. |
| CommandResults.RowsAfterAllResults | Infact-HikBridge-v0.1/cloud/functions/src/ingest/firestore-repository.ts:242-279 | The row of an employee number ends as the last result about it says: state, command, error, finger and synchronization time; another command's fingerprint state is kept, with the outcome of a user synchronization noted beside it; rows no result is about are unchanged. |
| Commands.FirstDispatchableIsDispatchable | Infact-HikBridge-v0.1/cloud/functions/src/ingest/firestore-repository.ts:304-371 | The command handed out is the first candidate that is unexpired, unleased and well formed: no earlier candidate is, and there is none only if no candidate is. |
| Commands.DeliveryCommands | Infact-HikBridge-v0.1/cloud/functions/src/ingest/firestore-repository.ts:304-386 | A delivery leases at most one command, fails exactly the expired and malformed candidates of the device, and leaves all other commands as they were. |
| Commands.DeliveryLock | Infact-HikBridge-v0.1/cloud/functions/src/ingest/firestore-repository.ts:311-341 | A delivery drops the lock exactly when it fails the command the lock names. |
| CommandResults.HandedOut | Infact-HikBridge-v0.1/cloud/functions/src/ingest/firestore-repository.ts:304-371 | What a delivery hands out is complete, of its device, unexpired and not leased; and it hands out nothing only if no candidate is all that. |
| CommandResults.RowsAfterOneDelivery | Infact-HikBridge-v0.1/cloud/functions/src/ingest/firestore-repository.ts:311-371 | A delivery changes a row exactly if it fails the row's own command, which the row then shows with the reason, or hands out an enrollment for it, which it then shows as being captured. |
| CommandResults.LeasedLife | Infact-HikBridge-v0.1/cloud/functions/src/ingest/firestore-repository.ts:304-350 | A command handed out can be handed out again from two minutes later on until it expires, and not before. |
| Commands.DeliveryKeepsOutcomes | Infact-HikBridge-v0.1/cloud/functions/src/ingest/firestore-repository.ts:287-328 | A delivery transaction leaves every finished command exactly as it is, result code included, if and only if the first dispatchable candidate is not finished and no candidate that fails is finished, unless it already failed with that code. It does not hold for every candidate list, because the transaction does not re-read whether a candidate is still open. |
| CommandRepositories.CommandRepository.CompleteCommands | Infact-HikBridge-v0.1/cloud/functions/src/ingest/firestore-repository.ts:206-284 | The result loop of one exchange, with its buffered writes, yields the documents and acknowledgements that the transaction is specified to yield. |
| CommandRepositories.CommandRepository.DeliverCommands | Infact-HikBridge-v0.1/cloud/functions/src/ingest/firestore-repository.ts:290-388 | The delivery loop yields the specified documents and at most one command. |
| CommandRepositories.CommandRepository.RequestEnrollment | Infact-HikBridge-v0.1/cloud/functions/src/employees/management.ts:261-337 | An enrollment is queued, with its lock and row, exactly when the employee is active and compatible and no unexpired lock is held; a refusal writes nothing. |
| CommandResults.EnrollmentGranted | Infact-HikBridge-v0.1/cloud/functions/src/employees/management.ts:261-290 | An enrollment is granted exactly for a finger from one to ten of an active employee whose code the terminals can hold, while no unexpired lock is held. |
| CommandResults.QueuedLife | Infact-HikBridge-v0.1/cloud/functions/src/employees/management.ts:291-337 | A queued enrollment can be handed out for exactly five minutes, and takes the lock for as long. |
| CommandRepositories.CommandRepository.CreateEmployeeOnDevice | Infact-HikBridge-v0.1/cloud/functions/src/employees/management.ts:104-178 | Creation is refused for a taken code, ignoring case, and otherwise registers the code and queues one terminal-user command with its row. |
| CommandResults.HiredLife | Infact-HikBridge-v0.1/cloud/functions/src/employees/management.ts:104-178 | The command of a new employee can be handed out for exactly a day; its row shows it as pending. |
| CommandPromises.CodesStayApart | Infact-HikBridge-v0.1/cloud/functions/src/employees/management.ts:104-178 | Over every run, no two employees have codes that differ at most in case, if none had at the start. |
| CommandBridge.SettledReceipts | Infact-HikBridge-v0.1/internal/bridge/runner.go:665-727 | Processing answers exactly the delivered commands that had no receipt, and changes no receipt that existed. |
| CommandBridge.CommandRunner.RemoveCommandResults | Infact-HikBridge-v0.1/internal/store/store.go:694-707 | Exactly the acknowledged receipts go, one durable removal at a time. |
| CommandBridge.CommandRunner.ProcessCommand | Infact-HikBridge-v0.1/internal/bridge/runner.go:666-727 | One command is skipped if it has a receipt; otherwise receipt, terminal work and result happen in that order, each a separate durable act. |
| CommandBridge.CommandRunner.HandleResponse | Infact-HikBridge-v0.1/internal/bridge/runner.go:655-727 | Handling a response is a list of bridge acts whose every prefix is a possible crash point, and ends with the receipts settled. |
| CommandProtocol.SerialRevivesNothing | Infact-HikBridge-v0.1/internal/bridge/runner.go:646-728 | With serial exchanges no delivery hands out a finished command, over all runs. |
| CommandStarts.RunRemembers | Infact-HikBridge-v0.1/internal/bridge/runner.go:646-728 | In every run, exchanges overlapping or not, in which no delivery forgets a start, work that began is remembered by a receipt that is held or by a finished command in the cloud, and what the bridge has been sent is recognised if it was started. |
| CommandStarts.AtMostOnce | Infact-HikBridge-v0.1/internal/bridge/runner.go:646-728 | Over every run with crashes, lost responses, expired leases, redelivery and overlapping exchanges, in which no delivery hands out a finished, once started command whose receipt is gone or about to go, terminal work for a command starts at most once. |
| CommandStarts.AtMostOnceUnrevived | Infact-HikBridge-v0.1/cloud/functions/src/ingest/firestore-repository.ts:304-328 | So when no delivery hands out a finished command. |
| CommandStarts.AtMostOnceSerial | Infact-HikBridge-v0.1/internal/bridge/runner.go:646-728 | So with serial exchanges for the device. |
| CommandPromises.LeaseHolds | Infact-HikBridge-v0.1/cloud/functions/src/ingest/firestore-repository.ts:309-350 | Over every run, overlapping exchanges included, in which no finished command is handed out, a command is handed out again only to an exchange received two minutes after the first or later. |
| CommandPromises.InterruptedUntilResult | Infact-HikBridge-v0.1/internal/bridge/runner.go:666-727 | From the moment a command's receipt is written until its result is, its receipt reports an interruption as a failure, whatever happens in between, crashes included. |
| CommandPromises.CrashIsReported | Infact-HikBridge-v0.1/internal/bridge/runner.go:646-727 | So every exchange that reports such a command reports that failure. |
| CommandPromises.InterruptionFails | Infact-HikBridge-v0.1/cloud/functions/src/ingest/firestore-repository.ts:222-237 | And its result transaction fails the command with that code. |
| SecondStart.ForgottenStartsAgain | Infact-HikBridge-v0.1/cloud/functions/src/ingest/firestore-repository.ts:287-328 | Conversely, every run that comes to such a delivery can go on to start the command again: at once if the bridge waits for that answer, and otherwise unless the command expires before it can be handed out once more. |
| EnrollmentLock.MutualExclusion | Infact-HikBridge-v0.1/cloud/functions/src/employees/management.ts:261-322 | In a run, exchanges overlapping or not, at most one enrollment of the device is open and unexpired at every moment, exactly while the lock names it with its own future expiry, if and only if no delivery hands out a finished enrollment before it expires. |
| EnrollmentLock.MutualExclusionSerial | Infact-HikBridge-v0.1/cloud/functions/src/employees/management.ts:261-322 | So with serial exchanges. |
| EnrollmentRows.RowsAfterResults | Infact-HikBridge-v0.1/cloud/functions/src/ingest/firestore-repository.ts:242-279 | Results in any order, late or for other commands, leave every enrollment row with its owner. |
| EnrollmentRows.RowKeptExactly | Infact-HikBridge-v0.1/cloud/functions/src/ingest/firestore-repository.ts:304-371 | A delivery leaves an enrollment row with its owner if and only if its first dispatchable candidate is not another enrollment for that row, or the owner fails after it in the same delivery. |
| EnrollmentRows.RowsAfterDelivery | Infact-HikBridge-v0.1/cloud/functions/src/ingest/firestore-repository.ts:304-371 | A delivery that hands out no finished command and no enrollment for another's row leaves every row with its owner, showing its state. |
| EnrollmentRows.RowFollowsItsEnrollment | Infact-HikBridge-v0.1/cloud/functions/src/ingest/firestore-repository.ts:242-371 | Over every run, exchanges overlapping or not, whose deliveries are such, a row changes hands only by queueing another enrollment for its employee number, and always shows its owner's state. |
| EnrollmentRows.RowFollowsItsEnrollmentTimely | Infact-HikBridge-v0.1/cloud/functions/src/ingest/firestore-repository.ts:242-371 | So over every serial run with timely deliveries. |
| ProtocolLimits.OverlappingExchangesStartTwice | Infact-HikBridge-v0.1/cloud/functions/src/ingest/firestore-repository.ts:287-328 | A run with two overlapping exchanges in which the bridge starts one command twice. |
| ProtocolLimits.LateDeliveryTakesRow | Infact-HikBridge-v0.1/cloud/functions/src/ingest/firestore-repository.ts:309-371 | A serial run in which a delivery that judges expiry by its old request time hands a row back to the expired enrollment: without timely deliveries, serial exchanges are not enough. |
| EventDisk.SoundReplay | Infact-HikBridge-v0.1/internal/store/store.go:221-452 | Any sequence of permitted single writes keeps records under their own ids and synced records in the cloud. |
| EventStores.Store.Quarantine | Infact-HikBridge-v0.1/internal/store/store.go:485-507 | An unreadable record's bytes are kept before the record leaves the queue. |
| EventStores.Store.RecoverPending | Infact-HikBridge-v0.1/internal/store/store.go:221-259 | After opening, no id is both queued and synced and no record is uploading; exactly the readable, unsynced records stay queued, unaltered but for interrupted uploads, which are pending again; unreadable ones are kept aside; and an id is both queued and rejected exactly if it was both and its record stays. |
| EventStores.Store.PutIfAbsent | Infact-HikBridge-v0.1/internal/store/store.go:261-290 | An event is queued exactly if its id is valid and no directory knows it; everything else is unchanged. |
| EventStores.Store.PrepareBatch | Infact-HikBridge-v0.1/internal/store/store.go:307-355 | A batch has distinct ids, is at most the limit, and, if shorter, holds the whole queue. Every record taken is one to be uploaded and is marked so with one more attempt; others stay as they are; what leaves the queue is not to be uploaded; what is rejected had been rejected before. |
| EventStores.Store.Release | Infact-HikBridge-v0.1/internal/store/store.go:365-394 | Releasing returns readable records of the given ids to the pending state, alters nothing else of them or of others, and removes none. |
| EventStores.Store.MarkSynced | Infact-HikBridge-v0.1/internal/store/store.go:396-426 | On success exactly the given ids have left the queue; those not synced before are in the synced directory with their records, and all others are as they were. |
| EventStores.Store.MarkFailed | Infact-HikBridge-v0.1/internal/store/store.go:428-452 | On success exactly the rejected ids have left the queue for the failed directory, with their records and the codes of their rejections, and all else is as it was; its writes are, for each rejection, the copy and then the removal. |
| EventStores.Store.PreserveParseIssue | Infact-HikBridge-v0.1/internal/store/store.go:454-483 | A device record that cannot be parsed is kept once. |
| EventStores.Store.PruneSynced | Infact-HikBridge-v0.1/internal/store/store.go:557-579 | Pruning removes exactly the readable synced records first seen before the cutoff. |
| EventPipeline.NoLossNoFalseSync | Infact-HikBridge-v0.1/internal/store/store.go:221-452 | At every moment of every run, with crashes between any two writes, damaged files and lost responses, each event ever stored is queued, synced, rejected, quarantined or pruned, every synced or pruned one has its cloud document, and no readable record was altered. |
| EventPipeline.GoneMeansUploaded | Infact-HikBridge-v0.1/internal/store/store.go:557-579 | An event found nowhere on disk but the synced directory, or nowhere at all, is in the cloud. |
| EventPipeline.Continues | Infact-HikBridge-v0.1/internal/store/store.go:221-452 | Steps that lead somewhere from where a run stands continue the run, and every prefix of them is a moment of it. |
| EventPipeline.ReplayIsRun | Infact-HikBridge-v0.1/internal/store/store.go:221-452 | The writes reported by any store method continue a run, and wherever they are cut off the run has the disk they left. |
| EventExclusion.WriteKeepsExclusion | Infact-HikBridge-v0.1/internal/store/store.go:428-452 | From a disk where no id is both queued and rejected, a permitted write keeps that if and only if it is not the copy of a rejected event. |
| EventExclusion.ReplayKeepsExclusion | Infact-HikBridge-v0.1/internal/store/store.go:221-452 | A list of permitted writes keeps that if and only if it removes every event whose rejection it copies. |
| EventExclusion.RejectionCutOff | Infact-HikBridge-v0.1/internal/store/store.go:428-452 | A rejection cut off after any number of writes keeps that if and only if it is not cut off between the two writes of one event. |
| EventPipeline.RejectedCanStayQueued | Infact-HikBridge-v0.1/internal/store/store.go:444-447 | Such a run for every event: it ends with the event queued and rejected, and its record survives recovery. |
| CloudIngest.ClassifyEvents | Infact-HikBridge-v0.1/cloud/functions/src/ingest/schema.ts:100-144 | A batch is refused exactly for a malformed or repeated id; otherwise every value goes to one of the two lists. |
| CloudIngest.ClassificationPartitions | Infact-HikBridge-v0.1/cloud/functions/src/ingest/schema.ts:112-142 | Accepted and rejected ids together are the submitted ids, each as often as submitted. |
| CloudIngest.ClassificationSound | Infact-HikBridge-v0.1/cloud/functions/src/ingest/schema.ts:122-141 | Accepted are exactly the values that are well formed, of the authenticated device, within the limit on the raw size and in the accepted time range; the others are rejected with a code. |
| CloudIngest.AnswerPartitions | Infact-HikBridge-v0.1/cloud/functions/src/ingest/firestore-repository.ts:130-145 | Accepted and duplicate ids partition the batch by whether the event was already stored. |
| CloudIngest.StoredOnce | Infact-HikBridge-v0.1/cloud/functions/src/ingest/firestore-repository.ts:136-144 | No stored document is ever changed, and the whole batch ends up stored. |
| CloudIngest.MappedOnArrival | Infact-HikBridge-v0.1/cloud/functions/src/ingest/firestore-repository.ts:130-145 | A newly stored document names the employee to whom its device and number were actively mapped, and otherwise none. |
| CloudIngest.AggregatesCount | Infact-HikBridge-v0.1/cloud/functions/src/ingest/firestore-repository.ts:146-156 | The count a batch adds to an identity is the number of its new events that were unmapped. |
| CloudIngest.CountsConserved | Infact-HikBridge-v0.1/cloud/functions/src/ingest/firestore-repository.ts:130-159 | Over any sequence of uploads, repeats and mappings, each identity's event count is the number of its stored events that were unmapped when ingested. |
| CloudIngest.EventRepository.StoreEvents | Infact-HikBridge-v0.1/cloud/functions/src/ingest/firestore-repository.ts:120-171 | The transaction loop yields the specified documents, counts and answer. |
| CloudIngest.EventRepository.WriteUnmappedAggregates | Infact-HikBridge-v0.1/cloud/functions/src/ingest/firestore-repository.ts:435-459 | Every identity's count grows by its aggregate, once. |
| Acknowledgements.ValidateResponse | Infact-HikBridge-v0.1/internal/syncer/client.go:316-423 | A response to an event upload is accepted exactly when it matches the request and its three lists are an exact partition of the requested ids. |
| EventIntake.Ingest | Infact-HikBridge-v0.1/cloud/functions/src/ingest/service.ts:61-115 | A batch is answered exactly if its size and ids are as required; the answer is an exact partition of it in which exactly the events that fit the schema, the device, the size and the time range are confirmed, as duplicates exactly if stored before; everything confirmed is stored. Otherwise nothing changes. |
| EventIntake.AnswerAcknowledges | Infact-HikBridge-v0.1/cloud/functions/src/ingest/service.ts:104-115 | The two lists of the write transaction and the rejections of the classification make up the batch exactly. |
| EventSync.FileAcknowledgement | Infact-HikBridge-v0.1/internal/bridge/runner.go:318-340 | Filing a valid acknowledgement takes exactly the batch out of the queue: accepted and duplicate ids end in the synced directory, rejected ones in the failed one. |
| EventSync.SyncOnce | Infact-HikBridge-v0.1/internal/bridge/runner.go:296-344 | A successful round files everything it uploaded where the answer says; a short one means the queue was drained; all it does are steps of the event pipeline; and an event that is to be uploaded leaves the queue only if it was answered, for the synced directory exactly if it fits, and otherwise for the rejected one. |
| EventSync.SyncNow | Infact-HikBridge-v0.1/internal/bridge/runner.go:346-366 | The upload loop ends and is a list of steps of the event pipeline; success means an empty queue; with an answering cloud it succeeds; what it newly rejects had been rejected before or was refused by an answer and does not fit, and what leaves the queue otherwise was answered. |
| UploadOutcomes.DrainedByAnswers | Infact-HikBridge-v0.1/internal/bridge/runner.go:346-366 | So when it has emptied the queue, every event that was to be uploaded was answered, and is in the synced directory if it fits and in the rejected one if not. |
| EventSync.DrainedMeansDelivered | Infact-HikBridge-v0.1/internal/bridge/runner.go:346-366 | So after a successful upload loop, whatever run came before it, every event ever stored is in the cloud, or was rejected, or its record was damaged. |
| Polling.CheckpointCoverage | Infact-HikBridge-v0.1/internal/bridge/runner.go:204-256 | Over every interleaving of polls: when the checkpoint is c, each record stamped within the lookback of every poll that found no checkpoint, no later than c without its fraction, and found before c and within the overlap of the end of its second, is durable. |
| Polling.SinceExactly | Infact-HikBridge-v0.1/internal/bridge/runner.go:208-216 | The start of the coverage is exactly the latest end, less the lookback, of a poll that found no checkpoint. |
| Polling.WindowMeaning | Infact-HikBridge-v0.1/internal/bridge/runner.go:208-216 | A first poll looks back by the lookback, a later one from the checkpoint by the overlap, one behind its checkpoint from its own end by the overlap. |
| Polling.LaterRecordsCanBeMissed | Infact-HikBridge-v0.1/internal/hikvision/client.go:808-810 | For every longer delay a run exists in which the checkpoint has passed such a record and it is not durable: the allowance is exact. |
| Polling.Poller.PollOnce | Infact-HikBridge-v0.1/internal/bridge/runner.go:204-256 | One poll stores everything in its window, the first one from its end less the lookback on, each unknown event as it was found and nothing else, before it moves the checkpoint, and leaves the checkpoint alone when it fails. |
| PunchSelection.SelectPunches | Infact-HikBridge-v0.1/cloud/functions/src/attendance/engine.ts:97-152 | The filtering loop, sort and loop with a map of last times, `FilterPunches` and `DropRepeats`, compute the specified selection. |
| PunchSelection.KeptExactly | Infact-HikBridge-v0.1/cloud/functions/src/attendance/engine.ts:112-125 | In terms of the input alone: a punch counts exactly if it is in the window and no punch, of its direction where directions count, came within a minute before it, counted or not. |
| PunchSelection.ChainHead | Infact-HikBridge-v0.1/cloud/functions/src/attendance/engine.ts:112-125 | Every punch belongs to a chain of gaps of at most a minute whose first punch, and no other, counts. |
| PunchSelection.OrderIndependent | Infact-HikBridge-v0.1/cloud/functions/src/attendance/engine.ts:88-111 | The selection does not depend on the order of the input. |
| PunchSelection.PunchesConserved | Infact-HikBridge-v0.1/cloud/functions/src/attendance/engine.ts:97-151 | Counted, repeated and outside punches add up to all of them, and the reported ids are exactly those of the window, sorted. |
| PunchSelection.SelectionIdempotent | Infact-HikBridge-v0.1/cloud/functions/src/attendance/engine.ts:111-151 | Selecting again from the counted punches keeps all of them and the same first in and last out. |
| PunchSelection.ExplicitInOut | Infact-HikBridge-v0.1/cloud/functions/src/attendance/engine.ts:127-135 | With explicit directions the first in is the earliest check-in of the window and the last out the latest check-out that counts. |
| PunchSelection.UndirectedInOut | Infact-HikBridge-v0.1/cloud/functions/src/attendance/engine.ts:136-143 | Without them the day runs from the earliest punch to the latest that counts; a single one is an out only if the device says so. |
| AttendanceDay.CalculateAttendance | Infact-HikBridge-v0.1/cloud/functions/src/attendance/engine.ts:228-329 | The calculation computes the specified figures of the day. |
| AttendanceDay.ApplyAdjustments | Infact-HikBridge-v0.1/cloud/functions/src/attendance/engine.ts:154-183 | The adjustment loop leaves each of the three values as its last adjustment says. |
| AttendanceDay.LatestApprovalWins | Infact-HikBridge-v0.1/cloud/functions/src/attendance/engine.ts:242-247 | Check-in, check-out and status are what the latest approved adjustment of each says, in whatever order adjustments were loaded. |
| DayMeaning.LatestApprovalDecides | Infact-HikBridge-v0.1/cloud/functions/src/attendance/engine.ts:237-247 | In terms of times and ids of approval: the latest approved adjustment decides each value. |
| DayMeaning.StatusMeaning | Infact-HikBridge-v0.1/cloud/functions/src/attendance/engine.ts:210-222 | A status that no adjustment sets is present with a punch as adjusted, else leave, else holiday, else that there is no shift, else absence exactly on the shift's working days and a rest day on others; each as an if-and-only-if. |
| DayMeaning.WeekdayMeaning | Infact-HikBridge-v0.1/cloud/functions/src/attendance/engine.ts:233 | Days have the ISO weekdays in turn, from a Thursday on day 0. |
| DayMeaning.SourceEvents | Infact-HikBridge-v0.1/cloud/functions/src/attendance/engine.ts:228-232 | The source events of a day are exactly those punched from six hours before its shift to twelve hours after it, or as the shift says, and without a shift on the local date. |
| DayMeaning.UnadjustedPunches | Infact-HikBridge-v0.1/cloud/functions/src/attendance/engine.ts:228-250 | Without adjustments of them, check-in and check-out are those selected from these punches in the shift's mode. |
| AttendanceDay.InputOrderIrrelevant | Infact-HikBridge-v0.1/cloud/functions/src/attendance/engine.ts:228-281 | The day's figures do not depend on the order of punches and adjustments. |
| DayMeaning.DayLateness | Infact-HikBridge-v0.1/cloud/functions/src/attendance/engine.ts:265-272 | A day's lateness is the fewest whole minutes from the end of grace, or from the shift's own start, to the check-in, and zero for anyone not late. |
| DayMeaning.DayEarlyLeave | Infact-HikBridge-v0.1/cloud/functions/src/attendance/engine.ts:273-276 | A day's early leave is the fewest whole minutes from the check-out to the threshold before the shift's own end, which is on the next day for a shift over midnight. |
| DayMeaning.DayWorked | Infact-HikBridge-v0.1/cloud/functions/src/attendance/engine.ts:262-264 | A day's worked time is the whole minutes between its check-in and check-out less the break, and nothing without both in order. |
| DayMeaning.DayOvertime | Infact-HikBridge-v0.1/cloud/functions/src/attendance/engine.ts:193-280 | A day's overtime is the whole minutes from the delay after the shift's end to the check-out: none below the minimum, otherwise rounded as its policy says. |
| AttendanceDay.RoundingExactly | Infact-HikBridge-v0.1/cloud/functions/src/attendance/engine.ts:193-203 | Each rounding mode yields the one multiple of the increment that it asks for, less than one increment away. |
| AttendanceDay.OvertimeMonotone | Infact-HikBridge-v0.1/cloud/functions/src/attendance/engine.ts:277-280 | Leaving later never earns less overtime, for every policy. |
| AttendanceDay.EarlyLeaveOrOvertime | Infact-HikBridge-v0.1/cloud/functions/src/attendance/engine.ts:273-280 | No day has both early leave and overtime. |
| CandidateDates.CandidateDatesExactly | Infact-HikBridge-v0.1/cloud/functions/src/attendance/recalculation.ts:401-404 | The local date and the one before cover every day whose range holds the event, for all events, if and only if the shift's window lies within its day and the next. |
| CandidateDates.NoShiftDaysPartitionTime | Infact-HikBridge-v0.1/cloud/functions/src/attendance/recalculation.ts:162-165 | Without a shift every event is loaded for its local date and no other. |
| CandidateDates.LoadingExactly | Infact-HikBridge-v0.1/cloud/functions/src/attendance/recalculation.ts:224-234 | Loading a range changes what the engine would keep if and only if a punch falls on the end of the window. |
| CandidateDates.RecalculationSeesItsDay | Infact-HikBridge-v0.1/cloud/functions/src/attendance/recalculation.ts:266-269 | A recalculation reports no punch outside its window, and agrees with one over all events when none falls on the end. |
| CandidateDates.LastInstantIsLost | Infact-HikBridge-v0.1/cloud/functions/src/attendance/engine.ts:102-109 | A punch at the end of the window is counted by the engine and not loaded: from all events such a day has a last out, from the loaded ones none. |
| RecalculationJobs.NextPage | Infact-HikBridge-v0.1/cloud/functions/src/attendance/recalculation-jobs.ts:103-145 | After a full page, the cursor set to its last document leaves exactly the rest, so each document is visited once, also when their number is a multiple of the page size. |
| JobAccounts.DateRangeRuns | Infact-HikBridge-v0.1/cloud/functions/src/attendance/recalculation-jobs.ts:76-91 | One run of a date-range job moves its next 31 days at most from owed to committed and uses up effort. |
| JobAccounts.IdentityMappingRuns | Infact-HikBridge-v0.1/cloud/functions/src/attendance/recalculation-jobs.ts:24-64 | One run of an identity job moves its page's dates and uses up effort. |
| JobAccounts.FanAccounts | Infact-HikBridge-v0.1/cloud/functions/src/attendance/recalculation-jobs.ts:111-146 | One run of a fan-out job hands its page's dates to the children and uses up effort. |
| JobRuns.StepAccounts | Infact-HikBridge-v0.1/cloud/functions/src/attendance/recalculation-jobs.ts:204-236 | Each run of a job, successful or failing, uses up effort and neither loses nor repeats an owed employee-day. |
| JobRuns.RunAccounts | Infact-HikBridge-v0.1/cloud/functions/src/attendance/recalculation-jobs.ts:199-236 | At every moment of every run, committed and owed employee-days add up to what the first jobs asked for. |
| JobRuns.RunsAreBounded | Infact-HikBridge-v0.1/cloud/functions/src/attendance/recalculation-jobs.ts:199-236 | No run of the queue is longer than its effort at the start, whichever jobs are picked and however they fail. |
| JobRuns.NotDrainedGoesOn | Infact-HikBridge-v0.1/cloud/functions/src/attendance/recalculation-jobs.ts:200-203 | A run can go on exactly while a job is pending. |
| JobAttempts.FailsAtFifth | Infact-HikBridge-v0.1/cloud/functions/src/attendance/recalculation-jobs.ts:224-234 | Over every run, a job has as many attempts as it has failed, and is failed exactly from its fifth failure on, or once it has run with an unsupported type. |
| JobRuns.CompletedRunCovers | Infact-HikBridge-v0.1/cloud/functions/src/attendance/recalculation-jobs.ts:199-236 | When all jobs have completed, exactly the owed employee-days are committed, as often as owed, and no others were recalculated. |
| JobRuns.Contribution | Infact-HikBridge-v0.1/cloud/functions/src/attendance/recalculation-jobs.ts:199-236 | In a run that completes every job, what was committed is what any one of the first jobs owed and what the others did. |
| JobRuns.ShiftPolicyCoverage | Infact-HikBridge-v0.1/cloud/functions/src/attendance/recalculation-jobs.ts:111-146 | Among any other jobs, a shift-policy job contributes exactly the dates in its range on which an assignment of the shift is in force, once for each such assignment. |
| JobRuns.DateRangeCoverage | Infact-HikBridge-v0.1/cloud/functions/src/attendance/recalculation-jobs.ts:71-91 | Among any other jobs, a date-range job commits each of its dates exactly once across its chunks and retries. |
| JobRuns.OrganizationCoverage | Infact-HikBridge-v0.1/cloud/functions/src/attendance/recalculation-jobs.ts:158-189 | Among any other jobs, an organization-wide job commits each date once for each employee of the branch. |
| JobRuns.IdentityMappingCoverage | Infact-HikBridge-v0.1/cloud/functions/src/attendance/recalculation-jobs.ts:24-64 | Among any other jobs, an identity job recalculates exactly the candidate dates of the identity's events. |
| JobQueue.PageDates | Infact-HikBridge-v0.1/cloud/functions/src/attendance/recalculation-jobs.ts:36-43 | The candidate dates of a page, strictly increasing. |
| JobQueue.Queue.ProcessDateRange | Infact-HikBridge-v0.1/cloud/functions/src/attendance/recalculation-jobs.ts:76-91 | The chunk loop performs the specified run, or stops where a write throws with only its dates recalculated. |
| JobQueue.Queue.ProcessIdentityMapping | Infact-HikBridge-v0.1/cloud/functions/src/attendance/recalculation-jobs.ts:35-64 | The page loop performs the specified run, or stops where a write throws. |
| JobQueue.Queue.ProcessShiftPolicy | Infact-HikBridge-v0.1/cloud/functions/src/attendance/recalculation-jobs.ts:111-146 | One batch creates the page's children and moves the cursor, or nothing happens. |
| JobQueue.Queue.ProcessOrganization | Infact-HikBridge-v0.1/cloud/functions/src/attendance/recalculation-jobs.ts:158-189 | One batch creates a child for each employee of the page and moves the cursor, or nothing happens. |
| JobQueue.Queue.ProcessJob | Infact-HikBridge-v0.1/cloud/functions/src/attendance/recalculation-jobs.ts:204-236 | One job with its error handler is one step of the queue; it succeeds if nothing throws. |
| JobQueue.Queue.ProcessRound | Infact-HikBridge-v0.1/cloud/functions/src/attendance/recalculation-jobs.ts:200-236 | A round is a run of at most five steps, of at least one while a job is pending; the jobs are distinct, and each is run on the document the query returned. |
| Assignments.OverlapMeaning | Infact-HikBridge-v0.1/cloud/functions/src/shifts/management.ts:138-145 | Comparing ends finds an overlap exactly when some day has both assignments in force. |
| Assignments.ShiftAssignments.AssignShift | Infact-HikBridge-v0.1/cloud/functions/src/shifts/management.ts:138-156 | An assignment is created exactly when none of those read overlaps it. |
| Assignments.GuaranteeExactly | Infact-HikBridge-v0.1/cloud/functions/src/shifts/management.ts:123-156 | The check keeps an employee's assignments apart, for every request and every read, if and only if the employee has at most as many as the query reads. |
| Assignments.HistoryApart | Infact-HikBridge-v0.1/cloud/functions/src/shifts/management.ts:123-156 | Over any history within that limit assignments stay apart. |
| Assignments.FindActive | Infact-HikBridge-v0.1/cloud/functions/src/attendance/recalculation.ts:194-197 | The scan returns the first assignment in force. |
| Assignments.LimitedScanIsFullSearch | Infact-HikBridge-v0.1/cloud/functions/src/attendance/recalculation.ts:185-197 | With assignments apart, looking at any positive number of the latest starts finds exactly the assignment in force, or that there is none. |
| Assignments.CoveredOnce | Infact-HikBridge-v0.1/cloud/functions/src/attendance/recalculation-jobs.ts:111-121 | So a shift-policy job commits no employee-day twice. |
| Billing.RunMirrored | Infact-HikBridge-v0.1/cloud/functions/src/billing/webhook.ts:193-195 | Over any run of webhooks and the batches of status changes and manual activations, whatever was read before each batch, the organization's copy is the platform's copy without the name. |
| BillingAccess.AccessExactly | Infact-HikBridge-v0.1/cloud/functions/src/billing/webhook.ts:41-43 | Over every run, both copies give access exactly if the last step that wrote them reported an active subscription, resumed it or granted a manual term, and restrict it otherwise; billing status, time and author are also that step's. |
| BillingAccess.DefinitionExactly | Infact-HikBridge-v0.1/cloud/functions/src/billing/webhook.ts:138-168 | Over every run, plan, limits, price, term, period and customer in both copies are those of the last applied event or manual batch, whatever status changes came after it. |
| BillingAccess.NameExactly | Infact-HikBridge-v0.1/cloud/functions/src/billing/webhook.ts:138-142 | The platform's copy carries the organization's name as that step found it. |
| BillingAccess.ProviderIsNamed | Infact-HikBridge-v0.1/cloud/functions/src/billing/functions.ts:286-293 | Over every run a provider's document names its subscription, so a status change is refused only without a document or its provider's agreement. |
| BillingAccess.ActivationGranted | Infact-HikBridge-v0.1/cloud/functions/src/billing/platform.ts:42-63 | A manual activation is granted exactly for a known organization without a running provider subscription and with an end, if any, in the future. |
| BillingRaces.MeetsExactly | Infact-HikBridge-v0.1/cloud/functions/src/billing/webhook.ts:175-211 | After any steps of the three writers a document that had no running provider subscription, or no other one than a given one, or no later time than a given one, has it if and only if some step brought it about and no later step ended it. |
| BillingRaces.ReplacesRunningExactly | Infact-HikBridge-v0.1/cloud/functions/src/billing/platform.ts:48-96 | A manual activation whose check finds no running provider subscription replaces one nevertheless if and only if, between check and batch, an applying event or a pause or resumption started one and no later event, cancellation or manual batch ended it. |
| BillingRaces.ActivationOverRunning | Infact-HikBridge-v0.1/cloud/functions/src/billing/platform.ts:48-96 | With one event in between, it does so if and only if the event applies and reports a running subscription. |
| BillingRaces.ActivationOverResumed | Infact-HikBridge-v0.1/cloud/functions/src/billing/platform.ts:48-96 | With one status change in between, if and only if that pauses or resumes a provider subscription. |
| BillingRaces.FirstSubscriptionReplaced | Infact-HikBridge-v0.1/cloud/functions/src/billing/platform.ts:48-96 | Such an input for a new organization: its first subscription starts in between. |
| BillingRaces.ResumedSubscriptionReplaced | Infact-HikBridge-v0.1/cloud/functions/src/billing/platform.ts:48-96 | And one without an event in between: a cancelled subscription is resumed. |
| BillingRaces.SetsUnaskedExactly | Infact-HikBridge-v0.1/cloud/functions/src/billing/functions.ts:279-308 | The batch of a status change sets the status of a provider subscription the provider was not asked about if and only if an event applied such a one after the check, and neither an event of the one asked about nor a manual batch came after it. |
| BillingRaces.UnaskedSubscriptionSet | Infact-HikBridge-v0.1/cloud/functions/src/billing/functions.ts:279-308 | Such an input: the check finds a manual term, so the provider is not asked. |
| BillingConvergence.WinnerRemains | Infact-HikBridge-v0.1/cloud/functions/src/billing/webhook.ts:180-210 | Whatever the order and repeats, timed events leave the document as one of them alone would: of those that carry the greatest time, the one first delivered last; or as it was if all are older. |
| BillingConvergence.WebhooksConverge | Infact-HikBridge-v0.1/cloud/functions/src/billing/webhook.ts:180-210 | If one event carries the greatest time, it is that one, whatever the order and repeats. |
| BillingConvergence.SchedulesAgreeExactly | Infact-HikBridge-v0.1/cloud/functions/src/billing/webhook.ts:180-210 | All delivery schedules of a set of events agree on the document, apart from when it was written, if and only if those that carry the greatest time, when not older than the document, write the same. |
| BillingConvergence.ScheduleIrrelevant | Infact-HikBridge-v0.1/cloud/functions/src/billing/webhook.ts:180-210 | So they agree if one event carries the greatest time. |
| BillingConvergence.TrialMarkedExactly | Infact-HikBridge-v0.1/cloud/functions/src/billing/webhook.ts:204-209 | After any deliveries the trial is marked if and only if it was before, or some trial event was, at its first delivery, not older than the document nor than any event delivered before it. |
| BillingConvergence.MarkersAgreeExactly | Infact-HikBridge-v0.1/cloud/functions/src/billing/webhook.ts:204-209 | All schedules leave the same marker if and only if the trial was marked before, or every trial event is older than the document, or a trial event carries the greatest time. |
| BillingConvergence.TrialMarkerDependsOnOrder | Infact-HikBridge-v0.1/cloud/functions/src/billing/webhook.ts:204-209 | So the marker depends on the order of a trial event and a newer event that is none. |
| BillingConvergence.EqualTimesKeepTheLast | Infact-HikBridge-v0.1/cloud/functions/src/billing/webhook.ts:181-182 | The schedules of two events with one time agree if and only if the two write the same. |
| BillingRaces.UnseenAppliesExactly | Infact-HikBridge-v0.1/cloud/functions/src/billing/webhook.ts:175-211 | Over every run, an event that was not delivered before applies if and only if no later event of the organization has arrived since its last manual batch. |
| BillingRaces.ActivationForgetsEventTime | Infact-HikBridge-v0.1/cloud/functions/src/billing/platform.ts:60-84 | So after a manual activation any unseen event, however old, applies and takes the place of the manual term. |
| Billing.Subscriptions.ReceiveWebhook | Infact-HikBridge-v0.1/cloud/functions/src/billing/webhook.ts:175-211 | A webhook applies exactly if it is new and not older than the document, and writes the documents specified. |
| Billing.Subscriptions.ActivateManual | Infact-HikBridge-v0.1/cloud/functions/src/billing/platform.ts:48-96 | Whatever other writers do between its check and its batch, a manual term replaces both documents exactly if the check found no running provider subscription and the end in the future. |
| Billing.Subscriptions.ChangeStatus | Infact-HikBridge-v0.1/cloud/functions/src/billing/functions.ts:279-308 | Whatever other writers do between, a status change merges into both documents, as they then are, exactly if the check found a subscription and its provider, if any, agreed. |
| DeviceSearch.SearchEventsDetailed | Infact-HikBridge-v0.1/internal/hikvision/client.go:837-924 | Whatever the device answers to each page and position, the search ends; it succeeds exactly if some answer completes it within the page limit and all up to it are as they should be, and accounts for every record received, in order; otherwise it fails for the first reason met. |
| DeviceSearch.FinishesExactly | Infact-HikBridge-v0.1/internal/hikvision/client.go:837-947 | A search finishes exactly with the first answer that says it is the last, when it and all before it are of this search and consistent, in at most 4000 pages and with at most 100000 records. |
| DeviceSearch.ReadPage | Infact-HikBridge-v0.1/internal/hikvision/client.go:876-916 | Records of a page go to events or issues, in order, and every issue says where on which page its record was. |
| DeviceSearch.InOrderOfRecords | Infact-HikBridge-v0.1/internal/hikvision/client.go:876-916 | Events and issues of a list are those of its parts in turn. |
| DeviceSearch.Served | Infact-HikBridge-v0.1/internal/hikvision/client.go:926-947 | Against a serving device each answer passes the progress check unless it exceeds the record limit, and the search stops exactly at the end of the list. |
| DeviceSearch.ServedSearch | Infact-HikBridge-v0.1/internal/hikvision/client.go:837-947 | Against a device that serves a list the search succeeds if and only if neither limit is exceeded, and has then received exactly the list. |
| DeviceSearch.EachRecordOnce | Infact-HikBridge-v0.1/internal/hikvision/client.go:876-916 | Every record is an event or an issue, never both and never neither. |
| DeviceSearch.FullPagesExactly | Infact-HikBridge-v0.1/internal/hikvision/client.go:849-923 | A device that fills its pages stays within the page limit exactly for lists of at most 4000 pages. |
| LogRotation.RotatingFile.constructor | Infact-HikBridge-v0.1/internal/logging/rotate.go:20-47 | Opening takes over whatever files are there. |
| LogRotation.RotatingFile.Rotate | Infact-HikBridge-v0.1/internal/logging/rotate.go:65-95 | Every backup moves up by one, the oldest goes, the active file becomes the first; after each rename the files are a suffix of everything written. |
| LogRotation.RotatingFile.Write | Infact-HikBridge-v0.1/internal/logging/rotate.go:49-63 | Rotation happens exactly when a non-empty file would exceed its limit; what was taken is at the end of the log; no file started by rotation exceeds the limit or the longest write. |
| LogRotation.RenameKeepsHistory | Infact-HikBridge-v0.1/internal/logging/rotate.go:77-86 | A rename to a free number leaves the log as it reads from the oldest backup on. |
| SemanticVersion.LengthFirstIsNumeric | Infact-HikBridge-v0.1/internal/updater/checker.go:224-233 | For digit strings without leading zeros, length and then ASCII order is the order of their values. |
| SemanticVersion.ComparePrereleaseIdentifiers | Infact-HikBridge-v0.1/internal/updater/checker.go:215-233 | Identifiers are compared as items 4.1 to 4.3 of section 11 say, and equal only if identical. |
| SemanticVersion.ComparePrereleases | Infact-HikBridge-v0.1/internal/updater/checker.go:200-213 | Pre-releases are compared identifier by identifier, the shorter being lower. |
| SemanticVersion.CompareSemanticVersions | Infact-HikBridge-v0.1/internal/updater/checker.go:182-213 | The comparison decides precedence in both directions, and is zero only for the same core and pre-release. |
| SemanticVersion.PrecedenceTransitive | Infact-HikBridge-v0.1/internal/updater/checker.go:182-213 | Precedence is transitive, hence with the comparison a total order. |
| SemanticVersion.ParseParts | Infact-HikBridge-v0.1/internal/updater/checker.go:157-180 | Of versions the pattern matches, exactly those with a number of 64 bits or more or a numeric identifier with a leading zero are rejected. |

## Left out

- HTTP, Digest authentication, HMAC signatures, nonces, JSON and XML decoding, secrets: a request reaches the transaction, or it
  does not. Replay claims and the limit on the size of a body are part of this.
- Timers, wake-ups and the realtime stream: exchanges, polls and scheduler rounds happen at arbitrary times.
- I/O errors in store and log methods: they have the effect of a crash, which is a cut-off at any write. The order of directory
  listings is arbitrary in the model.
- Records and command receipts of earlier versions, damaged receipt files, and use of the data directory by two processes.
- Calendar parsing and daylight-saving transitions.
- Device merge and removal, shift inference, branches, departments, plan catalogue, checkout, entitlements, reports, the web
  application.
- The timestamps `firstSeenAt` and `lastSeenAt` of unmapped identities, which are not true bounds.
- Liveness of uploads against a cloud that refuses a whole batch: the same batch is sent again.
- ValidateResponse: models responses to event uploads, not the branch for probes and command exchanges.
- Ingest: models event uploads; the probe branch and the claim that keeps a request from being replayed are not modelled.
- ActivateManual: does not model the audit document; its two reads are one moment.
- ChangeStatus: does not model the audit document; the answer of the provider is a parameter.
- SchedulesAgreeExactly: all events carry a time; one without takes the time of its delivery, which is then part of the schedule.
- MarkersAgreeExactly: likewise for events that carry a time.
- RequestEnrollment: does not model the checks of device state and branch, nor the identity mapping that the transaction writes.
- CreateEmployeeOnDevice: does not model the checks of branch, department, device and plan limits, nor the audit document.
- ProcessCommand: does not model what the terminal does, nor the polls before and after an enrollment, which `Polling` covers.
- SyncNow: no event is put while it runs; with concurrent puts only the safety results hold.
- PollOnce: does not model status fields, metadata refresh and the wake-up of the uploader.
- CheckpointCoverage: a search answers for one moment after its poll began; pages read over a time in which the device's list
  changes are not modelled.
- SearchEventsDetailed: does not return the raw pages, and an event is the outcome of parsing, which is a parameter.
- CalculateAttendance: does not compute exception labels, names and formatted times, which follow from the figures.
- AssignShift: does not model the audit document and the job it creates, nor the checks that employee and shift exist.
- ProcessShiftPolicy: an assignment without an employee or a start is not modelled, and a batch that fails has not been committed.
- ReceiveWebhook: the organization and plan an event resolves to are parameters, and the organization's name is read in the
  transaction.
- Rotate: files with numbers above the configured count, left by an earlier configuration, are not touched and not modelled.
- ParseParts: begins from the groups of the version pattern, the identifiers already split at dots.
