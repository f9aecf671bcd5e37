# Failsafe: a verified model

Failsafe connects the devices of one account. A daemon on every device pulls a device list from a
registration server, starts and stops features (clipboard, shell, port forwarding, file sending)
according to it, and exchanges messages over authenticated streams. This project models the stateful
parts of that system in Dafny and proves what they keep in every run.

`dafny verify dfyconfig.toml` checks the whole project. Each file holds one module:

| file | what it models |
|---|---|
| `ReceiveLocks.dfy` | the reference-counted lock map that serialises the receives of one transfer |
| `Coordinator.dfy` | the sender's table of acknowledgement waiters |
| `TransferProtocol.dfy` | any number of devices: receivers with crashes, resumes and cancelled state files, a network that loses, repeats and reorders, and the senders that report success |
| `TransferProgress.dfy` | what a receive must lead to: which acknowledgements have to be sent, and what a sender makes of them |
| `Wrappers.dfy` | optional values and results |
| `Manifest.dfy` | the planner that splits a manifest into size-limited messages |
| `Reassembly.dfy` | the receiver that puts a manifest together again |
| `RefreshTokens.dfy` | issuing, rotating and revoking refresh tokens |
| `TwoFactor.dfy` | TOTP setup, enabling, recovery codes, disabling, with overlapping handlers |
| `TwoFactorFlows.dfy` | what each two-factor handler does, and what has come before a disabling in every run |
| `RateLimit.dfy` | the sliding-window limiter |
| `Enrollment.dfy` | devices, tombstones, policy writes and one-shot pairing codes, with overlapping handlers |
| `DeviceAccess.dfy` | who may change a device, and what each request makes of it |
| `PeerPolicy.dfy` | the peer directory, its step-by-step update, delivery decisions, fan-out |
| `Daemon.dfy` | the feature registry and the daemon's start-up, event loop and shutdown |
| `Framing.dfy` | the three stream formats and the demultiplexer |
| `Clipboard.dfy` | clipboard sync between any number of devices |
| `ImportLoop.dfy` | the concurrent import of several files |
| `Addresses.dfy` | the address book and its reverse lookup |

Protocols are transition systems: a state, a step type, `Enabled` (or `CanStep`) and `Apply`, and runs that
start in the initial state. One step is one critical section, one transaction, or the code between two
awaits. Objects that the source updates in place are classes whose methods are proved against the same
functions. History (`log`, `events`, counters) is part of the states so that properties can speak
about whole runs. Choices the source leaves to the outside (clocks, random values, which awaited operation
fails, how a stream is fragmented, in which order a map is visited) are parameters or left open.

## Where the code does less than one might expect

- Two-factor state is kept consistent (enabled means a secret and ten recovery rows, disabled means
  no rows) exactly in the runs where every setup commits while two-factor is still off and every enable that
  goes through still finds a secret (`TwoFactor.RunConsistentExactlyWhenGuarded`). Both held when the handler
  loaded the account, so only an overtaken handler can break it: a setup overtaken by an enable leaves
  a disabled account with ten recovery rows (`TwoFactor.StaleSetupLeavesRows`). What does not depend
  on it, the bound of ten recovery-code logins and one use per row, holds in every run.
- A pairing code's expiry is tested when it is looked up, not in the conditional update, so a code may be
  marked used after it expired, by as much as passes between the two (`Enrollment.RedeemedAfterExpiry`) and
  by no more (`Enrollment.LatenessBounded`). A redeemer that may still take up to `e` is certain to be in
  time if and only if its lookup happens at least `e` before the expiry (`Enrollment.TimelyExactlyWhen`).
- The coordinator takes an acknowledgement from any device, and a receiver that finds a saved Complete
  acknowledges without comparing collections. A reported success therefore means an export somewhere
  (`TransferProtocol.SendCompleteIsTruthful`); that it means an export at the target of the send holds in all
  runs if and only if no transfer id may be used for two targets (`TransferProtocol.TargetExportedExactlyWhen`),
  and that the target exported the very files of the send if and only if no id may stand for two targets or two
  collections (`TransferProtocol.SentFilesExportedExactlyWhen`). Ids are drawn at random, but
  `failsafe send --resume <id>` uses one again, with any device and with files that may have changed
  (`crates/failsafe/src/cli/commands/send.rs:45-49`, `:129`); every use of an id for another target or other
  files has a run that reports it falsely (`TransferProtocol.WrongUseReported`).
- A receive that was resumed from its file and fails again tells nobody: only `handle_transfer` answers a failed
  run (`TransferProgress.EveryHandledTransferIsAnswered`), a resumed one answers when it succeeds
  (`TransferProgress.EveryResumedTransferIsAnswered`).
- A logout reads the token's row and writes `revoked_at` in a later statement that does not look at it. The
  column is written at most once exactly when no logout writes a row that was revoked after its read
  (`RefreshTokens.SpentOnce`), and a password change that overtakes a logout makes it twice
  (`RefreshTokens.OvertakenLogout`). That a token is rotated at most once, and every lineage, do not depend on it.
- A chunked manifest loses the payload's own version and saturates its entry count at 32 bits; it is
  reassembled to the payload exactly when the version is the current one and the count fits
  (`Reassembly.ReassemblyExactlyWhen`); a payload of another version arrives as one of the current version.
- The clipboard handler records a fingerprint even when its clipboard write failed, ignores the payload
  version, takes inline HTML of any length, writes all received files to one directory under their base names,
  and may be overtaken by a poll that has already read the clipboard. On Linux, a text whose lines are all paths
  is read back as those of the files that exist.
  Each of these can make a device publish again (`Clipboard.EchoesHappen`, `Clipboard.ClashingFilesEcho`,
  `Clipboard.PathTextEchoes`, `Clipboard.RaceCostsTwo`); `Clipboard.EchoExactlyWhen` says when the poll after
  an apply does, and `Clipboard.PublishesAreAccountedFor` bounds the publishes of every run by local changes,
  failed writes, payloads a host reads back as others, and races. Two devices or more that only hear each other,
  without failed writes and races, never publish more often than a clipboard is changed locally if and only if nothing
  that is copied is read as files by one of them and no copied list of files clashes
  (`Clipboard.NoEchoLoopExactlyWhenHarmless`). All this takes a system clipboard that offers an image, HTML, a
  text and a list of files as they were written.

## Model

| member | source | states |
|---|---|---|
| ReceiveLocks.OwnersAfter | crates/failsafe-send/src/feature.rs:126-142 | one task's move changes the number of clones of a lock by its own clone only |
| ReceiveLocks.ReclaimExactlyWhenAlone | crates/failsafe-send/src/feature.rs:133-142 | the `ptr_eq` test succeeds, and `strong_count == 2` holds if and only if no other task owns a clone |
| ReceiveLocks.StepPreservesInv | crates/failsafe-send/src/feature.rs:87-144 | exact reference counts, current clones and exact guards survive every step, including aborted futures and crashes |
| ReceiveLocks.RunInv | crates/failsafe-send/src/feature.rs:87-144 | that invariant in every state of every run, with any number of tasks |
| ReceiveLocks.MutualExclusion | crates/failsafe-send/src/feature.rs:121-144 | at most one task is in the guarded section of a transfer, although entries are removed and recreated |
| ReceiveLocks.ReclaimInRun | crates/failsafe-send/src/feature.rs:133-142 | an entry is removed if and only if nobody else holds or waits for its lock |
| ReceiveLocks.WaitersGetTheGuard | crates/failsafe-send/src/feature.rs:121-132 | whoever waits can have the guard, or waits for a holder of the same transfer whose release lets him have it |
| ReceiveLocks.LoneReceiveHolds | crates/failsafe-send/src/feature.rs:121-131 | a receive whose transfer nobody else has creates the entry, with two owners, and gets the guard |
| ReceiveLocks.LoneHandleCleansUp | crates/failsafe-send/src/feature.rs:131-144 | a `handle_transfer` nobody joined leaves neither entry nor guard nor clone behind |
| ReceiveLocks.LoneResumeLeavesTheEntry | crates/failsafe-send/src/feature.rs:87-105 | a resumed receive gives the guard back and leaves its entry in the map |
| ReceiveLocks.AbortGivesTheGuardBack | crates/failsafe-send/src/feature.rs:121-144 | an aborted task gives its guard back at once; a dying process loses every lock |
| Coordinator.RegisterKeeps | crates/failsafe-send/src/coordinator.rs:27-56 | registering answers nobody twice and loses no waiter, also when it replaces one |
| Coordinator.CompleteKeeps | crates/failsafe-send/src/coordinator.rs:58-84 | completing answers nobody twice and loses no waiter |
| Coordinator.WaiterIsToldTheFirst | crates/failsafe-send/src/coordinator.rs:27-84 | whatever is registered and completed afterwards, a waiter is told the first thing that happens to its transfer, and nothing before |
| Coordinator.SendCoordinator.constructor | crates/failsafe-send/src/coordinator.rs:21-25 | a new table is empty |
| Coordinator.SendCoordinator.RegisterWaiter | crates/failsafe-send/src/coordinator.rs:27-56 | adds one new unanswered waiter; a replaced one sees its channel closed |
| Coordinator.SendCoordinator.CompleteWaiter | crates/failsafe-send/src/coordinator.rs:58-84 | answers the pending waiter of the transfer and forgets it; nothing without one |
| Coordinator.SendCoordinator.CompleteAck | crates/failsafe-send/src/coordinator.rs:99-118 | the pending waiter gets one answer: success for an `ok`, else the receiver's error, or a fixed message where it gave none |
| Coordinator.SendCoordinator.Cancel | crates/failsafe-send/src/coordinator.rs:86-90 | the waiter is answered with the cancellation |
| Coordinator.SendCoordinator.CancelAll | crates/failsafe-send/src/coordinator.rs:92-97 | every waiter pending at the call, and nobody else, gets exactly one cancellation |
| Coordinator.CancellingStep | crates/failsafe-send/src/coordinator.rs:92-97 | what the loop over the snapshot has achieved after each cancellation |
| TransferProtocol.GuardExclusive | crates/failsafe-send/src/feature.rs:121-144 | two tasks in guarded sections of the same transfer are the same task |
| TransferProtocol.OpKeepsTask | crates/failsafe-send/src/feature.rs:146-388 | each awaited operation keeps: Complete is saved only after an export, an `ok` is due only after Complete is saved |
| TransferProtocol.OpKeepsTruth | crates/failsafe-send/src/feature.rs:146-444 | each operation keeps every Complete on the disk and every `ok` on the network backed by the history |
| TransferProtocol.AwaitKeeps | crates/failsafe-send/src/feature.rs:146-444 | one operation of one task keeps the promises of all tasks of the device, its disk and its messages |
| TransferProtocol.LockKeeps | crates/failsafe-send/src/feature.rs:87-144 | lock steps keep it too: only the guard's owner may touch a state file |
| TransferProtocol.StartKeeps | crates/failsafe-send/src/resume.rs:35-64 | new and resumed receives start with a state of their own transfer |
| TransferProtocol.DeleteKeeps | crates/failsafe-send/src/cancel.rs:17-24 | deleting a state file at any moment keeps it |
| TransferProtocol.ReceiverKeeps | crates/failsafe-send/src/feature.rs:87-444 | every step of a receiving device, including crashes, keeps its own promises |
| TransferProtocol.ReceiverStepKeeps | crates/failsafe-send/src/feature.rs:87-444 | and those of all other devices |
| TransferProtocol.CompletionKeeps | crates/failsafe-send/src/feature.rs:390-400 | an acknowledgement answers a waiter with success only for a transfer some device saved as Complete |
| TransferProtocol.SenderStepKeeps | crates/failsafe-send/src/control.rs:116-168 | every sender step, including give-ups, cancellations and crashes, keeps answers and reports backed by the history |
| TransferProtocol.SenderKeeps | crates/failsafe-send/src/control.rs:116-168 | and the invariant of the whole system |
| TransferProtocol.RunInv | crates/failsafe-send/src/feature.rs:87-444 | the invariant in every state of every run, with any number of devices sending and receiving |
| TransferProtocol.SendCompleteIsTruthful | crates/failsafe-send/src/control.rs:317-322 | a sender reports `SendComplete` only after some device exported a collection under that id and then durably saved stage Complete for it |
| TransferProtocol.RunAllowed | crates/failsafe-send/src/control.rs:220-331 | whatever uses of ids (which collection to which target) a run keeps to, devices receive, store and complete, and senders report, only such uses |
| TransferProtocol.ReportIsBacked | crates/failsafe-send/src/control.rs:317-322 | behind a reported success stands an export and a later saved Complete, under an allowed use of the same id |
| TransferProtocol.SendCompleteMeansTargetExported | crates/failsafe-send/src/control.rs:317-322 | where no id may go to two targets, a reported success means that the very target of the send exported under that id and then saved stage Complete |
| TransferProtocol.SendCompleteMeansFilesExported | crates/failsafe-send/src/control.rs:317-322 | where no id may stand for two targets or two collections, it means that the target exported the very collection of the send |
| TransferProtocol.TargetExportedExactlyWhen | crates/failsafe-send/src/feature.rs:390-400 | for every set of allowed uses: all runs report truthfully of the target if and only if no id is allowed two targets |
| TransferProtocol.SentFilesExportedExactlyWhen | crates/failsafe-send/src/feature.rs:188-205 | for every set of allowed uses: all runs report truthfully of target and files if and only if no id is allowed two targets or two collections |
| TransferProtocol.WrongUseReported | crates/failsafe-send/src/feature.rs:188-205 | for any two allowed uses of one id, a run that reports the second as complete although nothing but the first files was exported, by the first target |
| TransferProtocol.PersistedCompleteMeansExported | crates/failsafe-send/src/feature.rs:262-388 | a state file that says Complete implies a past export of its collection on that device, at any moment of any run |
| TransferProtocol.WaitersAnsweredOnce | crates/failsafe-send/src/coordinator.rs:27-84 | no waiter of any device is ever answered twice |
| TransferProtocol.GuardedSectionOwnsItsFile | crates/failsafe-send/src/feature.rs:121-388 | one guarded task per device and transfer, and its state file is gone or exactly as that task wrote it |
| TransferProgress.SavedCompleteIsAcknowledged | crates/failsafe-send/src/feature.rs:188-205 | a task that reads a state file saying Complete can do nothing else than send `ok` to the sender, after which the file goes; nothing is exported |
| TransferProgress.OtherVersionLeaves | crates/failsafe-send/src/feature.rs:153-161 | another payload version ends the task with nothing written, sent or recorded |
| TransferProgress.ReceiveBegins | crates/failsafe-send/src/feature.rs:176-276 | without a complete file the payload's collection is taken up from the sender, at full size, with the saved progress if there was any, and saved as Downloading |
| TransferProgress.DownloadIsSaved | crates/failsafe-send/src/feature.rs:328-343 | after the download the file says Exporting with all bytes done |
| TransferProgress.ExportIsSaved | crates/failsafe-send/src/feature.rs:353-373 | after the export it says Complete, and both are on record |
| TransferProgress.ReceiveIsAcknowledged | crates/failsafe-send/src/feature.rs:247-259 | then `ok` goes to the sender and the file is removed |
| TransferProgress.ReceiveSucceeds | crates/failsafe-send/src/feature.rs:146-388 | a receive in which every operation succeeds exports the payload's collection once, saves Complete after that, tells the sender and leaves no file |
| TransferProgress.FailedReceiveIsReported | crates/failsafe-send/src/feature.rs:218-244 | wherever the run fails, the file that is there is marked Failed and kept, and the sender is told |
| TransferProgress.FailureWithoutFileIsReported | crates/failsafe-send/src/feature.rs:218-244 | so it is when there is no file or it cannot be read |
| TransferProgress.ResumeFollowsTheFile | crates/failsafe-send/src/resume.rs:35-64 | a resumed receive goes on with the collection and for the sender its file names; a complete file is not resumed |
| TransferProgress.EveryHandledTransferIsAnswered | crates/failsafe-send/src/feature.rs:146-260 | in every run a `handle_transfer` that comes to its end, without a crash or a lost acknowledgement, has acknowledged to its sender: with `ok` exactly when its run did not fail |
| TransferProgress.EveryResumedTransferIsAnswered | crates/failsafe-send/src/resume.rs:35-64 | in every run a resumed receive that comes to its end likewise has told the sender its file names |
| TransferProgress.AnswerIsReported | crates/failsafe-send/src/control.rs:310-322 | the answer taken is reported, as `SendComplete` exactly when it is a success |
| TransferProgress.AckAnswersTheSend | crates/failsafe-send/src/coordinator.rs:99-118 | an acknowledgement completes the waiting send of its id, a negative one with the receiver's error |
| TransferProgress.CancelAnswersTheSend | crates/failsafe-send/src/coordinator.rs:86-90 | a cancellation completes it as a failure |
| TransferProgress.GivenUpIsNoSuccess | crates/failsafe-send/src/control.rs:128-135 | a send given up on a timeout or a cancellation is over and not reported as complete |
| TransferProgress.CrashTakesOwnSends | crates/failsafe-send/src/coordinator.rs:21-25 | with a process go its sends and waiters and nobody else's |
| TransferProgress.WhatIsAnsweredIsReported | crates/failsafe-send/src/control.rs:310-322 | from the acknowledgement to the report: what was answered is what is reported |
| Manifest.SumBytes | crates/failsafe-send/src/manifest.rs:27-27 | the sum of the sizes as 64-bit addition gives it |
| Manifest.PlanTransferEnvelopes | crates/failsafe-send/src/manifest.rs:17-79 | one message if it fits, else header, chunks in index order that concatenate to the entries, each 1 to 4096 long and well chosen, end marker |
| Manifest.ChooseLength | crates/failsafe-send/src/manifest.rs:42-71 | the halving loop ends with a chunk that fits or a single entry, after refusing one of at most twice that length plus one |
| Manifest.ChunkPlace | crates/failsafe-send/src/manifest.rs:40-72 | a chunk is the stretch of the entries at its offset, and fits unless it is a single entry |
| Manifest.ChunksFit | crates/failsafe-send/src/manifest.rs:60-71 | every chunk respects the limit as soon as every single-entry chunk does |
| Manifest.ChunksAtLeastHalfOptimal | crates/failsafe-send/src/manifest.rs:42-59 | where fitting is monotone, a chunk is at least half as long as the longest one fitting at its offset |
| Reassembly.ChunkedTransfer.constructor | crates/failsafe-send/src/manifest.rs:99-106 | a new transfer has the header and nothing else |
| Reassembly.ChunkedTransfer.PushChunk | crates/failsafe-send/src/manifest.rs:108-110 | sets one index and touches nothing else |
| Reassembly.ChunkedTransfer.MarkEnd | crates/failsafe-send/src/manifest.rs:112-115 | records the announced number of chunks and touches nothing else |
| Reassembly.ChunkedTransfer.EntriesReceived | crates/failsafe-send/src/manifest.rs:117-119 | summing in the map's arbitrary order gives the length of the chunks concatenated in index order |
| Reassembly.ChunkedTransfer.Complete | crates/failsafe-send/src/manifest.rs:121-126 | complete means the header's entry count and, once known, the announced chunk count |
| Reassembly.ChunkedTransfer.IntoPayload | crates/failsafe-send/src/manifest.rs:128-180 | the payload in index order if complete and the byte sum agrees, an error otherwise; the second length test never fires |
| Reassembly.SendReceiver.TryFinalizeChunkedTransfer | crates/failsafe-send/src/feature.rs:468-488 | a complete transfer is taken out and its handler started, an incomplete one stays |
| Reassembly.SendReceiver.HandleChunk | crates/failsafe-send/src/feature.rs:559-576 | a chunk is stored under its index and may complete the transfer; without a pending header it is rejected |
| Reassembly.SendReceiver.HandleEnd | crates/failsafe-send/src/feature.rs:577-600 | an end marker records the announced count and may complete the transfer; without a pending header it is rejected |
| Reassembly.SendReceiver.HandleMessage | crates/failsafe-send/src/feature.rs:544-607 | a whole transfer starts a handler for its sender and touches no pending one, a header opens one, chunks and ends have the effect of the step function, those of unknown transfers are rejected without effect |
| Reassembly.SendReceiver.ManifestTimeout | crates/failsafe-send/src/feature.rs:490-514 | drops the pending transfer; `unwrap_err` is reached only when `into_payload` is an error |
| Reassembly.PartialLength | crates/failsafe-send/src/manifest.rs:117-126 | received chunks reach the full entry count if and only if none is missing |
| Reassembly.CompleteExactlyWhenCovered | crates/failsafe-send/src/manifest.rs:121-180 | the completeness test succeeds if and only if every chunk has arrived, and then the payload is the planned one at the current version |
| Reassembly.OtherTransfer | crates/failsafe-send/src/feature.rs:551-600 | messages of other transfers do not affect a transfer |
| Reassembly.CoveredNext | crates/failsafe-send/src/feature.rs:551-600 | only a message of the transfer can complete it, and the handler then works for that message's sender |
| Reassembly.OwnMessageTracks | crates/failsafe-send/src/feature.rs:551-600 | a message of the transfer that is not complete yet either completes it or is kept |
| Reassembly.StepTracks | crates/failsafe-send/src/feature.rs:551-600 | one delivery of a planned message, new or repeated, keeps the account of what is missing |
| Reassembly.ReassembledExactlyOnce | crates/failsafe-send/src/feature.rs:468-600 | in any order and repetition the plan starts exactly one handler, with the planned payload at the current version, for the sender of the message that was missing last, exactly when that one arrives |
| Reassembly.PlanIsAdmissible | crates/failsafe-send/src/manifest.rs:40-78 | everything the planner emits after the header is what the receiver's theorem admits |
| Reassembly.CompletedBySender | crates/failsafe-send/src/feature.rs:468-488 | where all messages of a transfer come from one device, the handler works for that device |
| Reassembly.PlanReassembles | crates/failsafe-send/src/feature.rs:468-600 | planner and receiver fit together: header in, the plan's messages start at most one handler in any order, and exactly one, for the device that sent them, once all are delivered |
| Reassembly.DeliveriesAgree | crates/failsafe-send/src/manifest.rs:121-180 | any chunks and end markers of a transfer only ever rebuild payloads with the header's entry count |
| Reassembly.OversizedNeverReassembles | crates/failsafe-send/src/manifest.rs:27-38 | a plan of more entries than 32 bits count never yields its payload |
| Reassembly.ReassemblyExactlyWhen | crates/failsafe-send/src/manifest.rs:27-38 | delivering a whole plan starts one handler for its sender with the payload itself if and only if the version is the current one and the count fits 32 bits |
| Reassembly.SingleMessageStartsOne | crates/failsafe-send/src/feature.rs:547-550 | a manifest in one message starts one handler, with the payload itself and for its sender, whatever other transfers send |
| Reassembly.PlannedManifestArrives | crates/failsafe-send/src/manifest.rs:17-79 | what the planner returns, of either shape, starts exactly one handler for the sender when delivered as it is sent |
| Reassembly.WrongByteSumIsRejected | crates/failsafe-send/src/manifest.rs:128-180 | entries that are complete in number but not in bytes are rejected, dropped and start nothing |
| Reassembly.PartWaits | crates/failsafe-send/src/feature.rs:475-480 | while number of entries or chunks is not the announced one a chunk is kept and nothing starts |
| RefreshTokens.InsertKeepsLineage | crates/failsafe-server/src/refresh_token.rs:31-45 | a new row starts a lineage or continues its parent's |
| RefreshTokens.RevokeKeeps | crates/failsafe-server/src/refresh_token.rs:72-80 | revoking rows, revoked already or not, keeps all lineages |
| RefreshTokens.RefreshKeeps | crates/failsafe-server/src/refresh_token.rs:98-123 | a rotation keeps them, revoking the presented row before inserting its successor |
| RefreshTokens.StepKeeps | crates/failsafe-server/src/refresh_token.rs:31-152 | every transaction, and the read and the write of a logout, keep the invariant |
| RefreshTokens.RunInv | crates/failsafe-server/src/refresh_token.rs:31-152 | the invariant in every state of every run |
| RefreshTokens.AcceptedTokensPostdateRevocation | crates/failsafe-server/src/routes/auth.rs:164-192 | after a password change or 2FA disable every refresh token accepted for the account descends, through tokens of that account, from a sign-in of that account made later |
| RefreshTokens.WriteStep | crates/failsafe-server/src/refresh_token.rs:72-152 | a step writes `revoked_at` of a revoked row exactly when it is the write of an overtaken logout, and records every write |
| RefreshTokens.RevokedIsLoggedInRuns | crates/failsafe-server/src/refresh_token.rs:72-152 | every revoked row was written by a step of the run |
| RefreshTokens.SpentOnce | crates/failsafe-server/src/refresh_token.rs:72-152 | a token is rotated at most once in every run; `revoked_at` is written at most once if and only if no logout writes a row revoked since its read |
| RefreshTokens.OvertakenLogout | crates/failsafe-server/src/refresh_token.rs:139-152 | a run in which a password change overtakes a logout and the row is written twice |
| RefreshTokens.RotationSwapsOne | crates/failsafe-server/src/refresh_token.rs:98-123 | a refresh changes nothing or swaps one live token for exactly one new live token of the same account |
| RefreshTokens.GoodForThirtyDays | crates/failsafe-server/src/refresh_token.rs:47-123 | in every run a token issued at n is exchanged exactly at times up to n plus 30 days while its row is not revoked |
| RefreshTokens.RevokedForAReason | crates/failsafe-server/src/refresh_token.rs:72-152 | a row is revoked by a refresh with its token, a revocation of its account or a logout begun with its token, with that step's time |
| RefreshTokens.LogoutRevokes | crates/failsafe-server/src/refresh_token.rs:139-152 | a logout begun with a known unrevoked token ends by revoking its row; with any other it does nothing |
| RefreshTokens.RefreshTokenStore.Issue | crates/failsafe-server/src/refresh_token.rs:31-45 | inserts one unrevoked row with the time to live of 30 days |
| RefreshTokens.RefreshTokenStore.FindByToken | crates/failsafe-server/src/refresh_token.rs:47-57 | the search finds the row of a token or none exists |
| RefreshTokens.RefreshTokenStore.Rotate | crates/failsafe-server/src/refresh_token.rs:47-123 | succeeds if and only if a row has the token, is not revoked and not expired and its account exists; then revokes exactly that row and inserts a successor good for 30 days |
| RefreshTokens.RefreshTokenStore.RevokeAllForAccount | crates/failsafe-server/src/refresh_token.rs:125-137 | revokes exactly the account's unrevoked rows and leaves all others as they are |
| RefreshTokens.RefreshTokenStore.LoadForLogout | crates/failsafe-server/src/refresh_token.rs:139-149 | the read of a logout finds the row of the token unless that is unknown or revoked |
| RefreshTokens.RefreshTokenStore.RevokeRecord | crates/failsafe-server/src/refresh_token.rs:72-80 | writes the row that was read, whatever has happened to it since |
| RefreshTokens.RefreshTokenStore.LogoutToken | crates/failsafe-server/src/refresh_token.rs:139-152 | with nothing in between, revokes the presented row unless it is unknown or revoked already |
| TwoFactor.InsertedFacts | crates/failsafe-server/src/routes/auth.rs:252-262 | the inserts add exactly the given rows, unused, and nothing else |
| TwoFactor.MarkedRows | crates/failsafe-server/src/routes/auth.rs:346-362 | a consumption marks one row that was unused and touches no other |
| TwoFactor.EnableKeeps | crates/failsafe-server/src/routes/auth.rs:219-271 | enabling leaves ten unused rows, no authentications counted since, and all other accounts as they were |
| TwoFactor.ConsumeKeeps | crates/failsafe-server/src/routes/auth.rs:346-362 | the number of authentications stays the number of used rows |
| TwoFactor.DisableKeeps | crates/failsafe-server/src/routes/auth.rs:273-310 | disabling deletes the rows and keeps the counts of all other accounts |
| TwoFactor.StepKeeps | crates/failsafe-server/src/routes/auth.rs:194-362 | every load and commit keeps the invariant, whatever came between |
| TwoFactor.RunInv | crates/failsafe-server/src/routes/auth.rs:194-362 | the invariant in every state of every run |
| TwoFactor.RecoveryCodesBounded | crates/failsafe-server/src/routes/auth.rs:194-362 | in every interleaving: enabled means ten rows, no row is consumed twice, at most ten recovery codes authenticate between two enables |
| TwoFactor.ConsistentExactlyWhenGuarded | crates/failsafe-server/src/routes/auth.rs:194-310 | a step from a consistent state stays consistent if and only if a committing setup finds two-factor off and an enable that goes through finds a secret |
| TwoFactor.RunConsistentExactlyWhenGuarded | crates/failsafe-server/src/routes/auth.rs:194-310 | a run stays consistent if and only if that holds at every commit |
| TwoFactor.UndisturbedHandlersAreGuarded | crates/failsafe-server/src/routes/auth.rs:194-271 | it holds for every handler whose account did not change since its load |
| TwoFactor.StaleSetupLeavesRows | crates/failsafe-server/src/routes/auth.rs:194-217 | a reachable state in which an overtaken setup has left a disabled account with ten rows |
| TwoFactorFlows.SetupStoresTheSecret | crates/failsafe-server/src/routes/auth.rs:194-217 | setup stores the secret with two-factor off, and is refused while it is on |
| TwoFactorFlows.EnableReplacesTheCodes | crates/failsafe-server/src/routes/auth.rs:219-271 | enabling needs a secret and two-factor off; it leaves exactly the ten new codes, unused, or nothing changes when one is taken |
| TwoFactorFlows.VerificationBegins | crates/failsafe-server/src/routes/auth.rs:116-136 | a login's or disabling's verification is refused while two-factor is off |
| TwoFactorFlows.TotpVerifies | crates/failsafe-server/src/routes/auth.rs:319-330 | a TOTP code ends a login and lets a disabling go on, and changes nothing else |
| TwoFactorFlows.RecoveryCodeVerifies | crates/failsafe-server/src/routes/auth.rs:332-362 | a recovery code verifies if and only if an unused row of the account has it, and uses up exactly that row |
| TwoFactorFlows.DisableClears | crates/failsafe-server/src/routes/auth.rs:291-307 | disabling clears flag and secret and deletes the rows of this account only |
| TwoFactorFlows.DisabledOnlyAfterVerification | crates/failsafe-server/src/routes/auth.rs:273-307 | in every run a disabling comes after a verification begun while two-factor was on, by TOTP or an unused code of the account |
| TwoFactor.AccountStore.CommitEnableTotp | crates/failsafe-server/src/routes/auth.rs:245-268 | replaces the account's rows and sets the flag if and only if the unique index accepts all codes, else changes nothing |
| TwoFactor.AccountStore.ConsumeRecoveryCode | crates/failsafe-server/src/routes/auth.rs:346-362 | succeeds if and only if an unused row of the account has the code, and marks it |
| TwoFactor.AccountStore.CommitDisableTotp | crates/failsafe-server/src/routes/auth.rs:294-307 | clears secret and flag and deletes the account's rows |
| TwoFactor.InsertCodes | crates/failsafe-server/src/routes/auth.rs:252-262 | the loop of inserts succeeds if and only if the new codes are distinct and free |
| RateLimit.RateLimiter.constructor | crates/failsafe-server/src/rate_limit.rs:21-27 | a new limiter has granted nothing |
| RateLimit.RateLimiter.Allow | crates/failsafe-server/src/rate_limit.rs:29-39 | pruning in place and pushing answers as the model over all calls so far, and the map is that model's map |
| RateLimit.KeysIndependent | crates/failsafe-server/src/rate_limit.rs:29-39 | what a key has stored and was granted depends on its own calls only |
| RateLimit.HistoryIsRecentLog | crates/failsafe-server/src/rate_limit.rs:32-34 | pruning never forgets a grant that a later call would count |
| RateLimit.AllowCountsTheLog | crates/failsafe-server/src/rate_limit.rs:29-39 | with ordered clocks the pruned histories decide as the full log would |
| RateLimit.AllowIsExact | crates/failsafe-server/src/rate_limit.rs:29-39 | with ordered clocks a call is granted if and only if the key has fewer than the maximum of grants in the last window of instants |
| RateLimit.GrantsBounded | crates/failsafe-server/src/rate_limit.rs:29-39 | with clocks out of order by at most d, no half-open interval of length window minus d holds more than the maximum of grants of a key |
| RateLimit.IntervalIsTheLongest | crates/failsafe-server/src/rate_limit.rs:29-39 | for a maximum of two or more, an interval longer by one can hold more: a run of calls with clocks out of order by at most d |
| RateLimit.SingleGrantsBounded | crates/failsafe-server/src/rate_limit.rs:29-39 | for a maximum of one, no interval of the window's length holds two grants of a key, in whatever order clocks are read |
| Enrollment.WriteKeepsRows | crates/failsafe-server/src/routes/devices.rs:68-189 | every device write keeps features known and name and features equal to the last policy write |
| Enrollment.CommitFrame | crates/failsafe-server/src/routes/pairing.rs:96-113 | a commit changes no owner, removes no row, and leaves used codes used |
| Enrollment.StepKeeps | crates/failsafe-server/src/routes/devices.rs:68-201 | every load and commit of every handler keeps the invariant |
| Enrollment.RunInv | crates/failsafe-server/src/routes/devices.rs:68-201 | the invariant in every state of every run |
| Enrollment.OwnerStays | crates/failsafe-server/src/routes/devices.rs:68-189 | a device never disappears and its owner never changes along a run |
| Enrollment.UsedStays | crates/failsafe-server/src/routes/pairing.rs:96-111 | a code once used stays used, with the same time stamp |
| Enrollment.CodesRedeemedOnce | crates/failsafe-server/src/routes/pairing.rs:65-116 | a code is redeemed at most once, only after a lookup before its expiry, and stays used |
| Enrollment.HistoryInRuns | crates/failsafe-server/src/routes/pairing.rs:65-116 | in every run the tables are exactly what the history of writes and redemptions says |
| Enrollment.RedemptionIsAtomic | crates/failsafe-server/src/routes/pairing.rs:65-116 | in every run a code is used if and only if a redemption of it happened, every redemption that registers a device is followed at once by exactly that write, and a deleted device is restored by such a write only |
| Enrollment.RedeemedAfterExpiry | crates/failsafe-server/src/routes/pairing.rs:81-102 | for every delay e, a run in which a code is marked used exactly e after its expiry |
| Enrollment.TimelyExactlyWhen | crates/failsafe-server/src/routes/pairing.rs:81-102 | whatever the conditional update's clock says up to e after the lookup, the redemption is in time, if and only if the lookup left e until the expiry |
| Enrollment.LatenessBounded | crates/failsafe-server/src/routes/pairing.rs:81-102 | where redeemers take at most e, no redemption takes effect more than e after the expiry, and none after it if every lookup left e |
| Enrollment.PolicyIsAuthoritative | crates/failsafe-server/src/routes/devices.rs:68-164 | owner constant, features known, name and features those of the last creation, PATCH or pairing restore |
| Enrollment.RevivedOnlyByPairing | crates/failsafe-server/src/routes/devices.rs:88-107 | a deleted device becomes active only in a commit that consumes an unused code of its owner |
| DeviceAccess.EveryWriteIsAuthorised | crates/failsafe-server/src/routes/devices.rs:68-222 | in every run each device write comes from a request about that device made for the row's owner, by its session or one of its codes, and makes of the row exactly what the request asks |
| DeviceAccess.OnlyWritesChangeDevices | crates/failsafe-server/src/routes/devices.rs:68-222 | the device table changes by such writes only |
| DeviceAccess.OwnActiveDevicesOnly | crates/failsafe-server/src/routes/devices.rs:166-222 | heartbeat and DELETE take effect on an own active device and are refused otherwise, with which error |
| DeviceAccess.PutRegisters | crates/failsafe-server/src/routes/devices.rs:46-130 | PUT takes effect or is refused as registration asks |
| DeviceAccess.PatchAnswers | crates/failsafe-server/src/routes/devices.rs:132-164 | PATCH sets the given columns of an own active device, or is refused with the error its first failing check gives |
| Enrollment.DecidesToRegister | crates/failsafe-server/src/routes/devices.rs:68-130 | what registering decides and writes: foreign devices are forbidden, of an own active one only key and last-seen change, an own deleted one comes back by pairing only |
| Enrollment.EnrollmentStore.RegisterDevice | crates/failsafe-server/src/routes/devices.rs:68-130 | answers and writes by the same rules; a device of another account is an error and nothing changes |
| Enrollment.EnrollmentStore.DeleteDevice | crates/failsafe-server/src/routes/devices.rs:166-189 | sets the deletion time of an own active device, and refuses any other |
| Enrollment.EnrollmentStore.HeartbeatDevice | crates/failsafe-server/src/routes/devices.rs:191-222 | sets last-seen of an own active device, and refuses any other |
| Enrollment.EnrollmentStore.Patch | crates/failsafe-server/src/routes/devices.rs:132-164 | sets the given policy columns of an active own device, refuses everything else |
| Enrollment.EnrollmentStore.CreatePairingCode | crates/failsafe-server/src/routes/pairing.rs:29-63 | stores the first free candidate of ten with its expiry; fails if and only if all are taken |
| Enrollment.EnrollmentStore.LookUpPairingCode | crates/failsafe-server/src/routes/pairing.rs:77-98 | refuses unknown, expired and used codes, else carries the code, its account and the device write that registration asks for |
| Enrollment.EnrollmentStore.CommitRedemption | crates/failsafe-server/src/routes/pairing.rs:94-113 | on a working copy, device first and conditional update second: both tables change if the device row is writable and one row was hit, neither if not, also for a redeemer that others have overtaken |
| Enrollment.WriteRow | crates/failsafe-server/src/routes/devices.rs:88-130 | an insert fails on a taken key, an update on a missing row; otherwise exactly the columns of the action change |
| Enrollment.UpdateUnused | crates/failsafe-server/src/routes/pairing.rs:99-105 | the conditional update hits one row or none, and counts it |
| Enrollment.EnrollmentStore.RedeemPairingCode | crates/failsafe-server/src/routes/pairing.rs:65-116 | lookup and commit together: a fresh code is used up for its account and its device registered, or an error and nothing changes |
| PeerPolicy.PeerDirectory.constructor | crates/failsafe-core/src/peer.rs:18-23 | a new directory is empty |
| PeerPolicy.PeerDirectory.ReplacePeers | crates/failsafe-core/src/peer.rs:25-27 | the peer set becomes the list, the disabled pairs stay |
| PeerPolicy.PeerDirectory.SetFeatureEnabled | crates/failsafe-core/src/peer.rs:33-41 | one pair changes, nothing else |
| PeerPolicy.PeerDirectory.IsFeatureEnabled | crates/failsafe-core/src/peer.rs:43-46 | the decision for one peer and feature |
| PeerPolicy.PeerDirectory.RecipientsFor | crates/failsafe-core/src/peer.rs:48-57 | exactly the peers with a positive decision |
| PeerPolicy.PeerDirectory.ApplyServerDevices | crates/failsafe/src/sync.rs:104-134 | the final directory and address book, and that every state in between has the old peers with some bits already new |
| PeerPolicy.PeerDirectory.SetFeaturesOf | crates/failsafe/src/sync.rs:122-129 | the inner loop sets one device's bits and leaves the peers and every state in between as described |
| PeerPolicy.ProgressStep | crates/failsafe/src/sync.rs:122-129 | one call of `set_feature_enabled` extends the pairs already carrying their new bit |
| PeerPolicy.BitDuringUpdate | crates/failsafe/src/sync.rs:115-132 | during the update a bit is the old one or, of a listed peer and known feature, the new one |
| PeerPolicy.ReadersSeeOldOrNew | crates/failsafe/src/sync.rs:104-134 | a reader whose two lock acquisitions fall on any two moments decides as before or as after the update |
| PeerPolicy.DecisionForgetsThePast | crates/failsafe/src/sync.rs:104-134 | after a sync the decision on a known feature depends on own id, own features and the list only |
| PeerPolicy.DeliveryIsSymmetric | crates/failsafe/src/sync.rs:104-134 | two directories synced from the same list agree: a positive decision one way is one the other way, and means the list enables the feature on both |
| PeerPolicy.Publish | crates/failsafe-transport/src/router.rs:32-66 | exactly one send to each enabled and connected peer, failures collected, an error if and only if one failed |
| Daemon.RunningAfter | crates/failsafe-core/src/registry.rs:37-51 | what one call adds to the history of starts, stops and handled messages |
| Daemon.StartingAll | crates/failsafe-core/src/registry.rs:65-74 | starting distinct stopped features once each starts none twice and runs exactly those in addition |
| Daemon.FeatureRegistry.constructor | crates/failsafe-core/src/registry.rs:13-18 | a new registry is empty |
| Daemon.FeatureRegistry.Register | crates/failsafe-core/src/registry.rs:20-27 | refuses a second registration of an id |
| Daemon.FeatureRegistry.Enable | crates/failsafe-core/src/registry.rs:29-35 | enables registered ids only |
| Daemon.FeatureRegistry.Disable | crates/failsafe-core/src/registry.rs:37-42 | disables, and stops a registered feature |
| Daemon.FeatureRegistry.EnableAndStart | crates/failsafe-core/src/registry.rs:44-51 | enables and starts, or does neither |
| Daemon.FeatureRegistry.StartEnabled | crates/failsafe-core/src/registry.rs:65-74 | starts every enabled feature exactly once; no lookup fails |
| Daemon.FeatureRegistry.Dispatch | crates/failsafe-core/src/registry.rs:76-86 | hands a message over if and only if its feature is enabled |
| Daemon.SyncFeaturesToRegistry | crates/failsafe/src/sync.rs:74-102 | enabled becomes the target restricted to registered features and running stays in step, with no feature started twice |
| Daemon.SyncFeature | crates/failsafe/src/sync.rs:79-99 | one round enables or disables one registered feature as the target says |
| Daemon.FindSelf | crates/failsafe/src/sync.rs:17-19 | the own entry of the list, or the list has none |
| Daemon.BuildRegistry | crates/failsafe/src/daemon.rs:150-169 | which features are registered and that the configured ones among them are enabled |
| Daemon.LocalDaemon.constructor | crates/failsafe/src/daemon.rs:139-189 | a built daemon has enabled equal to local policy restricted to registered features and nothing running |
| Daemon.LocalDaemon.ApplySelfFromServer | crates/failsafe/src/sync.rs:35-72 | name and features become the own entry's and the registry follows, even when saving fails; fails exactly when a needed save does |
| Daemon.LocalDaemon.SyncFromServer | crates/failsafe/src/daemon.rs:270-301 | succeeds if and only if the list could be fetched and, where the own entry changes name or features, the configuration be saved; takes the policy over in either case and the directory on success only |
| Daemon.LocalDaemon.StartFeatures | crates/failsafe/src/daemon.rs:340-340 | afterwards the running features are the enabled ones |
| Daemon.LocalDaemon.HandleTransportMessage | crates/failsafe/src/daemon.rs:303-307 | a message reaches its feature if and only if that is enabled, and then the feature is running |
| Daemon.LocalDaemon.StartUp | crates/failsafe/src/daemon.rs:336-360 | succeeds exactly when both syncs, the registration and binding do, and then policy and directory are those of the syncs |
| Daemon.LocalDaemon.EventLoop | crates/failsafe/src/daemon.rs:362-405 | ends at the first input that is no message or tick without removal; policy and directory are those of the last syncs, and handled are exactly the messages whose feature was enabled when they came |
| Daemon.LocalDaemon.RunDaemon | crates/failsafe/src/daemon.rs:327-406 | for every start-up and input sequence: when it fails, keeps running or finishes, all of the above, no feature started twice without a stop or handed a message while stopped |
| Daemon.LocalDaemon.ShutDown | crates/failsafe/src/daemon.rs:408-415 | every feature is disabled and stopped |
| Daemon.SyncedDaemonsAgree | crates/failsafe/src/daemon.rs:270-301 | two daemons whose last sync was from the same list, both in it, agree: one delivers a feature to the other if and only if the other delivers back, which is when both enable it |
| Daemon.SyncBoth | crates/failsafe/src/daemon.rs:270-301 | two successful syncs from one list lead there, whatever either daemon had synced before |
| Framing.Be16RoundTrip | crates/failsafe-transport/src/port.rs:15-29 | big-endian 16-bit numbers read back, both ways |
| Framing.Be32RoundTrip | crates/failsafe-transport/src/codec.rs:18-28 | big-endian 32-bit numbers read back, both ways |
| Framing.Encode | crates/failsafe-transport/src/codec.rs:7-21 | refuses exactly the messages over 16 MiB, else length prefix and payload |
| Framing.FrameRoundTrip | crates/failsafe-transport/src/codec.rs:7-41 | decoding undoes encoding whatever follows, and refuses every proper prefix |
| Framing.BuildPortInit | crates/failsafe-transport/src/port.rs:12-20 | the seven bytes written in place are magic, port and protocol |
| Framing.BuildShellInit | crates/failsafe-transport/src/shell.rs:17-23 | the eight bytes written in place are magic, rows and columns |
| Framing.PortInitExactly | crates/failsafe-transport/src/port.rs:22-32 | the parser yields a port if and only if the bytes start with that port's init |
| Framing.ShellInitExactly | crates/failsafe-transport/src/shell.rs:25-32 | the parser yields a size if and only if the bytes start with that size's init |
| Framing.PrefixesDisjoint | crates/failsafe-transport/src/codec.rs:5-21 | no admissible frame starts with either magic |
| Framing.EverySenderIsUnderstood | crates/failsafe-transport/src/iroh/stream.rs:58-215 | port inits, shell inits and frames each reach their handler with what was sent, the sender replaced by the connected device, delivered if and only if addressed here |
| Framing.SessionsExactly | crates/failsafe-transport/src/iroh/stream.rs:86-154 | a session comes from its own handshake and from nothing else |
| Framing.MessagesExactly | crates/failsafe-transport/src/iroh/stream.rs:174-215 | a message comes from a complete admissible frame addressed here and from nothing else |
| Framing.RecvStream.constructor | crates/failsafe-transport/src/iroh/stream.rs:40-40 | a stream holds the bytes still to come |
| Framing.RecvStream.Read | crates/failsafe-transport/src/iroh/stream.rs:43-52 | one read returns some non-empty part of what is to come, or nothing at the end |
| Framing.ReadExact | crates/failsafe-transport/src/iroh/stream.rs:40-56 | however reads are cut, the buffer holds the next bytes, or fewer were left and it fails |
| Framing.Acceptors.constructor | crates/failsafe-transport/src/iroh/stream.rs:18-22 | no session or message yet |
| Framing.Acceptors.TryAcceptPortStream | crates/failsafe-transport/src/iroh/stream.rs:86-121 | a valid init gives one session with its port and the rest of the stream, if an acceptor is there |
| Framing.Acceptors.TryAcceptShellStream | crates/failsafe-transport/src/iroh/stream.rs:123-154 | a complete size gives one session with it and the rest of the stream, if an acceptor is there |
| Framing.Acceptors.HandleFeatureFrame | crates/failsafe-transport/src/iroh/stream.rs:174-215 | delivers exactly the decodable messages addressed here, under the connection's identity |
| Framing.Acceptors.HandleIncomingBiStream | crates/failsafe-transport/src/iroh/stream.rs:58-84 | for every fragmentation the effect is the one the stream's bytes call for |
| Clipboard.FilesComeBackExactlyWhen | crates/failsafe-core/src/path.rs:17-31 | a list of files comes back as it was sent if and only if no two of them share a base name and differ |
| Clipboard.SentContentArrives | crates/failsafe-clipboard/src/feature/inbound.rs:12-69 | what is sent arrives: text and HTML as they were, pictures with size and encoding, files in order with names and, without clashes, data |
| Clipboard.ParseFilePaths | crates/failsafe-clipboard/src/io/linux_files.rs:5-45 | the loop yields every path when all lines but a leading `copy` or `cut` are paths, and none as soon as one is not |
| Clipboard.SentPayloadEchoesExactlyWhen | crates/failsafe-clipboard/src/io/system.rs:6-95 | what this version sends is read back by a host as another payload if and only if the host reads its plain text as a list of files or it is such a clashing list |
| Clipboard.MoveAccounts | crates/failsafe-clipboard/src/feature/watcher.rs:16-71 | a publish is paid for by what the device owed, and a step adds to that no more than its causes |
| Clipboard.UndisturbedPoll | crates/failsafe-clipboard/src/feature/watcher.rs:19-71 | a poll publishes if and only if the clipboard's payload differs from the last one emitted |
| Clipboard.UndisturbedApply | crates/failsafe-clipboard/src/feature/mod.rs:123-147 | handling a message makes the clipboard what the host reads back if the write succeeds and records the fingerprint in any case |
| Clipboard.CopyArrives | crates/failsafe-clipboard/src/feature/mod.rs:123-147 | what another device copied is on the clipboard after the apply, as it arrived |
| Clipboard.EchoExactlyWhen | crates/failsafe-clipboard/src/feature/mod.rs:123-147 | the poll after an apply publishes if and only if the host reads the payload back as another one or, after a failed write, the clipboard holds something else |
| Clipboard.EchoesHappen | crates/failsafe-clipboard/src/feature/mod.rs:133-144 | an old version's text, a failed write and over-long inline HTML each cause an echo |
| Clipboard.ClashingFilesEcho | crates/failsafe-clipboard/src/feature/inbound.rs:53-67 | so do two files with the same base name and different data |
| Clipboard.PathTextEchoes | crates/failsafe-clipboard/src/io/system.rs:85-92 | so does, on a Linux host, a text of the current version that is the path of a file on its disk |
| Clipboard.RaceCostsTwo | crates/failsafe-clipboard/src/feature/watcher.rs:22-67 | an apply between a poll's read and its comparison can cost two publishes |
| Clipboard.ClipboardState.constructor | crates/failsafe-clipboard/src/feature/mod.rs:76-95 | a new state has emitted nothing |
| Clipboard.ClipboardState.WatchOnce | crates/failsafe-clipboard/src/feature/watcher.rs:19-71 | one round of the loop does exactly the steps of an undisturbed poll, or nothing while a remote change is applied |
| Clipboard.ClipboardState.HandleMessage | crates/failsafe-clipboard/src/feature/mod.rs:123-147 | one handled message does exactly the steps of an undisturbed apply; succeeds if and only if content and write did |
| Clipboard.StepKeepsInv | crates/failsafe-clipboard/src/feature/watcher.rs:16-71 | publishes plus what all devices owe stay within the causes |
| Clipboard.PublishesAreAccountedFor | crates/failsafe-clipboard/src/feature/watcher.rs:16-71 | in every run, publishes are at most local changes, failed writes and payloads the host reads back as others, plus two per race |
| Clipboard.SettlesExactlyWhen | crates/failsafe-clipboard/src/io/system.rs:77-95 | no host echoes a content if and only if none reads its text as files and its own files do not clash |
| Clipboard.ClosedRunsAlterNothing | crates/failsafe-clipboard/src/feature/inbound.rs:12-69 | devices that only hear each other and copy only what no host echoes never read back another payload than they applied |
| Clipboard.NoEchoLoop | crates/failsafe-clipboard/src/feature/watcher.rs:16-71 | among such devices, without failed writes and races, there are at most as many publishes as local changes |
| Clipboard.LoopRun | crates/failsafe-clipboard/src/feature/watcher.rs:16-71 | any content some host echoes has a run with one local change and two publishes |
| Clipboard.NoEchoLoopExactlyWhen | crates/failsafe-clipboard/src/feature/watcher.rs:16-71 | for every set of contents that may be copied and two hosts or more: no such run publishes more often than a clipboard is changed locally, if and only if no host echoes one of them |
| Clipboard.NoEchoLoopExactlyWhenHarmless | crates/failsafe-clipboard/src/io/system.rs:77-95 | the same by what the contents are: none is read as files by a host, no list of files clashes |
| ImportLoop.AggregateImportProgress | crates/failsafe-transport/src/blobs/iroh.rs:457-475 | the saturating total and the first file with bytes still to come |
| ImportLoop.CountedWithinSize | crates/failsafe-transport/src/blobs/iroh.rs:457-475 | offsets within the files give a total within the sum of sizes |
| ImportLoop.EventKeeps | crates/failsafe-transport/src/blobs/iroh.rs:226-248 | each event keeps: filled slots hold own results and their number is the completed count |
| ImportLoop.AccountedNext | crates/failsafe-transport/src/blobs/iroh.rs:226-248 | each event and the report after it: bytes done are the sizes of the files that are done plus the last offsets of the others |
| ImportLoop.CollectResults | crates/failsafe-transport/src/blobs/iroh.rs:220-252 | for every interleaving of events the loop ends with all slots filled, all results so far collected, or a file that never succeeds, having reported after every event what it leads to |
| ImportLoop.Flatten | crates/failsafe-transport/src/blobs/iroh.rs:268-272 | full slots are taken over in order, none dropped |
| ImportLoop.ImportSources | crates/failsafe-transport/src/blobs/iroh.rs:173-284 | succeeds if and only if there are sources, every file reports success and the collection is stored; names are in source order; reports stay within the total |
| Addresses.BuildReverseLookup | crates/failsafe-transport/src/iroh/transport.rs:326-335 | succeeds if and only if every address parses; every entry names a device of that endpoint and every device is covered |
| Addresses.InverseExactlyWhenDistinct | crates/failsafe-transport/src/iroh/transport.rs:326-335 | lookup and book are inverses if and only if no two devices share an endpoint |
| Addresses.ReverseIsUnique | crates/failsafe-transport/src/iroh/transport.rs:326-335 | then the lookup does not depend on the map's order |
| Addresses.LookupFollowsTheLastGoodBook | crates/failsafe-transport/src/iroh/address.rs:27-37 | after any sequence of updates the state is that of the last book that parsed completely |
| Addresses.AddressState.FromBook | crates/failsafe-transport/src/iroh/address.rs:15-23 | a state with the book and its reverse exists if and only if every address parses |
| Addresses.AddressState.constructor | crates/failsafe-transport/src/iroh/address.rs:18-21 | the state holds the given book and lookup |
| Addresses.AddressState.Update | crates/failsafe-transport/src/iroh/address.rs:27-37 | replaces both maps if the book parses, neither if not |
| Addresses.AddressState.ResolveDevice | crates/failsafe-transport/src/iroh/protocol.rs:100-118 | an endpoint is attributed to a device of the book with that endpoint, or the book has none |

## Left out

- Foreign libraries: Iroh endpoints, blob-store internals, PTY and TCP relays, HTTP client and server. A download, an export, a send or a database call is an operation that may fail.
- Cryptography: Argon2, AES-GCM, JWT access tokens (section 4.1 of RFC 7519) and TOTP (section 4 of RFC 6238). Hashes are injective, verification is an outcome.
- JSON, TOML and serde details: a serializer with an inverse parser.
- TransferProtocol: how a manifest is chunked, which is in Manifest and Reassembly.
- Reassembly.ReassembledExactlyOnce: takes a receiver that has stored the header, and no second header and no timeout after it; a chunk of an unknown transfer is rejected by the code.
- Exactly-once export over several receives, Complete as a terminal stage and an empty lock map at rest are not claimed: the code does not give them.
- A client that disconnects during a send: the code cancels a child token and tests the parent, so no cancelled result follows.
- Manifest.SumBytes: wraps at 64 bits as a release build does; a debug build would panic there.
- Transfer progress numbering, the acknowledgement timeout's length, and cancellation counts.
- RefreshTokens: a transaction is one step, as SQLite runs writing transactions one after the other; the statements of a logout, which uses none, are steps of their own.
- Enrollment.EnrollmentStore.CreatePairingCode: moves on to the next candidate after a taken code only; the code does so after any failed insert.
- Names, keys and codes reach Enrollment trimmed and normalised; listing devices and presence are one-branch reads.
- PeerPolicy.ReadersSeeOldOrNew: takes distinct device ids, as the server's primary key guarantees.
- Daemon: a feature whose `start` fails, which none of the shipped ones does, and the control server behind the socket.
- ImportLoop.ImportSources: takes at most one result per task, as each task sends it; offsets of one file may go back, so reports are bounded but not monotone.
- Clipboard: size limits (a refused payload is one that cannot be built or fetched), the log line for repeated failures, what other programs do to received files, and how a platform's clipboard may re-encode an image or HTML.
- The connection pool as an index of live connections: it removes by device, so that is no fact of the code.
- Web interface, prompts, migrations, code generation, notifications, configuration and listen-address resolution, port-spec and feature-list parsing.
