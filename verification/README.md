# Proofs about the transfer, terminal, tunnel and policy cores

A Dafny model of the parts of this SSH client whose behaviour is hardest to see
from the code: protocols with interleavings, algorithms that must agree with a
simpler thing, and two sequential cores. `dafny verify dfyconfig.toml` checks it.

Concurrent objects are state machines: every atomic access, lock section or
channel operation is one step, `Run` is the state after any finite schedule, and
the results quantify over every schedule. Loops and objects used by one thread at
a time are methods and classes with the source's own control flow, proved against
a specification function. What the environment decides (flags, server answers,
disk failures, message arrival) is a non-deterministic choice or a script.

| file | component | main results |
|---|---|---|
| `Download.dfy` | pipelined and serial download, resume | `PipelinedBody`, `EachByteHeldOnce`, `RunTransfer`, `CompletedIsRemoteIff` |
| `Scan.dfy` | directory scan of a job | `ScanEqualsWalk`, `WalkFinds`, `StuckExactlyWhenDeadlocked`, `SafeSizeExact`, `SmallTreeScannedToEnd` |
| `ScanLoop.dfy` | the same, in the order of the coordinator's loop | `LoopSafeSizeExact` |
| `JobEnd.dfy` | how a job becomes terminal | `CompletedMeansAllAccounted`, `UncancelledJobEnds`, `CountersAreWhatHappened`, `OneTerminalEvent` |
| `JobScan.dfy` | scan and job end as one system | `CompletedIsTheWalk` |
| `Slot.dfy` | single-flight subsystem slot | `AtMostOneRecovery`, `WaitersAgree`, `GenerationNamesOneClient`, `PassingProbeKeepsClient`, `NoClientUnderSuspicion`, `AnswerIsResult`, `NoCallInsideBackoff` |
| `Budget.dfy` | concurrency budget | `NoStrandedAcquirer`, `FreeUnitAtRestIff` |
| `Priority.dfy` | priority ledger of the queue | `LedgerConserved`, `FinishedHoldsNothing`, `PolitenessExact`, `LeakIsForever` |
| `Executor.dfy` | pause/cancel/permit/retry loop | `Run`, `ResultIsInLog`, `AcceptedGrammar` |
| `Frames.dfy`, `Credit.dfy` | terminal frames and credit | `StreamRoundTrip`, `CreditConserved`, `AckLinearises`, `StaleAcksChangeNothing` |
| `Ledger.dfy` | transfer ledger consumer | `Consume`, `LaterReadsSeeUpsert`, `RemovedStaysAbsent`, `PagedClearExact` |
| `DeltaStream.dfy` | incremental event stream | `Subscribe`, `ChunkFrames` |
| `Tunnel.dfy` | tunnel groups and connections | `GroupsAgreeWithHolders`, `RelaysBounded`, `ActiveCountExact` |
| `Classifier.dfy` | shell splitter and verdict | `LexComposes`, `JoinVerdict`, `SubstitutionIsSeen`, `PlainText`, `SplitWrites` |
| `Civil.dfy` | day count of log timestamps | `NextDayIsOneMore`, `OrderAndInjective` |
| `Sums.dfy`, `Options.dfy` | helpers | |

## Where the code differs from its comments

The model follows the code.

- **A list operation's send can block** (crates/core-sftp/src/job.rs:354-355). The
  comment says it cannot, because the channel is as large as the number of
  operations in flight. A slot is returned after the send and not on receipt, so
  new operations start while old messages are still in the channel.
  `Scan.StuckExactlyWhenDeadlocked` gives the exact stuck states and
  `Scan.SafeSizeExact` the exact size up to which no job can reach one: fewer than
  frontier + 4 * in_flight directories, for all caps. `Scan.DeadlockReachable` and
  `Scan.OneRootDeadlocks` are the runs that get stuck at that size, and
  `ScanLoop.LoopSafeSizeExact` is the same threshold for runs in the loop's own order.
- **`resume` revives finished transfers** (crates/core-sftp/src/transfer.rs:407-412).
  It sets Running whatever the state was, and `prioritize` then books a priority that
  nobody repays, contrary to crates/core-sftp/src/transfer.rs:445-446.
  `Priority.PolitenessExact` says exactly when that can happen: after any schedule
  without such a resume, the next step opens the way to a leak if and only if it
  resumes a transfer that has finished. `Priority.FinishedHoldsNothing` is what holds
  otherwise, and `Priority.LeakIsForever` says that no step repairs a leak.
- **A free unit can coexist with a parked acquirer.** `notify_one` keeps a single
  stored permit, so two releases can leave one notification.
  `Budget.FreeUnitAtRestIff` says exactly when a budget can come to rest that way:
  with two units or more and at least two tasks more than units.
  `Budget.NoStrandedAcquirer` is what always holds.
- **Aborted relays stay counted** (crates/core-tunnel/src/manager.rs:709-716).
  Dropping the task skips the decrement, so `active_conns` ends at the number of
  aborted connections (`TunnelConns.DrainedTunnel`); `TunnelConns.AbortLeavesCount` is
  a run that ends with a count of one.
- **Clearing a session sees one page of 200 rows**
  (crates/core-store/src/transfer.rs:68). `Ledger.PagedClearExact` says exactly for
  which tables every page the query may return clears what it should: those where, of
  each row to be cleared, at most 200 rows of the session are as recent as it.
- **The exemption for merged descriptors never applies to an operator**
  (crates/core-policy/src/classifier.rs:217). The splitter cuts the piece right after
  an unquoted `>`, so `ls 2>&1` counts as a write (`Classifier.RedirectNeverAllowed`);
  a literal `>` counts exactly when no `&` follows it in its piece
  (`Classifier.SplitWrites`).

## Model

| member | source | states |
|---|---|---|
| `Download.PipelinedBody` | crates/core-sftp/src/transfer.rs:799-897 | for every order of full, short, empty and failed reads and every stop point, the bytes written are exactly the remote bytes from `offset` to `end`; the progress counter equals the written prefix; an interruption reports it; a normal end with no empty read has written everything; it gives up only for a stop, a failed read or a failed write; the loop ends because unread bytes decrease |
| `Download.EachByteHeldOnce` | crates/core-sftp/src/transfer.rs:810-895 | until an empty read, every requested and unwritten byte is in exactly one range that is in flight, missing or buffered |
| `Download.FillWindow` | crates/core-sftp/src/transfer.rs:819-838 | refilling keeps the partition and fills the window of 16 as far as there is anything to request, in blocks of at most 256 KiB |
| `Download.ResendKeeps` | crates/core-sftp/src/transfer.rs:821-822 | re-requesting a short-read tail keeps the partition |
| `Download.RequestKeeps` | crates/core-sftp/src/transfer.rs:823-827 | requesting a new range keeps the partition |
| `Download.AcceptKeeps` | crates/core-sftp/src/transfer.rs:858-863 | buffering a full or short answer keeps the partition and never overwrites buffered data |
| `Download.AcceptReads` | crates/core-sftp/src/transfer.rs:858-863 | every non-empty answer strictly shrinks the set of unread bytes |
| `Download.AdvanceKeeps` | crates/core-sftp/src/transfer.rs:885-892 | the block at the write position is the next part of the remote file, and writing it keeps the partition |
| `Download.LoseKeeps` | crates/core-sftp/src/transfer.rs:854-857 | an empty answer gives up its own range only |
| `Download.Drain` | crates/core-sftp/src/transfer.rs:880-894 | writes exactly the contiguous prefix that is buffered; a failed write leaves a prefix too |
| `Download.AllWritten` | crates/core-sftp/src/transfer.rs:839-841 | when nothing is in flight, missing or lost, all that was requested is written and the buffer is empty |
| `Download.SerialBody` | crates/core-sftp/src/transfer.rs:713-751 | the serial copy has the same contract as the pipelined one |
| `Download.DownloadOnce` | crates/core-sftp/src/transfer.rs:671-758 | an attempt that opened the destination leaves the kept bytes followed by the remote bytes up to its length; one that did not leaves it alone; Done means full length; a smooth attempt ends in Done |
| `Download.RunTransfer` | crates/core-sftp/src/executor.rs:136-234 | any number of interrupted or failed attempts, each resuming what the last one left, keep the file a continuation of the start and end in Done only at full length, and in Done if one attempt is smooth |
| `Download.SmoothExists` | crates/core-sftp/src/transfer.rs:671-758 | smooth attempts exist for every remote file, even with a server that answers one byte at a time |
| `Download.CompletedIsRemoteIff` | crates/core-sftp/src/transfer.rs:59-70 | a completed transfer is the remote file if and only if it overwrote, or the local file was too long, or was a prefix |
| `Download.OpenedFilesArePrefixes` | crates/core-sftp/src/transfer.rs:671-758 | from a sound start every file an attempt leaves is a prefix of the remote one |
| `Scan.ScanEqualsWalk` | crates/core-sftp/src/job.rs:563-629 | whatever the interleaving, a coordinator that leaves its loop uncancelled has sent exactly the multiset of files of the recursive walk, with the same failure, skip and discovery counts; reading the slot counter before the channel loses no message |
| `Scan.WalkFinds` | crates/core-sftp/src/job.rs:633-670 | the walk finds exactly the files reached through subdirectories that are not too deep and whose paths are not too long, each with the local and remote path spelled by the names on the way |
| `Scan.PauseHoldsFiles` | crates/core-sftp/src/job.rs:659-664 | while a job is paused, and once it is cancelled, no file is sent to the workers |
| `Scan.RunConserves` | crates/core-sftp/src/job.rs:563-789 | in every reachable state, settled plus pending results equal the walk |
| `Scan.StepConserves` | crates/core-sftp/src/job.rs:563-789 | every step of coordinator, operation or worker keeps that sum |
| `Scan.ShapeKept` | crates/core-sftp/src/job.rs:563-623 | the slot counter is the number of operations, no cap but the frontier's initial load is exceeded, and an idle sighting stays true |
| `Scan.StuckExactlyWhenDeadlocked` | crates/core-sftp/src/job.rs:568-623 | unpaused and uncancelled, a reachable state can neither move nor finish if and only if frontier, held and channel are full and every operation is blocked in send |
| `Scan.DeadlockNeedsManyDirs` | crates/core-sftp/src/job.rs:633-658 | a deadlock involves at least frontier + 4 * in_flight directories |
| `Scan.SmallTreesNeverStick` | crates/core-sftp/src/job.rs:568-623 | a tree with fewer directories than that can always move or finish |
| `Scan.StepCosts` | crates/core-sftp/src/job.rs:563-789 | every productive step uses up some of a bounded effort, and no step adds any |
| `Scan.ProductiveStepsBounded` | crates/core-sftp/src/job.rs:563-789 | no schedule has more productive steps than the tree pays for |
| `Scan.SmallTreeScannedToEnd` | crates/core-sftp/src/job.rs:580-587 | a small tree's scan that has run out of moves finishes with the result of the walk |
| `Scan.DeadlockReachable` | crates/core-sftp/src/job.rs:727-728 | for all caps, a job of frontier + 4 * in_flight directories has a run that deadlocks |
| `Scan.OneRootDeadlocks` | crates/core-sftp/src/job.rs:727-728 | for all caps with a depth limit of at least one, a single root of that size deadlocks too, the frontier never being above its cap |
| `Scan.SafeSizeExact` | crates/core-sftp/src/job.rs:568-623 | no job of at most N directories can deadlock if and only if N < frontier + 4 * in_flight |
| `ScanLoop.LoopSafeSizeExact` | crates/core-sftp/src/job.rs:563-623 | with the coordinator taking its steps in the order of its loop, no job of at most N directories can deadlock if and only if N < frontier + 4 * in_flight |
| `ScanLoop.LoopDeadlocks` | crates/core-sftp/src/job.rs:563-623 | for all caps, whole rounds of the loop lead to the deadlock at that size |
| `ScanLoop.RoundsAreRuns` | crates/core-sftp/src/job.rs:563-623 | every run in loop order is a run of the scan, so all its results hold there |
| `Scan.PlaceHeld` | crates/core-sftp/src/job.rs:631-685 | one pass is a schedule of placing steps, and every listing still held is then blocked in both lanes |
| `Scan.PlaceDirs` | crates/core-sftp/src/job.rs:635-658 | empties a directory lane while the frontier has room |
| `Scan.PlaceFiles` | crates/core-sftp/src/job.rs:659-678 | empties a file lane while the ready queue has room and the job is not paused |
| `JobEnd.CompletedMeansAllAccounted` | crates/core-sftp/src/job.rs:512-530 | in every interleaving a job is Completed or Failed only when every discovered file is completed, failed or skipped, even if a worker decrements before the coordinator's increment lands; which of the two is decided by the fatal error |
| `JobEnd.OneTerminalEvent` | crates/core-sftp/src/job.rs:422-439 | the job callback never fires twice, only for a terminal job, and has fired once nobody owes it |
| `JobEnd.EndedJobIsTerminal` | crates/core-sftp/src/job.rs:843-866 | when coordinator and workers have ended, the job is terminal: the race between `scan_done` and the last decrement is always decided |
| `JobEnd.UncancelledJobEnds` | crates/core-sftp/src/job.rs:512-530 | a job nobody cancels ends as Completed, or as Failed if it had a fatal error |
| `JobEnd.StateMeans` | crates/core-sftp/src/job.rs:512-546 | in every run Completed means no fatal error, Failed means one, Canceled a call of cancel, Transferring and Finalizing a finished scan, and Finalizing nothing pending |
| `JobEnd.CountersAreWhatHappened` | crates/core-sftp/src/job.rs:877-948 | in every run the completed, failed, skipped and cancelled counters are the transfers that succeeded, those that did not and the tasks that could not be resolved, the skips and the cancellations, up to outcomes about to be counted |
| `JobEnd.TerminalIsAbsorbing` | crates/core-sftp/src/job.rs:534-546 | no step leaves a terminal state |
| `JobEnd.InvAlways` | crates/core-sftp/src/job.rs:624-629 | counters, flags and the whereabouts of every file stay consistent in every run |
| `JobEnd.StepKeeps` | crates/core-sftp/src/job.rs:671-674 | every single step of coordinator, worker or cancel keeps that consistency |
| `JobEnd.CheckStepSound` | crates/core-sftp/src/job.rs:512-546 | each read of the terminal check decides only what the books already show, and names Completed and Failed by the fatal error |
| `JobScan.CompletedIsTheWalk` | crates/core-sftp/src/job.rs:512-530 | with scan and workers joined, a job that is completed or failed has scanned the whole tree, and the files it completed, failed or skipped are together exactly the files of the recursive walk, each once |
| `JobScan.RunKeeps` | crates/core-sftp/src/job.rs:563-948 | in every joint run each task sent is in the ready queue, in one worker's hand or filed under one outcome, and both sides agree on when the coordinator left |
| `JobScan.Projects` | crates/core-sftp/src/job.rs:563-866 | a joint run is a run of the scan and a run of the job's ending |
| `JobScan.NothingHeldUp` | crates/core-sftp/src/job.rs:563-866 | joining holds up no step: what either side can do next the joint system can do |
| `Slot.AtMostOneRecovery` | crates/core-sftp/src/slot.rs:150-261 | a live recovery task exists if and only if the state is Recovering, and never two |
| `Slot.WaitersAgree` | crates/core-sftp/src/slot.rs:150-198 | callers that waited for one recovery got the same outcome |
| `Slot.WaiterHasTask` | crates/core-sftp/src/slot.rs:200-261 | a waiting caller always has an answer sent or a live task about to send one |
| `Slot.GenerationNamesOneClient` | crates/core-sftp/src/slot.rs:130-136 | the generation of a ready client is the number of factory successes, so no two clients share one |
| `Slot.PassingProbeKeepsClient` | crates/core-sftp/src/slot.rs:200-261 | in every run, a recovery whose probe passed restores exactly the client and generation that were ready at any moment since the last factory success, and answers with that client |
| `Slot.PassingProbeHasOrigin` | crates/core-sftp/src/slot.rs:200-261 | such a moment exists: what is restored was the ready state earlier in the run |
| `Slot.NoCallInsideBackoff` | crates/core-sftp/src/slot.rs:150-198 | no factory call happens inside the back-off window |
| `Slot.UnwaitedAnswer` | crates/core-sftp/src/slot.rs:138-188 | a caller answered without waiting gets the ready client, which is not under suspicion, or the error of a failure whose window is not over |
| `Slot.NoClientUnderSuspicion` | crates/core-sftp/src/slot.rs:125-148 | after an error was recorded nobody is handed a client without waiting until a recovery has settled |
| `Slot.CallersMove` | crates/core-sftp/src/slot.rs:138-197 | a caller is answered, waits for the one recovery under way or is dropped; nobody else moves |
| `Slot.FactoryNeedsCause` | crates/core-sftp/src/slot.rs:159-224 | the factory is called only where there is no client, outside the window, or after the probe of the suspected client failed |
| `Slot.AnswerIsResult` | crates/core-sftp/src/slot.rs:213-259 | in every run waiters are told what the recovery came to: the client or error of the factory call, or the probed client if the probe passed |
| `Slot.SettledAsAnswered` | crates/core-sftp/src/slot.rs:227-259 | when a recovery settles, the slot is ready with the client sent, or without one and failed from then on if there is a back-off |
| `Slot.InvalidateForcesNew` | crates/core-sftp/src/slot.rs:103-108 | an invalidated client never comes back: the next ready one is of a later generation |
| `Slot.RunKeeps` | crates/core-sftp/src/slot.rs:103-261 | the slot's invariant holds in every run with concurrent get, record_error, invalidate and dropped waiters |
| `Slot.StepKeeps` | crates/core-sftp/src/slot.rs:103-261 | every step keeps it |
| `Budget.NoStrandedAcquirer` | crates/core-policy/src/budget.rs:110-166 | in every interleaving the counter equals the live permits and is at most the cap, and a parked acquirer implies a held unit, a release about to notify or a notified waiter about to retry |
| `Budget.RunKeeps` | crates/core-policy/src/budget.rs:71-166 | the invariant behind it holds in every run |
| `Budget.StepKeeps` | crates/core-policy/src/budget.rs:71-166 | every CAS, decrement, notify, park, wake or time-out step keeps it |
| `Budget.TakesExactlyWhenFree` | crates/core-policy/src/budget.rs:94-166 | a task that asks gets a unit exactly when one is free, and only a refused try or a given-up wait is counted as rejected |
| `Budget.FreeUnitWithParkedTask` | crates/core-policy/src/budget.rs:71-80 | for every cap of two or more and two tasks more, a run that comes to rest with a free unit and a parked acquirer |
| `Budget.FreeUnitAtRestIff` | crates/core-policy/src/budget.rs:71-166 | a state at rest with a free unit and a parked acquirer is reachable if and only if cap >= 2 and there are at least cap + 2 tasks |
| `Budget.NeverOverlooked` | crates/core-policy/src/budget.rs:110-166 | with one unit, or at most one task more than units, no reachable rest state has a free unit and a parked acquirer |
| `Priority.LedgerConserved` | crates/core-sftp/src/transfer.rs:424-507 | the two counters equal the transfers with flag 1 and flag 2, up to updates in progress, and exactly at every quiescent point |
| `Priority.RunBalanced` | crates/core-sftp/src/transfer.rs:576-667 | that balance holds in every run |
| `Priority.StepBalanced` | crates/core-sftp/src/transfer.rs:576-667 | every step of prioritize, gate, pause edge, repay, retry and resume keeps it |
| `Priority.FlagMoves` | crates/core-sftp/src/transfer.rs:458-507 | exactly how a flag moves: a queued or paused transfer is marked waiting, a running one running, the gate turns waiting into running, a pause turns it back, and only a repayment clears it |
| `Priority.StateMoves` | crates/core-sftp/src/transfer.rs:407-507 | which step sets which state of a transfer |
| `Priority.FinishedHoldsNothing` | crates/core-sftp/src/transfer.rs:424-440 | unless a finished transfer is resumed, one whose task has ended holds no priority once its repayment landed, and with all ended both counters are zero |
| `Priority.PolitenessExact` | crates/core-sftp/src/transfer.rs:407-412 | after any polite schedule the next step makes a leak possible if and only if it resumes a finished transfer, whether or not its repayment is still pending |
| `Priority.RudeResumeLeaks` | crates/core-sftp/src/transfer.rs:407-412 | resuming and then prioritizing a finished transfer whose repayment has landed leaks a priority |
| `Priority.LeakReachable` | crates/core-sftp/src/transfer.rs:407-412 | a schedule from the empty queue leads there |
| `Priority.LeakIsForever` | crates/core-sftp/src/transfer.rs:559-565 | no later step repairs a leak |
| `Priority.LeakKeepsOthersWaiting` | crates/core-sftp/src/transfer.rs:576-667 | a leak keeps `priority_running` at one or more |
| `Executor.Run` | crates/core-sftp/src/executor.rs:136-234 | for every script of flag reads and outcomes, which the log has asked in order: the log obeys the grammar and rules of the observer, so no permit is held across a pause, the gate or a back-off, each guard is taken under a permit and consumed once, Done is returned exactly after a transfer that succeeded, Failed exactly after max_retries + 1 failures with neither flag set, and calls are at most max_retries + 1 + pause interruptions |
| `Executor.Approach` | crates/core-sftp/src/executor.rs:143-174 | the top of the loop, the gate and the permit lead to an attempt only with both flags just read as unset |
| `Executor.LookAgain` | crates/core-sftp/src/executor.rs:170-174 | the second look returns the permit if a flag was set |
| `Executor.SitOut` | crates/core-sftp/src/executor.rs:148-168 | a pause is sat out without a permit and ends at the top of the loop |
| `Executor.Attempt` | crates/core-sftp/src/executor.rs:175-190 | one attempt under the permit keeps those rules |
| `Executor.Decide` | crates/core-sftp/src/executor.rs:191-231 | a failed attempt is cancelled, interrupted, retried or given up by those rules |
| `Executor.CountFailure` | crates/core-sftp/src/executor.rs:208-230 | a real failure is reported and retried after a back-off, or given up after the last retry |
| `Executor.WaitUnpaused` | crates/core-sftp/src/executor.rs:148-168 | the pause wait holds nothing |
| `Executor.AcceptedLog` | crates/core-sftp/src/executor.rs:136-234 | in an accepted log guards taken are guards consumed but for one still out, terminal notifications are at most one, and calls are counted |
| `Executor.AcceptedGrammar` | crates/core-sftp/src/executor.rs:136-234 | every event of a log is in its place after those before it |
| `Executor.TransferIsGuarded` | crates/core-sftp/src/executor.rs:170-176 | each transfer comes right after acquiring a permit, reading both flags as unset and preparing |
| `Executor.ResultIsInLog` | crates/core-sftp/src/executor.rs:136-234 | a run returns Done if and only if a transfer in its log succeeded, which is then the last; Failed if and only if the allowed number failed; Canceled only right after cancel was read as set |
| `Executor.EndedLog` | crates/core-sftp/src/executor.rs:136-234 | the last event of an ended run is its terminal notification and names the returned state |
| `Frames.CreditState.constructor` | crates/app/src/stream_protocol.rs:44-53 | a new epoch has a full window and nothing sent |
| `Frames.CreditState.TryAcquireCredit` | crates/app/src/stream_protocol.rs:84-92 | takes n bytes of credit exactly when they are available |
| `Frames.CreditState.AllocFrame` | crates/app/src/stream_protocol.rs:96-116 | the frame decodes to epoch, old sequence number, old and new offset and the payload; none once broken or on overflow, which breaks |
| `Frames.CreditState.MarkBroken` | crates/app/src/stream_protocol.rs:119-121 | changes the broken flag only |
| `Frames.CreditState.Ack` | crates/app/src/stream_protocol.rs:125-155 | the compare-exchange loop raises acked to min(incoming, sent) and returns the difference as credit, or does nothing |
| `Frames.LittleEndianRoundTrip` | crates/app/src/stream_protocol.rs:164-171 | decoding n little-endian bytes gives back every value below 256^n |
| `Frames.FrameRoundTrip` | crates/app/src/stream_protocol.rs:164-171 | decoding an encoded frame gives back header and payload |
| `Frames.HeaderLayout` | crates/app/src/stream_protocol.rs:110-114 | byte by byte: epoch, sequence number, start and end, eight bytes each, least significant first, then the payload |
| `Frames.StreamRoundTrip` | crates/app/src/stream_protocol.rs:96-116 | frame k of any payload sequence decodes to the epoch, sequence number k, its own start and end and its payload, each start being the previous end |
| `Frames.StreamReassembles` | crates/app/src/stream_protocol.rs:96-116 | the decoded payloads concatenate to the bytes sent, which fill the registered range |
| `Frames.BrokenStaysSilent` | crates/app/src/stream_protocol.rs:97-99 | a broken epoch never frames anything again |
| `Frames.OverflowBreaks` | crates/app/src/stream_protocol.rs:101-105 | an offset overflow silences the epoch for good |
| `Credit.CreditConserved` | crates/app/src/stream_protocol.rs:68-155 | in every interleaving of acquire, frame, break and racing acks: available + unacknowledged + acquired but unframed + won but not returned = CREDIT_HIGH, and acked is at most sent |
| `Credit.FramesAdvanceSent` | crates/app/src/stream_protocol.rs:96-121 | in every run a stored frame advances sent by exactly its length and takes one number, nothing else moves sent, and a break or an overflow stops all later frames |
| `Credit.AckAlone` | crates/app/src/stream_protocol.rs:125-155 | an ack nobody interferes with, step by step, is the sequential one |
| `Credit.AckLinearises` | crates/app/src/stream_protocol.rs:125-155 | an accepted ack stores max(acked, min(incoming, sent)) of the moment it read sent, and acked did not change in between |
| `Credit.StaleAcksChangeNothing` | crates/app/src/stream_protocol.rs:125-155 | an ack of another epoch, after a break or for nothing beyond what was acknowledged at its call never gets past loading acked, in any later state, and adds nothing to acked or to the credit |
| `Credit.AcksSumToAcked` | crates/app/src/stream_protocol.rs:138-151 | acked is exactly the sum of what the acks won |
| `Credit.HonestAckIsExact` | crates/app/src/stream_protocol.rs:134-152 | an ack within what it saw sent raises acked to exactly the acknowledged offset |
| `Credit.RunKeeps` | crates/app/src/stream_protocol.rs:68-155 | the invariant behind these holds in every run |
| `Credit.StepKeeps` | crates/app/src/stream_protocol.rs:68-155 | every atomic access keeps it |
| `Ledger.Consume` | crates/app/src/transfer_ledger.rs:251-277 | for any queue, any batch boundaries and whatever pages the queries return, table and replies are those of taking the mutations one by one; where every session clear meets at most 200 rows they are those of the plain fold |
| `Ledger.Batch` | crates/app/src/transfer_ledger.rs:251-277 | one batch of at most 500 messages keeps table, replies and pending upserts in step with the one-by-one reference |
| `Ledger.Flush` | crates/app/src/transfer_ledger.rs:279-285 | writes the pending upserts in order |
| `Ledger.UpsertLands` | crates/core-store/src/transfer.rs:42-63 | an upsert leaves the very row it carries if there was none, otherwise the old row with progress, state, error and time of the new one |
| `Ledger.Exec` | crates/app/src/transfer_ledger.rs:287-345 | a single mutation has the effect and the reply of the reference, a session clear on the page its query returned |
| `Ledger.FittingPages` | crates/app/src/transfer_ledger.rs:307-328 | where every session fits on a page, executing with pages is the plain fold |
| `Ledger.ClearPage` | crates/core-store/src/transfer.rs:65-75 | clears and returns the matching rows of a page of the most recently updated ones; with at most 200 rows, all of them |
| `Ledger.DeleteMatching` | crates/app/src/transfer_ledger.rs:317-324 | deletes exactly the matching rows of a page and returns them |
| `Ledger.PagedClearExact` | crates/core-store/src/transfer.rs:65-75 | whichever page the query returns, a session clear removes every matching row if and only if, of each of them, at most 200 rows of the session are as recently updated as it |
| `Ledger.PagedClearMisses` | crates/core-store/src/transfer.rs:65-75 | with more than 200 matching rows no page does |
| `Ledger.LaterReadsSeeUpsert` | crates/app/src/transfer_ledger.rs:251-345 | a remove or a resumable query sees an earlier accepted upsert whole, under the session it was sent with if the row is new, unless a mutation in between bears on that row; a clear of another session or of other states does not |
| `Ledger.UntouchedRow` | crates/app/src/transfer_ledger.rs:251-345 | a row stays as it is until a mutation that bears on it |
| `Ledger.RemovedStaysAbsent` | crates/app/src/transfer_ledger.rs:251-345 | a removed row stays absent until a later upsert of it |
| `Ledger.TransferLedger.OnTerminal` | crates/app/src/transfer_ledger.rs:151-168 | only settled entries are offered; each is queued or, when the queue is full, dropped and counted, so offered = received + queued + dropped |
| `Ledger.TransferLedger.SendReliable` | crates/app/src/transfer_ledger.rs:241-246 | a reliable mutation waits for room, is queued last, and neither overtakes nor displaces anything |
| `Ledger.TransferLedger.Receive` | crates/app/src/transfer_ledger.rs:253-273 | the consumer takes the oldest message |
| `DeltaStream.Subscribe` | crates/app/src/sftp.rs:1542-1685 | after the snapshot and any ticks, all frames applied to an empty map give exactly the current entities, each id's events are numbered 1, 2, 3, ... across removals, kinds follow the key, and every frame is within the limits |
| `DeltaStream.Subscription.Snapshot` | crates/app/src/sftp.rs:1605-1618 | the snapshot's events build the collected entities |
| `DeltaStream.Subscription.Tick` | crates/app/src/sftp.rs:1627-1665 | a tick's events are exactly the upserts of what differs followed by the removals of what is gone; they lead from the last state to the current one, and there are none exactly when nothing changed |
| `DeltaStream.Subscription.Changed` | crates/app/src/sftp.rs:1629-1644 | one upsert for exactly each entity that is new or different, in order |
| `DeltaStream.Subscription.Vanished` | crates/app/src/sftp.rs:1645-1665 | one removal for exactly each key that is gone |
| `DeltaStream.ChunkFrames` | crates/app/src/sftp.rs:1507-1526 | frames keep order and content, hold 1 to 256 events and at most 256 KiB by estimate unless a single event, and a frame is followed by another only because the next event did not fit |
| `DeltaStream.SnapshotFrames` | crates/app/src/sftp.rs:1529-1536 | the same, and an empty snapshot is still one frame |
| `DeltaStream.FramesAsEvents` | crates/app/src/sftp.rs:1507-1526 | applying frames in turn is applying their events in order |
| `DeltaStream.EmitConsistent` | crates/app/src/sftp.rs:1556-1562 | one more event with the next number of its id keeps map, numbering and number book in agreement |
| `TunnelGroups.GroupsAgreeWithHolders` | crates/core-tunnel/src/manager.rs:336-376 | in every run leases are the tunnels holding the group, no tunnel holds a shut-down group, shutdown was sent once exactly for groups without lease, and no two live groups share a key |
| `TunnelGroups.AcquireKeeps` | crates/core-tunnel/src/manager.rs:336-367 | acquiring keeps that |
| `TunnelGroups.ReleaseKeeps` | crates/core-tunnel/src/manager.rs:370-376 | releasing keeps that |
| `TunnelGroups.TunnelManager.AcquireGroup` | crates/core-tunnel/src/manager.rs:336-367 | joins the live group of the key or registers a new one, and the caller holds it |
| `TunnelGroups.TunnelManager.ReleaseGroup` | crates/core-tunnel/src/manager.rs:370-376 | gives the lease back and shuts the group down exactly when nobody else holds it |
| `TunnelConns.RelaysBounded` | crates/core-tunnel/src/manager.rs:751-798 | concurrent relays are at most max_conns per tunnel and 256 per group |
| `TunnelConns.ActiveCountExact` | crates/core-tunnel/src/manager.rs:823-904 | active_conns is the accepted and unfinished connections plus those aborted while counted |
| `TunnelConns.DrainedTunnel` | crates/core-tunnel/src/manager.rs:703-724 | with all connections gone every permit is back and active_conns is the number of aborted ones, zero if the grace period sufficed |
| `TunnelConns.AbortLeavesCount` | crates/core-tunnel/src/manager.rs:709-716 | with any connection limit, a run with a forced abort ends with all connections gone and active_conns at one |
| `TunnelConns.RunKeeps` | crates/core-tunnel/src/manager.rs:751-904 | semaphores and counters stay exact in every run |
| `TunnelConns.StepKeeps` | crates/core-tunnel/src/manager.rs:999-1039 | every step of local, SOCKS and remote connections and of the abort keeps them exact |
| `Classifier.SplitSubcommands` | crates/core-policy/src/classifier.rs:235-321 | the character loop terminates on every text and computes `Split` |
| `Classifier.ReadTurn` | crates/core-policy/src/classifier.rs:242-313 | the arms of the match on one character make one turn of the scanner |
| `Classifier.SplitParen` | crates/core-policy/src/classifier.rs:250-278 | the arm for `$(` reads to the matching parenthesis and splits what is inside |
| `Classifier.SplitTick` | crates/core-policy/src/classifier.rs:279-293 | the arm for a backtick reads to the next one and splits what is between |
| `Classifier.LexComposes` | crates/core-policy/src/classifier.rs:235-321 | scanning a joined text is scanning the second part from where the first ended, unless an unquoted and unescaped `$` or `>` at the joint is torn from its second half |
| `Classifier.JoinSplits` | crates/core-policy/src/classifier.rs:297-310 | a text that parses, a separator and any second text split into the pieces of both in order, and fail exactly when the second does |
| `Classifier.SubstitutionIsSeen` | crates/core-policy/src/classifier.rs:250-278 | wherever `$(inner)` stands outside single quotes, all pieces of inner are pieces of the whole |
| `Classifier.TickIsSeen` | crates/core-policy/src/classifier.rs:279-293 | the same for backticks |
| `Classifier.QuotedIsLiteral` | crates/core-policy/src/classifier.rs:244 | single-quoted text is copied unread |
| `Classifier.PlainText` | crates/core-policy/src/classifier.rs:242-313 | text without any of the shell's own characters is copied, character by character |
| `Classifier.PlainCommand` | crates/core-policy/src/classifier.rs:235-321 | such a text is one piece if anything in it shows, and none if it is only blanks |
| `Classifier.EscapedIsText` | crates/core-policy/src/classifier.rs:246-249 | outside single quotes a backslash makes the next character text |
| `Classifier.DoubleQuotedIsText` | crates/core-policy/src/classifier.rs:245 | double quotes make text of operators and parentheses |
| `Classifier.StrayIsError` | crates/core-policy/src/classifier.rs:246-296 | a backslash at the end, or a bare parenthesis, is an error |
| `Classifier.OpenQuoteIsError` | crates/core-policy/src/classifier.rs:314-316 | a quote that is never closed is an error |
| `Classifier.CommandHead` | crates/core-policy/src/classifier.rs:193-208 | the loop over words computes `Head` |
| `Classifier.HeadIs` | crates/core-policy/src/classifier.rs:193-208 | the head is the last path component of the first word that is no assignment, if and only if |
| `Classifier.AssignmentIs` | crates/core-policy/src/classifier.rs:196-214 | an assignment is a variable name of letters, digits and underscores, not starting with a digit, an equals sign and anything |
| `Classifier.AssignmentIsStripped` | crates/core-policy/src/classifier.rs:196-201 | an assignment in front of a command does not change its head |
| `Classifier.VariableIsStripped` | crates/core-policy/src/classifier.rs:193-208 | NAME=value in front of a command leaves its head |
| `Classifier.HasOutputRedirect` | crates/core-policy/src/classifier.rs:216-229 | true exactly when some `>` is not followed by `&` |
| `Classifier.AllWhitelisted` | crates/core-policy/src/classifier.rs:186-189 | true exactly when every piece has a whitelisted head |
| `Classifier.Classify` | crates/core-policy/src/classifier.rs:139-183 | the loop with its early exits gives the verdict of the quantified policy |
| `Classifier.AllowIff` | crates/core-policy/src/classifier.rs:139-183 | a command is allowed if and only if it parses, is not empty and every piece is proven, at every level and production flag alike |
| `Classifier.VerdictIs` | crates/core-policy/src/classifier.rs:139-183 | exactly which commands are denied and which are put before the user, by level and production flag |
| `Classifier.SimpleCommand` | crates/core-policy/src/classifier.rs:123-183 | the verdict on a name with plain arguments, by the lists alone, the user's own where there are any |
| `Classifier.BuiltInLists` | crates/core-policy/src/classifier.rs:21-102 | with the built-in lists `ls` is allowed, `rm` and `sudo` are put before the user, at every level |
| `Classifier.JoinVerdict` | crates/core-policy/src/classifier.rs:139-183 | the verdict on a joined command is RequireConfirmation if either part's is, otherwise Deny if either part's is, otherwise Allow; so it is allowed exactly when both are |
| `Classifier.AllowedSubstitution` | crates/core-policy/src/classifier.rs:139-183 | the inner command of an allowed one is empty or itself allowed everywhere |
| `Classifier.RedirectNeverAllowed` | crates/core-policy/src/classifier.rs:297-310 | a command with a `>` that is neither quoted nor escaped is never allowed, whatever follows it |
| `Classifier.QuotedMergeIsExempt` | crates/core-policy/src/classifier.rs:216-229 | a single-quoted argument whose every `>` is followed by `&` leaves a proven command allowed |
| `Classifier.SplitWrites` | crates/core-policy/src/classifier.rs:216-321 | a command that parses has a piece with an output redirect if and only if its text has an unquoted and unescaped `>`, or a literal one that no `&` follows in its piece, at any depth of substitution |
| `Classifier.AllowedWritesNothing` | crates/core-policy/src/classifier.rs:139-183 | a command is allowed if and only if it parses, is not empty, writes nothing by that criterion, and every piece has a whitelisted head that is neither forbidden nor indirect |
| `Civil.NextDayIsOneMore` | crates/app/src/diagnostics.rs:192-200 | the closed form with truncating division grows by one from each valid date to the next, in every year |
| `Civil.EpochIsDayZero` | crates/app/src/diagnostics.rs:192-200 | 1970-01-01 is day 0 |
| `Civil.StrictlyMonotone` | crates/app/src/diagnostics.rs:192-200 | earlier dates have smaller counts |
| `Civil.OrderAndInjective` | crates/app/src/diagnostics.rs:192-200 | the count orders dates as the calendar does and tells any two apart |
| `Civil.CountsDays` | crates/app/src/diagnostics.rs:192-200 | n days later the count is n more |
| `Civil.DifferenceIsDaysApart` | crates/app/src/diagnostics.rs:192-200 | counting forward the difference of two counts leads from one date to the other |

## Left out

- The user interface, the spikes, the command wrappers, the JSON-RPC layer, session and tunnel CRUD, export and import, wire views and logging.
- russh, russh-sftp, TCP, ConPTY, DPAPI, cryptography, text encodings and SQLite: the server's answers are a relation, the table is a map. A server that answers with more bytes than were asked for is not modelled.
- SOCKS5 byte parsing, host keys and authentication; a handshake is a step that succeeds or fails.
- `upload_once`: its durability depends on write acknowledgements that are not visible in the repository.
- The idle sweep and TTL reclamation, the governor table, rates and metrics, the heartbeat of the event stream.
- `retry` of jobs, `remove`, `clear_where`, `rename_candidate` and the conflict resolution before a transfer.
- Weak memory: all atomics are sequentially consistent. Fairness and the liveness of `JobInner.wake`: a schedule is finite, and progress is stated as "some step is enabled" with a bound on productive steps.
- Objects shared by several threads (budget, slot, job, priority ledger, credit under races, tunnel connections) are values with a step function and not classes, because an interleaving of atomic steps cannot be written as one method body.
- The order in which `Notify` wakes waiters: any parked task may be woken, which covers the FIFO order.
- `Scan`: the tree does not change during the scan, a failing list operation is a directory marked unreadable, paths are joined with "/" and measured in characters, and task ids and byte totals are not kept. Both directions share one model of the operation, so the upload side's mkdir and disk limiter are part of "listing".
- `JobEnd`: fewer than 2^64 files are discovered; the worker's transfer is one step that ends in success, failure or cancellation; `error` is fixed for a run because nothing sets it while the job lives. Its failed and skipped counters are the files' share; unlistable directories and entries not followed, which the source adds to the same two counters, are counted in `Scan`. The coordinator drops its end of the ready queue in the same step in which it leaves its loop.
- `Slot`: the back-off length is fixed for a run, so `set_retry_backoff` in the middle of one is not covered.
- `Download`: the remote file does not change during a transfer, except that `PipelinedBody` also covers a server that sends empty reads before the end.
- `Ledger`: database errors, a closed queue and the order of cleared rows are not kept; the time a row will get is carried by its upsert, and rows of equal time may come in any order.
- Frames.CreditState.Ack: is the call without interference, with spurious failures of the weak exchange; interference is in `Credit`.
- Civil: dates whose day does not exist in their month, which the timestamp parser lets through, have no calendar meaning here; years so large that the 64-bit arithmetic overflows are outside the model.
