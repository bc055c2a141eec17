# Hermes Windows Bridge: verified model

Hermes Windows Bridge lets a gateway run background jobs, files, shell commands and desktop input on a
Windows machine through a user-session Worker and a privileged Helper. This Dafny project models the parts
whose correctness is not visible in any one function: what interleaving threads, crashes, partial I/O and
partial input may leave behind.

| file | part of the bridge |
|---|---|
| Wrappers.dfy | the option type |
| Utf8.dfy | UTF-8 (RFC 3629), strict and lenient decoding |
| CanonicalJson.dfy | canonical payload bytes, the JSON printer and the grammar of RFC 8259 |
| JobModels.dfy, JobStore.dfy, JobRegistry.dfy, Idempotency.dfy | the job registry, its store and the replay cache, block by block |
| JobSystem.dfy | the same blocks as a transition system with threads, crashes and restarts |
| JobInvariant.dfy, JobRecovery.dfy, JobTheorems.dfy, JobOutcomes.dfy, JobEffects.dfy | its invariant and what follows for every run |
| OutputCapture.dfy, OutputPaging.dfy | bounded output of child processes, and paging through it |
| Framing.dfy, Correlation.dfy, PeerRegistry.dfy | the pipe: frames, request and reply correlation, the peer registry |
| Dispatcher.dfy | the Worker's table of active and cancelled operations |
| Approvals.dfy | tool policy and one-shot approvals |
| UiaSearch.dfy | the bounded search of the UI Automation tree |
| DesktopGate.dfy, PointerInput.dfy | the desktop mutation gate, `SendInput` and cursor verification |
| Base64.dfy | the size-limited base64 and UTF-8 inputs of a file write |

Concurrent code is a transition system: a block that runs under one lock is one step, and steps interleave in
any order. Objects whose methods update their fields are classes; each method is proved equal to a block
function of the state before it, and the runs are built from the same functions.

## Assumptions

- The request digest stands for the canonical bytes themselves: SHA-256 is taken to have no collisions.
- A new job id is never the id of a job that retention has removed; approval ids are fresh. Both are uuid4.
- The wall clock of the job registry does not go back (JobTheorems.CancelWritesValidIff shows why that matters),
  and a directory listing names each metadata file once. The approval model assumes nothing about time.
- Metadata replacement is atomic. The snapshot record a job holds is a value in the registry's map.
- A message that was serialized parses back to itself; messages are otherwise abstract.
- `SendInput` inserts a prefix of its batch; everything else the desktop answers is arbitrary and may depend on
  all that happened before. The Worker's handler and its pipe may fail at any point.

## What the code does otherwise than its documentation or a reader may expect

- A factory failure sets FAILED without looking for CANCELLED; nothing else changes a terminal state
  (JobOutcomes.TerminalStatesExact, JobOutcomes.CancelledThenFailed).
- Retention deletes expired snapshots whatever their state. A running job dropped this way is forgotten: the
  same request starts it again (JobOutcomes.ResubmittedIffExpired, JobOutcomes.RunningJobDropped), and its process
  can no longer be cancelled by id.
- Only OSError from the process factory ends a job as FAILED. CreateProcess reports its errors as pywintypes.error,
  for instance for a working directory that does not exist: then the thread is over while the job stays QUEUED,
  or RUNNING when `wait` raises, and nothing is audited (JobOutcomes.RaisedJobStaysQueued).
- A job cancelled before its thread's last block, the finishing or the factory-failure block, is audited a second
  time by that block (JobTheorems.FinishedJobsAuditedExactly).
- One unreadable metadata file keeps the service from starting (JobTheorems.RestartSucceedsIffAllValid).
- `execute_job_call` does not catch JobReplayConflictError, so a digest conflict reaches its caller as that
  exception and not as a job dispatch code; in JobRegistry.StartBlock it is the reply ReplayConflict.
- `FrameDecoder.feed` loses frames it already decoded when a later one in the same call is bad
  (Framing.LostIffMetTogether). A truncated body is reported by `read_frame` without its four header bytes.
- Only OSError closes a connection whose write failed. The pipe's other error type leaves the exchange's id armed
  on an open connection (Correlation.RaisedWriteStaysArmed).
- The Worker session may refuse as busy a request that follows an answered one (Correlation.BusyAfterAnswer),
  and a request id used again after a time-out can receive the earlier reply
  (Correlation.ReusedIdTakesLateReply).
- A cancel that is answered true may come too late (Dispatcher.AcceptedTooLate), and two exchanges that share an
  id share one entry (Dispatcher.SharedIdLosesCancel).
- A peer is dropped as expired only when somebody asks (PeerRegistry.LateHeartbeat), and its generation binds
  only while it is registered (PeerRegistry.OlderGenerationReturns).
- The error code `limitation` does not mean that nothing was sent (PointerInput.LimitationAfterDelivery,
  PointerInput.LimitationAfterWholeClick). An input batch with no events is a limitation as well.
- On a desktop wider than 65536 pixels the last pixel but one cannot be hit (PointerInput.EveryPixelHitIff).
- Output limits below 4 may make no progress (OutputPaging.NarrowLimitsGetStuck).
- The shell result's truncation mark misses dropped invalid bytes (OutputCapture.ShellMarkMissesInvalidBytes).

## Model

| member | source | states |
|---|---|---|
| JobTheorems.OneJobPerOperation | src/hermes_windows_bridge/gateway/job_dispatch.py:116-172 | Over every run of calls, cache expiries, crashes between disk writes and restarts: unless retention removed its job, an operation submits its command at most once and every successful reply names that one job |
| JobEffects.RepliesNameTheirRequest | src/hermes_windows_bridge/gateway/job_dispatch.py:116-172 | Over every run every successful `job_start` reply, cached or not, names a job that was on disk under the operation id and the digest of that very request, and a job id never stands for another request |
| JobEffects.ConflictIffOtherDigest | src/hermes_windows_bridge/gateway/jobs.py:71-84 | With a fresh id an open registry refuses a request if and only if some job has its operation id under another digest, and then disk, memory, submissions and replies are as before |
| JobEffects.StartExact | src/hermes_windows_bridge/gateway/jobs.py:65-98 | What start replies, by the metadata on disk: refused when closed, the known job for the same request, a conflict for a different one, a new QUEUED job otherwise, which is then the only change |
| JobOutcomes.ResubmittedIffExpired | src/hermes_windows_bridge/gateway/job_store.py:52-53 | Why that premise is needed: after a cleanup or a restart the registry submits the same command a second time if and only if that step found the job expired, whatever its state; otherwise the reply names the old job |
| JobOutcomes.ResubmittedThroughCache | src/hermes_windows_bridge/gateway/job_dispatch.py:116-140 | The same for a call through the replay cache: an entry that still holds is replayed even when its job was dropped, and a call the cache does not know is submitted exactly if the job had expired; a restart empties the cache |
| JobOutcomes.RunningJobDropped | src/hermes_windows_bridge/gateway/job_recovery.py:96-112 | A run from the empty disk in which a RUNNING job is dropped, its process left running and untold, and its command submitted again |
| JobTheorems.MemoryMatchesDisk | src/hermes_windows_bridge/gateway/jobs.py:65-98 | At every lock release of every run the records are the metadata on disk and the operation index is a bijection with them, same operation and digest |
| JobOutcomes.TerminalStatesExact | src/hermes_windows_bridge/gateway/jobs.py:193-201 | Over any run a terminal job that is still there has the state it had, and FAILED exactly if its own factory-failure block ran meanwhile, which happens only to a CANCELLED one |
| JobOutcomes.TerminalStateExact | src/hermes_windows_bridge/gateway/jobs.py:184-238 | The same for one event: no cancel, cleanup, restart, other block or crash changes a terminal state; the factory-failure block does as soon as its write is on disk |
| JobOutcomes.CancelledThenFailed | src/hermes_windows_bridge/gateway/jobs.py:193-201 | The exception is real: a run from the empty disk in which a CANCELLED job becomes FAILED and is audited as both |
| JobTheorems.JobsMoveForward | src/hermes_windows_bridge/gateway/jobs.py:184-238 | A job keeps its identity over every run, and once its metadata is gone its own thread never brings it back |
| JobTheorems.CancelAndAuditDiscipline | src/hermes_windows_bridge/gateway/job_audit.py:21-35 | In every run each process attached to a cancelled record was told to cancel, and the audit mapping is never applied to an active state |
| JobEffects.CheckExact | src/hermes_windows_bridge/gateway/jobs.py:184-188 | The process factory is called exactly for a job that was not cancelled |
| JobEffects.AttachExact | src/hermes_windows_bridge/gateway/jobs.py:202-215 | With the process attached the job is RUNNING under its pid, or was cancelled and the process is told |
| JobEffects.FinishExact | src/hermes_windows_bridge/gateway/jobs.py:217-238 | On disk afterwards: CANCELLED if it was, else SUCCEEDED if and only if the exit code is 0, else FAILED; exit code, counts and mark of the result; each stream stored under its own name; one audit entry |
| JobEffects.FinishedOutput | src/hermes_windows_bridge/gateway/jobs.py:105-142 | After that `output` answers for each stream with the window of its own text and its own total |
| JobEffects.FinishedOutputPages | src/hermes_windows_bridge/gateway/jobs.py:105-142 | End to end: paging a stream from 0 gives back all the text of the process result |
| JobEffects.FactoryFailedExact | src/hermes_windows_bridge/gateway/jobs.py:193-201 | A factory failure writes FAILED over any state, audits it and stores no output |
| JobEffects.CancelExact | src/hermes_windows_bridge/gateway/jobs.py:144-159 | Cancelling makes an active job CANCELLED on disk, tells its process if it has one and audits it; a terminal or unknown job is left alone |
| JobEffects.CloseExact | src/hermes_windows_bridge/gateway/jobs.py:161-174 | The first close takes down exactly the jobs that are active, a second one nothing |
| JobTheorems.FinishedJobsAuditedExactly | src/hermes_windows_bridge/gateway/jobs.py:184-238 | When a job thread is over the job is terminal and audited, unless an error that `_run` does not catch ended the thread and nobody cancelled the job; it has two entries exactly when it was audited as cancelled while its thread still had a block to run |
| JobOutcomes.RaisedJobStaysQueued | src/hermes_windows_bridge/worker/job_process.py:147-150 | That exception is real: a run from the empty disk after which the thread is over and the job QUEUED in memory and on disk, with no audit entry |
| JobTheorems.ClosedMeansTerminal | src/hermes_windows_bridge/gateway/jobs.py:161-174 | When the first close has returned, every record is terminal and every job thread is over |
| JobTheorems.RestartAlwaysSucceeds | src/hermes_windows_bridge/gateway/job_recovery.py:81-93 | With a clock that never goes back, a restart after a crash anywhere succeeds, drops exactly the expired jobs, changes no terminal snapshot and makes each active one INTERRUPTED, without pid, as of now, changing nothing else in it |
| JobTheorems.RestartIdempotent | src/hermes_windows_bridge/gateway/job_recovery.py:55-66 | Restarting again before anything expires changes neither the disk nor the rebuilt memory |
| JobTheorems.RestartSucceedsIffAllValid | src/hermes_windows_bridge/gateway/job_store.py:43-56 | A start succeeds if and only if every metadata file passes the snapshot validator: one bad file stops it |
| JobTheorems.CancelWritesValidIff | src/hermes_windows_bridge/gateway/jobs.py:144-159 | Cancel writes metadata the next start can read if and only if its clock is not before the creation time of the job |
| JobTheorems.EveryRunKeepsInv | src/hermes_windows_bridge/gateway/jobs.py:184-238 | The joint invariant of disk, memory, threads, replay cache and past replies holds after every run, crashes included |
| JobInvariant.TornKeepsInv | src/hermes_windows_bridge/gateway/job_store.py:58-64 | Dying after any number of the disk writes of a step leaves a disk the invariant still describes |
| JobRecovery.LoadLeaves | src/hermes_windows_bridge/gateway/job_store.py:43-56 | What load leaves on disk and returns is exactly the unexpired snapshots |
| JobRecovery.LoadLeavesOutputs | src/hermes_windows_bridge/gateway/job_store.py:77-82 | Of the stored outputs exactly those of the expired jobs are gone |
| JobRecovery.RecoverLeaves | src/hermes_windows_bridge/gateway/job_recovery.py:81-93 | Recovery leaves on disk and in memory the unexpired snapshots with the active ones interrupted, and an exact index |
| JobRecovery.CleanupKeepsInv | src/hermes_windows_bridge/gateway/job_recovery.py:96-112 | Retention shrinks disk, records and index to the same jobs in one lock-held block |
| JobStore.LoadExact | src/hermes_windows_bridge/gateway/job_store.py:43-56 | load meets the expired files and only those with a delete, whatever their state, and stops at the first invalid one |
| JobStore.DeleteApplied | src/hermes_windows_bridge/gateway/job_store.py:77-82 | Deleting a job removes its metadata and both outputs and nothing else |
| JobStore.Store.LoadAll | src/hermes_windows_bridge/gateway/job_store.py:43-56 | The loop that lists, validates and deletes does to the disk exactly what the load specification says |
| JobStore.Store.Delete | src/hermes_windows_bridge/gateway/job_store.py:77-82 | Performs the deletes of one job, in order |
| JobModels.DigestIdentifiesRequest | src/hermes_windows_bridge/gateway/job_models.py:85-97 | Two requests have one digest if and only if command, kind, directory and limits agree, retention in whole seconds |
| JobRegistry.Registry.Start | src/hermes_windows_bridge/gateway/jobs.py:65-98 | Invalid argv, closed registry, replay, conflict and new job each leave memory and disk as the start block of the transition system says, submission included; JobEffects.StartExact says what that is |
| JobRegistry.Registry.Cancel | src/hermes_windows_bridge/gateway/jobs.py:144-159 | Cancels an active job durably and tells its process, leaves a terminal one alone |
| JobRegistry.Registry.Recover | src/hermes_windows_bridge/gateway/job_recovery.py:81-93 | Start-up loads, interrupts and rebuilds both maps as the recovery block says |
| JobRegistry.Registry.CleanupRetention | src/hermes_windows_bridge/gateway/jobs.py:176-182 | Drops the same ids from disk, records and index, or changes no memory when load fails |
| JobRegistry.Registry.RunAttach | src/hermes_windows_bridge/gateway/jobs.py:202-215 | Attaches the created process, or tells it to cancel when the job was cancelled meanwhile |
| JobRegistry.Registry.RunFinish | src/hermes_windows_bridge/gateway/jobs.py:217-238 | Performs the finishing block, outputs before the final snapshot; JobEffects.FinishExact says what that leaves |
| JobRegistry.Registry.Output | src/hermes_windows_bridge/gateway/jobs.py:105-142 | A bad window is refused before the job is looked up, an unknown job next; otherwise the window, total and mark of JobEffects.FinishedOutput, empty when nothing is stored yet |
| Idempotency.IdempotencyStore.Execute | src/hermes_windows_bridge/gateway/idempotency.py:66-95 | Replays an unexpired equal request, refuses an unexpired different one, otherwise runs once and caches for the time to live; a callback that raises caches nothing |
| Idempotency.AnsweredByHistory | src/hermes_windows_bridge/gateway/idempotency.py:66-95 | Over any calls with any timestamps: a call replays the result of the call that still stands for its operation if and only if its time is before that call plus the time to live and the request is the same; conflicts if and only if in time with another request; otherwise runs its callback, kept only when it completes |
| CanonicalJson.CanonicalBytesExact | src/hermes_windows_bridge/models/policy.py:19-31 | Canonical bytes of two payloads are equal if and only if the payloads are equal up to key order |
| CanonicalJson.CanonicalIffEncodable | src/hermes_windows_bridge/models/policy.py:19-31 | A payload has canonical bytes if and only if no string or key in it holds a lone surrogate |
| CanonicalJson.CanonicalForm | src/hermes_windows_bridge/models/policy.py:19-31 | The form on an example: sorted keys, no space, only quote, backslash and control characters escaped |
| CanonicalJson.CanonicalBytesReadBack | src/hermes_windows_bridge/models/policy.py:19-31 | Canonical bytes read by the grammar of RFC 8259 give the payload back up to key order |
| CanonicalJson.PrintInjective | src/hermes_windows_bridge/models/policy.py:19-31 | The compact printer with its escapes is injective, keys in any order |
| CanonicalJson.SortedIffSame | src/hermes_windows_bridge/models/policy.py:19-31 | Sorting keys at every level identifies exactly the payloads equal up to key order |
| Approvals.ConsumptionIsExact | src/hermes_windows_bridge/gateway/policy.py:168-205 | For any trace and timestamps: an approval is consumed at most once, after an approving decision made before expiry, before expiry itself, by its own operation and tool and for the submitted payload |
| Approvals.ConsumeExact | src/hermes_windows_bridge/gateway/policy.py:168-205 | The converse, by the history of the trace: an attempt consumes if and only if it comes before expiry, with the submitted operation, tool and payload, on an approval approved and neither consumed nor timed out; every other case gets its own refusal |
| Approvals.DispatchExact | src/hermes_windows_bridge/gateway/approval_authorization.py:41-73 | A guarded call is authorised if and only if that holds, and is consumed then; every other guarded call gets its code |
| Approvals.DispatchHappens | src/hermes_windows_bridge/gateway/approval_authorization.py:41-73 | A run from the start ends in an authorised dispatch |
| Approvals.DecideExact | src/hermes_windows_bridge/gateway/policy.py:155-166 | A decision counts if and only if it comes before expiry on a pending approval, and sets the state and method it says |
| Approvals.StatesTellHistory | src/hermes_windows_bridge/gateway/policy.py:155-205 | The state of a record is what has happened to it: APPROVED exactly after an approval without consumption or time-out, and so on |
| Approvals.RequestExact | src/hermes_windows_bridge/gateway/policy.py:131-153 | A request freezes its canonical bytes in one new pending record, or is refused and changes nothing |
| Approvals.PolicyTable | src/hermes_windows_bridge/gateway/policy.py:106-121 | Which tools need an approval, which are denied and which are unknown |
| Approvals.NoMoreConsumedThanApproved | src/hermes_windows_bridge/gateway/policy.py:155-205 | Authorised dispatches never outnumber approving decisions |
| Approvals.StatesMoveForward | src/hermes_windows_bridge/gateway/policy.py:155-205 | Approval states only move forward and EXPIRED is absorbing, with clocks going back and forth |
| Approvals.AuthorizeConsumes | src/hermes_windows_bridge/gateway/approval_authorization.py:41-73 | A tool that needs approval is dispatched only by consuming one; the only error let through is that of a payload without canonical form |
| Approvals.ApprovalManager.ConsumeApproval | src/hermes_windows_bridge/gateway/policy.py:168-205 | Checks existence, expiry, binding, payload and state in that order and changes only the one record |
| Approvals.ApprovalManager.DecideApproval | src/hermes_windows_bridge/gateway/policy.py:155-166 | Only a pending unexpired approval can be decided; a late decision expires it |
| Approvals.ApprovalManager.RequestApproval | src/hermes_windows_bridge/gateway/policy.py:131-153 | Freezes the canonical payload in a pending record, or refuses an unknown or denied tool |
| Framing.ChunkingIrrelevant | src/hermes_windows_bridge/ipc/framing.py:127-142 | Feeding any chunks of an error-free stream gives the messages and the leftover of feeding it whole |
| Framing.MessagesArrive | src/hermes_windows_bridge/ipc/framing.py:60-69 | The frames of any messages, cut into any chunks, come out as exactly those messages, in order |
| Framing.LeftHoldsNoFrame | src/hermes_windows_bridge/ipc/framing.py:127-142 | The leftover buffer never holds a whole frame |
| Framing.DrainIsDecoding | src/hermes_windows_bridge/ipc/framing.py:127-142 | Frames that decode_frame decodes one by one, then a tail that holds no whole frame or a bad one: feed yields the messages and keeps the tail, or raises what decode_frame raises for the bad frame |
| Framing.EveryBufferSplits | src/hermes_windows_bridge/ipc/framing.py:127-142 | Every buffer is of that shape |
| Framing.FinishMatchesDecode | src/hermes_windows_bridge/ipc/framing.py:144-152 | finish reports exactly the truncation decode_frame reports on the leftover |
| Framing.DeliveredExactly | src/hermes_windows_bridge/ipc/framing.py:127-142 | For every stream and chunking what is delivered is exactly the drain of the chunks before the failing call, which fails with the error of the whole stream |
| Framing.LostIffMetTogether | src/hermes_windows_bridge/ipc/framing.py:127-142 | A decoded message is lost if and only if the bad frame is met in the very call that completes the message |
| Framing.ErrorDropsEarlierMessages | src/hermes_windows_bridge/ipc/framing.py:127-142 | A good frame and a bad header in one call lose the message, in two calls they do not |
| Framing.EncodeDecode | src/hermes_windows_bridge/ipc/framing.py:72-88 | decode_frame inverts encode_frame at every maximum that encodes |
| Framing.EncodeExact | src/hermes_windows_bridge/ipc/framing.py:60-69 | Encoding succeeds if and only if the payload fits the maximum and its length four bytes |
| Framing.DecodeExact | src/hermes_windows_bridge/ipc/framing.py:72-88 | Decoding succeeds exactly on one whole frame within the maximum that holds a message; each refusal tells the true sizes |
| Framing.FramesReadBack | src/hermes_windows_bridge/ipc/framing.py:91-101 | Reading n frames off a stream of n sent ones gives the n messages and leaves the rest |
| Framing.ReadMatchesDecode | src/hermes_windows_bridge/ipc/framing.py:91-113 | Reading from a stream judges its first frame as decode_frame does and leaves what follows; a stream that ends inside it is a truncation for both |
| Framing.FrameDecoder.Feed | src/hermes_windows_bridge/ipc/framing.py:127-142 | The in-place decoder returns and keeps exactly what the draining specification says, also when it raises |
| Framing.WriteFrame | src/hermes_windows_bridge/ipc/win32_pipe_io.py:92-110 | Partial writes of any positive sizes send exactly the frame; a non-positive report fails with a prefix sent |
| Framing.ReadExact | src/hermes_windows_bridge/ipc/framing.py:104-113 | Short reads of any sizes assemble exactly the bytes asked for, or report how many came |
| Framing.ReadFrame | src/hermes_windows_bridge/ipc/framing.py:91-101 | Reads one frame off the front of the stream as the specification does, errors included |
| Correlation.OwnReplyOnly | src/hermes_windows_bridge/gateway/worker_runtime.py:84-121 | In every interleaving an exchange returns only a reply with its own id, delivered after this exchange armed the connection; the later correlation check never fires |
| Correlation.OneExchangeAtATime | src/hermes_windows_bridge/gateway/worker_runtime.py:84-121 | At most one exchange is between arming and leaving and the connection is armed for it alone; with nobody there, an id is still armed on an open connection if and only if the last to arm left by a write error that closes nothing |
| Correlation.RaisedWriteStaysArmed | src/hermes_windows_bridge/gateway/worker_runtime.py:178-190 | That can happen: a write error other than OSError leaves the id armed, and a cancel for the dead exchange is let through |
| Correlation.RepliesFollowWrites | src/hermes_windows_bridge/gateway/worker_runtime.py:130-138 | No reply comes before its request was written; with unique ids the reply an exchange returns was delivered after its own write |
| Correlation.AbandonedNeverWritten | src/hermes_windows_bridge/gateway/worker_runtime.py:178-190 | A request abandoned before its write step never reaches the pipe, an abandoned exchange wrote nothing, nobody writes twice |
| Correlation.RequestsConserved | src/hermes_windows_bridge/worker/pipe_server.py:154-173 | Every written request is still on its way, was answered once or was lost, as multisets over every run; the session runs at most one handler |
| Correlation.AnsweredOnce | src/hermes_windows_bridge/worker/pipe_server.py:154-173 | With unique ids no request gets a second reply |
| Correlation.RejectedIsLate | src/hermes_windows_bridge/gateway/worker_runtime.py:130-138 | With unique ids a reply is rejected only after its exchange had timed out, been disconnected or left by a raised write |
| Correlation.BusyMeansTaken | src/hermes_windows_bridge/worker/pipe_server.py:154-164 | With unique ids a request is refused as busy only behind a handler that has not ended yet, or when one of the two requests was given up |
| Correlation.BusyAfterAnswer | src/hermes_windows_bridge/worker/pipe_server.py:166-173 | A request sent right after an answered one can be refused as busy although nobody timed out: the slot is freed only after the reply is written |
| Correlation.ReusedIdTakesLateReply | src/hermes_windows_bridge/gateway/helper_runtime.py:90-143 | Uniqueness is needed: after a time-out a second exchange with the same id returns the reply to the first |
| Correlation.WakeUp | src/hermes_windows_bridge/gateway/worker_runtime.py:107-121 | A woken exchange stays, returns or disconnects exactly by what is stored and whether the connection is closed: a stored reply survives close on the Helper connection only; leaving frees the lock and disarms |
| Correlation.CancelExact | src/hermes_windows_bridge/gateway/worker_runtime.py:123-128 | A cancel is refused unless its id is armed on an open connection, and answers true only after its message was written |
| Correlation.HelperCancelCloses | src/hermes_windows_bridge/gateway/helper_runtime.py:126-133 | A cancel that answered true on the Helper connection has closed it |
| Correlation.EveryRunKeepsInv | src/hermes_windows_bridge/gateway/worker_runtime.py:84-138 | The invariant of connection, locks, threads, wire, session and log over every run |
| Correlation.Connection.Await | src/hermes_windows_bridge/gateway/helper_runtime.py:110-124 | One wake-up: time-out, disconnection or reply; the Helper returns a reply stored before close where the Worker connection raises |
| Correlation.Connection.Deliver | src/hermes_windows_bridge/gateway/worker_runtime.py:130-138 | Stores a reply only for the armed id; any other leaves the connection as it was |
| Correlation.Connection.Arm | src/hermes_windows_bridge/gateway/worker_runtime.py:87-92 | Arming a live connection forgets any stale reply |
| Correlation.WorkerSession.StartRequest | src/hermes_windows_bridge/worker/pipe_server.py:154-164 | Takes a request when idle, refuses it otherwise |
| Dispatcher.NothingLeaks | src/hermes_windows_bridge/worker/operations.py:115-192 | Whatever interleaves: only active exchanges are marked cancelled, both sets are empty once nothing runs, and nothing enters after close |
| Dispatcher.CancelledExactly | src/hermes_windows_bridge/worker/operations.py:159-166 | With unique ids a returned handler is reported cancelled exactly when a cancel was accepted before the set was looked at |
| Dispatcher.CloseTellsAll | src/hermes_windows_bridge/worker/operations.py:182-192 | The first close tells exactly the exchanges that are running then; a later one tells nobody |
| Dispatcher.EnterExact | src/hermes_windows_bridge/worker/operations.py:115-158 | An exchange is let in exactly when its operation is known and the dispatcher is open |
| Dispatcher.AcceptedTooLate | src/hermes_windows_bridge/worker/operations.py:172-180 | cancel may answer true and the exchange still succeed |
| Dispatcher.SharedIdLosesCancel | src/hermes_windows_bridge/worker/operations.py:167-170 | With a shared id the end of one exchange makes the other impossible to cancel |
| Dispatcher.WorkerOperationDispatcher.Cancel | src/hermes_windows_bridge/worker/operations.py:172-180 | Marks an active id and no other |
| PeerRegistry.ProbedConnectionStayed | src/hermes_windows_bridge/worker/ipc_client.py:250-268 | A probe result is returned only if the probed connection was the registered one at every moment from before the probe until after it |
| PeerRegistry.EpochsNeverReused | src/hermes_windows_bridge/privileged/ipc_server.py:138-173 | Epochs only grow and are never reused; within one epoch a changed connection has a higher heartbeat sequence |
| PeerRegistry.EpochsAreIntervals | src/hermes_windows_bridge/worker/ipc_client.py:193-234 | An epoch seen at two moments of a run was registered, with one client and registration, at all moments between |
| PeerRegistry.LeavesOnlyLikeThis | src/hermes_windows_bridge/ipc/registration.py:31-41 | A connection leaves only by its own disconnect, by an expiry somebody noticed or for a strictly newer generation |
| PeerRegistry.RegistryExact | src/hermes_windows_bridge/worker/ipc_client.py:193-277 | Registration, heartbeat, disconnect, reader and both ends of a probe, each exactly: a registration is accepted if and only if nothing is registered or its generation is higher |
| PeerRegistry.ProbeToldIff | src/hermes_windows_bridge/worker/ipc_client.py:250-268 | In every run a probe is told if and only if the probed connection is still registered and has not expired |
| PeerRegistry.LateHeartbeat | src/hermes_windows_bridge/worker/ipc_client.py:214-234 | However late, and whatever happens in between short of a new registration, its own disconnect or another accepted heartbeat: the next matching heartbeat is accepted if and only if nobody read the connection while it was expired |
| PeerRegistry.LateHeartbeatRuns | src/hermes_windows_bridge/worker/ipc_client.py:270-277 | Both outcomes happen to one heartbeat, with and without a reader in between |
| PeerRegistry.PeerRegistryState.Register | src/hermes_windows_bridge/privileged/ipc_server.py:138-153 | Accepts only a newer generation than the live one, under a new epoch |
| PeerRegistry.PeerRegistryState.Beat | src/hermes_windows_bridge/worker/ipc_client.py:214-234 | Accepts only a matching heartbeat with a higher sequence |
| PeerRegistry.PeerRegistryState.EndProbe | src/hermes_windows_bridge/privileged/ipc_server.py:200-207 | Keeps the probe result only for the same epoch and client |
| OutputCapture.KeptAreFairPrefixes | src/hermes_windows_bridge/worker/job_process.py:48-77 | For every interleaving of the two readers each stream keeps a prefix of itself, together never above the limit and in the end min(limit, read) |
| OutputCapture.ResultSpeaksOfItsStreams | src/hermes_windows_bridge/worker/job_process.py:202-221 | Each text is the lenient decoding of a first part of its own stream, each count is its own stream's, and the parts are together all the limit allows |
| OutputCapture.TruncationIsHonest | src/hermes_windows_bridge/worker/job_process.py:202-221 | A result is unmarked if and only if everything read fits and is valid UTF-8, and then re-encodes to the bytes read |
| OutputCapture.ShellOutputBounded | src/hermes_windows_bridge/worker/shell.py:130-137 | The shell texts together encode to at most the limit, each the longest prefix of what was decoded that the budget left for it allows |
| OutputCapture.ShellMarkMissesInvalidBytes | src/hermes_windows_bridge/worker/shell.py:169-197 | The shell result can be unmarked although invalid bytes were dropped |
| OutputCapture.Capture.Drain | src/hermes_windows_bridge/worker/job_process.py:61-77 | The drain loop counts every byte and keeps what the shared budget allowed |
| Utf8.StrictDecodeExact | src/hermes_windows_bridge/gateway/jobs.py:120-124 | Strict decoding accepts exactly the encodings of scalar texts (section 4 of RFC 3629) and returns the unique preimage |
| Utf8.StrictPrefixIffBoundary | src/hermes_windows_bridge/gateway/jobs.py:120-124 | A byte prefix decodes strictly if and only if it ends at a character boundary |
| Utf8.LenientPrefix | src/hermes_windows_bridge/gateway/jobs.py:126-131 | Leniently decoding a byte prefix of a text gives its longest prefix of whole characters |
| Utf8.LenientDrops | src/hermes_windows_bridge/worker/job_process.py:75-77 | On any bytes: where no character is encoded, lenient decoding drops the longest part that begins one, or one byte, and goes on behind it |
| OutputPaging.WindowAccepted | src/hermes_windows_bridge/gateway/jobs.py:105-142 | An offset is accepted if and only if it is a character boundary or past the end |
| OutputPaging.WindowExact | src/hermes_windows_bridge/gateway/jobs.py:105-142 | A window holds the next whole characters that fit, moves to the boundary after them, is complete exactly at the end and stands still exactly at the end or before a wider character |
| OutputPaging.PagesAreWhole | src/hermes_windows_bridge/gateway/jobs.py:105-142 | Following next_offset with any limits yields a gapless run of whole characters |
| OutputPaging.PagingReadsAll | src/hermes_windows_bridge/gateway/jobs.py:105-142 | Paging from 0 with limits of at least 4 ends and concatenates to the whole text |
| OutputPaging.NarrowLimitsGetStuck | src/hermes_windows_bridge/gateway/jobs.py:105-142 | Limits narrower than the next character never pass it |
| OutputPaging.BoundedUtf8Longest | src/hermes_windows_bridge/worker/browser_safety.py:264-269 | bounded_utf8 returns the longest prefix of whole characters within its limit, marked when it is not all |
| DesktopGate.OneMutationAtATime | src/hermes_windows_bridge/worker/desktop_lock.py:132-154 | With any number of threads at most one mutation is inside the gate, and the gate is free exactly when none is |
| DesktopGate.TurnExact | src/hermes_windows_bridge/worker/desktop_lock.py:135-145 | A turn of the wait loop ends in emergency stop, admission, busy or another wait, exactly by marker, occupation and time |
| DesktopGate.AtMostOneBatchAfterStop | src/hermes_windows_bridge/worker/desktop_input.py:231-236 | Once the emergency marker exists nobody passes the entry check, and at most one thing follows from an earlier check, across restarts: one batch, repairs included, or one thread taking the gate, and then no batch |
| DesktopGate.OneBatchMayFollow | src/hermes_windows_bridge/worker/win32_input.py:115-121 | That one batch can happen: its check came before the marker |
| DesktopGate.EntryMayFollow | src/hermes_windows_bridge/worker/desktop_lock.py:143-151 | So can that entry: the marker appears between the check and taking the gate, and the second look turns the thread away |
| DesktopGate.DesktopMutationGate.TryEnter | src/hermes_windows_bridge/worker/desktop_lock.py:135-145 | One turn of the wait loop: the marker refuses first, then a time-out, and only a free gate is taken |
| PointerInput.SendHonest | src/hermes_windows_bridge/worker/win32_input.py:79-112 | For all insertion counts, readings and refusals: success means fully inserted with the cursor at the target; a failure other than state_uncertain leaves nothing pressed and the cursor untouched or back; each batch has its own check |
| PointerInput.MutateHonest | src/hermes_windows_bridge/worker/desktop_input.py:208-248 | The same for the controller, exactly: a failure other than state_uncertain leaves the cursor untouched or back if and only if it is not the last validation refusing behind a pointer mutation that had returned with its target elsewhere |
| PointerInput.LimitationAfterDelivery | src/hermes_windows_bridge/worker/desktop_input.py:238-243 | The exception is real: the cursor is seen at its old place, moved to the target and left there, and the desktop that locks makes it a plain limitation |
| PointerInput.LimitationAfterWholeClick | src/hermes_windows_bridge/worker/win32_input.py:84-104 | A limitation with the cursor back does not mean that the click did not happen |
| PointerInput.WholeBatchReleases | src/hermes_windows_bridge/worker/win32_input.py:123-163 | Whole keyboard, chord, text and wheel batches leave nothing pressed, repeated keys included |
| PointerInput.BatchSpells | src/hermes_windows_bridge/worker/win32_input.py:123-163 | What a batch says, event by event: the text, the chord and its reverse, the key as often as asked, each wheel by its own amount |
| PointerInput.BatchOutcome | src/hermes_windows_bridge/worker/win32_input.py:105-110 | A mutation without a pointer target succeeds, is a limitation or uncertain exactly by whether all, none or some of its events went in |
| PointerInput.CooperativeSucceeds | src/hermes_windows_bridge/worker/win32_input.py:79-104 | On a desktop that refuses nothing and obeys, every move and click succeeds |
| PointerInput.MoveEffect | src/hermes_windows_bridge/worker/win32_input.py:183-199 | A verified move ends at its target; a failure is uncertain exactly when something went in and the cursor was not brought back by a whole repair |
| PointerInput.ClickEffect | src/hermes_windows_bridge/worker/win32_input.py:84-104 | A click ends complete at its target; a failure is uncertain exactly when something went in and it was not undone by the owed release and the way back |
| PointerInput.RestoreEffect | src/hermes_windows_bridge/worker/win32_input.py:234-258 | A repair reports limitation if and only if its whole batch went out and the cursor was seen back |
| PointerInput.RepairEffect | src/hermes_windows_bridge/worker/win32_input.py:201-232 | A failed click is released when an odd number of its events went out |
| PointerInput.Win32InputBackend.Send | src/hermes_windows_bridge/worker/win32_input.py:79-112 | The step-by-step backend does what the send specification says, for every environment |
| PointerInput.Win32InputBackend.WaitForCursor | src/hermes_windows_bridge/worker/win32_input.py:260-269 | Polls until the target is seen, a reading fails or the deadline passes, then reads once more |
| PointerInput.WaitExact | src/hermes_windows_bridge/worker/win32_input.py:260-269 | Waiting stops at the first reading that fails or shows the target, and otherwise reads once more than the deadline allows polls |
| PointerInput.DesktopInputController.Mutate | src/hermes_windows_bridge/worker/desktop_input.py:208-248 | Runs the checks, the mutation and the last validation in order, a late conflict made uncertain |
| PointerInput.ChecksExact | src/hermes_windows_bridge/worker/desktop_input.py:208-248 | Which of the checks before and after the mutation is reported, in order, and that nothing is sent before all have passed |
| PointerInput.CoordinateIsLeast | src/hermes_windows_bridge/worker/win32_input.py:176-181 | The absolute coordinate is in 0..65535 and the least one mapped at or past the pixel |
| PointerInput.CoordinateHitsIffReachable | src/hermes_windows_bridge/worker/win32_input.py:176-181 | It maps to the pixel exactly when any coordinate does |
| PointerInput.EveryPixelHitIff | src/hermes_windows_bridge/worker/win32_input.py:176-181 | Every pixel of the desktop is hit exactly when it spans at most 65536 of them |
| PointerInput.MoveToLands | src/hermes_windows_bridge/worker/win32_input.py:168-174 | A move event names, on both axes, coordinates its desktop maps to exactly the point |
| PointerInput.CoordinateMonotone | src/hermes_windows_bridge/worker/win32_input.py:176-181 | The coordinate is monotone in the pixel |
| UiaSearch.Resolve | src/hermes_windows_bridge/worker/uia_backend.py:123-142 | Returns the first limit matches among the first 500 controls in level order of the tree cut at depth 8, and terminates |
| UiaSearch.LevelOrderExact | src/hermes_windows_bridge/worker/uia_backend.py:123-142 | Level order holds exactly what paths of at most eight indices lead to, its paths strictly increasing by length and then left to right: only one sequence is like this |
| UiaSearch.FoundExactly | src/hermes_windows_bridge/worker/uia_backend.py:123-142 | A matching control within reach is missing from the result only behind `limit` matches that come before it or behind 500 controls |
| UiaSearch.Enqueue | src/hermes_windows_bridge/worker/uia_backend.py:136-141 | Appends the first children that fit the cap, in order |
| UiaSearch.FoundPathsLead | src/hermes_windows_bridge/worker/uia_backend.py:123-142 | The path of every result leads from the root to that control |
| UiaSearch.LevelsAreQueueOrder | src/hermes_windows_bridge/worker/uia_backend.py:127-141 | Visiting a tree with a queue is visiting it level by level |
| Base64.Base64Exact | src/hermes_windows_bridge/tools/filesystem.py:158-173 | Exactly the canonical encodings (sections 3.5 and 4 of RFC 4648) of byte strings within the limit are accepted, each with its one preimage; every oversize canonical input gets the size error; the rest is invalid |
| Base64.PrecheckIsTight | src/hermes_windows_bridge/tools/filesystem.py:160-162 | The length precheck rejects no acceptable input, and no shorter bound would do |
| Base64.Base64Injective | src/hermes_windows_bridge/tools/filesystem.py:170-171 | No two byte strings share an encoding |
| Base64.SpareBitsAreIgnored | src/hermes_windows_bridge/tools/filesystem.py:166-171 | The strict decoder alone is not injective, which is why the result is encoded again |
| Base64.CountIsEncodedLength | src/hermes_windows_bridge/tools/filesystem.py:176-184 | The count made before encoding is the encoded length |
| Base64.EncodeUtf8Exact | src/hermes_windows_bridge/tools/filesystem.py:147-155 | Success, size error and encoding error exactly by count and surrogates; a success decodes back to the text |

## Left out

- JobTheorems.FinishedJobsAuditedExactly: takes `process.cancel` and the audit recorder not to raise, and the disk writes of a block to succeed or end in a crash.
- JobTheorems.ClosedMeansTerminal: assumes that the waits of `close` end, that is, that every process told to cancel exits.
- UiaSearch.Resolve: does not model the deadline raised by `execution.check()`, which aborts the search without a result.
- Correlation.OwnReplyOnly: time is abstract, so a wait may time out at any moment; that it ends by its deadline is not stated.
- Correlation.RequestsConserved: covers one connection; a session that outlives its pipe and the reconnect back-off are not modelled.
- Correlation.BusyMeansTaken: the Helper's own session reads one request at a time and is covered as the runs that never read early.
- OutputCapture.Capture.Drain: describes one drain while nobody else takes from the budget; the interleaving of two is OutputCapture.KeptAreFairPrefixes.
- OutputCapture.ShellMarkMissesInvalidBytes: stated for two readers that reached the end; `run` joins each for five seconds and may assemble its result earlier.
- PointerInput.SendHonest: pressed buttons and keys are counted from this mutation's own events, not from what the user holds.
- Floats in payloads, the digit limit of Python's integer parser and duplicate keys in foreign JSON.
- Observation-space coordinates: `round` of a float scale; the mapped point is an input of the mutation.
- Text encodings of the shell other than UTF-8: the decoded text is the input of its second budget.
- Newline translation in `write_text`, and I/O failures of the job store other than a crash.
- Win32, pywinauto, Playwright and MCP calls, process creation, ACLs, tokens and host checks.
- Dispatcher.NothingLeaks: the calls of a handler's own cancel and the closing of resources are not modelled, nor is the operation table.
- NamedPipeIpcClient, which opens a pipe per request, the reconnect loops and heartbeat timers.
- The C# service host, PowerShell scripts, watchdog back-off, Codex adapter, browser and path safety.
- Liveness: fairness of scheduling and wall-clock waits; all results are about safety.
