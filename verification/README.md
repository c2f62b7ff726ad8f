# Verification of the sandbox supervisor and its Node client

A Dafny model of the stateful core of the repository, with machine-checked proofs. Each
module follows one component of the program. Components whose methods update an object
are classes, and every method is proved equal to a step of a specification; components
made of expressions are functions; and components that run concurrently, or on both
sides of a pipe, are state machines whose invariants are proved for every run.

| file | models |
|---|---|
| `Seccomp.dfy` | the classic-BPF filter, its interpreter and the policy it implements |
| `Scheduler.dfy`, `Resources.dfy` | reservations in saturating `u64` arithmetic, admission capacity over all cgroup ancestors |
| `SupervisorProtocol.dfy`, `Supervisor.dfy` | the native supervisor's loop as a state machine, and the object that takes its steps in place |
| `ClientProtocol.dfy`, `Client.dfy` | the Node client, likewise |
| `Delivery.dfy` | client and supervisor joined by two first-in-first-out channels |
| `OutputBudget.dfy` | two reader threads that share one atomic output budget |
| `Framing.dfy`, `FrameReader.dfy`, `Encoding.dfy`, `Transport.dfy` | both frame splitters, the encoders, and the backpressured write queue |
| `SandboxProtocol.dfy`, `SandboxSafety.dfy`, `Sandbox.dfy` | the bounded job queue, close after drain, and generations of supervisors |
| `PathTree.dfy` | the index that keeps artifact paths apart, and staging them on disk |
| `ArtifactTree.dfy` | the inspection of an artifact tree, and the supervisor's check of declared outputs |
| `ArtifactOrder.dfy`, `ArtifactListings.dfy` | how far the answer of the inspection depends on the order of the entries, and on how the directories list them |
| `StagedTree.dfy`, `ArtifactPlan.dfy` | what staging leaves on disk as the supervisor lists it, and when what the client planned passes the supervisor's check |
| `Handshake.dfy`, `RunningChild.dfy` | the clone handshake over one-byte pipes, and reaping the child |
| `Identifiers.dfy` | job identifiers, staging names and process start times |
| `Wrappers.dfy`, `UInt64.dfy`, `Text.dfy` | shared datatypes and functions, Rust's `u64` operations, searching and splitting |

`dafny verify dfyconfig.toml` checks the project.

Conventions. System calls, the JSON library, the clock and the child processes appear as
parameters or as events that may happen at any moment at which they can happen at all.
A `u64` is an integer with its bounds, and wrapping, checked and saturating operations
are written out. A JSON body is any byte string that is not empty and holds no raw
newline, which section 7 of RFC 8259 guarantees of printed JSON texts.

Findings that differ from what one might expect of the code:

- After a shutdown has been accepted even a well-formed `cancel` is answered, with
  CANCELLED (native/src/supervisor.rs:157-159); only before that does it get no reply.
- A request for no memory and no processes is not checked against an ancestor that is
  already over its limit, because both headrooms saturate at zero.
  `AdmissionOvercommitsIffAlreadyOver` gives the exact condition; real requests are never
  empty, since every job carries an overhead.
- With mixed block sizes the order in which a directory lists its entries can decide
  whether an artifact tree is accepted (`MixedBlockSizesDependOnOrder`). A scan accepts
  exactly if every prefix of it fits its own allowance (`ScanIffEveryPrefixFits`). Over
  all orders of a list of entries, some order is accepted exactly if the whole keeps the
  limits, and every order exactly if each file's own allowance covers all files of no
  larger block overhead (`OrderDecidesIff`); for the files of one directory these are its
  listings (`DirectoryListingDecidesIff`). In a nested tree a file is always met after
  those of the directories above it, so not every order is a listing: every listing of a
  tree is accepted exactly if each file's allowance covers the worst case up to it
  (`EveryListingIffWorstFits`), which some trees meet that fail the condition on orders
  (`DepthSettlesTheOrder`).
- A path with a trailing slash may be accepted beside a path below it, and staging the
  two then collides; and `./` is accepted but cannot be created, because it is there
  already. `StagingSucceedsIffTrimmedAgree` gives the exact condition.
- The client accepts `./` as an output path and the supervisor does not; that and the
  length in UTF-8 bytes are all that divides their path checks (`SamePathOnBothSides`).
  The supervisor's validation as a whole also refuses a path that ends in a slash, one
  more than 32 directories deep, and outputs that with their directories are more entries
  than its inspection admits. `PlannedOutputsAreValidated` states this as an exact
  condition on the plan.
- A job whose owner lives is taken for stale when the owner's stat record cannot be read
  or is not UTF-8 (`StaleIffOwnerGone`).
- An empty line is skipped by the Node decoder but handed to the JSON parser by the
  supervisor's reader (`EmptyLineDivides`). The two readings of a stream agree exactly if
  the decoder accepts it and no frame is empty (`ReadersAgreeIffNoEmptyFrame`).
- The guest may start after the launcher's deadline, and even after its kill was sent:
  the pipes stay open until the child has been reaped (`GuestMayStartAfterTheDeadline`).
  After the launcher has given up there can still be a guest exactly if the child lives
  and has read the release byte or finds it in the pipe (`GuestAfterGivingUpIff`); once
  the launcher has left, only if the child had announced itself (`GuestAfterLeavingIff`).
  Such a guest is mapped and hardened, and the launcher waits for its end
  (`UnsupervisedGuestIsContained`).
- Request ids repeat from 2 to the 53rd on (`IdsRepeat`); below it they never do
  (`IdsStayApartIff`).

## Model

| member | source | states |
|---|---|---|
| Seccomp.BaselineFilter | native/src/linux/seccomp.rs:162-210 | the vector grown block by block is the program that the correctness theorem is about, for any deny list and ioctl list; it fails exactly when the ioctl block exceeds the one-byte jump range |
| Seccomp.ProgramMeetsPolicy | native/src/linux/seccomp.rs:162-210 | compiler correctness: for every architecture, syscall number and arguments the program returns the first-match policy, whatever the accumulator held before |
| Seccomp.Evaluate | native/src/linux/seccomp.rs:317-353 | the whole test harness: filling the data, building the filter and interpreting it gives the policy of the architecture, the truncated syscall number and the low words of arguments 0 and 1, and nothing else; it panics exactly when the filter cannot be built |
| Seccomp.Interpret | native/src/linux/seccomp.rs:326-352 | the interpreter loop halts on every program whose execution returns, never leaves it, and returns what the recursive semantics returns |
| Seccomp.StepInside | native/src/linux/seccomp.rs:328-351 | a running program only jumps forward to a position inside itself and keeps the outcome of the whole |
| Seccomp.FillData | native/src/linux/seccomp.rs:318-324 | the byte buffer is the little-endian seccomp_data record of the call |
| Seccomp.LoadedWords | native/src/linux/seccomp.rs:340-343 | loading the four offsets the filter uses reads back the syscall number, the architecture and the low argument words |
| Seccomp.LeRoundTrip | native/src/linux/seccomp.rs:319-323 | little-endian encoding and decoding are inverse |
| Seccomp.LeRoundTrip64 | native/src/linux/seccomp.rs:319-323 | all eight bytes of an argument read back |
| Seccomp.ExecConcat | native/src/linux/seccomp.rs:176-208 | running two pieces of code in a row is running the first and, if it falls off its end, the second with the accumulator it left |
| Seccomp.SyscallBlockExec | native/src/linux/seccomp.rs:272-280 | a block runs its body only for its own syscall and otherwise jumps to its end with the syscall number still loaded |
| Seccomp.DenyBlocksExec | native/src/linux/seccomp.rs:177-179 | the deny list returns EPERM exactly for its members and otherwise hands the syscall number on |
| Seccomp.IoctlBodyExec | native/src/linux/seccomp.rs:180-189 | the ioctl body denies exactly the masked commands and reloads the syscall number otherwise |
| Seccomp.PrctlBodyExec | native/src/linux/seccomp.rs:190-194 | the prctl body denies exactly PR_SET_PDEATHSIG and reloads the syscall number otherwise |
| Seccomp.CloneBodyExec | native/src/linux/seccomp.rs:198-207 | the clone body denies exactly the calls that request a namespace and reloads the syscall number otherwise |
| Seccomp.CloneMask | native/src/linux/seccomp.rs:257-270 | the mask test fires exactly when one of the seven namespace bits is set |
| Seccomp.HandOn | native/src/linux/seccomp.rs:272-280 | pieces that return or hand the syscall number on compose to a piece that does, and first match wins |
| Scheduling.Scheduler.ReserveWithLimit | native/src/scheduler.rs:71-96 | grants exactly the admissible requests, adds the exact sum, keeps the total within the limit, and changes nothing on refusal |
| Scheduling.Scheduler.ReserveStatic | native/src/scheduler.rs:60-62 | against the static limit alone, admits exactly the requests that fit what is reported as available |
| Scheduling.Scheduler.Available | native/src/scheduler.rs:102-104 | what is free is the limit without the reservations, exactly |
| Scheduling.Reservation.Release | native/src/scheduler.rs:114-134 | gives its request back once, however often it is called |
| Scheduling.ReleaseUndoesReserve | native/src/scheduler.rs:71-127 | releasing restores the total from before the reservation: the saturating subtraction does not saturate |
| Resources.ReserveMargin | native/src/resources.rs:177-179 | at most 80% of the value and, unless the product saturates, its floor |
| Resources.AdmittedIff | native/src/resources.rs:24-60 | exactly which requests are admitted, in numbers and for all inputs: the sums fit the limit, and in memory, CPU and processes alike the unused part of the reservations plus the request is at most 80% of the host's own figure and of what every ancestor leaves, or of the host's figure where the ancestor has no limit |
| Resources.TaskCountIsNotNeeded | native/src/resources.rs:91-100 | where every ancestor limits its processes, the largest fallback in place of the host's task count leaves only the ancestors to bound them |
| Resources.EffectiveIsGreatestLowerBound | native/src/resources.rs:36-60 | the fold is the greatest lower bound of the host's and every ancestor's margin |
| Resources.AdmissionNeverOvercommits | native/src/scheduler.rs:71-96 | for a request of positive memory and process count, an admitted reservation leaves every bounded ancestor with others' usage plus the larger of own usage and own reservations plus the request within its memory and pid limit, and CPU reservations within 80% of every quota |
| Resources.AdmissionOvercommitsIffAlreadyOver | native/src/resources.rs:187-197 | for arbitrary requests that guarantee holds exactly at ancestors not already over a limit |
| Resources.EmptyRequestIsNotChecked | native/src/resources.rs:187-197 | an instance in which an empty request is admitted below an ancestor that is over its limit |
| Resources.BusyJobsAreCountedOnce | native/src/scheduler.rs:64-70 | when running jobs use the memory and processes they reserved, admission only asks that the request's own fit the headroom; CPU reservations count in full, and the total stays within the limit |
| Resources.UsageIsCappedSum | native/src/resources.rs:105-124 | saturating sum over the job cgroups is the exact sum, capped once |
| Resources.DetectSnapshots | native/src/resources.rs:62-88 | the upward walk reads every level of the hierarchy except an outermost one without limits, and fails exactly when one of those cannot be read or there is none |
| SupervisorProtocol.StepKeepsInvariant | native/src/supervisor.rs:129-200 | every event keeps: reservations equal the sum over active jobs and fit the limit, at most 64 jobs, and a loop that still runs has something to wait for |
| SupervisorProtocol.RunKeepsInvariant | native/src/supervisor.rs:129-200 | the same for every run |
| SupervisorProtocol.DropIsExact | native/src/supervisor.rs:350-353 | removing a job subtracts exactly its reservations: the scheduler's subtraction does not saturate and the workspace counter does not wrap |
| SupervisorProtocol.StartIsConserved | native/src/supervisor.rs:239-279 | a started job's reservations are added exactly once |
| SupervisorProtocol.ReserveWorkspace | native/src/supervisor.rs:416-434 | grants exactly the sums that fit 80% of the free space, which then bounds the total |
| SupervisorProtocol.ReplyAccounting | native/src/supervisor.rs:129-228 | for every id, even duplicated ones: replies written plus jobs active plus a pending shutdown equal the requests that are owed a reply |
| SupervisorProtocol.EveryRequestAnsweredOnce | native/src/supervisor.rs:129-152 | when the loop ends without an error the replies are, id for id, the requests owed one |
| SupervisorProtocol.StepDrains | native/src/supervisor.rs:130-159 | after a shutdown a step adds no job, removes exactly a finished one, and replies only with cancellations until the closing reply |
| SupervisorProtocol.ShutdownDrains | native/src/supervisor.rs:130-159 | over whole runs: only cancellations, then one closing reply under the shutdown id exactly when the job table is empty |
| SupervisorProtocol.ShutdownCompletes | native/src/supervisor.rs:130-152 | without write or input failures the shutdown completes exactly when every active job has finished |
| SupervisorProtocol.OnlyItsCancelMarksAJob | native/src/supervisor.rs:202-237 | a job becomes cancelled only by a cancel that names it, a shutdown or the end of input |
| SupervisorProtocol.LateCancelIsIgnored | native/src/supervisor.rs:202-215 | a cancel that names no active job changes nothing and gets no reply |
| SupervisorProtocol.CancelledJobIsAnsweredCancelled | native/src/supervisor.rs:350-364 | once marked, a job is answered CANCELLED whatever its launcher produced and however long that takes |
| SupervisorProtocol.UnmarkedJobIsAnsweredAsLaunched | native/src/supervisor.rs:350-388 | over any run, a job that no cancel, shutdown or end of input marked gets exactly one reply, which is its result if that fits a frame, PROTOCOL_ERROR if not, the launcher's error, or INTERNAL_ERROR without output |
| SupervisorProtocol.CancelMarksItsJob | native/src/supervisor.rs:202-215 | a cancel that arrives while its job runs marks that job and no other, and gets no reply |
| SupervisorProtocol.JobStartsIff | native/src/supervisor.rs:239-279 | exactly which launches start: readable payload and cgroups, an admitted request with the launcher's overhead, room on disk for the workspace, a spawned launcher; the job then holds exactly those two reservations |
| SupervisorProtocol.RefusalCode | native/src/supervisor.rs:239-279 | the error of a launch that does not start is that of the first thing that goes wrong |
| SupervisorProtocol.RunRequestOutcome | native/src/supervisor.rs:174-188 | a run request before a shutdown either starts its job without a reply, or changes nothing and gets one reply whose error says why |
| SupervisorProtocol.PlainRequestOutcome | native/src/supervisor.rs:156-200 | the answers to health, malformed cancels, shutdown and unknown requests, and what these leave unchanged |
| SupervisorProtocol.InputEndOutcome | native/src/supervisor.rs:142-146 | the end of input marks every job and ends the loop once none is left |
| SupervisorProtocol.StartedJobNeverOvercommits | native/src/supervisor.rs:248-258 | every job the supervisor starts satisfies the no-overcommit guarantee at every ancestor, because the overhead makes its request positive |
| NativeSupervisor.Supervisor.Respond | native/src/supervisor.rs:390-399 | appends exactly one reply, or ends the loop |
| NativeSupervisor.Supervisor.CancelEvery | native/src/supervisor.rs:230-237 | the loop over the table marks every job and changes nothing else |
| NativeSupervisor.Supervisor.Cancel | native/src/supervisor.rs:202-228 | takes the cancel step: marks the named job, or replies to a malformed cancel unless its id is active |
| NativeSupervisor.Supervisor.StartActiveJob | native/src/supervisor.rs:239-279 | takes the start step and, on every failing path, returns every reservation made on the way |
| NativeSupervisor.Supervisor.RunRequest | native/src/supervisor.rs:174-188 | takes the run step: refuses duplicates and a full table, otherwise starts the job or replies with its error |
| NativeSupervisor.Supervisor.HandleRequest | native/src/supervisor.rs:156-200 | takes the request step, including the refusal of everything after a shutdown |
| NativeSupervisor.Supervisor.FinishJob | native/src/supervisor.rs:350-388 | takes the finish step, whose reply `UnmarkedJobIsAnsweredAsLaunched` states: releases both reservations, writes one reply, and ignores unknown ids |
| NativeSupervisor.Supervisor.HandleEvent | native/src/supervisor.rs:141-150 | takes the step of any event |
| NativeSupervisor.Supervisor.CheckExit | native/src/supervisor.rs:131-136 | the checks at the head of the loop: the closing reply after a drained shutdown, or the end of a drained input |
| NativeSupervisor.Supervisor.RunLoop | native/src/supervisor.rs:129-152 | the loop is the run of the state machine on the same events, so every theorem about runs is about it |
| ClientProtocol.ClientStepKeepsInvariant | src/supervisor/client.ts:48-147 | every event keeps: sent ids increase and are never reused, and a request is pending or settled, never both |
| ClientProtocol.SettledOnce | src/supervisor/client.ts:112-147 | a settled promise never settles again or changes, in any run within the range of exact ids |
| ClientProtocol.AbortSettlesNothing | src/supervisor/client.ts:59-79 | an abort after sending settles no promise by itself |
| ClientProtocol.AskSendsItsRequest | src/supervisor/client.ts:48-97 | a request to an open client takes the next id and is sent once, or fails at once |
| ClientProtocol.AbortSendsItsCancel | src/supervisor/client.ts:59-79 | an abort of a listening request sends exactly one message more, a cancel that names it under an id above all before, and starts its timer; a transport that refuses it closes the client |
| ClientProtocol.ClientStepKeepsAborts | src/supervisor/client.ts:59-79 | every event keeps: while the client is open each aborted request has one cancel sent, behind itself, and a running timer until it settles |
| ClientProtocol.GraceExpiryCloses | src/supervisor/client.ts:75-78 | the expired timer of an aborted request that has not settled closes an open client, and that of a settled one does nothing |
| ClientProtocol.WhatSettles | src/supervisor/client.ts:99-147 | a pending promise settles exactly by its own reply on an open client, by the loss of the transport, or by a completed close |
| ClientProtocol.IdsStayApartIff | src/supervisor/client.ts:56 | a request keeps ids apart exactly while the next id is below 2 to the 53rd |
| ClientProtocol.IdsRepeat | src/supervisor/client.ts:56 | from there on two requests are sent under one id |
| NodeClient.SupervisorClient.Request | src/supervisor/client.ts:48-97 | takes the request step, and rejects exactly on a closed client or a signal that has fired |
| NodeClient.SupervisorClient.OnAbort | src/supervisor/client.ts:59-79 | takes the abort step, which `AbortSendsItsCancel` describes: a separate cancel request, or retirement when it cannot be sent |
| NodeClient.SupervisorClient.Dispatch | src/supervisor/client.ts:44-147 | the handler of any event takes its step and keeps the invariant |
| NodeClient.SupervisorClient.Drive | src/supervisor/client.ts:32-148 | over a whole run the object is the state machine, so the theorems about runs are about it |
| NodeClient.SupervisorClient.OnGraceExpired | src/supervisor/client.ts:75-77 | retires the client only while the request is still pending |
| NodeClient.SupervisorClient.CloseTransport | src/supervisor/client.ts:99-110 | closes once and leaves the pending requests to the completed close |
| NodeClient.SupervisorClient.HandleMessage | src/supervisor/client.ts:112-129 | settles exactly the pending request the reply names, and nothing on a closed client |
| NodeClient.SupervisorClient.HandleClose | src/supervisor/client.ts:131-139 | rejects every pending request when the transport is lost |
| NodeClient.SupervisorClient.RejectEveryPending | src/supervisor/client.ts:141-147 | the loop rejects every pending request and empties the table |
| Delivery.AdvanceIsSafe | native/src/supervisor.rs:129-200 | every move of client, supervisor or channel keeps the joint invariant |
| Delivery.EveryRunIsSafe | src/supervisor/client.ts:48-147 | so it holds in every reachable state of the joined system |
| Delivery.ExactlyOncePlace | src/supervisor/client.ts:48-129 | while both sides run, a pending id is in exactly one of the request channel, the job table and the response channel, and no other request or job id is anywhere |
| Delivery.QuietMeansSettled | src/supervisor/client.ts:112-129 | once the channels and the job table are empty every request has settled |
| Delivery.SettledWithOwnResult | native/src/supervisor.rs:365-388 | a promise that settles with a result got the result of the very job it asked for |
| Delivery.OnlyAbortedJobsAreCancelled | native/src/supervisor.rs:202-215 | while the input is open only jobs whose caller aborted are marked: a late cancel never hits a later job |
| Delivery.CancelledOnlyIfAbortedOrReported | native/src/supervisor.rs:360-384 | cancel precision end to end: while the input is open, a request nobody aborted settles as CANCELLED only if its own launcher reported that |
| Delivery.AbortReachesItsJob | src/supervisor/client.ts:59-79 | in every reachable joint state: while the client has not closed, an aborted request has exactly one cancel among the messages sent, behind itself, and once that has arrived its job is marked if it still runs |
| Delivery.SettledAsLaunched | native/src/supervisor.rs:365-388 | end to end: once every reply is delivered, a request that nobody aborted has settled with the very result its launcher left if that fits, and with that launcher's error otherwise |
| Delivery.SettledCancelled | native/src/supervisor.rs:360-364 | end to end: a request whose job was marked when its launcher left has settled as CANCELLED, whatever that left |
| Delivery.RequestIsServed | src/supervisor/client.ts:48-129 | from every reachable state in which both sides run and nothing is under way, a request that can start and whose launcher reports a result settles with it in four moves |
| OutputBudget.StepKeepsInvariant | native/src/job.rs:353-396 | each load, compare-and-swap (successful or not), append, flag swap and wake of either reader keeps the joint invariant |
| OutputBudget.EveryRunKeepsInvariant | native/src/job.rs:353-396 | for every interleaving of the two readers |
| OutputBudget.BudgetIsConserved | native/src/job.rs:381-396 | bytes kept or claimed plus the remaining budget equal the limit, each output is a prefix of what was read, and at most one write of a wake byte is attempted |
| OutputBudget.OverflowIsExact | native/src/job.rs:365-377 | when both streams have ended, overflow is set exactly when the readers together read more than the limit, they keep the smaller of the two amounts, and one write of a wake byte was attempted exactly then |
| OutputBudget.StreamsCanBeRead | native/src/job.rs:353-396 | no reader is ever stuck: from every reachable state in which both run, and whatever their streams still bring, a run takes both to the end with exactly those bytes read |
| OutputBudget.Budget.ClaimOutputBytes | native/src/job.rs:381-396 | the compare-and-swap loop, whatever other threads do between its attempts and however often the weak exchange fails: it takes the smaller of the request and the budget of one instant, and exactly that much, off the budget |
| Framing.SplitThenJoin | src/supervisor/protocol.ts:31-66 | a stream is the join of its frames and its unterminated rest |
| Framing.JoinThenSplit | src/supervisor/protocol.ts:11-20 | and that decomposition is the only one |
| Framing.DecodeContinues | src/supervisor/protocol.ts:31-66 | decoding goes on from the pending tail of an accepted prefix |
| Framing.RaiseIsFinal | src/supervisor/protocol.ts:39-62 | a stream that raised raises however it goes on |
| Framing.EmptyFrameIsSkipped | src/supervisor/protocol.ts:31-66 | an empty frame changes nothing, whatever the parser would make of it |
| Framing.ChunkingDoesNotMatter | src/supervisor/protocol.ts:22-66 | pushing chunk after chunk gives what plain split-on-newline gives of the whole |
| Framing.TwoChunkingsAgree | src/supervisor/protocol.ts:22-66 | two chunkings of the same bytes deliver the same messages and tail, or both raise |
| Framing.FrameDecoder.CompleteFrame | src/supervisor/protocol.ts:37-53 | completes a frame from the kept fragments and raises exactly on an oversized or malformed one |
| Framing.FrameDecoder.KeepFragment | src/supervisor/protocol.ts:57-64 | keeps the unterminated end exactly while it is within the bound |
| Framing.FrameDecoder.Push | src/supervisor/protocol.ts:31-66 | one push is the decoding of pending bytes and chunk: same messages, same tail, or a raise |
| FrameReading.FrameReader.ReadBoundedFrame | native/src/supervisor.rs:553-575 | for any sizes of the buffered pieces: the first segment of the remaining input, an oversized error exactly when it exceeds 1 MiB, a final unterminated segment at the end, or the I/O error |
| FrameReading.FrameReader.ReadRequests | native/src/supervisor.rs:540-551 | the reader thread reports exactly the requests of the frames in order, up to the first error, the end, or the last event anybody takes |
| FrameReading.EventsByReading | native/src/supervisor.rs:540-551 | reading frame by frame hears the events of the whole input |
| Encoding.Encode | native/src/protocol.rs:66-73 | refuses exactly bodies over 1 MiB and otherwise gives the wire form of the one body |
| Encoding.PrefixSplits | src/supervisor/protocol.ts:11-20 | any prefix of the wire is some complete bodies and a piece of the next one |
| Encoding.RequestsArrive | native/src/protocol.rs:50-64 | of any prefix of the sent bytes the supervisor hears the complete requests in order and never a bound error |
| Encoding.AllRequestsArrive | native/src/protocol.rs:50-64 | when everything arrived it hears every request and then the end of the input |
| Encoding.FirstBadFrameEnds | native/src/protocol.rs:50-64 | the first frame that is too long, no JSON envelope or of another version ends the input with a protocol error; all before it are heard and nothing after |
| Encoding.ResponsesArrive | native/src/protocol.rs:66-73 | of any prefix of the responses, cut into any chunks, the Node decoder delivers the complete ones in order; all of them once everything arrived |
| Encoding.ReadersAgreeIffNoEmptyFrame | src/supervisor/protocol.ts:36-56 | on a stream that ends with a newline the supervisor hears exactly the messages the Node decoder delivers, and the end, if and only if the decoder delivers and no frame is empty |
| Encoding.EmptyLineDivides | native/src/supervisor.rs:540-575 | an empty line delivers nothing on the Node side and is a protocol error on the other |
| Encoding.JobSuccessFrame | native/src/supervisor.rs:470-475 | a result that exceeds the frame bound is answered by its error instead, so that it cannot stop the supervisor |
| Transporting.ChildProcessTransport.Send | src/supervisor/transport.ts:140-151 | the four outcomes and their exact conditions; an accepted body joins the queue and its bytes the count, a refused one changes nothing |
| Transporting.ChildProcessTransport.WriteNext | src/supervisor/transport.ts:202-211 | hands the oldest frame to the pipe |
| Transporting.ChildProcessTransport.FlushOutbound | src/supervisor/transport.ts:202-211 | writes until the pipe pushes back, nothing is left or the transport closed, in order and without losing a frame |
| Transporting.ChildProcessTransport.WriteDone | src/supervisor/transport.ts:206-209 | a write callback gives back exactly its frame's bytes; an error stops all writing |
| Transporting.ChildProcessTransport.HandleStdinFailure | src/supervisor/transport.ts:213-222 | empties the queue, refuses everything from then on, and ends stdin |
| Transporting.ChildProcessTransport.HandleClose | src/supervisor/transport.ts:224-228 | the close listeners run once |
| Transporting.ChildProcessTransport.Finish | src/supervisor/transport.ts:230-241 | finishing closes the transport, once |
| Transporting.ChildProcessTransport.AcceptedRequestsArrive | src/supervisor/transport.ts:140-222 | after any schedule of sends, writes, drains and failures: what has arrived decodes to the first accepted requests in order, and to all written ones once everything arrived |
| SandboxSafety.StepKeepsInv | src/api/sandbox.ts:127-386 | every event keeps the queue, settlement, generation and close invariants |
| SandboxSafety.EveryRunKeepsInv | src/api/sandbox.ts:127-386 | so does every run |
| SandboxSafety.QueueDiscipline | src/api/sandbox.ts:127-212 | at most maxInFlight jobs run; a queue means all slots are taken and the mode is wait; it holds at most maxQueue; jobs start in order of admission; a withdrawn job never starts; each promise settles at most once, exactly when its job was withdrawn or finished |
| SandboxSafety.RunAnswers | src/api/sandbox.ts:127-159 | what `run` answers in every reachable state: unavailable exactly once `close` was called; else cancelled exactly if the signal has fired; else refused exactly if all slots are taken and the mode is reject or the queue is full; else the new job starts at once if a slot is free and stands last in the queue if not |
| SandboxSafety.AbortWithdraws | src/api/sandbox.ts:146-152 | an abort takes a queued job out of its place and settles it, and changes nothing for any other job |
| SandboxSafety.JobStations | src/api/sandbox.ts:225-290 | where each event takes a job: it joins the current supervisor or starts one, asks once that is up, gives up if it could not start, and after a loss is over only when the lost supervisor was asked to close and has |
| SandboxSafety.StartupOutcome | src/api/sandbox.ts:340-357 | a settled startup leaves its supervisor up and current, or failed and discarded |
| SandboxSafety.CloseIsAccepted | src/api/sandbox.ts:169-178 | `close` is accepted once and fires its action at once if nothing runs or waits |
| SandboxSafety.EverythingCanSettle | src/api/sandbox.ts:184-386 | no dead ends: from every reachable state all admitted jobs can still settle, once each, and `close` too if it was called |
| SandboxSafety.PumpFills | src/api/sandbox.ts:184-192 | pumping fills every free slot from the front of the queue |
| SandboxSafety.KeptWithdraw | src/api/sandbox.ts:146-152 | an abort takes one job, and only it, out of the order of admission |
| SandboxSafety.CloseActionFiresWhenIdle | src/api/sandbox.ts:359-370 | the close action has fired, once, exactly when close was called and nothing runs or waits |
| SandboxSafety.NoStartAfterCloseAction | src/api/sandbox.ts:359-385 | once the close action has fired nothing starts, settles or fires again |
| SandboxSafety.CloseReachesEverySupervisor | src/api/sandbox.ts:371-385 | when close settles, every supervisor that ever came up was asked to close, including replaced ones and one whose only caller had left, none is starting, and the current one has closed |
| SandboxSafety.LateFailureKeepsReplacement | src/api/sandbox.ts:266-286 | the current supervisor is only discarded by its own failed startup or its own failed request |
| SandboxSafety.ReplacedSupervisorsFailed | src/api/sandbox.ts:340-357 | every replaced supervisor failed to start or lost a request |
| SandboxSafety.LostJobWaitsForClose | src/api/sandbox.ts:266-286 | a job that lost its supervisor is not over before that supervisor's close has settled, in any run |
| SandboxSafety.RunningIsUnsettled | src/api/sandbox.ts:194-212 | and while it is not over its promise is not settled |
| NodeSandbox.Sandbox.Create | src/api/sandbox.ts:104-121 | a sandbox comes into being, open and empty, exactly for 1 to 64 jobs in flight and at most 10000 queued |
| NodeSandbox.Sandbox.Run | src/api/sandbox.ts:127-159 | takes the run step; its four outcomes and what becomes of the queue and the count of running jobs are stated on the object's fields |
| NodeSandbox.Sandbox.Pump | src/api/sandbox.ts:184-192 | the loop starts exactly the jobs of the pump step |
| NodeSandbox.Sandbox.OnAbort | src/api/sandbox.ts:146-152 | takes the abort step: withdraws a queued job, ignores any other |
| NodeSandbox.Sandbox.Close | src/api/sandbox.ts:169-178 | takes the close step, once |
| NodeSandbox.Sandbox.FinishCloseIfIdle | src/api/sandbox.ts:359-370 | fires the close action exactly when closing, idle and not fired yet |
| NodeSandbox.Sandbox.FinishJob | src/api/sandbox.ts:205-212 | takes the finish step: frees the slot, pumps, checks the close, settles |
| NodeSandbox.Sandbox.GetRequester | src/api/sandbox.ts:340-357 | joins the current generation or starts the next one |
| NodeSandbox.Sandbox.StartupFailed | src/api/sandbox.ts:351-354 | forgets a failed startup unless it was replaced |
| NodeSandbox.Sandbox.RecoverRequester | src/api/sandbox.ts:270-277 | forgets a lost supervisor unless it was replaced |
| ArtifactPaths.PathTree.Add | src/artifacts/workspace.ts:405-424 | accepts exactly a normal path that neither equals, contains nor lies below an earlier one; the two sets stay exactly the files and their ancestors, and disjoint |
| ArtifactPaths.PathTree.AncestorsOf | src/artifacts/workspace.ts:413-420 | the slash loop finds exactly the ancestors, and stops exactly if one is a file |
| ArtifactPaths.PathTree.AddAll | src/artifacts/workspace.ts:399-425 | a list of paths is accepted exactly when all are normal and pairwise without conflict |
| ArtifactPaths.OrderDoesNotMatter | src/artifacts/workspace.ts:398-425 | hence in any order |
| ArtifactPaths.AboveIsPrefix | src/artifacts/workspace.ts:136-137 | being a string prefix up to a slash is being a proper prefix of components |
| ArtifactPaths.StagingSucceedsIffNoConflicts | src/artifacts/workspace.ts:134-150 | paths whose components are all names can be laid out, in the given order, as files of one directory tree exactly when no two of them conflict, and then the tree holds exactly them |
| ArtifactPaths.IndexAgreesWithStaging | src/artifacts/workspace.ts:398-425 | for normal paths without a trailing slash the index accepts exactly the lists that can be laid out |
| ArtifactPaths.StagingSucceedsIffTrimmedAgree | src/artifacts/workspace.ts:134-150 | normal paths can be laid out exactly when they do not conflict without their trailing slashes and none is the directory itself |
| ArtifactPaths.TrailingSlashCollides | src/artifacts/workspace.ts:136-146 | an accepted pair that cannot be laid out |
| ArtifactTree.InspectTree | native/src/artifact.rs:335-422 | the work-stack traversal with early exits is the scan of the entries in traversal order, and looks at no more than one entry over the entry limit whatever the tree |
| ArtifactTree.Inspection.Visit | native/src/artifact.rs:359-418 | the counters after one entry, with every rejection in its place |
| ArtifactTree.Inspection.ReadDirectory | native/src/artifact.rs:349-420 | reads one directory, stops exactly where the scan stops, and pushes exactly the directories found |
| ArtifactTree.TreeOrderIsComplete | native/src/artifact.rs:342-420 | the traversal meets every entry of the tree exactly once |
| ArtifactTree.InspectionIsWholeTree | native/src/artifact.rs:335-422 | with one block size the traversal accepts exactly the trees that keep the entry, depth, kind, link, count, size and allocation limits, and returns a permutation of the regular files |
| ArtifactTree.ListingOrderDoesNotMatter | native/src/artifact.rs:350-355 | with one block size, two listings of one tree get the same answer |
| ArtifactTree.AcceptedTreeKeepsLimits | native/src/artifact.rs:335-422 | whatever the block sizes, an accepted tree keeps every limit |
| ArtifactOrder.ScanIffEveryPrefixFits | native/src/artifact.rs:399-418 | for any block sizes: a scan accepts exactly if the counts keep their limits and every prefix fits the allowance it has earned |
| ArtifactOrder.InspectedIffEveryPrefixFits | native/src/artifact.rs:335-422 | the same for the traversal of a tree |
| ArtifactOrder.SomeOrderIffWhole | native/src/artifact.rs:407-418 | some order of a list of entries is accepted exactly if the whole keeps the limits |
| ArtifactOrder.EveryOrderIffOrderFree | native/src/artifact.rs:407-418 | every order of a list of entries is accepted exactly if, besides the counts, all files of no larger block overhead fit each file's own allowance |
| ArtifactOrder.OrderDecidesIff | native/src/artifact.rs:407-418 | over all orders of a list of entries, the order decides exactly for the lists between the two |
| ArtifactOrder.OrderFreeTreeIsAccepted | native/src/artifact.rs:350-355 | a tree that keeps the order-free limits is accepted however its directories are listed |
| ArtifactOrder.DirectoryListingDecidesIff | native/src/artifact.rs:350-355 | for the files of one directory both conditions are exact: some listing is accepted, every listing is accepted |
| ArtifactOrder.MixedBlockSizesDependOnOrder | native/src/artifact.rs:407-418 | two files on blocks of 512 and 65536 bytes, accepted in one order and refused in the other |
| ArtifactListings.EveryListingIffWorstFits | native/src/artifact.rs:335-422 | nested trees: every way of listing the directories is accepted exactly if the counts hold and, for the block overhead of each file, the allowance covers the worst case, which is the directory's own files of no larger overhead and, if it has no others, its wholly low subtrees and the most that any other subtree can bring forward |
| ArtifactListings.ListingDecidesIff | native/src/artifact.rs:350-355 | a tree accepted as it is listed is refused in some other listing exactly if the worst case does not fit |
| ArtifactListings.WorstListing | native/src/artifact.rs:348-385 | the worst case is reached: some listing shows exactly that much before the first larger file |
| ArtifactListings.TraversalReach | native/src/artifact.rs:348-385 | and no listing shows more |
| ArtifactListings.RelistedItems | native/src/artifact.rs:350-355 | listings of one tree have the same entries |
| ArtifactListings.DepthSettlesTheOrder | native/src/artifact.rs:407-418 | a nested tree that fails the condition on orders and is accepted in every listing |
| ArtifactTree.ValidateDeclaredOutputs | native/src/artifact.rs:169-248 | the loop with its checked sum, the inspection and the file count together accept exactly distinct, safe outputs that share one positive maximum within the file limit and whose number times that maximum is within the byte limit, in a directory that the inspection for empty files accepts and that holds as many files as were declared |
| ArtifactPlanning.PlanInputs | src/artifacts/workspace.ts:75-87 | accepts exactly inputs within the count, with one source each and acceptable targets |
| ArtifactPlanning.PlanOutputs | src/artifacts/workspace.ts:78-118 | the loop accepts exactly outputs within the count, with one valid maximum in common whose multiple fits the byte limit, and acceptable paths; the plan pairs each path with that maximum, in order |
| ArtifactPlanning.MaximumMeans | src/artifacts/workspace.ts:96-99 | an output's maximum is the one given, or else that of every file, and only a positive one within that will do |
| ArtifactPlanning.PlannedOutputsAreValidated | native/src/artifact.rs:169-248 | what the client planned is staged and then passes the supervisor's validation, on any listing of the staged tree, exactly if every path is within 1024 bytes, has no slash at its end and at most 32 directories, and outputs plus distinct directories are within the entry limit |
| ArtifactPlanning.DeclarationsAgree | native/src/artifact.rs:174-230 | counts, maxima, totals and duplicates that the client accepts never fail the supervisor's loop: only the length in bytes, the directory itself and what is on disk can |
| ArtifactPlanning.FoundIffStaged | native/src/artifact.rs:212-222 | in the staged tree the supervisor finds an empty file at a path exactly if it was staged there and the path has no slash at its end |
| StagedTrees.StagedTreeInspectedIff | native/src/artifact.rs:335-422 | the inspection accepts a staged tree exactly if files and directories are within the entry limit, files within the file limit, and no directory is too deep, and it returns as many files as were staged |
| StagedTrees.StagedCounts | src/artifacts/workspace.ts:134-150 | staging makes one file per path and one directory per distinct parent in the index |
| StagedTrees.StagingHasListing | src/artifacts/workspace.ts:134-150 | every tree that staging can leave has a listing |
| ArtifactPlanning.SamePathOnBothSides | native/src/artifact.rs:183-191 | the two path checks differ only in the length in bytes and the directory itself |
| ArtifactPlanning.TheDirectoryItselfIsPlanned | src/artifacts/workspace.ts:427-445 | the client accepts the directory itself, the supervisor does not |
| Handshake.StepKeepsInv | native/src/linux/clone.rs:83-278 | every step of child, parent, kernel or deadline keeps what a byte in a pipe proves |
| Handshake.EveryRunKeepsInv | native/src/linux/clone.rs:83-278 | so does every interleaving |
| Handshake.ChildIsMappedBeforeItGoesOn | native/src/linux/clone.rs:144-153 | the child gets past its wait only with both maps written and setgroups dealt with |
| Handshake.OnlyArmedChildrenAreMapped | native/src/linux/clone.rs:88-94 | the parent maps only a child whose death signal is set |
| Handshake.SupervisedChildIsHardened | native/src/job.rs:93-125 | the parent supervises, and the guest runs, only after hardening and mapping |
| Handshake.ChildIsReapedOnce | native/src/linux/clone.rs:207-231 | however the parent leaves, the child was reaped exactly once unless a wait itself failed, and no wait followed the successful one |
| Handshake.KilledBeforeWaitedFor | native/src/linux/clone.rs:207-216 | before the parent waits for the end of a child it has given up it sent the kill, or failed to |
| Handshake.ChildIsNeverLeftWaiting | native/src/linux/clone.rs:144-153 | a child that waits for its mapping has a parent that may still write it, that is about to kill it or has, or whose last wait failed: then the child sees the end of the pipe |
| Handshake.SetupCanComplete | native/src/job.rs:93-125 | from every reachable state in which the child lives and the launcher has not given up, at most 15 successful steps make the guest run under supervision |
| Handshake.ReadyIsSeen | native/src/linux/clone.rs:270-272 | a launcher that waits for readiness supervises once it finds the byte |
| Handshake.ChildFails | native/src/job.rs:93-106 | a step of the child that fails is its last one and earns it nothing |
| Handshake.ChildWaitsForItsByte | native/src/linux/clone.rs:144-153 | the child waits as long as the release byte may still come, takes it if it is there, and dies without it |
| Handshake.SetupFails | native/src/linux/clone.rs:123-141 | a step of the launcher's setup that fails makes it drop the child and claims nothing; only a missing setgroups file and interrupted polls are tolerated |
| Handshake.SetgroupsIsDealtWith | native/src/linux/clone.rs:133-137 | a kernel without the setgroups file is as good as one that denies it |
| Handshake.ParentPolls | native/src/linux/clone.rs:250-276 | polling ends with a byte, the death of the child or the end of its pipe, and not before |
| Handshake.ParentWaits | native/src/linux/clone.rs:167-200 | each wait reaps a dead child, fails, or leaves everything as it is |
| Handshake.ParentStops | native/src/job.rs:257-276 | deadline and overflow lead to the kill of the child, the kill of its group and the wait, any failure to dropping the child |
| Handshake.NoEndsLeftOpen | native/src/linux/clone.rs:83-153 | in every reachable state whoever is gone holds no end of a pipe, so no byte is written to a dead child and no announcement to a launcher that left |
| Handshake.DeadChildIsReaped | native/src/linux/clone.rs:233-278 | wherever the launcher is when its child dies, at most eight steps of its own bring it to its end with the child reaped exactly once, unless a wait has failed before |
| Handshake.GuestMayStartAfterTheDeadline | native/src/job.rs:110-114 | a run in which the guest starts after the deadline has passed and the kill was sent |
| Handshake.GuestAfterGivingUpIff | native/src/job.rs:93-125 | once the launcher has given up, a run with a guest exists exactly if the child lives and is past its wait or finds the release byte in the pipe: a launcher that gives up before it wrote that byte never sees a guest |
| Handshake.GuestAfterLeavingIff | native/src/job.rs:93-125 | once the launcher has left, a run with a guest exists exactly if the child is about to execute or is the guest |
| Handshake.UnsupervisedGuestIsContained | native/src/job.rs:93-125 | every guest is mapped, hardened and tied to its launcher, which leaves it alive only if a wait failed |
| ChildReaping.RunningChild.TryWait | native/src/linux/clone.rs:167-183 | reports an exit exactly when it reaped the child; an interruption is no answer |
| ChildReaping.RunningChild.Wait | native/src/linux/clone.rs:185-200 | gives the first final answer of the kernel, through any interruptions, and kills only if that is an error |
| ChildReaping.RunningChild.Drop | native/src/linux/clone.rs:207-216 | does nothing once reaped; otherwise kills once and reaps at most once |
| ChildReaping.RunningChild.Reap | native/src/linux/clone.rs:218-231 | waits through interruptions and ends at the first exit or error |
| ChildReaping.SuperviseChild | native/src/job.rs:252-281 | the monitor loop: in the first turn that finds the child alive and sees bad outputs, the deadline or an overflow it sends a kill before it waits again, exactly one if there is a result; if the child exits first nothing is killed; the ending is that of the lemmas below, and on every way out the child was reaped at most once, exactly once if there is a result |
| ChildReaping.ReasonEndsSupervision | native/src/job.rs:262-276 | such a turn ends the supervision with the next final answer if both kills succeed, and with an error otherwise; timed out exactly if that turn saw the deadline and no bad outputs, bad outputs exactly if it saw those |
| ChildReaping.ExitEndsSupervision | native/src/job.rs:252-255 | without such a turn the child's own exit is reported with neither flag |
| ChildReaping.FailureEndsSupervision | native/src/job.rs:252-281 | a look or a poll that fails ends it with an error |
| ChildReaping.EndingIsTheChildsOwn | native/src/job.rs:252-281 | the status reported is the child's own; timeout and bad outputs are reported only if a turn saw them, and never both |
| Identifiers.OwnerRoundTrip | native/src/supervisor.rs:520-526 | the owner of a generated job identifier is read back from it |
| Identifiers.OwnedIff | native/src/supervisor.rs:520-526 | exactly which names have an owner: `job-` and three numbers between dashes, the first within 32 bits |
| Identifiers.ParsesIff | native/src/supervisor.rs:520-526 | exactly digits parse as a number, with at most one plus sign in front and only up to the bound |
| Identifiers.JobIdIsInjective | native/src/supervisor.rs:243-244 | different process, start time or request give different identifiers |
| Identifiers.JobIdIsValid | native/src/linux/cgroup.rs:200-212 | every generated identifier has at most 56 characters and passes the check |
| Identifiers.StagingRoundTrip | native/src/linux/mount.rs:282-307 | a staging directory, whose random suffix has no dash, maps back to exactly its job |
| Identifiers.StartTimeOf | native/src/supervisor.rs:533-538 | field 22 is found whatever characters the command name holds |
| Identifiers.StaleIffOwnerGone | native/src/supervisor.rs:516-531 | a job is stale exactly when its owner's process number is free or was started at another time, or the record of the living owner cannot be read as text; so a live owner with a readable record never loses a job |

## Left out

- OutputBudget.StepKeepsInvariant: models `read_stream` on values, one atomic access per step, because the readers interleave; each atomic is taken as sequentially consistent.
- OutputBudget.Budget.ClaimOutputBytes: the other threads are a finite list of interferences, after which the loop meets no more.
- ChildReaping.SuperviseChild: the monitor sees finitely many turns, and a wait that the kernel answers no more fails.
- SupervisorProtocol.ReserveWorkspace: the compare-exchange loop is one step, since only the supervisor's own thread reserves.
- Delivery.EveryRunIsSafe: requests and aborts take an id below 2 to the 53rd, and errors of starting a job are not reported as cancellations, as none of the code's are.
- NativeSupervisor.Supervisor.Cancel: the kill signal that goes with each mark is not part of the state, and whether it can be sent changes nothing but a log line.
- NativeSupervisor.Supervisor.Respond: a reply that cannot be encoded and one that cannot be written are the same failure, as both end the loop.
- Handshake.ChildIsReapedOnce: the death of the launcher process itself is not a step; its children then die by their death signal.
- ArtifactTree.InspectTree: directories and `lstat` are assumed readable and the tree fixed while it is inspected.
- ArtifactPaths.PathTree.Add: `path.posix.normalize` is a parameter; staging and the comparison with the supervisor assume of it that what it leaves as it is has no empty component except a trailing one, a dot only as `.` or `./`, and steps upwards only in front.
- System calls and kernel behaviour: only their success, failure or byte-transfer outcomes appear.
- ArtifactPlanning.PlannedOutputsAreValidated: the staged tree is unchanged when the supervisor reads it, empty files occupy no blocks and share one block size, and limits of the file system on names and space do not fail a step.
- ArtifactListings.EveryListingIffWorstFits: when *some* listing of a nested tree is accepted has only its necessary condition, that the tree as a whole keeps the limits, and the exact condition per listing; deciding it means searching the order in which subtrees raise the allowance.
- JSON, base64 and SHA-256: a parser is an arbitrary partial function on bytes.
- Real time: timeouts, grace timers and deadlines may fire at any moment.
- Floating-point CPU quotas: `cpu_millis` is a given number.
- Inbound validation of parsed responses, `handleData`, and the SIGTERM and SIGKILL timers of the transport: thin glue around the decoder and the events modelled.
- `prepareJob` and `withWorkspace` of the Node sandbox: validation of requests, and a free-space reservation that repeats the supervisor's.
- Starting and reaping launcher processes in `spawn_launcher`, the cleanup of cgroups, and the supervisor's destructor: process plumbing without arithmetic or protocol state.
- What `supervise_child` collects after the exit of the guest, mount layout, capabilities, environment checks, policy layering and registries: straight-line checks that would only add easy members.
- Streaming and hashing of artifact bytes: file I/O.
