# Buran, verified

A Dafny 4.11 model of Buran, an HTTP application server whose router hands requests to pools of worker processes, and
proofs of what the router and the workers rely on each other for. `dafny verify dfyconfig.toml` checks everything.

The project follows the program:

- **The worker pool, both ends.** `pool_state.dfy` is the pool of one application as a step system: submits with their
  wrapping request ids, the queue semaphore, workers joining with a grant, one reader per worker with its private
  claimed set, forwarding, `Done`, `Error` and the drain of a lost reader, dropped response streams, the task_timeout
  sweep, the kill that follows it and the filling of slots. `pool_books.dfy`, `pool_permits.dfy`, `pool_demux.dfy`,
  `pool_sweep.dfy` and `pool_kill.dfy` prove what every step and every run keeps, `pool_runs.dfy` has the runs in
  which something breaks; `pool.dfy` holds the same state in an object whose methods, loops included, refine the
  steps. `blocking_worker.dfy` is the blocking SDK with its `Responder`, `echo.dfy` the concurrent reference worker.
  `compose.dfy` joins the ends: what a handler sends is what the client's channel receives; `exchange.dfy` has a run
  of both ends for every handler; `delivery.dfy` goes on to the HTTP client, who recovers it from whichever framing it
  gets, and `upload.dfy` is the way of a request body from the socket to the handler, and `echo_wire.dfy` sorts the
  interleaved wire of the concurrent worker by request, on to the clients' channels.
- **Codecs and framing.** `frame.dfy` (the 16-byte frame header and the stream of frames), `request.dfy` (the flat
  request encoding), `websocket.dfy` (the RFC 6455 codec), `websocket_refusals.dfy` (what it refuses), `utf8.dfy`
  (what text is), `http_request.dfy` (requests on a keep-alive connection) and `http_response.dfy` (content-length or
  chunked responses). All are read from streams that arrive in pieces of any size.
- **Transformations.** `config.dfy` and `validate.dfy` (lifting of inline applications and the checks after it),
  `routes.dfy` (compiled actions and the walk of at most 16 hops), `uri.dfy` (path normalisation), `date.dfy` (the
  civil calendar behind the date header) and `spawn.dfy` (kill by token across pid reuse).

Runs are finite sequences of actions of any interleaving; an action that is not enabled changes nothing. Time is a
number that `Tick` advances. Two assumptions on the environment of the pool are named and used explicitly (`Fair`): a
worker claims only ids whose datagram has been sent, and the id counter does not come round to an id that a live
submit or response stream still names. The second is proved, not assumed, below 2^32 - 1 submits. `SmallRun` says that
the queue limit plus the grants of live workers fit 32 bits.

What the proofs found about the code:

- A send that fails after a worker has claimed the request all the same takes the claimed entry away and leaves the
  reader's private set ahead of the shared map (`FailedSendIsReached` is a run of five actions); every other step
  keeps the two equal (`StepKeepsBooks`).
- `confirm_and_kill` looks a candidate up again by slot number and kills by the token the sweep saw. A slot is filled
  again under its number only if its worker was up for less than `HEALTHY_UPTIME`. So in every run each flagged
  worker's own token is killed if and only if task_timeout and grace together reach that uptime
  (`FlagsMeanKillsExactly`): with the code's 10 and 5 seconds, if and only if task_timeout is at least 5 seconds.
  Below that there is a run through a real sweep that flags the next worker of the slot and kills the token of the
  last one (`FlagWithoutKillIsReached`), and the flagged one is never a candidate again and never killed
  (`FlaggedIsNeverKilled`).
- A kill reaches a worker if and only if the live prototype is the one that forked it (`KillReachesExactly`). A worker
  that outlives its prototype is out of reach of the next one (`SurvivorIsOutOfReach`).
- A dropped response stream removes the entry at its id without asking whose it is: another request's, exactly when
  the id has come round to it and it is unclaimed (`DropTakesAnotherEntry`; `WrappedIdIsReached` goes round all 2^32
  ids).
- The kill threshold is half the grant rounded down, at least one; the comment above it speaks of a majority.
- A frame of 4 GiB or more announces its length modulo 2^32. The reader hears only frames that were written exactly if
  the first frame over its limit still announces a length over the limit (`WireIsReadExactly`).
- The limit on heads is looked at only while the end is missing. A head is found however it arrives exactly up to one
  byte over 32 KiB, refused however it arrives exactly from more than 40 KiB on, and in between both happen
  (`HeadLimitExactly`, `SameHeadBothWays`).
- The framing of a response asks neither for the method nor for the status. A client that reads no body, after HEAD or
  for a 204 or 304, recovers the content exactly if it is empty and finds the rest where the next response should be
  (`RecoveredExactly`, `HeadFallsOutOfStep`).
- Inline applications are moved into the map before references are checked, so a reference to a name that nothing has
  is accepted if lifting happens to generate that name, and then denotes the inline application
  (`BorrowedNamePasses`). A configuration passes exactly if it is sound as written and each reference is to a named
  application or to a generated name (`PassesExactly`); a reference keeps its meaning exactly if it had one
  (`MeaningKeptExactly`).
- Normalising a path is not idempotent: `/%2541` needs two rounds. It is exactly on canonical paths without an escape
  (`NormalizeAgain`).
- The 16-hop limit loses nothing with at most 16 routes and no rewrites; with 17 routes a walk that ends is reported
  as not found (`SeventeenRoutesAreTooMany`).
- The date header has its fixed form exactly up to the year 9999 (`HeaderReadsBack`).

## Model

| member | source | states |
|---|---|---|
| Frame.FillHeader | crates/buran-ipc/src/frame.rs:131-139 | filling the zeroed header array field by field gives the header's encoding |
| Frame.HeaderRoundTrip | crates/buran-ipc/src/frame.rs:131-152 | a decoded header is the one encoded, whatever follows it |
| Frame.DecodedHeaderDeterminesBytes | crates/buran-ipc/src/frame.rs:82-152 | decoding fails exactly on a kind outside 1..=17, and a decoded header gives back every byte but the reserved two |
| Frame.FramesRoundTrip | crates/buran-router/src/dispatch.rs:1117-1137 | frames written back to back are read back one by one, and reading goes on with what follows |
| Frame.DecodedFramesGrow | crates/buran-router/src/dispatch.rs:1117-1137 | what has been read of a stream never changes as more bytes arrive |
| Frame.ReadUpToOversized | crates/buran-router/src/dispatch.rs:1110-1127 | a wire with a frame over 64 MiB reads as exactly the frames before the first such one, if its announced length has not wrapped round |
| Frame.WireIsReadExactly | crates/buran-router/src/dispatch.rs:1110-1137 | the reader hears only frames that were written if and only if the first one over the limit announces a length over the limit |
| PoolBooks.NextFreeIsFree | crates/buran-router/src/dispatch.rs:446-458 | with fewer than 2^32 ids in use the wrapping loop stops within that many tries plus one, at the first candidate not in use |
| PoolBooks.StepKeepsBooks | crates/buran-router/src/dispatch.rs:490-523 | after every step each reader's claimed set is what the shared map says its worker claimed, within the grant, and every claimer is a live reader |
| PoolBooks.ReaderExitDrains | crates/buran-router/src/dispatch.rs:937-945 | an exiting reader leaves nothing claimed by its worker |
| PoolBooks.FailedSendOfClaimedBreaksBooks | crates/buran-router/src/dispatch.rs:490-510 | the one condition of StepKeepsBooks is exact: a failed send of a claimed request breaks the books |
| PoolPermits.StepKeepsBacked | crates/buran-router/src/dispatch.rs:415-523 | after every fair step a permit stands behind every unclaimed entry, and no entry waiting for its send is claimed |
| PoolPermits.StepKeepsCounted | crates/buran-router/src/dispatch.rs:475-523 | `in_flight` is the size of the pending map after every step |
| PoolPermits.StepKeepsBalanced | crates/buran-router/src/dispatch.rs:415-504 | free, reserved, sending and streaming permits always add up to `queue.max` |
| PoolPermits.PendingWithinBound | crates/buran-router/src/dispatch.rs:415-523 | entries never exceed queue permits plus the grants of live workers |
| PoolPermits.RunKeepsInv | crates/buran-router/src/dispatch.rs:415-945 | all of these hold at every step boundary of every fair run |
| PoolDemux.StepKeepsFaithful | crates/buran-router/src/dispatch.rs:787-945 | one step keeps every channel equal to the translation of its claimer's frames for its id |
| PoolDemux.RunKeepsDemux | crates/buran-router/src/dispatch.rs:787-945 | demultiplexing is projection: in every fair run a channel carries exactly the translation of its claimer's frames for its id between Claim and end, and at most one failure after a lost reader |
| PoolDemux.HearCarries | crates/buran-router/src/dispatch.rs:799-935 | a frame other than Claim reaches the one channel of the request it names, if its worker has claimed it, as one event of its own kind: headers with the status limited to 100..599, chunk, flush, WebSocket message with its opcode, end or failure; no other channel gets anything, and only Done and Error free the entry |
| PoolDemux.RunCarries | crates/buran-router/src/dispatch.rs:787-945 | in every fair run a channel holds, frame by frame behind its Claim, what each of its claimer's frames for the id stands for by that table, and at most one failure after a lost reader |
| PoolSweep.EntriesAreDistinct | crates/buran-router/src/dispatch.rs:446-474 | no two pending entries share an event channel |
| PoolSweep.RunKeepsTimed | crates/buran-router/src/dispatch.rs:545-567 | in every fair run a request is aborted at most once, and not before its budget from the recorded first claim |
| PoolSweep.CandidateRanOver | crates/buran-router/src/dispatch.rs:545-582 | a kill candidate has a claimed task that has run for the budget and the grace |
| PoolState.CandidatesByNumber | crates/buran-router/src/dispatch.rs:570-580 | by number: a kill candidate is a live, unflagged worker with d >= 1 tasks aborted at least `grace` ago by the clock and a grant of at most 2 d + 1 |
| PoolKill.CandidateIsHealthy | crates/buran-router/src/dispatch.rs:545-582 | a kill candidate's worker has been up for the budget and the grace |
| PoolKill.RunKillsForCause | crates/buran-router/src/dispatch.rs:545-626 | in every run, fair or not, each kill has its cause: a Claim beyond the worker's grant, or a probe not answered idle after an earlier sweep found that worker, under that token, stuck with half its grant |
| PoolKill.RunKeepsKilled | crates/buran-router/src/dispatch.rs:605-684 | where budget and grace reach the healthy uptime, in every fair run each flagged worker's own token has been killed, and every candidate named is still the worker named or its id is gone for good |
| PoolRuns.FlagsMeanKillsExactly | crates/buran-router/src/dispatch.rs:605-684 | in all fair runs each flagged worker's own token is killed if and only if budget and grace together are no shorter than the healthy uptime |
| PoolRuns.FlagWithoutKillIsReached | crates/buran-router/src/dispatch.rs:605-684 | where they are shorter, a fair run, for any respawn delay, in which a real candidate's slot is filled again before the confirm, which flags the new worker and kills the old token |
| PoolRuns.FlaggedIsNeverKilled | crates/buran-router/src/dispatch.rs:570-626 | such a worker is never a candidate again and never killed, however long it stays |
| PoolRuns.FailedSendIsReached | crates/buran-router/src/dispatch.rs:490-510 | a run of five actions after which a reader's claimed set and the shared map disagree |
| PoolSweep.ConfirmKillsOnce | crates/buran-router/src/dispatch.rs:617-624 | a second confirm of the same worker kills nothing |
| PoolSweep.RunKeepsOpen | crates/buran-router/src/dispatch.rs:815-900 | every claimed id is an open claim of the stream the reader has heard |
| PoolSweep.HonestWorkerNeverOverClaims | crates/buran-router/src/dispatch.rs:822-841 | a worker whose stream honours its grant never reaches the over-claim branch |
| PoolSweep.StepKeepsGrant | crates/buran-router/src/dispatch.rs:735-769 | once the first handshake has set the pool's grant no later one changes it, and every worker has it |
| PoolSweep.RunKeepsGrant | crates/buran-router/src/dispatch.rs:735-769 | in every run the grant is finite, at least one and within the configured cap, and the same for all workers |
| PoolSweep.PendingWithinGrants | crates/buran-router/src/dispatch.rs:415-523 | so in every fair run entries never exceed `queue.max` plus live workers times that grant |
| PoolSweep.RunKeepsUnwrapped | crates/buran-router/src/dispatch.rs:446-474 | below 2^32 - 1 submits request c has the id c + 1, in every run |
| PoolSweep.UnwrappedRunsAreFair | crates/buran-router/src/dispatch.rs:439-458 | so there no id assumption is needed |
| PoolSweep.DropTakesAnotherEntry | crates/buran-router/src/dispatch.rs:516-523 | a dropped stream removes another request's entry exactly when its id now names an unclaimed one |
| PoolRuns.WrappedIdIsReached | crates/buran-router/src/dispatch.rs:446-523 | a run in which the id counter goes round once while a served request's stream stays open, and the drop of that stream takes the entry of request 2^32 |
| PoolObject.Pool.AllocateId | crates/buran-router/src/dispatch.rs:453-458 | the loop returns the first free id and leaves the counter just past it |
| PoolObject.Pool.Submit | crates/buran-router/src/dispatch.rs:422-475 | the new state is the submit step's |
| PoolObject.Pool.SendFailed | crates/buran-router/src/dispatch.rs:490-510 | the new state is the failed send's |
| PoolObject.Pool.DropStream | crates/buran-router/src/dispatch.rs:1074-1081 | the new state is the drop's: an unclaimed entry goes, a claimed one stays |
| PoolObject.Pool.TakeClaim | crates/buran-router/src/dispatch.rs:842-866 | first writer wins: only an unclaimed entry changes hands |
| PoolObject.Pool.FreeSlot | crates/buran-router/src/dispatch.rs:877-900 | the slot is freed once and its channel gets its last event |
| PoolObject.Pool.Drain | crates/buran-router/src/dispatch.rs:940-945 | one id at a time, in any order, all claimed entries go and every channel with room is told once |
| PoolObject.Pool.ExitReader | crates/buran-router/src/dispatch.rs:937-945 | the new state is the reader-exit step's |
| PoolObject.Pool.Hear | crates/buran-router/src/dispatch.rs:799-935 | one turn of the reader loop is the step for the frame heard; the channel of the request it names, if this worker has claimed it, gets the event of the frame's kind, and no other channel anything |
| PoolObject.TallyOneMore | crates/buran-router/src/dispatch.rs:559-566 | the sweep's tally stays the true count, with a true sample, one task further |
| PoolObject.CandidatesAreOver | crates/buran-router/src/dispatch.rs:570-580 | workers over the threshold by the tally are exactly the kill candidates |
| PoolObject.Pool.MarkOverBudget | crates/buran-router/src/dispatch.rs:549-568 | in any map order the loop marks and lists exactly the tasks over budget and counts the defiant ones of each worker |
| PoolObject.Pool.PickSuspects | crates/buran-router/src/dispatch.rs:570-580 | each live, unflagged worker whose count d by the tally is at least 1 with a grant of at most 2 d + 1 is named once, with its token and a defiant task, and nobody else |
| PoolObject.Pool.SweepDecide | crates/buran-router/src/dispatch.rs:545-582 | one pass is the sweep step: it aborts, once each, exactly the unaborted tasks claimed at least task_timeout ago, and names, once each with token and stuck task, exactly the live, unflagged workers with d >= 1 stuck tasks and a grant of at most 2 d + 1 |
| PoolObject.Pool.ConfirmAndKill | crates/buran-router/src/dispatch.rs:609-626 | the loop is the confirm actions of the candidates named, in order: afterwards exactly those workers are newly flagged that did not answer idle, and their tokens have been killed, in order, where there was no flag before |
| PoolObject.Pool.WorkerUp | crates/buran-router/src/dispatch.rs:659-668 | a worker that has shaken hands takes its slot, with the pool's grant: the first one's lesser of declaration and cap, 1024 for an unbounded one |
| PoolObject.Pool.WorkerGone | crates/buran-router/src/dispatch.rs:668-692 | a slot whose reader is gone is filled again under its id exactly if the uptime was short |
| Request.Parse | crates/buran-ipc/src/request.rs:43-55 | total; an accepted payload holds its whole table and its blob offset |
| Request.SliceAt | crates/buran-ipc/src/request.rs:111-124 | total; a slice lies in the payload behind the table, whatever the table says |
| Request.RoundTrip | crates/buran-ipc/src/request.rs:43-268 | when sizes fit 32 bits the encoding parses, and every accessor and field gives what was set, in order |
| Request.RequestBuilder.Append | crates/buran-ipc/src/request.rs:170-174 | while the blob is below 4 GiB the pair returned locates the data |
| Request.RequestBuilder.Set | crates/buran-ipc/src/request.rs:176-209 | the last value set counts, other slots keep theirs |
| Request.RequestBuilder.AddField | crates/buran-ipc/src/request.rs:221-226 | fields keep their order |
| Request.RequestBuilder.Finish | crates/buran-ipc/src/request.rs:233-268 | the bytes are the encoding of what was set, parse back to it, and a second call gives them again |
| BlockingWorker.PollSays | crates/buran-worker/src/lib.rs:137-181 | polling writes answers to probes and nothing else |
| BlockingWorker.PollExactly | crates/buran-worker/src/lib.rs:137-181 | from an unaborted state polling reads up to the first Abort for this request, or all there is, answers each probe on the way once, in order, with its own id and aux 1, and finds the client gone if and only if there is such an Abort or the router has closed the stream |
| BlockingWorker.RefusedExactly | crates/buran-worker/src/lib.rs:103-130 | after any calls and arrivals a chunk or flush is refused if and only if an Abort for the request or the end of the stream has come by then |
| BlockingWorker.StepSays | crates/buran-worker/src/lib.rs:92-231 | whenever it is drained, a call adds its own frames behind all earlier ones |
| BlockingWorker.CallsTell | crates/buran-worker/src/lib.rs:92-231 | any legal calls give response frames of the request and at most one terminal frame, the last |
| BlockingWorker.BodiesAreAccepted | crates/buran-worker/src/lib.rs:103-118 | the bodies on the wire are the accepted chunks in order |
| BlockingWorker.AllAccepted | crates/buran-worker/src/lib.rs:103-118 | while neither has come the accepted chunks are all chunks sent |
| BlockingWorker.RequestStory | crates/buran-worker/src/lib.rs:317-347 | a request puts Claim, its response frames and exactly one Done or Error on the wire, and leaves nothing buffered |
| BlockingWorker.RequestBodies | crates/buran-worker/src/lib.rs:103-118 | over a whole request too the bodies are the accepted chunks |
| BlockingWorker.RequestIsTidy | crates/buran-worker/src/lib.rs:92-231 | no body frame of a request comes after its End |
| BlockingWorker.PhaseBoundsClaims | crates/buran-worker/src/lib.rs:311-347 | a wire of whole requests has as open claims exactly the one being served |
| BlockingWorker.HandlerHonoursGrant | crates/buran-worker/src/lib.rs:317-341 | while a handler runs, at most its own claim is open on any prefix of the wire |
| BlockingWorker.RunHonoursGrant | crates/buran-worker/src/lib.rs:276-354 | so in every run of the loop, however it ends |
| BlockingWorker.DatagramIsJudged | crates/buran-worker/src/lib.rs:301-325 | a request sent as one datagram is served under its id if it fits 256 KiB and its payload can be read, claimed without being served if it cannot, and dropped if it does not fit; Retire ends the worker, anything else is passed over |
| BlockingWorker.Responder.SendHeaders | crates/buran-worker/src/lib.rs:94-101 | the headers frame is buffered, whole |
| BlockingWorker.Responder.SendBody | crates/buran-worker/src/lib.rs:103-118 | refused exactly if the client was known to be gone, an Abort for the request is unread or the stream is closed; an accepted chunk is buffered behind what was said, and the buffer left below 256 KiB |
| BlockingWorker.Responder.SendFlush | crates/buran-worker/src/lib.rs:123-130 | refused as SendBody is, otherwise a marker behind what was said and everything on the wire |
| BlockingWorker.Responder.PollControl | crates/buran-worker/src/lib.rs:137-181 | the loop reports the client gone exactly if it was, an Abort for this request is unread or the stream is closed, and answers the probes before it, in order, busy |
| BlockingWorker.Responder.Finish | crates/buran-worker/src/lib.rs:195-203 | End if missing, then Done, once |
| BlockingWorker.Responder.FinishNow | crates/buran-worker/src/lib.rs:208-211 | End if missing, and all output on the wire |
| BlockingWorker.Responder.SendError | crates/buran-worker/src/lib.rs:213-220 | the Error frame, and both ends marked |
| BlockingWorker.Responder.ServeRequest | crates/buran-worker/src/lib.rs:317-347 | one request of the loop, from Claim to the last write |
| BlockingWorker.Responder.AnswerIdleControl | crates/buran-worker/src/lib.rs:359-382 | all control frames are consumed, each probe is answered once, in order, with its own id and aux 0, and a closed stream is reported |
| BlockingWorker.Run | crates/buran-worker/src/lib.rs:276-354 | the loop over whatever wakes the worker; its wire is whole frames and honours a grant of one |
| Compose.ChunksAreBodies | crates/buran-router/src/dispatch.rs:867-935 | the reader's translation keeps the bodies |
| Compose.RequestMeans | crates/buran-router/src/dispatch.rs:867-935 | the frames of a whole request become, event by event, what the handler's calls mean: headers with the limited status, the chunks and flushes made while the client stays, the end once, the last end or a failure |
| Compose.HeardIsSent | crates/buran-router/src/dispatch.rs:1117-1137 | whatever part of a wire has arrived reads as a prefix of the frames written, up to the first one over the limit |
| Compose.StretchOf | crates/buran-worker/src/lib.rs:317-347 | the frames of a served request stand on the final wire right behind its Claim |
| Compose.HeardAndWritten | crates/buran-router/src/dispatch.rs:1117-1137 | behind the Claim, what the reader has heard and what the worker wrote begin alike, one being a prefix of the other |
| Compose.EndToEnd | crates/buran-router/src/dispatch.rs:787-945 | in every pool run joined to every worker run the channel of a request has, event by event, a prefix of what its handler's calls mean, all of it once finished; so with the chunks accepted, which are all chunks sent if neither an Abort for the request nor the end of the stream came |
| Compose.HeadersArriveFirst | crates/buran-router/src/dispatch.rs:867-870 | the first event on the channel of a handler that began with its headers carries those headers and that status, limited to 100..599, unless the worker was lost before they were heard |
| Compose.ClaimHasTurn | crates/buran-worker/src/lib.rs:276-354 | every Claim on the worker's wire is the first frame of a turn that served its request or could not read it |
| Compose.EveryClaimDelivers | crates/buran-router/src/dispatch.rs:787-945 | so with nothing assumed of which request a claim is for: every claim heard of a connected worker has the events of the turn that served it, or no chunk and no end if its payload could not be read |
| Compose.BlockingWorkerIsNeverKilledForClaiming | crates/buran-router/src/dispatch.rs:822-841 | the blocking worker never reaches the over-claim branch |
| Exchange.WholeExchange | crates/buran-router/src/dispatch.rs:422-945 | for every handler there is a fair run in which a request is submitted, sent, claimed, served and heard to its end; it finishes, and its channel holds exactly what the handler's calls mean |
| Exchange.PlainAnswerIsLegal | crates/buran-worker/src/lib.rs:92-118 | headers and then any number of chunks are legal calls |
| Exchange.PlainAnswerMeans | crates/buran-worker/src/lib.rs:92-203 | while the client stays they mean the headers, the chunks one by one and the end |
| Delivery.OrderlyIsReceived | crates/buran-router/src/http1.rs:842-1009 | a channel's events, if no chunk comes after the end, are recovered whole from whichever framing they get, exactly if the client reads a body or there is none |
| Delivery.ClientGetsTheBody | crates/buran-router/src/http1.rs:842-1009 | for a request that ended with Done the HTTP client recovers exactly the chunks its handler got accepted, all it sent if the client stayed, if and only if the answer may have a body or there were none: worker wire, arrival in pieces, demultiplexing, channel and framing together |
| Echo.StepKeepsInv | crates/buran-echo/src/worker.rs:122-184 | permits are conserved, open claims are the running tasks, registered handles are theirs |
| Echo.RunHonoursGrant | crates/buran-echo/src/worker.rs:99-193 | in every run, whatever is cancelled or probed when, claims stay within the grant on every prefix of the wire |
| Echo.DrainEndsWithNothingOpen | crates/buran-echo/src/worker.rs:188-193 | the drain can end exactly when every claimed request has its terminal frame |
| Echo.DrainTakesNothing | crates/buran-echo/src/worker.rs:138-192 | a draining worker holds no permit for another request |
| Echo.DrainsExactly | crates/buran-echo/src/worker.rs:122-192 | the worker drains exactly once it has received a Retire or taken its last request, and takes no more than `max_requests` |
| Echo.TakesUpToItsGrant | crates/buran-echo/src/worker.rs:99-184 | a worker that is not draining can take another request exactly while fewer tasks run than the router granted and than 1024, and a datagram that fits is then claimed under its id and has a task of its own |
| Echo.ProbeIsTrue | crates/buran-echo/src/worker.rs:334-360 | a probe is answered once, with its own id: busy only while a task for that request runs, idle only if none is registered |
| Echo.EchoIsNeverKilledForClaiming | crates/buran-router/src/dispatch.rs:822-841 | the reference worker, at the grant it was given, never reaches the over-claim branch |
| Echo.PumpBody | crates/buran-router/src/dispatch.rs:952-968 | the non-empty chunks, then one terminator |
| Echo.ReadBody | crates/buran-echo/src/worker.rs:294-321 | the body gathered up to terminator or total, refused unless exactly total |
| EchoWire.RunKeepsMatch | crates/buran-echo/src/worker.rs:122-184 | in every run with distinct running ids the wire has behind each Claim, up to the request's terminal frame, exactly the frames its own task said, in order, whatever stands between |
| EchoWire.EchoDelivers | crates/buran-router/src/dispatch.rs:787-945 | joined to any fair pool run, the channel of every claim heard has, event by event, what that task means to its client: all of it once finished, a prefix before |
| EchoWire.TasksMean | crates/buran-echo/src/worker.rs:201-261 | the frames of each task become, event by event, what it means: a 200 with its body and end, a failure, or a 101, the messages sent back as they came and an end |
| Echo.StreamedBodyIsExact | crates/buran-echo/src/worker.rs:299-319 | pump and reader together deliver exactly what was fed, for every division; with ReadBody, an upload arrives whole or is known to be cut short |
| Upload.StreamUpload | crates/buran-router/src/http1.rs:1226-1258 | feed, pump and reader together: the handler gets exactly the body and the next request begins right behind it, or the upload is known to be cut short, exactly if the feed fails |
| WebSocket.ParseFrame | crates/buran-router/src/ws.rs:152-211 | every frame cut consumes at least six bytes and keeps its size limit |
| WebSocket.ParseStable | crates/buran-router/src/ws.rs:152-211 | what the front of the stream says never changes as more arrives |
| WebSocket.NextConsumes | crates/buran-router/src/ws.rs:87-131 | each message consumes input |
| WebSocket.DrainSplit | crates/buran-router/src/http1.rs:1111-1146 | draining a stream is draining a part and then the rest |
| WebSocket.WholeStream | crates/buran-router/src/ws.rs:87-131 | a stream fed in any pieces from its beginning gives what it gives at once |
| WebSocket.ArrivalsDoNotMatter | crates/buran-router/src/ws.rs:87-131 | the same messages and the same first error for every division of the stream into arrivals |
| WebSocket.DrainBounded | crates/buran-router/src/ws.rs:87-131 | whatever a client sends, no message and no partial message is over its limit, and text is UTF-8 |
| WebSocket.UnmaskMasked | crates/buran-router/src/ws.rs:203-207 | unmasking inverts masking for every key |
| WebSocket.FrameReadsBack | crates/buran-router/src/ws.rs:152-211 | any frame a client may send, in any length form, reads as itself and leaves what follows |
| WebSocket.ConversationReadsBack | crates/buran-router/src/ws.rs:87-131 | any masks, fragmentation, interleaved control frames, length forms and arrivals give exactly the messages meant |
| Refusals.FrameIsJudged | crates/buran-router/src/ws.rs:152-211 | any frame, with any reserved bits and opcode, masked or not: reserved bits, no mask, a control frame over 125 bytes and a data frame over the limit are refused, in this order and whatever follows; any other is read as it is |
| Refusals.OffenceEndsIt | crates/buran-router/src/ws.rs:87-211 | after any conversation so far, with a message begun or not, the first frame out of order (nested message, stray continuation, fragmented control, reserved opcode, message over the limit, text that is not UTF-8, or a frame refused by itself) ends it with its own error, after exactly the messages before it, however it arrives |
| Refusals.OnlyOffencesEndIt | crates/buran-router/src/ws.rs:87-211 | and no other frame does |
| Utf8.ValidExactly | crates/buran-router/src/ws.rs:135-144 | the check on text passes exactly on the encodings of sequences of Unicode scalar values |
| WebSocket.Decoder.Next | crates/buran-router/src/ws.rs:87-131 | the loop is the specification's next message, new state and rest |
| WebSocket.Decoder.TakeAll | crates/buran-router/src/http1.rs:1111-1146 | the inner loop takes all whole messages up to the client's close, or to the first error |
| WebSocket.Decoder.Tunnel | crates/buran-router/src/http1.rs:1099-1152 | reading chunk by chunk gives the messages of the whole stream up to the client's close, or to the first error |
| WebSocket.TakeFrame | crates/buran-router/src/ws.rs:152-211 | the parser with its in-place unmasking is ParseFrame |
| WebSocket.Unmask | crates/buran-router/src/ws.rs:203-207 | the loop over the payload flips, in every byte, exactly the bits that are set in its key byte |
| WebSocket.ServerFrameReadsBack | crates/buran-router/src/ws.rs:214-230 | a conforming client reads every server frame back, unmasked, whole and in minimal length form |
| WebSocket.CloseReadsBack | crates/buran-router/src/ws.rs:232-237 | a close frame carries its code and reason |
| HttpRequest.FindEndStable | crates/buran-router/src/http1.rs:1277-1279 | an end of head once found stays, a later one lies past what there was |
| HttpRequest.FindEnd | crates/buran-router/src/http1.rs:1277-1279 | the end found is just behind the first place where CR LF CR LF stand, and none is found if and only if they stand nowhere |
| HttpRequest.RequestsExactly | crates/buran-router/src/http1.rs:193-313 | the requests of a stream are those at its front, one behind the other: a head that ends in the first blank line, is read and not refused, and a body as long as it says and within the limit, up to the first that does not keep the connection |
| HttpRequest.ReadHead | crates/buran-router/src/http1.rs:193-228 | the inner loop is the head function of the reads as they came, finds the first blank line in whatever pieces it arrives, and loses no byte |
| HttpRequest.TakeBody | crates/buran-router/src/http1.rs:1206-1220 | exactly the body, from buffer and socket; what is behind it stays |
| HttpRequest.FeedBody | crates/buran-router/src/http1.rs:1226-1258 | the chunks accepted are exactly the body, never a byte beyond it, and a proper prefix of it when the feed fails |
| HttpRequest.ServeOne | crates/buran-router/src/http1.rs:184-313 | one turn serves the first request of what is left, or nothing because there is none, the peer is gone or the head is too large |
| HttpRequest.ServeConnection | crates/buran-router/src/http1.rs:184-506 | for every division into reads the requests served are those of the whole stream, each with a head that ends in CR LF CR LF and holds them nowhere before, and with its own body: all of them, unless the client stalls, the application gives up or the next head is more than one byte over the limit |
| HttpRequest.HeadLimitExactly | crates/buran-router/src/http1.rs:193-228 | a head not yet complete is found in every division of what follows exactly up to 32 KiB and one byte, and refused in every division exactly beyond 40 KiB |
| HttpRequest.SameHeadBothWays | crates/buran-router/src/http1.rs:193-228 | a head of 32 KiB and two bytes with a division in which it is refused and one in which it is found |
| HttpResponse.DechunkAll | crates/buran-router/src/http1.rs:1260-1267 | chunks as written are read off one by one by the grammar of section 7.1 of RFC 9112, empty ones left out |
| HttpResponse.ChunkedReadsBack | crates/buran-router/src/http1.rs:1260-1267 | closed chunks read back as the data however divided |
| HttpResponse.UnclosedIsNoBody | crates/buran-router/src/http1.rs:998-1007 | without the last chunk they are not a body |
| HttpResponse.DecimalReads | crates/buran-router/src/http1.rs:924-924 | the announced length reads back |
| HttpResponse.Buffer | crates/buran-router/src/http1.rs:843-869 | the buffering phase stops at the first flush, past the threshold or at the end, whichever is first |
| HttpResponse.PumpChunks | crates/buran-router/src/http1.rs:956-998 | the streaming loop writes every chunk of the payload once |
| HttpResponse.Respond | crates/buran-router/src/http1.rs:842-1009 | whichever framing is chosen, it carries exactly the payload of a response that ended, and one cut short is a short body with the connection closed, a missing last chunk or a 504; silence closes only a flushed stream in good order |
| HttpResponse.RecoveredExactly | crates/buran-router/src/http1.rs:879-1000 | a response that ended is recovered whole exactly if it may have a body (section 6.3 of RFC 9112) or is empty, and the connection stays in step exactly if it may have a body or goes out empty with its length |
| HttpResponse.HeadFallsOutOfStep | crates/buran-router/src/http1.rs:919-930 | an answer to HEAD with a body leaves the body where the client expects the next response |
| HttpResponse.HeadLines | crates/buran-router/src/http1.rs:881-917 | of the worker's header lines exactly those pass, in their order and as often as they stand there, that are not empty, have before their first colon, in any case of letters, neither content-length, transfer-encoding nor connection nor a name of the configuration, and hold no byte below 32 and no 127; one line for each of the configuration's operations with a value follows, in order |
| HttpResponse.ForwardedMeans | crates/buran-router/src/http1.rs:1269-1295 | the tests on a line's lowered name and bytes are that, letter by letter |
| Uri.PercentDecode | crates/buran-router/src/uri.rs:28-42 | the loop decodes escapes and leaves everything else |
| Uri.EscapeMeans | crates/buran-router/src/uri.rs:28-51 | an escape is a percent sign and two hexadecimal digits of either case, and stands for the byte they spell |
| Uri.DecodeFixes | crates/buran-router/src/uri.rs:28-51 | decoding changes a string exactly when it has an escape, and then shortens it |
| Uri.DecodeEncode | crates/buran-router/src/uri.rs:28-51 | decoding inverts every percent-encoding, whichever bytes it escapes in whichever digits |
| Uri.NormalizePath | crates/buran-router/src/uri.rs:5-26 | the loops over segments and stack compute the normal form |
| Uri.NormalizeIsCanonical | crates/buran-router/src/uri.rs:5-26 | the result starts with a slash and has no empty, `.` or `..` segment but for a trailing slash |
| Uri.ResolvedIsSubsequence | crates/buran-router/src/uri.rs:9-17 | the segments left are a subsequence of the decoded ones |
| Uri.DepthFormula | crates/buran-router/src/uri.rs:9-17 | their number is the final balance of pushes and pops minus the lowest balance of any prefix |
| Uri.ResolveIdempotent | crates/buran-router/src/uri.rs:9-17 | resolving segments twice is resolving them once |
| Uri.NormalizeUndoesEncoding | crates/buran-router/src/uri.rs:5-42 | normalising any percent-encoding of a canonical path gives that path |
| Uri.NormalizeAgain | crates/buran-router/src/uri.rs:5-42 | normalising a canonical path again changes it exactly when it holds an escape |
| Uri.DoublyEncoded | crates/buran-router/src/uri.rs:5-42 | a doubly encoded path shows that normalising is not idempotent |
| HttpDate.EraStarts | crates/buran-router/src/uri.rs:74-76 | the truncating division with its correction is a floor, for negative days too |
| HttpDate.YearOfParts | crates/buran-router/src/uri.rs:77-77 | the year-of-era formula counts the full centuries, cycles and years of a day |
| HttpDate.CivilHasTheDayNumber | crates/buran-router/src/uri.rs:73-84 | the date found is valid and has the day number asked for |
| HttpDate.CivilInvertsDayNumber | crates/buran-router/src/uri.rs:73-84 | the algorithm inverts counting days, for every valid date |
| HttpDate.CivilIsTheCalendar | crates/buran-router/src/uri.rs:73-84 | day zero is 1 January 1970 and each successor is the calendar's next day |
| HttpDate.StampIsRight | crates/buran-router/src/uri.rs:54-70 | the header names the right weekday, and its fields add up to the time given |
| HttpDate.HeaderReadsBack | crates/buran-router/src/uri.rs:52-71 | read by the fixed places of section 5.6.7 of RFC 9110 the header's text gives the same stamp back, exactly up to the year 9999 |
| Validate.ExtractLifts | crates/buran-config/src/validate.rs:130-155 | lifting fails exactly on a taken name; otherwise it changes references only, moves every inline definition in and overwrites none |
| Validate.GeneratedNamesDiffer | crates/buran-config/src/validate.rs:43-55 | no two inline applications are given the same name |
| Validate.ExtractSteps | crates/buran-config/src/validate.rs:45-53 | the loop over a route's steps fails exactly when an inline application would take a named one's name |
| Validate.ExtractRoutes | crates/buran-config/src/validate.rs:42-54 | so the loop over the routes, in any order; its result is the lifted routes and the named applications with every inline one under its own name, and nothing else |
| Validate.CheckMeansFit | crates/buran-config/src/validate.rs:157-306 | the checks pass exactly on actions with one terminal and known targets at every fallback depth that expose no application's sources |
| Validate.ErrorIsTrue | crates/buran-config/src/validate.rs:157-306 | an error of the checks names a place inside the action at some fallback depth and a rule which that action breaks |
| Validate.LiftKeepsMeaning | crates/buran-config/src/validate.rs:130-155 | at every fallback depth a reference that denoted an application still denotes it, with only `auto` resolved, and no inline definition is left |
| Validate.PassesExactly | crates/buran-config/src/validate.rs:40-128 | a configuration passes if and only if it is sound as it is written and each reference is to a named application or to the name generated for an inline one |
| Validate.MeaningKeptExactly | crates/buran-config/src/validate.rs:40-54 | in a configuration that passes a reference keeps its meaning exactly if it had a definition |
| Validate.BorrowedNamePasses | crates/buran-config/src/validate.rs:40-54 | a configuration that passes although a reference has no definition, and that reference then denotes an inline application |
| Validate.CheckRoute | crates/buran-config/src/validate.rs:84-110 | a route passes exactly with steps, none behind a catch-all, all fit; an error of it is a true one |
| Validate.CheckAll | crates/buran-config/src/validate.rs:56-128 | the checks after the lifting pass exactly when listeners, routes and applications are in order |
| Validate.ValidateConfig | crates/buran-config/src/validate.rs:22-128 | succeeds exactly on the configurations that pass; then defined references mean what they meant, an undefined one denotes the inline application whose generated name it is, no named application is overwritten, no `auto` is left and every action is fit |
| Routes.FitCompiles | crates/buran-router/src/routes.rs:153-200 | an action that passed compiles, to the same terminal with the same settings or their defaults at every fallback depth |
| Routes.ValidatedNeverPanics | crates/buran-router/src/routes.rs:153-200 | neither branch called unreachable is reached on a validated configuration |
| Routes.ValidatedRoutesAreClosed | crates/buran-router/src/routes.rs:86-116 | a validated configuration compiles, and its jumps and listeners name routes there are |
| Routes.ValidatedStepsCompile | crates/buran-router/src/routes.rs:86-116 | step by step a compiled route has the pattern, rewrite, header operations and target of the validated one |
| Routes.FirstMatch | crates/buran-router/src/routes.rs:219-221 | the step found fits and none before it does, and none is found exactly if none fits |
| Routes.DecideRoute | crates/buran-router/src/routes.rs:206-283 | the report is that of a walk of at most 16 turns, each of which takes the first step that fits: the header operations of the steps taken stand in order, a rewritten path is the normal form of what stands before the first question mark and the query what stands behind it, and the decision is the last step's terminal, or not found where no route or step is left or after 16 jumps |
| Routes.ReportHasTrail | crates/buran-router/src/routes.rs:206-283 | so for every limit on the turns |
| Routes.ShortWalksAreDecided | crates/buran-router/src/routes.rs:206-283 | a walk that ends within 16 turns is reported with its decision, rewritten target and header operations |
| Routes.OneEnd | crates/buran-router/src/routes.rs:206-283 | the unbounded walk has one end at most |
| Routes.OutOfHopsMeansForever | crates/buran-router/src/routes.rs:206-283 | with at most 16 routes and no rewrites, running out of hops means that the walk never ends |
| Routes.LimitLosesNothing | crates/buran-router/src/routes.rs:206-283 | so there every walk that ends is reported as it ends |
| Routes.LimitLosesLongWalksOnly | crates/buran-router/src/routes.rs:206-283 | in general only a walk of more than 16 turns is reported otherwise, as not found |
| Routes.SeventeenRoutesAreTooMany | crates/buran-router/src/routes.rs:206-283 | seventeen routes in a chain are reported not found though the walk ends |
| Spawning.CommandReadsBack | crates/buran/src/spawn.rs:302-320 | a command is read as it was sent and the next one stands behind it |
| Spawning.ConfigReadsBack | crates/buran/src/spawn.rs:325-332 | the config is read whole, whatever it holds, and the first command stands behind it |
| Spawning.ReadsWhatWasSent | crates/buran-php/src/prototype.rs:184-245 | what the prototype reads next is the oldest command sent and not handled |
| Spawning.HolderIsTheChild | crates/buran-php/src/prototype.rs:120-136 | the pid of a mapped token is held by the child forked for it and no other process |
| Spawning.RunKeepsInv | crates/buran-php/src/prototype.rs:120-165 | in every run of spawns, kills, forks, exits, reaps, recycled pids and prototype restarts, every signal goes to the process forked for its token |
| Spawning.RunKeepsTokens | crates/buran/src/spawn.rs:165-168 | below 2^64 spawns no token stands for two processes |
| Spawning.KillAfterReapIsHarmless | crates/buran-php/src/prototype.rs:131-136 | a kill for a reaped process's token signals nothing |
| Spawning.KillReachesExactly | crates/buran-php/src/prototype.rs:120-165 | a kill signals the unreaped process it is meant for, and no other, if and only if the live prototype is the one that forked it |
| Spawning.SurvivorIsOutOfReach | crates/buran/src/spawn.rs:183-192 | a run in which a worker outlives its prototype and a kill of it, sent to the next one, signals nobody |
| Spawning.PrototypeLoop.ReapChildren | crates/buran-php/src/prototype.rs:249-260 | the loop is the reap steps of all exited children in the order reported, and none is left |
| Spawning.PrototypeLoop.RecvCommand | crates/buran-php/src/prototype.rs:184-245 | the bytes on the control channel are read as the first command on it |
| Spawning.PrototypeLoop.HandleCommand | crates/buran-php/src/prototype.rs:129-164 | one turn on the bytes of the control channel is the handling step of the run theorem, in the prototype's map and in the kernel |
| Spawning.PrototypeSpawner.SpawnWorker | crates/buran/src/spawn.rs:165-198 | the two attempts are the spawn step of the run theorem, however the starts go, and the token comes back exactly if a live prototype has the command |
| Spawning.PrototypeSpawner.KillWorker | crates/buran/src/spawn.rs:266-275 | the kill step of the run theorem: one command to a live prototype, otherwise nothing |

## Left out

- Sockets, tokio scheduling, privilege drop, spill files, `openat2`, logging and statistics: reads are arbitrary chunkings, writes succeed, channels are queues, and a lost peer is an explicit step. A send that waits for room in a full event channel is one step of the pool.
- Liveness: that every request is answered depends on the kernel queue and the scheduler.
- The pool's janitor, its sizing (`retire_and_refill`, demand-driven growth) and its crash back-off: check-then-act on counters with no invariant the rest relies on.
- The `Hello` and `HelloAck` codecs and the pending probes' reply channels: the handshake is the grant it ends in, a probe is whether it was answered idle.
- libphp, its C shims and the SAPI callbacks: foreign code; a handler is any sequence of legal calls.
- SHA-1, base64, httparse, the regex crate and YAML: parsing a request head is a function of its bytes, matching a step and rendering a template are functions of the step's pattern and the current path and query.
- `matching.rs`, `template.rs`, static files, MIME types and ranges: easy or behind those functions.
- BlockingWorker.CallsTell: legal calls are those the Responder's debug assertions allow, with no `error` or headers after the terminal frame, because `error` has no guard of its own.
- Echo.RunHonoursGrant: an Abort's cancel, its Done and the return of the permit are one step; in the code the permit of a cancelled task can come back while Done still waits for room in the writer's queue.
- EchoWire.RunKeepsMatch: no request is received while one with its id is running, which the router's ids grant while they have not come round to a live request.
- PoolKill.RunKeepsKilled: slot ids do not wrap round; the code's counter does after 2^32 slots. A sweep may come at any time, not only after the last one's confirms.
- Echo.ReadBody: a streamed body; the inline and temp-file bodies of the reference worker are reads of what was sent.
- WebSocket.ParseFrame: lengths are unbounded, so the overflow of header plus length near 2^64 under an equally large message limit is not modelled.
- WebSocket.EncodeServer: payloads are below 2^64 bytes.
- HttpRequest.ServeConnection: an accepted WebSocket upgrade, which hands the rest of the stream to the tunnel, and the shutdown signal on an idle connection are left out; the minimum body rate is one of the ways a client stalls.
- HttpResponse.HeadLines: header bytes pass unchanged, without the replacement of invalid UTF-8.
- HttpResponse.Respond: begins after the worker's first event; the status line and the 502, 503 and 504 answers before it are left out.
- Compose.EndToEnd: for a wire whose first frame over the limit, if there is one, announces a length over the limit; on any other the reader hears frames nobody wrote (`WireIsReadExactly`).
- Delivery.ClientGetsTheBody: for a response whose events all arrive within their budgets and begin with headers of another status than 101, which leads to the tunnel or to a 502; late events are covered by HttpResponse.Respond alone.
- Validate.ValidateConfig: checks of timeouts, listener addresses and application fields are parameters.
- Request.RequestBuilder.Finish: the round trip holds while table and blob stay below 4 GiB, where the casts of the code start to truncate; above that only the bytes are stated.
