# Roboparty robot server: a verified model

`rp_server` lets phones and operators drive a robot over WebSocket and Bluetooth.
Its safety rests on a few small stateful components. This project models them in
Dafny and proves what they promise over every run. `dafny verify dfyconfig.toml`
checks the whole project.

## What is modelled

- **Control lease.** Sessions race to acquire, renew, use, release and stop control
  of one robot through an asyncio lock. `LeaseCore.dfy` holds what each stretch of
  code between two suspension points does to the lease, the gamepad and the
  inference process; `LeaseObject.dfy` is the same code as an object updated in
  place, each method proved equal to its function. `LeaseSteps.dfy` makes a step
  system of it: the lock holder and how far it has got, the shielded stop task, a
  cancellation of the caller at any suspension, the clock, credentials that come and
  go, a process that dies by itself, and the server's set of lease holders.
  `LeaseSafety.dfy` and `LeaseTiming.dfy` prove safety and timing over all runs,
  `LeaseCommands.dfy` what each command comes to by the end of its call.
  `Joystick.dfy` and `Policy.dfy` are the two drivers the lease guards.
- **Stream framing.** `Codec.dfy`: varint, `frame_stream` and `StreamDecoder`. The
  length prefix is the varint of the Protocol Buffers encoding specification,
  section "Base 128 Varints". `BleLink.dfy`: the cut into MTU pieces and the bounded
  queue. `Gateway.dfy`: the gateway's two relay loops.
- **Log spool.** `LogSpool.dfy`: the bounded spool and dead-letter tables, and the
  upload loop with a producer interleaved between its peek and its outcome.
- **Segment recorder.** `SegmentRecorder.dfy`: the consumer thread and its pruned
  ring buffer, against the whole history.
- **Pairing, access and fan-out.** `Pairing.dfy`, `PairLimiter.dfy`, `Telemetry.dfy`.

Randomness, clocks, the file system, the operating system's answers (does the process
exit, does it get ready, does the motor bus fail), signature checks and the protobuf
parser are parameters: the theorems hold whatever they answer.

## What the proofs found

1. `_stop` shields against one cancellation. A second one strikes the bare
   `await task` and cancels the stop itself. It does harm exactly where it ends the wait
   for a running process (`LeaseSafety.SecondCancelExactly`): any session can then be in
   control with that process still running (`LeaseSafety.SecondCancelLetsOwnerIn`), and
   runs get there (`LeaseSafety.SecondCancelArises`). The theorems about runs allow every
   other second cancellation. The stop task's first step is queued before its caller
   suspends, so no second cancellation can come before it.
2. "Owner set implies not latched" fails in one window, between the creation of a
   latching stop's task and its first step, and nowhere else
   (`LeaseSafety.LatchWindow`, `LeaseSafety.LatchWindowIsReal`). The lock is held
   throughout it.
3. A control frame with an axis or button number that the enumeration does not define
   raises half-way, after earlier axes have been written and before the input clock is
   set. "Neutral by last input plus timeout plus watchdog period" holds throughout a run
   if and only if every such frame comes while the input clock is already running or
   leaves the gamepad centred (`LeaseTiming.NeutralByDeadline`). Otherwise the input
   timeout never starts (`LeaseTiming.HalfFrameEscapesTimeout`).
4. A policy start refused because an inference instance exists leaves the driver
   failed, so the owner's own release ends in a fault that nothing clears
   (`LeaseSafety.RefusedStartBlocksControl`).
5. A reply that raises `IncompleteRead` or `BadStatusLine` is caught by no handler of
   the upload loop and ends its thread. The spool drains if and only if no such reply
   comes while there are rows (`LogSpool.SpoolDrains`, `LogSpool.BadReplyStopsUploads`).
6. A payload that does not parse is consumed before the decoder raises: unlike framing
   errors it does not absorb later feeds (`Codec.BadPayloadIsSkipped`).
7. An undisturbed acquire by the present owner leaves it in control even when its
   credential has lost the scope; the call only reports the error
   (`LeaseSafety.UndisturbedAcquire`).

## Model

| member | source | states |
|---|---|---|
| LeaseSafety.NeutralBetweenOwners | src/rp_server/protocol/control_lease.py:47-69 | in every reachable state: no owner means no input pending and a centred gamepad with all buttons up; with the lock also free and no fault, no process runs; an owner excludes a fault, and with the lock free a latch |
| LeaseSafety.Handover | src/rp_server/protocol/control_lease.py:83-100 | control passes to a session only at one step of its own acquire, under the lock, with its scope valid, nobody owning, robot neutral, no latch, no fault; that step changes nothing but owner and deadline |
| LeaseSafety.UndisturbedAcquire | src/rp_server/protocol/control_lease.py:83-100 | an acquire nobody disturbs leaves the session in control if and only if it already was and is not due, or it may control, nothing is latched or faulted, and control is free or its holder is due and the stop succeeds |
| LeaseSafety.NoTakeoverDuringStop | src/rp_server/protocol/control_lease.py:38-69 | whenever an owner loses control and anyone owns it later, the stop that took it ended in between, its caller holding the lock and nobody owning up to then, cancelled or not; it ended by its caller resuming, or by a second cancellation with no process left |
| LeaseSafety.StopCompletesFirst | src/rp_server/protocol/control_lease.py:38-69 | from any point of a stop after control was given up, the next owner comes only after that stop has ended |
| LeaseSafety.StopCanFinish | src/rp_server/protocol/control_lease.py:38-69 | from any point of any stop at most three steps, all of them the stop's own, lead past it, with control given up, the gamepad centred, and a fault or no process |
| LeaseSafety.SecondCancelExactly | src/rp_server/protocol/control_lease.py:38-45 | a second cancellation keeps the invariant if and only if it does not end the wait for a running process, unfaulted |
| LeaseSafety.SecondCancelLetsOwnerIn | src/rp_server/protocol/control_lease.py:38-45 | from every state where it ends the wait for a running process, six further steps put any session in control with that process still running and no fault |
| LeaseSafety.SecondCancelArises | src/rp_server/protocol/control_lease.py:38-45 | a run from the start that reaches such a state |
| LeaseSafety.FaultIsForever | src/rp_server/protocol/control_lease.py:66-69 | once faulted with no owner, no run clears the fault or gives anybody control, even with repeated cancellations |
| LeaseSafety.RefusedStartBlocksControl | src/rp_server/drivers/policy.py:104-112 | from any reachable state with an owner and no process, a start refused for an existing instance and the owner's release make control unavailable for good |
| LeaseSafety.LatchHolds | src/rp_server/protocol/control_lease.py:114-124 | from the latch on and until somebody clears it, no session gains control, an owner once gone does not come back, and no dispatch reaches the handler, whether the stop succeeds or not |
| LeaseSafety.LatchNeedsRequest | src/rp_server/transport/ws_server.py:302-336 | a run without a latching stop request never latches: releases, expiries and policy stops do not |
| LeaseSafety.LatchWindow | src/rp_server/protocol/control_lease.py:114-118 | in every reachable state an owner and a latch coexist if and only if there is an owner and a latching stop's task has not begun; every step stays in that window or takes control away |
| LeaseSafety.LatchWindowIsReal | src/rp_server/protocol/control_lease.py:114-118 | a run that reaches that window |
| LeaseSafety.OnlyTheOwnerDrives | src/rp_server/transport/ws_server.py:284-337 | over every run: stops apart, the gamepad moves and a process starts only by a dispatch of the session owning control at that step, checked in time, unlatched, unfaulted, finite, with its scope verified under the lock; and a dispatch is handed on if and only if owner, scope and finiteness hold |
| LeaseSafety.HolderSetFollowsOwner | src/rp_server/transport/ws_server.py:339-377 | in every reachable state the owner is in the holder set; a watchdog round, a forgetting release or a latching stop that returns leaves its session in it only as owner, and only a session's own call or watchdog takes it out and only its granted acquire puts it in |
| LeaseCommands.PolicyStopStops | src/rp_server/transport/ws_server.py:290-301 | a policy-stop command from anybody, in any state and whatever happens meanwhile, ends with no owner, the gamepad centred, a fault or no process, and the latch as it was |
| LeaseCommands.StopRequestLatches | src/rp_server/transport/ws_server.py:302-336 | a stop command ends the same way, with the latch set |
| LeaseCommands.ClearRequestClears | src/rp_server/transport/ws_server.py:313-319 | a clear command ends with the latch lifted and owner, clocks, fault and gamepad as they were |
| LeaseCommands.StopCallsBegin | src/rp_server/transport/ws_server.py:290-322 | both stop commands get the lock from free and reach their stop task in one step |
| LeaseCommands.DueOwnerIsStopped | src/rp_server/protocol/control_lease.py:71-106 | an owner whose time is up when a watchdog check, heartbeat or command begins is out of control when that call ends, whatever happens meanwhile; nothing renews or is carried out |
| LeaseCommands.RequestedExitIsNoFault | src/rp_server/protocol/control_lease.py:57-66 | a stop of a running unfailed process, with anything happening in its wait, its death and the watch included, fails and faults if and only if the process is left alive |
| LeaseCommands.UnaskedExitFaults | src/rp_server/drivers/policy.py:191-200 | a process that dies unasked has failed before and after anybody notices, and the next stop faults |
| LeaseCommands.OwnersInputIsApplied | src/rp_server/protocol/control_lease.py:126-143 | an input of the owner in time: the gamepad shows exactly the frame, the lease is renewed, the input clock starts over, nothing else changes |
| LeaseCommands.OwnersInputRaises | src/rp_server/protocol/handler.py:139-145 | an input with an undefined number shows as far as it was understood and moves neither clock |
| LeaseCommands.OwnersResetCentres | src/rp_server/protocol/handler.py:183-193 | an admin owner's reset centres the gamepad, ends a running process once the motor errors are cleared, keeps the owner and the input clock |
| LeaseCommands.OwnersStartEnds | src/rp_server/protocol/handler.py:147-151 | an owner's start ends with the process alive if it got ready, otherwise with none and failed |
| LeaseCommands.AcquireAnswers | src/rp_server/protocol/control_lease.py:86-93 | which error an acquire gives, exactly |
| LeaseCommands.DispatchAnswers | src/rp_server/protocol/control_lease.py:129-138 | which error a dispatch gives, exactly |
| LeaseCore.InputCompletesIffUnderstood | src/rp_server/protocol/handler.py:122-145 | an input reaches the freshness update if and only if all its wire numbers are defined; otherwise what came before the undefined one is written |
| LeaseTiming.LastInputIsInputClock | src/rp_server/protocol/control_lease.py:126-143 | in every run last_input is the time the tenure's latest input completed: heartbeats, re-acquires and other commands never move it |
| LeaseTiming.DeadlineIsRenewalClock | src/rp_server/protocol/control_lease.py:102-106 | in every run the owner's deadline is the ttl after its last acquire, heartbeat or completed dispatch |
| LeaseTiming.LossOnlyWhenDue | src/rp_server/protocol/control_lease.py:71-81 | control is lost only to the owner's release, a stop, or an expiry check at least the ttl after the last renewal or the input timeout after the last input |
| LeaseTiming.InputGap | src/rp_server/protocol/control_lease.py:71-77 | a command is handed on only when its expiry check came less than the input timeout after the tenure's last input and less than the ttl after the last renewal |
| LeaseTiming.RenewalInTime | src/rp_server/protocol/control_lease.py:83-106 | over every run whatever renews the owner's lease was checked less than the ttl after the last renewal and less than the input timeout after the last input |
| LeaseTiming.NeutralByDeadline | src/rp_server/transport/ws_server.py:358-377 | with an expiry check every d and handler calls of up to h: at every point of a run a gamepad off centre has an input less than input timeout plus h plus d ago, if and only if every input handed on in it is understood, or finds the input clock running, or leaves the gamepad centred |
| LeaseTiming.TenureEnds | src/rp_server/protocol/control_lease.py:71-77 | with an expiry check every d and handler calls of up to h nobody owns control for the ttl plus h plus d after the last renewal |
| LeaseTiming.HalfFrameEscapesTimeout | src/rp_server/protocol/enums.py:39-48 | for any number of watchdog periods, a run in which one half-understood frame keeps the stick hard over |
| LeaseObject.ControlLease.Expire | src/rp_server/protocol/control_lease.py:71-77 | in place, an owner left in control is fresh on both clocks and nothing has changed; otherwise the stop has begun |
| LeaseObject.ControlLease.PerformStop | src/rp_server/protocol/control_lease.py:47-69 | in place, the stop up to its process wait, as in the step system |
| LeaseObject.ControlLease.FinishStop | src/rp_server/protocol/control_lease.py:59-69 | in place, the stop from the end of the wait |
| LeaseObject.ControlLease.Acquire | src/rp_server/protocol/control_lease.py:83-100 | in place, acquire past the expiry check with its errors in order |
| LeaseObject.ControlLease.Heartbeat | src/rp_server/protocol/control_lease.py:102-106 | in place, heartbeat past the expiry check |
| LeaseObject.ControlLease.Latch | src/rp_server/protocol/control_lease.py:114-117 | in place, the latch is set before the stop task exists, and only when asked for |
| LeaseObject.ControlLease.ClearStop | src/rp_server/protocol/control_lease.py:120-124 | in place, clearing lifts the latch and nothing else |
| LeaseObject.ControlLease.CheckDispatch | src/rp_server/protocol/control_lease.py:126-138 | the dispatch checks in order, with the loop over the axis values |
| LeaseObject.ControlLease.ApplyFrame | src/rp_server/protocol/handler.py:130-145 | in place over the cached driver, the handler's two loops equal the frame function, also where they raise |
| LeaseObject.ControlLease.HandleCommand | src/rp_server/protocol/handler.py:53-76 | in place, a command up to its first suspension, as in the step system |
| LeaseObject.ControlLease.Renew | src/rp_server/protocol/control_lease.py:139-143 | in place, the end of dispatch |
| Joystick.JoyDriver.Play | src/rp_server/drivers/joy.py:91-134 | any sequence of commands, known names or not, through the caching driver leaves an open device where writing every command would, and a closed one alone |
| Joystick.JoyDriver.SetAxis | src/rp_server/drivers/joy.py:105-117 | one cached axis command has the effect of writing it; an unknown axis or a closed device none |
| Joystick.JoyDriver.SetButton | src/rp_server/drivers/joy.py:91-103 | one cached button command has the effect of writing it; an unknown button or a closed device none |
| Joystick.JoyDriver.Reset | src/rp_server/drivers/joy.py:119-134 | from any cached state a reset leaves every axis at zero and every button up |
| Joystick.LastAxisCommandDecides | src/rp_server/drivers/joy.py:105-134 | after any commands an axis holds the level of the last value sent to it, or zero if a reset came later, within full scale |
| Joystick.LastButtonCommandDecides | src/rp_server/drivers/joy.py:91-134 | after any commands a button is down if and only if the last command about it pressed it |
| Joystick.LevelIsTruncation | src/rp_server/drivers/joy.py:109-114 | a level is the clamped value times 32767 cut toward zero, never beyond full scale |
| Joystick.CentredIffInDeadZone | src/rp_server/protocol/handler.py:130-137 | a stick reads as centred if and only if the input is inside the dead zone; otherwise the level has its sign |
| Joystick.FrameReturnsIffUnderstood | src/rp_server/protocol/enums.py:39-58 | a frame returns normally if and only if every axis and button number in it is defined |
| Joystick.FrameShows | src/rp_server/protocol/handler.py:130-145 | after a frame every button is as its last entry says and every axis at the level of its last entry, zero in the dead zone, all else unchanged; of a frame that raises, the same of the entries before the undefined number |
| Policy.StopReportsTruthfully | src/rp_server/drivers/policy.py:222-257 | a stop reported as done leaves no process, one reported as failed leaves the driver failed |
| Policy.StopIsNoFailure | src/rp_server/drivers/policy.py:191-257 | however exit and watch interleave with a stop, one that ends with the process gone leaves the driver failed only if it was before |
| Policy.UnaskedExitFails | src/rp_server/drivers/policy.py:320-324 | an exit nobody asked for is a failure from then on, seen or not |
| Policy.StartReportsTruthfully | src/rp_server/drivers/policy.py:82-184 | a start never disturbs a running process; otherwise which outcomes run, which count as failed, and that a failed one leaves no process handle |
| Policy.PolicyDriver.Start | src/rp_server/drivers/policy.py:82-154 | in place, start up to its first wait |
| Policy.PolicyDriver.FinishStart | src/rp_server/drivers/policy.py:155-184 | in place, start after its waits, success and both failures |
| Policy.PolicyDriver.Stop | src/rp_server/drivers/policy.py:222-231 | in place, stop up to its wait, the request marked before it |
| Policy.PolicyDriver.FinishStop | src/rp_server/drivers/policy.py:239-257 | in place, stop after its wait, both outcomes |
| Policy.PolicyDriver.Watch | src/rp_server/drivers/policy.py:191-200 | in place, the watch marks only an exit nobody asked for |
| Codec.EncodeVarint | src/rp_server/protocol/codec.py:73-82 | the loop yields groups of seven bits, lowest first, all but the last with the top bit |
| Codec.ReadVarint | src/rp_server/protocol/codec.py:112-122 | the loop decides a buffer by its run of continuation bytes and sums its groups |
| Codec.VarintReadsBackIff | src/rp_server/protocol/codec.py:73-122 | with any bytes behind it an encoding reads back as its number and exact length if and only if the number is below 2^70; otherwise reading raises |
| Codec.VarintPrefixNeedsMore | src/rp_server/protocol/codec.py:112-122 | every proper prefix of an encoding reads as "need more" |
| Codec.ReadHeaderCases | src/rp_server/protocol/codec.py:112-122 | reading raises if and only if the first ten bytes all carry the top bit, and waits if and only if there are fewer and all do |
| Codec.StreamDecoder.Feed | src/rp_server/protocol/codec.py:97-110 | in place, one exhausted feed yields the frames, leftover and error of parsing the buffer with the new bytes |
| Codec.ChunkingIndependence | src/rp_server/protocol/codec.py:97-110 | for any bytes and any cut into feeds: the same frames, the same error, and the same leftover but for feeds after the error |
| Codec.ParseExtends | src/rp_server/protocol/codec.py:97-110 | parsing more bytes is going on from the leftover; after an error nothing more is yielded |
| Codec.FeedChunks | src/rp_server/protocol/codec.py:97-110 | feeding the decoder object chunk by chunk up to the first error is that function |
| Codec.FramingErrorsAbsorb | src/rp_server/protocol/codec.py:97-122 | after a framing error every later feed yields nothing and raises the same |
| Codec.BadPayloadIsSkipped | src/rp_server/protocol/codec.py:108-110 | a payload that does not parse is consumed by the feed that raises, and the frame behind it still decodes |
| Codec.RoundTripIff | src/rp_server/protocol/codec.py:85-110 | framed and concatenated payloads decode to exactly themselves with an empty buffer if and only if each is within the size limit, below 2^70 bytes and parses |
| Codec.CutRoundTrip | src/rp_server/protocol/codec.py:85-110 | the same however the concatenation is cut into feeds |
| Codec.FramesNeedBytes | src/rp_server/protocol/codec.py:97-122 | whatever bytes arrive, the frames yielded and the leftover never take more bytes than came, each frame counted as framing its payload would |
| BleLink.PiecesFlatten | src/rp_server/ble_gatt.py:191-194 | the pieces of a write put together are its data; none is empty or longer than the chunk size |
| BleLink.PiecesAreFull | src/rp_server/ble_gatt.py:192-194 | all pieces but the last have just the chunk size |
| BleLink.BleWriter.Write | src/rp_server/ble_gatt.py:191-198 | however the other thread empties the queue: a write queues its first pieces in order, together a prefix of the data, and stops short only at a full queue |
| BleLink.LinkDelivers | src/rp_server/gateway.py:175-183 | what the receive loop queued, decoded piece by piece, is exactly the relayed envelopes with nothing left over if and only if no write stopped short; none does when the queue had room for all the pieces |
| Gateway.Gateway.Relay | src/rp_server/gateway.py:182-183 | one relayed envelope queues its first pieces, and all of them unless the queue was found full |
| Gateway.Gateway.Receive | src/rp_server/gateway.py:175-196 | however the other thread empties the queue in each write: the loop queues the first pieces of every relayed envelope in order and nothing else, up to a message that is no JSON object, which ends it; a write stops short only after as many pieces as the queue had room for at first; the lease flag follows the last lease or error message |
| Gateway.EachIsRelayed | src/rp_server/gateway.py:176-182 | each binary message that parses is relayed once, re-encoded, in its place |
| Gateway.BeliefIsLastWord | src/rp_server/gateway.py:189-194 | the lease flag is the last lease or error message, or what it was |
| Gateway.Gateway.Send | src/rp_server/gateway.py:164-173 | in place over the decoder, the send loop up to the end of the link, an undecodable read, or an envelope the lease does not let through |
| Gateway.UplinkSendsStream | src/rp_server/gateway.py:164-173 | however the link's bytes are cut into reads, what goes up is the first envelopes of what all of them decode to, in order, each with the lease flag set or given back on request; the loop stops at the first for which neither holds, else at the first error, else at the end |
| Gateway.RequestsComeFirst | src/rp_server/gateway.py:158-173 | an envelope that finds the flag clear goes up right behind a granted request, no other is requested for, and a request that times out is the last thing sent |
| Gateway.UplinkDelivers | src/rp_server/gateway.py:158-173 | a peer's framed payloads, however cut, all go up in order and the loop reaches the end if and only if the lease lets each through |
| LogSpool.EveryEventAccountedFor | src/rp_server/log_upload.py:125-219 | over any interleaving from an empty store each id ever issued is in exactly one of spooled, acknowledged, dropped, buried; the counters count just those; both tables keep their limit, ids increase, attempts stay below the limit |
| LogSpool.Conservation | src/rp_server/log_upload.py:125-219 | the same from any state that is accounted for |
| LogSpool.OverflowTakesOldest | src/rp_server/log_upload.py:125-136 | an add drops only events older than all that stay, never the new one, exactly one at capacity and none below |
| LogSpool.RowsCarryTheirPayloads | src/rp_server/log_upload.py:125-184 | over any run the row with id i carries the i-th payload added |
| LogSpool.BuriedIsKept | src/rp_server/log_upload.py:200-219 | every event moved by a fail or reject is then in the dead letters with payload, attempts and reason, whatever the limit drops |
| LogSpool.DeadLettersDropOldest | src/rp_server/log_upload.py:212-219 | the dead letters keep the newest of what there was and what was moved, as many as the limit lets stay |
| LogSpool.RefusalNamesStatus | src/rp_server/log_upload.py:339-341 | an event refused for good is a dead letter whose reason spells the status |
| LogSpool.StaleAckIsHarmless | src/rp_server/log_upload.py:149-154 | an acknowledgement that comes after any other operations removes only rows that were peeked, none newer, and those ids never return |
| LogSpool.AttemptsAreBounded | src/rp_server/log_upload.py:156-166 | over any interleaving from an empty store an event sees at most max_attempts counted failures, and while spooled its attempts are exactly their number |
| LogSpool.FailCountsAttempts | src/rp_server/log_upload.py:156-166 | a counted failure leaves a row with one attempt more, or, at the limit, off the spool and in the dead letters |
| LogSpool.TurnSettlesBatch | src/rp_server/log_upload.py:329-350 | whatever the producer adds between peek and outcome: delivered or refused for good, exactly the posted rows still there leave; after a bad reply nothing changes and the loop ends; after any other failure every event with an attempt to spare stays, with one more only if posted |
| LogSpool.PostsAreGenuine | src/rp_server/log_upload.py:329-337 | over any run of the loop with any producer, every post holds logged events, each its own, in increasing id order |
| LogSpool.DeliveredWasPosted | src/rp_server/log_upload.py:331-338 | every event taken off as delivered was in the post, with the payload logged under its id |
| LogSpool.TurnBurnsFuel | src/rp_server/log_upload.py:329-350 | with nothing added, each turn on a non-empty spool whose outcome the loop handles strictly lowers the attempts left over all rows |
| LogSpool.SpoolDrains | src/rp_server/log_upload.py:329-350 | with nothing added, after as many turns as attempts are left, at most max_attempts times the rows, the spool is empty if and only if no reply outside the loop's handlers came while there were rows |
| LogSpool.LogSpool.Add | src/rp_server/log_upload.py:125-136 | in place, add with its overflow |
| LogSpool.LogSpool.Ack | src/rp_server/log_upload.py:149-154 | in place, ack, with the empty list |
| LogSpool.LogSpool.PeekRows | src/rp_server/log_upload.py:140-143 | the first rows of the table as they are, up to the limit, in increasing id order, all older than every row left out |
| LogSpool.LogSpool.Fail | src/rp_server/log_upload.py:156-166 | in place, fail |
| LogSpool.LogSpool.Reject | src/rp_server/log_upload.py:173-182 | in place, reject |
| LogSpool.LogSpool.ToDeadLetter | src/rp_server/log_upload.py:200-219 | in place, the row-by-row move and the dead-letter limit |
| LogSpool.BadReplyStopsUploads | src/rp_server/log_upload.py:323-345 | one event and one such reply: the event is never uploaded, whatever comes after |
| LogSpool.LogSpool.RunLoop | src/rp_server/log_upload.py:329-354 | in place, the upload loop with the producer between peek and outcome, and the posts it makes, is the sequence of turns, up to the reply that ends it |
| SegmentRecorder.TelemetryIsOneSlice | src/rp_server/monitors/segment.py:71-113 | over any run each segment's telemetry is one contiguous slice of the samples dequeued, once each and in order, from the first in the pre-window through the last before the close |
| SegmentRecorder.PruningIsInvisible | src/rp_server/monitors/segment.py:85-88 | two recorders that differ only in their buffer time write the same segments, as long as both keep at least the pre-window |
| SegmentRecorder.PreWindow | src/rp_server/monitors/segment.py:109-112 | the pruned buffer gives the pre-window that the whole history would |
| SegmentRecorder.OpenIsLatestStart | src/rp_server/monitors/segment.py:100-113 | the open segment is that of the latest start event, opened at that event, with its stamp and session |
| SegmentRecorder.ClosingFollowsLastStop | src/rp_server/monitors/segment.py:114-127 | an open segment is due the post-window after the latest stop event of its session since it started, and not at all before one |
| SegmentRecorder.EndsExactlyWhen | src/rp_server/monitors/segment.py:91-94 | a turn ends the open segment if and only if it starts another or comes no earlier than that |
| SegmentRecorder.EndingRecords | src/rp_server/monitors/segment.py:91-107 | a turn adds at most one record and leaves the earlier ones alone; the record has the session, start and position of the latest start event before it and reaches up to the last sample dequeued |
| SegmentRecorder.RecordsAreAccounted | src/rp_server/monitors/segment.py:71-113 | every record of a run is of one start event and the one turn that ended it, with no start in between |
| SegmentRecorder.ClosedTelemetry | src/rp_server/monitors/segment.py:71-113 | a closed segment's telemetry is the dequeued samples from the first in its start event's pre-window through the last of the turn that ended it |
| SegmentRecorder.LastRecord | src/rp_server/monitors/segment.py:95-98 | the segment open when the thread is told to stop is recorded likewise |
| SegmentRecorder.Configure | src/rp_server/monitors/segment.py:39-41 | negative windows count as zero, and the buffer time is as set or, if shorter, the pre-window |
| SegmentRecorder.Consume | src/rp_server/monitors/segment.py:71-98 | the thread's loop, with its segment closed at the end, is the run function |
| SegmentRecorder.PopOld | src/rp_server/monitors/segment.py:86-88 | the loop that pops old samples is the pruning function |
| SegmentRecorder.Open | src/rp_server/monitors/segment.py:109-112 | the loop over the buffer writes just the samples in the pre-window |
| Pairing.RegistrationLeavesOneUser | src/rp_server/auth/pairing.py:115-155 | after a successful single-owner registration the new key is the only active one without admin scope; admins are untouched, and no record changes but those reported as replaced |
| Pairing.AtMostOneUserFromThenOn | src/rp_server/auth/pairing.py:115-174 | from then on any run of codes, registrations and revocations keeps at most one active user |
| Pairing.CodeIsLimited | src/rp_server/auth/pairing.py:115-150 | until generated again a code lets at most three keys be tried and pairs at most one |
| Pairing.CodeExpires | src/rp_server/auth/pairing.py:88-92 | once its time is up a code lets nothing through |
| Pairing.FreshCodePairs | src/rp_server/auth/pairing.py:94-126 | whatever is done meanwhile with other codes and keys, a fresh code pairs if and only if the key is usable and its time is not up |
| Pairing.RegisterAnswers | src/rp_server/auth/pairing.py:115-125 | which error a registration gives, exactly; a bad key costs one of three tries, a locked code is gone, and no failure touches an app |
| Pairing.AppAcceptedIff | src/rp_server/auth/access.py:27-43 | an app is let through if and only if its token verifies, its key is active and both token and current record hold the scope; it gets exactly the scopes in both; otherwise which error |
| Pairing.ServiceAcceptedIff | src/rp_server/auth/access.py:27-29 | the service token is good for exactly the service's scopes whatever becomes of the apps, and an empty one is none |
| Pairing.TokensDieWithTheirKey | src/rp_server/auth/access.py:33-37 | no token of a revoked or displaced key verifies after any run in which that key is not paired again |
| Pairing.RevocationIsPrecise | src/rp_server/auth/pairing.py:165-174 | a revocation reaches the one key it names, says whether it is known, and touches no code and no other key |
| Pairing.PairingManager.CleanCodes | src/rp_server/auth/pairing.py:88-92 | the loop drops exactly the expired codes |
| Pairing.PairingManager.GenerateCode | src/rp_server/auth/pairing.py:94-100 | in place, a new code replaces one of the same digits and leaves the other live ones |
| Pairing.PairingManager.RegisterKey | src/rp_server/auth/pairing.py:115-155 | in place, register with its errors in order and the attempt counted before the key is read |
| Pairing.PairingManager.DisplaceOthers | src/rp_server/auth/pairing.py:127-139 | the loop revokes and reports exactly the keys the policy displaces |
| Pairing.PairingManager.RevokeKey | src/rp_server/auth/pairing.py:165-174 | in place, revoke, with the unknown key |
| PairLimiter.ClientRate | src/rp_server/transport/ws_server.py:603-613 | whatever all clients send, no client gets more than 10 (k + 1) requests past the limiter in any k minutes |
| PairLimiter.AtMostTwentyAMinute | src/rp_server/transport/ws_server.py:603-613 | hence at most twenty in any sixty seconds |
| PairLimiter.TwentyIsReached | src/rp_server/transport/ws_server.py:603-613 | and twenty can pass within a second |
| PairLimiter.RefusedOnlyAfterTen | src/rp_server/transport/ws_server.py:603-613 | a request is refused only to a client of which ten passed within the last sixty seconds |
| PairLimiter.ClientsAreApart | src/rp_server/transport/ws_server.py:606-609 | other clients' requests make no difference to a client |
| PairLimiter.Limiter.Admit | src/rp_server/transport/ws_server.py:603-613 | in place, one request against its client's window only |
| Telemetry.QueueIsNewestPart | src/rp_server/monitors/manager.py:62-78 | however broadcasts and reads interleave, a client's queue is the newest part of what was sent, within capacity, and its reader gets an ordered subsequence without repeats, all older than what is queued |
| Telemetry.NewestIsQueued | src/rp_server/monitors/manager.py:66-76 | the newest message is always queued |
| Telemetry.OnlyTheOldestGivesWay | src/rp_server/monitors/manager.py:66-76 | a message gives way only in a full queue, one at a time, the oldest first |
| Telemetry.NothingLostBelowCapacity | src/rp_server/monitors/manager.py:66-76 | as long as no more is sent than the capacity, nothing is lost |
| Telemetry.TelemetryMonitor.Broadcast | src/rp_server/monitors/manager.py:62-78 | in place, every client's queue takes the message and no client is evicted |

## Left out

- Lease: the clock does not advance inside one stretch of code, so the two readings of it in `_expire` and in dispatch count as one.
- Lease: any waiter may get the free lock next, so the order in which asyncio queues them is not used; the server's check of the scope before it waits for the lock is dropped, which only allows more runs.
- LeaseSafety.NeutralBetweenOwners: leaves out second cancellations of a stop that do harm, as the finding on them says exactly.
- LeaseTiming.NeutralByDeadline: supposes a bound on how long a handler call awaits the process, and that time passes nowhere else under the lock but in a stop's wait; so does TenureEnds.
- Device write failures: writes to the virtual gamepad succeed and the gamepad is open; the driver logs and swallows their errors.
- Values: reals stand for floats; NaN and infinities are one value that the finiteness check of dispatch refuses.
- Button and axis names: the tables between wire numbers, names and key codes, and the parsing of names.
- Policy.StartReportsTruthfully: "leaves no process" is about the driver's handle; a process that could not be killed after a failed readiness probe is not followed.
- Policy: the status text, the starting and stopping flags, the order of lifecycle events, log files and the launch command.
- Server: HTTP routes, sockets, TLS, start-up, and everything answered to a query.
- Transports refused at start-up (UDP, serial and CAN), and UDP framing.
- Codec: protobuf field encoding; whether a payload parses is a parameter, and callers exhaust each feed.
- BleLink: BlueZ and D-Bus, and the uplink's incoming queue.
- Gateway: connecting, heartbeats and clean-up; the interleaving of the two loops is what each envelope finds the lease flag to be.
- LogSpool: the loop's exit when the handler is closed, and its waits.
- LogSpool: durability, a restart with another limit, redaction, warnings, and the extra drop counted when building an event fails.
- SegmentRecorder: metadata and event files, lost items when its queue is full, and samples stamped in the post-window but dequeued after the close.
- Pairing: keys, signatures, tokens and claims beyond subject and scopes; device names and times; failing reads or writes of the app file.
- Telemetry: unbounded queues, and the sources that produce messages.
