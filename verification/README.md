# Formal model of the egress media and scheduling core

This project models the parts of the egress system that mix, convert, compose and publish media, and
the parts that distribute tasks over pods and worker processes, and proves what they promise. It has
six components.

* **Audio mixer** (`Sums`, `Limiter`, `Frames`, `MixerState`, `MixerRuns`, `AudioMixing`, `MixerLaws`,
  `LateFrames`). Each
  publisher has a queue of interleaved samples and the timeline index of its first frame. The class
  `AudioMixing.AudioMixer` does what the C++ class does, on flat sample queues, and is proved to
  refine `MixerState`, where a queue is a list of frames with an index. `MixerRuns` puts pushes and the
  turns of a running drain in any order, pushes made while the consumer callback runs unlocked
  included, and keeps for every publisher the log of all frames and the fate of each. Every emitted
  sample is the limited sum of the frames that belong at its index, and every frame is accounted for
  exactly once.
* **Annex-B and AVCC** (`AnnexB`, `Passthrough`). The two scanners of the recorder, as loops over an
  index, against suffix-based specifications; the length-prefixed samples and the AVC and HEVC
  configuration records, with decoders as their inverses.
* **Lease protocol** (`LeaseStore`, `LeaseProtocol`, `LeaseLaws`, `LeaseCleanup`). Queues, processing lists, task
  records and expiring leases in a shared store. `LeaseProtocol` is the step system with its history
  of claims, renewals, recoveries and timeouts; `LeaseCleanup.RedisQueue` is the class whose methods
  perform the steps; it carries the protocol's state as a ghost, and each method keeps its invariant.
* **Compositor** (`Sorting`, `Layout`, `Painter`, `Compositor`). Region arithmetic of the three layouts,
  letterboxing, and painting in place on the three planes of a 4:2:0 canvas; for all layouts the
  finished canvas is proved to be a lookup of the topmost region.
* **Streaming sink** (`Timestamps`, `StreamingState`, `Streaming`). The publishing thread with its stop and failure flags,
  deadline, reconnect attempts and per-session timestamps.
* **Worker allocation** (`WorkerAllocation`, `Workers`). Channels, workers and tasks in three maps.

`Arith` and `Options` hold arithmetic facts and the option type that the others share.

An imperative method is proved against a function, and what the function does is then stated without it:
`MixerLaws`, `LeaseLaws` and the laws beside the other specifications write the effect of each operation
out on queues, records, bytes and samples.

`dafny verify dfyconfig.toml` checks the whole project.

## Modelling decisions

* Numbers are unbounded. Where a width matters it is explicit: 16-bit samples and sums of them
  against 32 and 64 bits, 16- and 32-bit lengths in records and samples.
* The resampler is a parameter of a push: it fails or yields any whole number of frames. Clocks are
  parameters. What the consumer callback answers, and what is pushed while it runs, is a script that
  a drain works through; every script is covered.
* A method of the Redis queue is one atomic step, and popping a task together with claiming it
  (pkg/egress/manager.go:784-807) is one step too. With pop and claim apart, a cleanup pass between
  the two finds an unleased entry and recovers it, and exclusivity no longer holds.
* The publishing thread reads the flags, the clock and the answers of encoders and destination as a
  sequence of observations. Flags only rise and the clock never goes back. The status and the
  message of the completion callback read the failed flag separately, and C++ does not fix which
  is read first; the model allows both orders.
* Aspect ratios and the grid score are exact rationals or reals instead of `float`.
* Recovery moves a task to the queue of its command and channel (pkg/queue/redis_queue.go:600-601),
  which the comment there calls the original queue. A task published to a region or for the web
  recorder came from another queue. The model does what the code does.

## Findings

* A sum of 65536 publishers at full negative scale has a magnitude that does not fit 32 bits;
  65535 always fit (`SumsOverflow`, `SumsFit`).
* The two Annex-B scanners read different units from `00 00 01 b 00`: one keeps the trailing zero
  byte of a unit and the other strips it (`TrailingZeroSplits`). They agree exactly on the strings
  described by `Agreeable` (`ScannersAgreeIff`).
* Recovering a processing entry read before another cleanup pass recovered it puts the task into
  its queue a second time: `StaleEntryIsQueuedTwice` reaches such a state, and
  `RecoverKeepsPlacesIff` gives the exact condition under which recovery keeps every task in one place.
* A publisher can lose samples without a gap in what it sends. `LateFrameLost` is such a run: a
  publisher delivers its second sample 41 ms after its first, and a window has gone out without it. A
  turn overtakes a publisher exactly when its queue starts and ends before the cursor's new place
  (`OvertakenIff`), and what it then pushes behind the cursor is dropped (`BehindIsLate`).

## Model

| member | source | states |
|---|---|---|
| `Sums.SumPick` | src/audio_mixer.cpp:146-156 | the sum over publishers does not depend on the order in which the map is walked |
| `Sums.SumBound` | src/audio_mixer.cpp:145-156 | a sum of n samples lies between -32768 n and 32767 n |
| `MixerState.SumsFit` | src/audio_mixer.cpp:145-161 | with at most 65535 publishers every partial sum and its magnitude fit 32 bits, and the scaled product fits 64 bits |
| `MixerState.SumsOverflow` | src/audio_mixer.cpp:157-158 | with 65536 publishers at -32768 the magnitude does not fit 32 bits |
| `Limiter.LimitAccuracy` | src/audio_mixer.cpp:157-161 | scaled samples lie in [-32767, 32767], keep their sign and are within one of the exact quotient |
| `Limiter.LimitMonotone` | src/audio_mixer.cpp:159-161 | scaling keeps the order of sums |
| `Limiter.LimiterContract` | src/audio_mixer.cpp:157-161 | all of this for a whole window, with the peak of that window |
| `Limiter.LimiterMeans` | src/audio_mixer.cpp:157-161 | the limiter written out: one peak of at least 32767, every sample within one of sample * 32767 / peak, sign kept, never louder |
| `Limiter.QuietWindowUnchanged` | src/audio_mixer.cpp:157-161 | a window whose sums stay within 32767 in magnitude is unchanged |
| `AudioMixing.LimitPeaks` | src/audio_mixer.cpp:157-161 | the two loops compute the limited window |
| `Frames.FlattenChunk` | src/audio_mixer.cpp:84-90 | a queue of whole frames is the concatenation of its frames |
| `Frames.WholeIsMultiple` | src/audio_mixer.cpp:77 | a queue holds whole frames exactly when its length is a multiple of the channel count |
| `Frames.FlattenUpdate` | src/audio_mixer.cpp:149-153 | row k of a window is its samples from k times channels on, and updating it changes no others |
| `MixerState.DropKeepsIndices` | src/audio_mixer.cpp:88-91 | popping frames from the front leaves every remaining frame at its timeline index |
| `AudioMixing.MixAt` | src/audio_mixer.cpp:149-153 | adds one frame at its row of the window; the offset is in range |
| `AudioMixing.MixInput` | src/audio_mixer.cpp:146-156 | adds to each slot what the queue holds at that index and leaves the queue from the window end on |
| `AudioMixing.MixInputs` | src/audio_mixer.cpp:145-156 | after all inputs each slot is the sum over publishers |
| `AudioMixing.DropAllLate` | src/audio_mixer.cpp:116-129 | drops exactly the frames behind the cursor and finds the earliest and latest index left |
| `AudioMixing.Enqueue` | src/audio_mixer.cpp:77-91 | appends after the queue, re-anchors after a gap of more than a tenth of a second, keeps at most half a second |
| `AudioMixing.AudioMixer.Push` | src/audio_mixer.cpp:30-93 | refines the push of the frame-level mixer, including every failure path |
| `AudioMixing.AudioMixer.Backlog` | src/audio_mixer.cpp:107-114 | the end of the backlog is the latest end over all queues |
| `AudioMixing.AudioMixer.DropLate` | src/audio_mixer.cpp:116-129 | refines dropping late frames |
| `AudioMixing.AudioMixer.CheckAwaited` | src/audio_mixer.cpp:136-143 | true exactly when some fresh publisher ends inside the window |
| `AudioMixing.AudioMixer.EmitWindow` | src/audio_mixer.cpp:145-170 | the window is the limited sum at each index and the cursor moves past it |
| `AudioMixing.AudioMixer.SweepInputs` | src/audio_mixer.cpp:178-183 | erases exactly the empty inputs that have been quiet for more than a second |
| `AudioMixing.AudioMixer.Turn` | src/audio_mixer.cpp:115-170 | refines one turn of the drain loop |
| `AudioMixing.AudioMixer.Drain` | src/audio_mixer.cpp:95-185 | refines a whole drain call with any pushes during the unlocked consumer calls |
| `MixerLaws.PushMeans` | src/audio_mixer.cpp:72-91 | an accepted push, written out: up to a tenth of a second past the end it is appended at the end, else the queue starts afresh; the last half second is kept and no other queue changes |
| `MixerLaws.PushRefused` | src/audio_mixer.cpp:32-68 | exactly when a push fails, and that it then changes no samples |
| `MixerLaws.RescaleNearest` | src/audio_mixer.cpp:72 | timestamps are converted to the nearest unit |
| `MixerLaws.TurnMeans` | src/audio_mixer.cpp:115-170 | one turn, written out on the queues before it: what starts where, when it waits for samples or for a publisher heard from within 40 ms, when it emits, and what is left of every queue |
| `MixerLaws.SweepMeans` | src/audio_mixer.cpp:178-183 | exactly the publishers with nothing queued and quiet for more than a second are forgotten |
| `MixerState.RoundCases` | src/audio_mixer.cpp:115-143 | when a turn ends the drain, waits, jumps over silence or emits |
| `MixerRuns.StepKeepsInv` | src/audio_mixer.cpp:30-185 | every push and every turn keeps ledger, windows and timeline |
| `MixerRuns.RunsKeepInv` | src/audio_mixer.cpp:30-185 | so does every run |
| `MixerRuns.EmittedSample` | src/audio_mixer.cpp:145-161 | over any run each emitted sample is the limiter applied to the sum over publishers of the frames mixed at its index |
| `MixerRuns.WindowTimestamp` | src/audio_mixer.cpp:168 | a window carries the millisecond nearest to its start |
| `MixerRuns.MixedOnce` | src/audio_mixer.cpp:146-156 | a mixed frame lies inside its window, and mixed frames of a publisher have strictly increasing indices |
| `MixerRuns.FramesAccountedOnce` | src/audio_mixer.cpp:79-91 | every frame appended has left with exactly one fate or is queued, in order and at its original index |
| `MixerRuns.WindowsFollow` | src/audio_mixer.cpp:130-134 | windows never overlap; each starts at the previous end or more than a second after it |
| `MixerRuns.OvertakenIff` | src/audio_mixer.cpp:115-170 | a turn overtakes a publisher exactly when its queue starts and ends before the cursor's new place, which follows from the queues before the turn: unmoved, past the silence, or at the window end |
| `MixerRuns.BehindIsLate` | src/audio_mixer.cpp:118-123 | a turn drops every queued frame behind the cursor as late, in order |
| `LateFrames.LateFrameLost` | src/audio_mixer.cpp:118-156 | a run in which a publisher that leaves no gap loses its second sample |
| `MixerRuns.FreshHoldsBack` | src/audio_mixer.cpp:136-143 | a publisher heard from within 40 ms and ending inside the window holds it back |
| `MixerRuns.NoLateLoss` | src/audio_mixer.cpp:118-143 | a publisher ahead of the cursor that keeps up at every turn never has a frame dropped as late, whatever is pushed meanwhile |
| `MixerRuns.DrainIsARun` | src/audio_mixer.cpp:95-185 | a drain call that is due begins a drain and works it through: turns, the pushes and answers of the replies in order, to a turn that ends it or a refusal; one that is not due does nothing, and false means a refusal or no count |
| `MixerRuns.PushesAreARun` | src/audio_mixer.cpp:30-93 | so are successive pushes |
| `MixerRuns.DrainIsBounded` | src/audio_mixer.cpp:106-135 | a drain emits at most ceil((drainEnd - cursor) / count) windows even if pushes go on |
| `AnnexB.FirstStopIsLeast` | src/recording_sink.cpp:2528-2535 | a unit ends at the least offset with a start code |
| `AnnexB.UnitEndsAtCode` | src/recording_sink.cpp:2528-2535 | a unit ends where the next 00 00 01 or 00 00 00 01 begins, or at the end of the data |
| `AnnexB.ScanReadsStream` | src/recording_sink.cpp:2506-2555 | the converter reads back exactly the units of a well-formed stream with any mix of start codes |
| `AnnexB.ParseReadsStream` | src/recording_sink.cpp:2293-2333 | so does the parameter-set scanner |
| `AnnexB.NothingLost` | src/recording_sink.cpp:2511-2552 | for every byte string the units read, with their start codes, are the string from the first start code on, up to a bare start code at the end |
| `AnnexB.ScannersAgreeIff` | src/recording_sink.cpp:2318-2330 | the scanners agree exactly when every unit ends in a non-zero byte, or is empty and followed by a four-byte start code |
| `AnnexB.TrailingZeroSplits` | src/recording_sink.cpp:2326-2327 | a family of inputs on which the scanners differ |
| `Passthrough.FindEnd` | src/recording_sink.cpp:2528-2535 | the inner search loop finds the next start code |
| `Passthrough.AnnexBToAvcc` | src/recording_sink.cpp:2506-2555 | terminates on every byte string and yields its non-parameter-set units, length-prefixed, in order |
| `Passthrough.ReadsBackIff` | src/recording_sink.cpp:2542-2549 | samples decode to the units exactly when every unit fits a 32-bit length |
| `Passthrough.AvccRoundTrip` | src/recording_sink.cpp:2506-2555 | a well-formed stream becomes exactly the length-prefixed concatenation of its non-parameter-set units |
| `Passthrough.SamplesAreTheOtherUnits` | src/recording_sink.cpp:2537-2549 | the samples of a well-formed stream decode into exactly the units whose first byte has no type 7 or 8 (H.264) or 32 to 34 (HEVC), in order |
| `Passthrough.LengthBytes` | src/recording_sink.cpp:2543-2547 | lengths are written most significant byte first |
| `Passthrough.AvccAlwaysDecodes` | src/recording_sink.cpp:2506-2555 | every byte string shorter than 2^32 converts to samples that decode fully |
| `Passthrough.ParsedPayload` | src/recording_sink.cpp:2293-2333 | where the scanners agree, the non-parameter-set units of the other scanner are exactly the samples |
| `Passthrough.ParseAnnexBNalUnits` | src/recording_sink.cpp:2293-2333 | the loop returns the units of the specification, with types and without trailing zeros |
| `Passthrough.TrimZeros` | src/recording_sink.cpp:2326-2327 | strips exactly the trailing zeros of a unit |
| `Passthrough.FirstIsEarliest` | src/recording_sink.cpp:2434-2439 | the parameter set selected is the earliest of its type with any bytes |
| `Passthrough.AvcRecordInvertsIff` | src/recording_sink.cpp:2446-2459 | decoding the AVC record gives back SPS, PPS, profile bytes and length size exactly when both sizes fit 16 bits |
| `Passthrough.BuildAvcRecord` | src/recording_sink.cpp:2432-2459 | builds that record, or none when a parameter set is missing |
| `Passthrough.AvcRecordOfKeyframe` | src/recording_sink.cpp:2434-2459 | the record of a keyframe holds its first units of types 7 and 8 |
| `Passthrough.HevcRecordOfKeyframe` | src/recording_sink.cpp:2353-2423 | the record of a keyframe holds its first units of types 33 and 34, and 32 if there is one |
| `Passthrough.HevcRecordHeader` | src/recording_sink.cpp:2385-2418 | the 23 bytes before the arrays |
| `Passthrough.RecordMarkers` | src/recording_sink.cpp:2336-2341 | the bytes before the parameter sets of an AVC record and before the unit of an HEVC array |
| `Passthrough.HevcRecordInvertsIff` | src/recording_sink.cpp:2385-2423 | decoding the HEVC record gives back the parameter sets and general profile bytes exactly when all sizes fit 16 bits |
| `Passthrough.HevcHeader` | src/recording_sink.cpp:2369-2398 | taking the profile fields apart and together again reproduces the bytes of the SPS, or zeros when it is short |
| `Passthrough.AppendHevcNaluArray` | src/recording_sink.cpp:2336-2344 | appends one complete array entry |
| `Passthrough.SelectHevc` | src/recording_sink.cpp:2353-2362 | selects the first VPS, SPS and PPS |
| `Passthrough.BuildHevcRecord` | src/recording_sink.cpp:2352-2423 | builds that record, or none when SPS or PPS is missing |
| `Passthrough.Extradata` | src/recording_sink.cpp:2347-2463 | the record of a keyframe, from its bytes |
| `Passthrough.HevcKeyframeRoundTrip` | src/recording_sink.cpp:2352-2549 | the same for an HEVC keyframe, with VPS, SPS and PPS |
| `Passthrough.KeyframeRoundTrip` | src/recording_sink.cpp:2434-2549 | of a well-formed H.264 keyframe the scanner returns all units, the samples carry the others and the record the first SPS and PPS |
| `LeaseStore.AtMostOnce` | pkg/queue/redis_queue.go:261-284 | when every task has one home, no ID occurs twice across all lists |
| `LeaseStore.UpdatePlaced` | pkg/queue/redis_queue.go:604-614 | what a change of one list must do to the homes |
| `LeaseProtocol.StepKeepsInv` | pkg/queue/redis_queue.go:230-727 | publish, fetch and claim, renew, recover, timeout, result, delete and clock steps keep the invariant |
| `LeaseProtocol.RunsKeepInv` | pkg/queue/redis_queue.go:230-727 | so does every run |
| `LeaseProtocol.OnePlaceOneHolder` | pkg/queue/redis_queue.go:341-347 | in every reachable state an ID occurs at most once in all lists, and a live lease names the pod whose processing list holds it |
| `LeaseProtocol.ClaimsAreSeparated` | pkg/queue/redis_queue.go:552-619 | between two claims of a task lies its recovery, at least 45 s after the first claim and every renewal |
| `LeaseProtocol.ClaimsAreCounted` | pkg/queue/redis_queue.go:589-598 | claims equal RetryCount while queued and RetryCount + 1 while processed |
| `LeaseProtocol.TimeoutsAreLate` | pkg/queue/redis_queue.go:676-719 | a timeout comes more than 30 s after the task was last published or recovered |
| `LeaseProtocol.NeverDeferred` | pkg/egress/manager.go:823-887 | a queued task is never handed to another pod instead of being claimed |
| `LeaseProtocol.RenewalKeepsOwnership` | pkg/queue/redis_queue.go:503-519 | a pod that renews less than 45 s after its claim and each renewal keeps the task in its list under a live lease, and no recovery of it ever happens |
| `LeaseProtocol.ClaimBeginsOwnership` | pkg/egress/manager.go:784-801 | a successful fetch in a reachable state begins such an ownership and is recorded as a claim |
| `LeaseProtocol.LeaseLength` | pkg/queue/redis_queue.go:503-519 | a renewal makes the lease last 45 s from now |
| `LeaseProtocol.CleanupKeepsTerminal` | pkg/queue/redis_queue.go:581-587 | recovery and timeout never change a task in a terminal state |
| `LeaseProtocol.RecoverKeepsPlacesIff` | pkg/queue/redis_queue.go:600-614 | recovering an unleased entry keeps every task in one place exactly when the task is not recoverable, is in no list, or is in the list it was read from |
| `LeaseProtocol.StaleEntryIsQueuedTwice` | pkg/queue/redis_queue.go:552-614 | a reachable state in which a stale entry is recovered and its task is queued twice |
| `LeaseLaws.PublishMeans` | pkg/queue/redis_queue.go:261-309 | the queue a task goes to by layout and region, its place and its fresh record |
| `LeaseLaws.FetchMeans` | pkg/egress/manager.go:784-807 | the oldest task of the queue moves to the head of the pod's list, Working and leased for 45 s |
| `LeaseLaws.FetchFails` | pkg/egress/manager.go:784-806 | an empty queue changes nothing, and a task without a record goes back to the head of its queue |
| `LeaseLaws.FetchDefers` | pkg/egress/manager.go:872-886 | a task that prefers another pod goes to the end of that pod's stop queue |
| `LeaseLaws.RenewMeans` | pkg/queue/redis_queue.go:475-519 | the holder of a live lease extends it to 45 s from now; otherwise nothing changes |
| `LeaseLaws.RecoverMeans` | pkg/queue/redis_queue.go:589-614 | a recovered task is ENQUEUED now with one more retry and no trace of its pod, at the head of its queue |
| `LeaseLaws.RecoverSkips` | pkg/queue/redis_queue.go:556-587 | a leased entry is left alone; one whose task is finished or gone only leaves the list |
| `LeaseLaws.TimeoutMeans` | pkg/queue/redis_queue.go:676-719 | exactly a queued ENQUEUED task of more than 30 s times out |
| `LeaseLaws.UpdateResultMeans` | pkg/queue/redis_queue.go:420-436 | the reported state is written, the completion time exactly for a final state, and nothing else changes |
| `LeaseLaws.DeleteMeans` | pkg/queue/redis_queue.go:763-778 | record and lease of the task go, nothing else |
| `LeaseLaws.RecoveredTimesOut` | pkg/queue/redis_queue.go:589-708 | a recovered task times out after more than 30 s in its queue, and not before |
| `LeaseLaws.DoneStaysDown` | pkg/queue/redis_queue.go:581-587 | over any run a finished task that is not queued is never recovered or queued again, unless it is reported as going on |
| `LeaseLaws.ReportBringsDown` | pkg/queue/redis_queue.go:420-436 | reporting a final state of a held task brings it into that condition |
| `LeaseCleanup.RedisQueue.PublishTaskToRegion` | pkg/queue/redis_queue.go:230-309 | the record and the entry at the head of the routed queue; performs the publish step and keeps the protocol invariant for a new ID |
| `LeaseCleanup.RedisQueue.ClaimTaskWithLease` | pkg/queue/redis_queue.go:312-351 | record and lease together, or nothing when the record is gone |
| `LeaseCleanup.RedisQueue.FetchTask` | pkg/egress/manager.go:784-807 | pop, deferral check, claim and the way back when the claim fails, as one step that keeps the protocol invariant |
| `LeaseCleanup.RedisQueue.RenewLease` | pkg/queue/redis_queue.go:475-523 | extends the lease of its holder only; performs the renewal step and keeps the invariant |
| `LeaseCleanup.RedisQueue.CheckAndRecoverTask` | pkg/queue/redis_queue.go:552-624 | recovers an unleased entry, drops one whose task is gone or terminal; performs the recovery step and keeps the invariant if the entry is still listed |
| `LeaseCleanup.RedisQueue.CheckAndTimeoutEnqueuedTask` | pkg/queue/redis_queue.go:654-727 | times out an aged enqueued task that is still in the queue; performs the timeout step and keeps the invariant |
| `LeaseCleanup.RedisQueue.UpdateTaskResult` | pkg/queue/redis_queue.go:407-445 | writes the state of an existing record; performs the result step and keeps the invariant |
| `LeaseCleanup.RedisQueue.DeleteTask` | pkg/queue/redis_queue.go:763-778 | removes record and lease; performs the deletion step and keeps the invariant |
| `LeaseCleanup.CleanOne` | pkg/queue/redis_queue.go:552-624 | one more entry of a pass, given what the pass has done so far |
| `LeaseCleanup.RedisQueue.RecoverList` | pkg/queue/redis_queue.go:541-545 | the inner loop recovers every unleased entry of the list read |
| `LeaseCleanup.RedisQueue.CleanupExpiredLeases` | pkg/queue/redis_queue.go:526-549 | a full pass, in any order of the lists, cleans everything that is not leased, is itself a run of the protocol and keeps its invariant |
| `LeaseCleanup.PassIsComplete` | pkg/queue/redis_queue.go:526-623 | after a pass every processing entry is leased, exactly the unleased non-terminal tasks are queued again, ENQUEUED now with one more retry and no trace of their pod, and no other record changes |
| `Layout.CutOrder` | src/video_compositor.cpp:596-602 | cuts are even and in order |
| `Layout.CutNearest` | src/video_compositor.cpp:596-602 | a cut is even and less than two below its exact place |
| `Layout.FindPart` | src/video_compositor.cpp:596-602 | every coordinate lies in some part |
| `Layout.PartUnique` | src/video_compositor.cpp:596-602 | and in only one |
| `Layout.CalculateOptimalLayout` | src/video_compositor.cpp:359-407 | the fixed grids up to four users; from five on the first column count with the least score |
| `Layout.ChosenGridFits` | src/video_compositor.cpp:359-407 | the chosen grid has room for all users and no empty row |
| `Layout.ChosenIsClosest` | src/video_compositor.cpp:378-407 | from five users on no grid that fits has cells closer to 16:9, an empty cell counting a tenth, and no earlier one as close |
| `Layout.GridRegionAt` | src/video_compositor.cpp:594-604 | the corners of a user's region: column and row of the grid from the top left, cut evenly |
| `Layout.SpotlightRegionAt` | src/video_compositor.cpp:576-593 | the first user beside a strip of a quarter of the longer side, the others along it in order |
| `Layout.GridRegionOk` | src/video_compositor.cpp:594-604 | flat regions are even and inside the canvas |
| `Layout.GridCovers` | src/video_compositor.cpp:594-604 | a point lies in the region of its cell and in no other |
| `Layout.GridCoversRows` | src/video_compositor.cpp:594-604 | every point above the last row lies in exactly one user's region |
| `Layout.GridEdgesMeet` | src/video_compositor.cpp:594-604 | neighbouring regions share their edge exactly |
| `Layout.SpotlightRegionOk` | src/video_compositor.cpp:576-593 | spotlight regions are even and inside the canvas |
| `Layout.SpotlightPartition` | src/video_compositor.cpp:576-593 | spotlight regions partition the canvas: each point lies in exactly one |
| `Layout.LetterboxFits` | src/video_compositor.cpp:502-539 | a picture is even, evenly aligned and inside its region, fills it in one direction, and its margins differ by at most 2 |
| `Layout.LetterboxKeepsAspect` | src/video_compositor.cpp:507-523 | up to even rounding the picture keeps its aspect ratio |
| `Sorting.SortIsSorted` | src/video_compositor.cpp:567-570 | sorting orders by z and permutes |
| `Painter.InsertLast` | src/video_compositor.cpp:567-570 | equal z keep the order of the configuration |
| `Painter.TopIsLast` | src/video_compositor.cpp:567-570 | the topmost region at a sample is the last painted there |
| `Painter.PaintingIsLookup` | src/video_compositor.cpp:209-302 | painting in z order shows at every sample the region of greatest z, the later one among equals, and black where there is none |
| `Painter.TopExists` | src/video_compositor.cpp:567-570 | wherever a region lies there is a topmost one |
| `Painter.ChromaAgrees` | src/video_compositor.cpp:213-221 | a chroma sample belongs to a region exactly when each of its four luma samples does |
| `Painter.ChromaOwnerAgrees` | src/video_compositor.cpp:213-221 | so chroma and luma have the same owner |
| `Painter.PaintRegion` | src/video_compositor.cpp:211-302 | clearing and copying in place paint exactly the samples of the region or the picture |
| `Painter.PaintFrame` | src/video_compositor.cpp:204-302 | the loop over regions and planes paints the items in order onto black |
| `Compositor.CalculateRegions` | src/video_compositor.cpp:564-606 | customized regions in z order; otherwise one region per user, pairwise disjoint, even and inside the canvas, in the chosen grid or the spotlight arrangement |
| `Compositor.SpotlightRegions` | src/video_compositor.cpp:576-593 | the loop builds the spotlight regions |
| `Compositor.GridRegions` | src/video_compositor.cpp:594-604 | the loop builds the grid regions of the chosen grid |
| `Compositor.OnTopExists` | src/video_compositor.cpp:567-570 | wherever a region lies there is one on top |
| `Compositor.BoxIsOk` | src/video_compositor.cpp:502-539 | the box of a picture is even, centred, inside its region, reaches two opposite edges and keeps the aspect, or fills the region when that is not asked for |
| `Compositor.SortCommutes` | src/video_compositor.cpp:567-571 | sorting regions and then dressing them with pictures is sorting the dressed regions |
| `Compositor.OwnerShows` | src/video_compositor.cpp:209-302 | where only one region lies, the sample shows it although nothing was cleared |
| `Compositor.CreateCompositeFrame` | src/video_compositor.cpp:195-302 | every luma and chroma sample shows the topmost region: inside an even, centred box that keeps the aspect the user's scaled picture, elsewhere and without a user 0 or 128; regions are configured, in the chosen grid or in the spotlight arrangement |
| `Timestamps.Advances` | src/streaming_sink.cpp:270-282 | frames of a kind are non-negative and at least their spacing apart, once for every frame between them |
| `Timestamps.StrictlyIncreasing` | src/streaming_output.cpp:120-129 | video times stay strictly increasing after rounding to milliseconds, and audio advances by at least one frame, for any capture times |
| `Timestamps.StartsAtZero` | src/streaming_sink.cpp:93-95 | each session starts again at zero |
| `Timestamps.NeverLate` | src/streaming_sink.cpp:215-232 | video never runs behind its capture time and audio at most 100 ms |
| `Timestamps.VideoLeast` | src/streaming_sink.cpp:270-282 | closed form of a video time: the greatest bound set by a frame up to it, so rollbacks cause no drift |
| `Timestamps.AudioContinuous` | src/streaming_sink.cpp:220-232 | an audio frame follows its predecessor exactly, unless its capture time is more than 100 ms further; then it sits exactly there |
| `StreamingState.DelayMeans` | src/streaming_sink.cpp:129-151 | the first delay is the configured one, each next one twice as long up to 10000 ms |
| `StreamingState.DelayDoubles` | src/streaming_sink.cpp:129-151 | the closed form of the k-th delay obeys the doubling with its cap of ten seconds |
| `StreamingState.OutageLasts` | src/streaming_sink.cpp:134-142 | the destination is tried again only after all the delays so far |
| `Streaming.StreamingSink.Start` | src/streaming_sink.cpp:67-88 | the initial state and the deadline of a run |
| `Streaming.StreamingSink.OpenSession` | src/streaming_sink.cpp:90-119 | what each way of failing leaves behind; an attempt restarts the timestamps |
| `Streaming.StreamingSink.WaitUntil` | src/streaming_sink.cpp:135-141 | the wait ends at its time or when a flag rises |
| `Streaming.StreamingSink.TryAgain` | src/streaming_sink.cpp:131-150 | one attempt: it waits its whole delay unless interrupted, no longer, and its outcome is what encoders and destination answer then |
| `Streaming.StreamingSink.TryAll` | src/streaming_sink.cpp:129-151 | at most N attempts one right after the other, the k-th after min(d * 2^(k-1), 10000) ms, all but the last refused by the destination |
| `Streaming.StreamingSink.Reconnect` | src/streaming_sink.cpp:125-161 | opens a session or the run has ended; gives up with "exhausted" only after exactly N refusals, else because the encoders did not restart |
| `Streaming.StreamingSink.SendVideo` | src/streaming_sink.cpp:269-288 | stamps the frame as the session prescribes |
| `Streaming.StreamingSink.EncodeAudio` | src/streaming_sink.cpp:215-248 | stamps the window as the session prescribes |
| `Streaming.StreamingSink.DrainMixer` | src/streaming_sink.cpp:289-293 | stamps the windows in order, and stops at the first that fails or when the sink is stopped |
| `Streaming.StreamingSink.SendMedia` | src/streaming_sink.cpp:268-296 | stamps are the observed frame and then the observed windows in order, up to the first undelivered; with no flag up all of them, and then the poll; a failed write or poll loses the destination |
| `Streaming.StreamingSink.SendFrame` | src/streaming_sink.cpp:269-288 | the composed frame, if there is one |
| `Streaming.StreamingSink.MediaPass` | src/streaming_sink.cpp:258-296 | the loop condition and the media of one pass, tied to what is observed at each step |
| `Streaming.StreamingSink.Connect` | src/streaming_sink.cpp:255-257 | the first session opens, or a refusal leads to an outage, or the run has ended; the sink fails only over its encoders or an outage |
| `Streaming.StreamingSink.Recover` | src/streaming_sink.cpp:297-304 | a lost destination leads to exactly one outage and any other media error to failure, unless stopped or past the deadline |
| `Streaming.StreamingSink.Pass` | src/streaming_sink.cpp:258-305 | one pass extends the current session by exactly what it observed and could send, fails or reconnects only over a media error, and goes round again only if it began before the deadline |
| `Streaming.StreamingSink.Publish` | src/streaming_sink.cpp:258-305 | the loop terminates when the run is stopped, failed or past its deadline; its passes follow each other without a gap, and the sessions hold exactly what they sent |
| `Streaming.StreamingSink.Report` | src/streaming_sink.cpp:309-317 | the callback is called exactly when it is registered and the run was not stopped |
| `Streaming.StreamingSink.Run` | src/streaming_sink.cpp:250-322 | every run ends stopped, failed or past its deadline; the callback is called exactly once unless stopped, "failed" iff the flag is up when the status is read; an "exhausted" message belongs to an outage with exactly N refusals; passes run from the first open session to the end, and the sessions hold exactly what they sent |
| `WorkerAllocation.FreeIsFirst` | pkg/egress/manager.go:311-318 | the free worker found is the first idle one, and none is found exactly when none is idle |
| `WorkerAllocation.StepKeepsInv` | pkg/egress/manager.go:1182-1218 | start, removal and settling keep the maps mutually inverse, the tasks on the same channels, and no idle worker mapped |
| `WorkerAllocation.RunsKeepInv` | pkg/egress/manager.go:473-527 | so does every run, with the critical sections of different operations interleaved |
| `WorkerAllocation.Reachable` | pkg/egress/manager.go:473-527 | in every reachable state: inverse maps, same channels with tasks, one task per command, no idle worker mapped |
| `WorkerAllocation.ChannelsFit` | pkg/egress/manager.go:1198-1200 | there are never more channels than workers |
| `WorkerAllocation.KeepsItsWorker` | pkg/egress/manager.go:1860-1866 | a channel keeps its worker for as long as it has tasks |
| `WorkerAllocation.StartOnOwnWorker` | pkg/egress/manager.go:1860-1866 | a start on a channel whose worker is up goes to that worker and changes nothing but the channel's tasks |
| `WorkerAllocation.StartOnFreeWorker` | pkg/egress/manager.go:1873-1875 | a start on a new channel takes the first idle worker, or fails without changing anything |
| `WorkerAllocation.StartAfterLoss` | pkg/egress/manager.go:1867-1871 | a channel whose worker is gone is forgotten with its tasks, and the start goes on as on a new channel |
| `WorkerAllocation.StartRefused` | pkg/egress/manager.go:1185-1190 | a command that already runs on the channel is refused |
| `WorkerAllocation.SettleMeans` | pkg/egress/manager.go:514-527 | after a completion the worker is running exactly while it has a channel |
| `WorkerAllocation.StartTracks` | pkg/egress/manager.go:1185-1204 | a start adds exactly its task; only the tasks of a channel whose worker is gone are lost |
| `WorkerAllocation.RemoveTracks` | pkg/egress/manager.go:1879-1909 | a removal takes exactly that task and no worker changes state |
| `WorkerAllocation.StartThenComplete` | pkg/egress/manager.go:1182-1218 | starting a task and completing it restores the whole state |
| `Workers.WorkerManager.FindFreeWorker` | pkg/egress/manager.go:311-318 | the loop finds the first idle worker |
| `Workers.WorkerManager.FindWorkerForChannel` | pkg/egress/manager.go:1860-1876 | the channel's own worker, or a free one after forgetting a dead worker and its tasks |
| `Workers.WorkerManager.StartTask` | pkg/egress/manager.go:1182-1218 | performs the start step with each of its outcomes and keeps the maps consistent |
| `Workers.WorkerManager.RemoveTaskFromChannel` | pkg/egress/manager.go:1879-1909 | performs the removal step and keeps the maps consistent |
| `Workers.WorkerManager.SettleWorker` | pkg/egress/manager.go:514-527 | the worker runs on while its channel has tasks and is idle otherwise |
| `Workers.WorkerManager.HandleCompletion` | pkg/egress/manager.go:479-527 | a completed task is found on its worker's channel, removed, and the worker settled; an unknown task only settles the worker |

## Left out

- Mixer: `configure`, `reset` and a second concurrent drain; a run starts from a configured mixer and has one drain at a time.
- Mixer: resampler internals, and input bytes: a frame carries its samples as 16-bit values, so an odd trailing byte is not represented.
- Mixer: 64-bit overflow of timestamps and rescaling; indices are unbounded integers.
- MixerRuns.NoLateLoss: assumes that the publisher is heard from within 40 ms at every emission, that no emission flushes, that no silence is skipped while it has nothing queued, and that it is not quiet for so long that it is erased; `OvertakenIff` shows what happens otherwise.
- Passthrough.ParseAnnexBNalUnits: asks for three bytes or more, because the loop bound is the unsigned length minus three; for shorter data, which its caller does not rule out, it wraps and bytes past the end are read.
- Passthrough.BuildAvcRecord: asks for a first SPS of four bytes or more, because bytes 1 to 3 are read without a check and a shorter one is read past its end.
- Passthrough.Extradata: asks for both of these, for the same reasons.
- Passthrough: the record extension for high profiles, which the program does not write, and opening the container and writing its header.
- LeaseCleanup.RedisQueue.PublishTaskToRegion: does not refuse a repeated request, because deduplication keys and their expiry are not modelled; IDs are given.
- LeaseCleanup.RedisQueue.FetchTask: does not retarget stop tasks before the deferral check, because stop-task routing is not modelled.
- LeaseCleanup.RedisQueue.UpdateTaskResult: does not keep the message or remove the deduplication key, because neither is part of the store.
- Lease protocol: expiry of queue and record keys, deduplication keys, key pattern matching, stop-task routing, returning tasks to the main queue and failing tasks on unrecoverable errors.
- Lease protocol: errors of the store in the middle of an operation; a pass is error-free.
- LeaseProtocol.CleanupKeepsTerminal: only the cleanup steps keep terminal states; claiming and result updates write the state unconditionally.
- Compositor: swscale and allocation failures other than as a missing picture, padding of plane rows, frame timestamps, the layout detector, and the order in which users are listed.
- Layout.CalculateOptimalLayout: the score is exact instead of single precision, so where two scores tie in `float` the choice may differ; every choice among them fits the users.
- Layout.LetterboxKeepsAspect: the scaled length is the exact quotient, where the program truncates a single-precision one and may come out one lower or higher before rounding to even.
- Layout.LetterboxFits: likewise about exact quotients.
- Streaming sink: failure of `av_frame_alloc` in the audio path, after which the run ends, and 64-bit overflow of rescaled timestamps.
- Streaming sink: that foreign calls return, and that the clock passes the deadline after finitely many observations, are taken for granted.
- Workers.WorkerManager.StartTask: leaves out the branch after a failed send, because it takes a mutex it already holds.
- Workers: worker crash and restart, force kill; web recorder tasks; which worker a stop request is sent to.
- The recorder's encoder paths, snapshots, metadata, TS segments, webhooks, health statistics and configuration are not modelled; they are I/O or would only add easy members.
