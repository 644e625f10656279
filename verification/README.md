# Edge-video: frames, breakers and keys

Edge-video cuts the output of ffmpeg into JPEG frames, moves them through bounded queues to a
broker, stores them in Redis, and guards the way with circuit breakers. There are two programs in
the repository: v1 (`pkg`, `internal`) and v2 (`v2/src`). This project models the parts of both that
decide whether the right bytes arrive, whether a camera comes back, and whether a stored frame is
found again.

Objects whose methods update fields are classes here (`CircuitBreaker` twice, `Camera`, `Capture`,
`Pool`, `Buffer`, `KeyGenerator`, `Monitor`); each method is proved against a function of the old state.
What several goroutines do to shared state is a state machine whose steps are the channel operations,
atomic updates and locked regions of the code; a step that cannot be taken changes nothing, so every
sequence of steps is a run, and "in every run" below means under every interleaving.

- **Frame pipeline (v1).** `FramePool` is the global pool with arrays on the heap. `FrameStore` gives
  every operation on slices of pooled buffers and what each keeps. `FramePipeline` runs them with any
  number of cameras and workers: reader, channel, flush, drop-oldest buffer, dispatcher, job queue,
  `Process`, `Release`. One camera's frame never shows another camera's bytes. `FrameFates` says that no frame
  is forgotten and what had happened to it at its end, `FrameOrder` that frames keep their order, why
  they are given up, and that nobody is stuck.
- **JPEG streams.** `JpegStream` states what cutting a stream means without mentioning a loop, and
  proves that cutting byte by byte does that. `CameraStream` (v2) and `PersistentCapture` (v1) hold the
  loops. The marker codes are those of Table B.1 in section B.1.1.3 of ITU-T T.81. A frame is well formed here if it
  starts with FFD8, ends with FFD9 and has no FFD9 before its last two bytes; entropy-coded data has
  none because of byte stuffing (section B.1.1.5), marker segments might.
- **Queues.** `BoundedChannel`, `FrameBuffer`, `FrameBufferRace`, `LatestFrame`, `WorkerPool`.
- **Circuit breakers.** `BreakerV1`, `BreakerV2`, what makes v2 open and close (`BreakerTrips`), the
  sequential equivalence of the two (`BreakerTwins`), v2 under interleaving (`BreakerInterleaving`),
  how long an outage lasts at least (`BreakerWaits`), v2's lock (`StatsLock`), and who may run ffmpeg
  for a v2 camera (`RetryProtocol`). Time is a whole number of nanoseconds that each operation is given; the backoff multiplier is a whole number of at least 1 (both programs ship 2).
- **Redis keys.** `Decimal` prints and scans numbers as `%d` and `%05d` do; `RedisKeys` has the keys.
- **Camera monitor.** `CameraMonitor`.

## Where the code and its documentation differ

The model follows the code.

- `v2/README.md:374` describes recovery through HALF_OPEN. As wired, `Execute` is called only to record that
  ffmpeg failed to start or to go on, and the retry loop launches no ffmpeg while the circuit is open;
  so HALF_OPEN is unreachable, an open circuit stays open, and a camera launches ffmpeg at most
  MaxFailures times (`RetryProtocol.NeverHalfOpen`, `OpenForGood`).
- A reader that fails before the retry goroutine has cleared `retrying` starts no retry; that camera
  never comes back. This can happen exactly if the breaker is off or MaxFailures >= 2
  (`RetryProtocol.LostExactly`, `LostForGood`).
- `Stats` takes the breaker's read lock twice. A writer that comes in between waits for it and it for
  the writer, for good (`StatsLock.StuckExactly`).
- The backoff is multiplied before the first wait, so waits begin with twice the configured initial
  backoff. `pkg/circuit/breaker_test.go:54-93` expects a probe after 150 ms; `NewBreaker` has a floor of
  five seconds, so a circuit refuses calls for at least ten (`BreakerV1.OpenForTenSeconds`).
- v1's `Reset` keeps the backoff of the outage (`BreakerV1.ResetKeepsStaleBackoff`), and calls that
  succeed after the circuit opened count towards closing it (`BreakerV1.LateSuccessesCount`).
- v1 asks for more than the backoff to have passed, v2 for at least the backoff; that instant is the
  only thing on which the two decide differently (`BreakerTwins.Twins`).
- The "latest frame" channels keep their oldest frames when they are full and turn the newest away
  (`LatestFrame.Always`, `CameraStream.ReadThenPublish`).
- `droppedFrames` counts a drop when the consumer emptied the buffer first and nothing was dropped
  (`FrameBufferRace.CountedDropWithoutLoss`).
- `pkg/camera/frame_pool.go:5` says 2 MB in its comment; the constant is 2000 MiB, and the model uses it.
- Camera ids with a colon are neither parsed back nor kept apart by searches (`RedisKeys.RoundTrip`,
  `SearchFinds`).
- Registering an active camera again loses a "down" (`CameraMonitor.EventsMatch`, `BalanceExact`).

## Model

| member | source | states |
|---|---|---|
| FramePool.Pool.GetFrameBuffer | pkg/camera/frame_pool.go:13-27 | The buffer is large enough, out of the pool, and either new or the one the pool came up with; nothing else leaves the pool; size 0 gives nil. |
| FramePool.Pool.ReleaseFrameBuffer | pkg/camera/frame_pool.go:29-39 | A buffer that nobody pooled goes back once; one above the limit is left to the collector. |
| FramePool.Pool.Enqueue | pkg/camera/camera.go:390-411 | The copy shows the frame, its buffer is not in the pool, and no other array on the heap changes. |
| FramePool.EnqueueAll | pkg/camera/camera.go:397-411 | Any number of frames taken one after the other, with any choices by the pool: all buffers differ, every frame still shows its own bytes. |
| FramePool.ReleasedTooEarly | pkg/camera/frame_pool.go:29-39 | One release too many does mix frames: the earlier slice then shows the later frame, so the ownership rule is needed. |
| FrameStore.GetKeeps | pkg/camera/frame_pool.go:13-27 | Taking any pooled or new buffer for a new frame keeps buffers unshared, contents genuine and outputs unique. |
| FrameStore.GetReuses | pkg/camera/frame_pool.go:13-27 | A pooled buffer that is large enough is reused and leaves the pool; otherwise the new one has 2097152000 bytes, or the size of the frame if that is more. |
| FrameStore.CopyKeeps | pkg/camera/persistent_capture.go:169-171 | Copying into a buffer changes what no other slice shows, and makes the slice show its frame. |
| FrameStore.MoveKeeps | pkg/buffer/frame_buffer.go:32-69 | Handing a slice from one place to another keeps all of it. |
| FrameStore.ReleaseKeeps | pkg/camera/frame_pool.go:29-39 | Releasing keeps all of it; the frame was not released before; its buffer was not in the pool and goes back there exactly if it has at most 2097152000 bytes. |
| FrameStore.PublishKeeps | pkg/camera/camera.go:457-463 | What is published under a camera's id is the frame the slice was taken for, which was not published before. |
| FrameStore.SaveKeeps | pkg/camera/camera.go:468-484 | The same for what is saved after a publication. |
| FrameStore.CapacitiesStay | pkg/camera/frame_pool.go:13-39 | No operation changes how large a buffer is. |
| FrameStore.ApplyKeeps | pkg/camera/frame_pool.go:13-39 | Every operation that its goroutine may perform keeps single ownership, genuine contents and unique outputs. |
| FramePipeline.StepIsAllowed | pkg/camera/camera.go:127-219 | Every step that can be taken is one its goroutine may take: it copies the frame it took the buffer for, and publishes only filled, unpublished slices. |
| FramePipeline.CamerasKept | pkg/camera/camera.go:127-219 | Every step keeps, for every camera: what its reader has made are the segments of what it has read; channel and buffer stay within their capacities; each goroutine holds the slices that its place in the code says; the second send of Push has room. |
| FramePipeline.StepKeeps | pkg/camera/camera.go:127-226 | One step of any goroutine keeps the whole invariant. |
| FramePipeline.Always | pkg/camera/camera.go:127-226 | The invariant holds in every run, with any number of cameras and workers. |
| FramePipeline.PublishedFramesAreGenuine | pkg/camera/camera.go:404-484 | No contamination: whatever is published or saved under the id of a camera with a reader is, byte for byte, a segment of what that camera's reader has read, and a well-formed JPEG; the id is the one that the capture loop wrote on the frame. |
| FramePipeline.PublishedCapturesAreGenuine | pkg/camera/camera.go:386-421 | Whatever is published or saved under the id of any camera is, byte for byte, one of the frames that camera made. |
| FramePipeline.PublishedOnce | pkg/camera/camera.go:449-484 | No frame is published twice or saved twice. |
| FramePipeline.ReleasedOnce | pkg/camera/frame_pool.go:29-39 | In every run no frame is released twice, and no frame that is still somewhere was released. |
| FrameFates.OpKeepsSettled | pkg/camera/camera.go:449-484 | Every operation keeps what a slice's stage says: published or not, taken by the broker or not, saved or not. |
| FrameFates.OpKeepsAccounted | pkg/camera/frame_pool.go:13-39 | No operation forgets a frame, except the reader its segments that are no JPEG. |
| FrameFates.EveryFrameEnds | pkg/camera/camera.go:127-226 | In every run, every frame that a camera made is still somewhere or was released, and not both; only a segment that does not start with FF D8 is neither. With ReleasedOnce: exactly once. |
| FrameFates.ProcessedMeansPublished | pkg/camera/camera.go:449-484 | In every run, a frame was released at the end of a job exactly if it was published; what is saved was taken by the broker. |
| FrameOrder.AlwaysInOrder | pkg/camera/camera.go:127-219 | In every run the frames of a camera wait in the order in which it made them, from the queue of the workers back to the reader. |
| FrameOrder.HandIsBetween | pkg/camera/camera.go:196-208 | In every run the frame in the capture loop's hand is newer than all that it pushed and still wait, and older than the one that the flush has found. |
| FrameOrder.ReleasedForAReason | pkg/camera/camera.go:196-208 | In every run a frame is released only by the reader at a full channel, by the flush for a newer frame of the same camera, after an eviction, or at the end of its job. |
| FrameOrder.EvictsOnlyIfFull | pkg/buffer/frame_buffer.go:35-46 | Push makes room only if the buffer was full when it looked. |
| FrameOrder.WorksOnlyIfFull | pkg/camera/camera.go:139-148 | A dispatcher runs a job itself only if the queue of the workers was full. |
| FrameOrder.EndsOnlyIfEmpty | pkg/camera/camera.go:198-202 | A flush ends only at an empty channel, with one frame in hand. |
| FrameOrder.NobodyIsStuck | pkg/camera/camera.go:127-226 | In every run, for every frame that is somewhere, the goroutine that it waits for can take a step. |
| FramePipeline.SingleOwner | pkg/camera/frame_pool.go:13-39 | A buffer is in the pool once, or at one place once, or nowhere: two live frames never share storage, and a buffer that somebody holds is not in the pool. |
| FramePipeline.PushNeverBlocks | pkg/buffer/frame_buffer.go:47 | The second send of Push finds room, whatever the dispatcher does meanwhile. |
| JpegStream.SplitIsTheFactorisation | v2/src/camera_stream.go:217-302 | Reading byte by byte computes the one and only way to write the stream as segments that end in their first FFD9 plus a rest without FFD9. |
| JpegStream.RoundTrip | v2/src/camera_stream.go:254-298 | Well-formed frames written back to back are read back, all and nothing else; in v2 if each is at most 2 MiB. |
| JpegStream.NoiseThenFrames | v2/src/camera_stream.go:254-298 | Behind any noise the cuts fall where they should: the unfinished end of the noise is joined to the first frame, all later frames are segments. |
| JpegStream.FramesThenNoise | v2/src/camera_stream.go:254-298 | Noise does not affect the frames before it. |
| JpegStream.SelfSynchronising | v2/src/camera_stream.go:254-298 | Frames, any noise, frames: all before the noise and all after the first one behind it come out verbatim and in order, with at most one joined frame between; that first frame survives exactly when the noise left nothing unfinished. In v1 for frames of any size, in v2 for frames of at most 2 MiB. |
| JpegStream.Emitted | pkg/camera/persistent_capture.go:165-185 | Emitted frames are exactly the well-formed segments (v2: of at most 2 MiB), of at least four bytes; v1 and v2 agree exactly when no segment that starts with FFD8 is larger. |
| JpegStream.EmitsTheRest | v2/src/camera_stream.go:254-298 | v2 behind noise emits every frame after the first. |
| JpegStream.ReadInBytes | v2/src/camera_stream.go:220-280 | In bytes: a stretch that ends with its only FF D9 is one segment, and emitted exactly if it starts with FF D8 and, in v2, has at most 2097152 bytes. |
| JpegStream.UnfinishedInBytes | v2/src/camera_stream.go:254-298 | In bytes: without FF D9 nothing is complete and everything is kept. |
| BoundedChannel.FirstComeFirstKept | v2/src/camera_stream.go:286-295 | With nobody receiving, a non-blocking sender gets its first frames through and loses the later ones. |
| CameraStream.Camera.constructor | v2/src/camera_stream.go:57-69 | Ten buffers of 2 MiB, an empty channel, counters at zero. |
| CameraStream.Camera.GetBuffer | v2/src/camera_stream.go:73-82 | A buffer of 2 MiB, from the pool if it has one. |
| CameraStream.Camera.PutBuffer | v2/src/camera_stream.go:85-93 | The pool takes the buffer back unless it is full. |
| CameraStream.Camera.Deliver | v2/src/camera_stream.go:281-295 | A frame is received, and queued or counted as dropped. |
| CameraStream.Camera.FinishSegment | v2/src/camera_stream.go:257-298 | A segment is offered exactly if it starts with SOI and fits; received, dropped and queued stay in balance; the pool loses no buffer. |
| CameraStream.Camera.ReadFrames | v2/src/camera_stream.go:217-302 | The loop offers exactly the frames of the declarative reading, in order, keeps the unfinished rest, and balances its counters. |
| CameraStream.ReadOne | v2/src/camera_stream.go:217-302 | Reading one stretch that ends with its only FF D9 queues exactly that stretch if it starts with FF D8, has at most 2097152 bytes and fewer than five frames wait; otherwise nothing; nothing is left over. |
| CameraStream.Camera.PublishNewest | v2/src/camera_stream.go:324-346 | One turn takes the newest queued frame, empties the channel and counts one frame; an empty channel changes nothing. |
| CameraStream.LastOffered | v2/src/camera_stream.go:217-302 | Behind noise the last frame offered is the last one of the stream, and at most one is missing. |
| CameraStream.KeptFrames | v2/src/camera_stream.go:286-295 | Which frames the channel holds after reading noise and frames. |
| CameraStream.ReadThenPublish | v2/src/camera_stream.go:217-346 | The published frame is the newest received if nothing was dropped; a full channel turns the newest away, and then it is the fifth. |
| PersistentCapture.Capture.constructor | pkg/camera/persistent_capture.go:43-63 | A size that is not positive becomes 50. |
| PersistentCapture.Capture.ReadFrames | pkg/camera/persistent_capture.go:130-188 | The v1 loop offers exactly the frames of the declarative reading and releases each that finds the channel full. |
| PersistentCapture.ReadOne | pkg/camera/persistent_capture.go:130-188 | The same for v1: any size, queued if there is room, released if not. |
| PersistentCapture.Capture.GetFrameNonBlocking | pkg/camera/persistent_capture.go:307-317 | The oldest queued frame, or none. |
| PersistentCapture.Capture.TakeNewest | pkg/camera/camera.go:173-208 | The flush ends with the newest frame in hand, the channel empty, and every older frame released once. |
| FrameBuffer.Buffer.constructor | pkg/buffer/frame_buffer.go:25-30 | An empty buffer of the given capacity, 0 included, counters at zero. |
| FrameBuffer.Buffer.Push | pkg/buffer/frame_buffer.go:32-51 | The buffer holds the newest frames in order; what does not fit is the oldest, is released and is counted; with capacity 0 and nobody popping, the push blocks. |
| FrameBuffer.Buffer.Pop | pkg/buffer/frame_buffer.go:53-60 | The oldest frame, or none; the counters do not change. |
| FrameBuffer.PushAll | pkg/buffer/frame_buffer.go:32-51 | Any number of pushes: the newest are left, all others were released once, oldest first, and drops are exactly the excess. |
| FrameBufferRace.KeepsCounts | pkg/buffer/frame_buffer.go:32-51 | With a concurrent consumer, a step keeps room for the second send and the drop counter's meaning. |
| FrameBufferRace.KeepsOrder | pkg/buffer/frame_buffer.go:32-69 | A step keeps frames in order of pushing, evicted ones older than all that stay. |
| FrameBufferRace.KeepsConservation | pkg/buffer/frame_buffer.go:32-69 | A step loses and duplicates no frame. |
| FrameBufferRace.Always | pkg/buffer/frame_buffer.go:32-69 | In every run with one producer and one consumer: Push does not block, order is kept, pushed = popped + evicted + queued + in hand, and between pushes drops = evictions + times the consumer won the race. |
| FrameBufferRace.CountedDropWithoutLoss | pkg/buffer/frame_buffer.go:38-49 | A run in which a drop is counted and no frame is lost. |
| FrameBufferRace.PushAlone | pkg/buffer/frame_buffer.go:32-51 | The steps of a push that nobody interrupts do what Push does for one caller: the newest stay, the rest is released and counted. |
| LatestFrame.KeepsCounts | v2/src/camera_stream.go:280-348 | A step keeps the balance of the counters, that the flush receive finds a frame, and that each choice is the frame sent last. |
| LatestFrame.KeepsOrder | v2/src/camera_stream.go:280-348 | A step keeps chosen, held and queued frames in the order of receipt. |
| LatestFrame.Always | v2/src/camera_stream.go:280-348 | In every run: received = published + dropped + flushed + queued + in hand; the flush never blocks; chosen frames increase strictly; each is the frame sent last when the channel was seen empty, and that is the newest one received exactly when the reader is idle and has dropped none since. |
| LatestFrame.DropsMeanFull | v2/src/camera_stream.go:286-295 | In every run, drops are the times that a frame came to a full channel. |
| LatestFrame.ReceiveIsOffer | v2/src/camera_stream.go:280-295 | The reader's steps for a frame that nobody interrupts offer it to the channel. |
| LatestFrame.TurnIsNewest | v2/src/camera_stream.go:324-348 | A turn of the publishing loop that nobody interrupts takes the newest queued frame and flushes all others. |
| WorkerPool.CountersKept | pkg/worker/pool.go:50-80 | A step of any submitter or worker keeps the counters in balance. |
| WorkerPool.JobsOnceKept | pkg/worker/pool.go:50-120 | A step keeps every job with at most one worker from its receipt until it is counted, and processed at most once. |
| WorkerPool.Always | pkg/worker/pool.go:50-120 | In every run: accepted = queued + with a worker + counted; no job is processed twice; 0 <= processing <= workers; the queue stays within its capacity; errors <= processed. |
| WorkerPool.Tallies | pkg/worker/pool.go:50-120 | In every run: a job is refused exactly when it comes to a full queue; every call of Process, every error and every success that it returned is counted or about to be, and nothing else. |
| WorkerPool.AtRest | pkg/worker/pool.go:61-70 | When all workers are idle, totalProcessed is the number of jobs that left the queue, each processed once, and totalErrors the number of times that Process returned an error. |
| Backoff.ClosedForm | v2/src/circuit_breaker.go:251-256 | Multiplying and clamping at each of k openings equals min(initial * m^k, max), for any initial and max. |
| BreakerV2.CircuitBreaker.constructor | v2/src/circuit_breaker.go:81-103 | Settings left at zero become 5 s, 5 min, 2 and 3; the others stay; the circuit starts closed with the initial backoff. |
| BreakerV2.CircuitBreaker.Execute | v2/src/circuit_breaker.go:106-136 | Refused exactly if the breaker is on, open, and the backoff has not passed; the new state is that of the locked regions in turn; a breaker that is off runs the function and does not change. |
| BreakerV2.SwitchedOff | v2/src/circuit_breaker.go:107-110 | A breaker that is off admits every call and never changes. |
| BreakerV2.CircuitBreaker.AllowRequest | v2/src/circuit_breaker.go:139-170 | An open circuit admits from the instant at which the backoff ends, and is then half open. |
| BreakerV2.CircuitBreaker.OnSuccess | v2/src/circuit_breaker.go:173-197 | The whole new state after a success, in each state. |
| BreakerV2.CircuitBreaker.OnFailure | v2/src/circuit_breaker.go:200-223 | The whole new state after a failure, in each state. |
| BreakerV2.CircuitBreaker.TransitionTo | v2/src/circuit_breaker.go:226-234 | A change of state is stamped and counted; staying is not. |
| BreakerV2.CircuitBreaker.IncreaseBackoff | v2/src/circuit_breaker.go:251-256 | The backoff is multiplied and clamped; nothing else changes. |
| BreakerV2.CircuitBreaker.RemainingWait | v2/src/circuit_breaker.go:259-275 | Never negative, 0 unless the circuit is open; while it is, a caller is let through from that moment on and not before. |
| BreakerV2.CircuitBreaker.Reset | v2/src/circuit_breaker.go:295-306 | Closed, counters and backoff as at the start; totals are kept and no state change is counted. |
| BreakerTrips.OpensAtTheThreshold | v2/src/circuit_breaker.go:172-223 | A new circuit stays closed exactly as long as there are no MaxFailures failures in a row, whatever successes come between, and its counter is the number of failures in a row. |
| BreakerTrips.ClosesAfterGoodProbes | v2/src/circuit_breaker.go:185-222 | A half-open circuit closes with the initial backoff after exactly HalfOpenSuccesses good probes in a row; the first bad one opens it with the longer wait, counted from that failure. |
| BreakerInterleaving.StepKeepsCounters | v2/src/circuit_breaker.go:106-223 | A locked region keeps calls = successes + failures + in flight, and the bounds of each state. |
| BreakerInterleaving.StepKeepsHistory | v2/src/circuit_breaker.go:226-234 | A locked region changes the state along one of the four edges and counts it, or not at all. |
| BreakerInterleaving.StepKeepsBackoff | v2/src/circuit_breaker.go:190-222 | A locked region moves the backoff with the openings. |
| BreakerInterleaving.AlwaysInvariant | v2/src/circuit_breaker.go:106-306 | All of that in every interleaving of any number of callers, resets included: CLOSED has fewer than MaxFailures failures, OPEN no successes, HALF_OPEN fewer than HalfOpenSuccesses; stateChanges is the length of a path through the legal edges. |
| BreakerInterleaving.BackoffClosedForm | v2/src/circuit_breaker.go:190-256 | In every reachable state the backoff is min(initial * m^k, max) after k >= 1 openings since the last close or reset, the initial one for k = 0; closed means k = 0. |
| BreakerInterleaving.HistoryDecides | v2/src/circuit_breaker.go:139-306 | In every interleaving, state, counters and times are what the history of steps says: the last failure in whatever state, the failures and successes in a row with those that came while open set apart, the last change. |
| BreakerInterleaving.TotalsCount | v2/src/circuit_breaker.go:106-223 | In every interleaving, the totals are the numbers of calls, successes, failures and refusals. |
| BreakerInterleaving.AloneIsExecuted | v2/src/circuit_breaker.go:106-136 | The steps of one caller that nobody interrupts do what Execute does as a whole. |
| BreakerWaits.ProbesWait | v2/src/circuit_breaker.go:148-161 | With a function that always fails, the n-th probe starts no earlier than the first opening plus the sum of min(initial * m^i, max) for i = 1..n. |
| BreakerWaits.ProbesCanBePunctual | v2/src/circuit_breaker.go:148-161 | The bound is tight: for every n there is a run whose n probes start at exactly these times. |
| StatsLock.StuckExactly | v2/src/circuit_breaker.go:335-346 | The breaker's lock is stuck exactly in the runs in which a writer came between the two read locks of a Stats call. |
| StatsLock.StuckForGood | v2/src/circuit_breaker.go:259-261 | Once stuck, no continuation frees it. |
| StatsLock.StuckIsReachable | v2/src/circuit_breaker.go:335-346 | Such a run exists. |
| StatsLock.OthersGetOut | v2/src/circuit_breaker.go:335-346 | A lock that is not stuck can always be left by everybody who is at it. |
| BreakerV1.CircuitBreaker.constructor | pkg/circuit/breaker.go:50-68 | Half the reset timeout but at least 5 s, three successes, 10 min, doubling. |
| BreakerV1.CircuitBreaker.Call | pkg/circuit/breaker.go:70-84 | The function runs exactly if it is admitted; the whole new state. |
| BreakerV1.CircuitBreaker.Allow | pkg/circuit/breaker.go:86-108 | An open circuit admits only after the backoff has ended, and is then half open. |
| BreakerV1.CircuitBreaker.RecordSuccess | pkg/circuit/breaker.go:110-131 | The whole new state after a success, in each state. |
| BreakerV1.CircuitBreaker.RecordFailure | pkg/circuit/breaker.go:133-160 | The whole new state after a failure, in each state. |
| BreakerV1.CircuitBreaker.SetState | pkg/circuit/breaker.go:162-170 | A change of state is stamped. |
| BreakerV1.CircuitBreaker.Reset | pkg/circuit/breaker.go:194-202 | Closed with counters at zero; the backoff stays. |
| BreakerV1.BackoffFollowsOpenings | pkg/circuit/breaker.go:110-160 | In every run the backoff is the one that the openings since the last success in CLOSED lead to; without resets CLOSED means none. |
| BreakerV1.BackoffClosedForm | pkg/circuit/breaker.go:110-160 | The same as min(initial * m^k, max). |
| BreakerV1.HistoryDecides | pkg/circuit/breaker.go:86-202 | In every run, every field of the breaker is what the history of calls says, with successes and failures that come while open, and resets, included. |
| BreakerV1.FirstWait | pkg/circuit/breaker.go:50-98 | A breaker as NewBreaker makes it, after its first opening, admits at t exactly if t - lastFailTime > min(2 * max(resetTimeout / 2, 5 s), 10 min). |
| BreakerV1.FirstOpening | pkg/circuit/breaker.go:133-150 | For any limit of failures there is a run to that point. |
| BreakerV1.ResetKeepsStaleBackoff | pkg/circuit/breaker.go:194-202 | After Reset the backoff is the initial one exactly if there was no opening since the last success in CLOSED, or initial = max, or the multiplier is 1 and initial <= max. |
| BreakerV1.StaleBackoffIsReachable | pkg/circuit/breaker.go:50-202 | For a breaker as NewBreaker makes it, with any limit of failures, some run ends in a reset with a stale backoff exactly if the initial backoff is not ten minutes. |
| BreakerV1.OpenForTenSeconds | pkg/circuit/breaker.go:50-68 | For any reset timeout and run, an open circuit refuses calls for ten seconds after the last failure. |
| BreakerV1.LateSuccessesCount | pkg/circuit/breaker.go:110-130 | n successes recorded while OPEN, a probe and one success close the circuit exactly when n + 1 reaches the required number. |
| BreakerTwins.OneCall | pkg/circuit/breaker.go:70-160 | From agreeing states, one call is decided alike exactly when it does not come at the instant at which the backoff ends, and then leaves agreeing states. |
| BreakerTwins.Twins | v2/src/circuit_breaker.go:106-256 | On a whole trace v1 and v2 take the same decisions exactly when no call comes at such an instant, and then agree on state, backoff, times and success counter after every call. |
| BreakerTwins.ResetSeparatesTwins | pkg/circuit/breaker.go:194-202 | A reset keeps them together exactly when the backoff is the initial one. |
| BreakerTwins.SequentialSuccesses | pkg/circuit/breaker.go:110-160 | Used by one caller at a time, an open v1 circuit has counted no successes. |
| BreakerTwins.ThirdProbeCloses | pkg/circuit/breaker.go:110-130 | A v1 circuit with any settings of NewBreaker is still half open after one and two good probes and closed after the third. |
| BreakerTwins.FailureCountersAgree | v2/src/circuit_breaker.go:185-197 | On a trace without calls at such an instant the failure counters agree exactly when no probe has succeeded since the last close. |
| BreakerTwins.FailureCountersDiffer | v2/src/circuit_breaker.go:185-189 | They do part: a trace after which v1's counter is 1 and v2's is 0, for any settings that open at the first failure and need two probes. |
| RetryProtocol.KeepsProtocol | v2/src/camera_stream.go:387-419 | Every step of every goroutine keeps the single token and the meaning of the flag. |
| RetryProtocol.Protocol | v2/src/camera_stream.go:96-107 | In every run: at most one retry goroutine, `retrying` exactly while there is one, and at most one ffmpeg running or about to be started. |
| RetryProtocol.LostForGood | v2/src/camera_stream.go:187-194 | Once a failure found the flag set, no continuation launches ffmpeg again. |
| RetryProtocol.Accounts | v2/src/camera_stream.go:118-250 | In every run: every launch is under way, could not be set up, did not start, or started; every ffmpeg that started is read, was stopped, or ended by itself; and failures to start or to go on, and nothing else, are recorded, refused or on their way there. |
| RetryProtocol.NothingFailed | v2/src/camera_stream.go:210-213 | While ffmpeg works the breaker is as new, there is no retry, and at most one launch. |
| RetryProtocol.StartedIsRead | v2/src/camera_stream.go:176-213 | A camera whose ffmpeg starts is read by exactly one goroutine. |
| RetryProtocol.FailureIsExecuted | v2/src/camera_stream.go:181-183 | The steps of one failure that nobody interrupts are one Execute of a call that fails. |
| RetryProtocol.GivesUpExactly | v2/src/camera_stream.go:161-249 | In every run: a camera loses its last goroutine exactly when ffmpeg cannot be set up, when its reader or retry goroutine sees that it was stopped, or when a failure looks at the flag before the retry goroutine that launched this ffmpeg has cleared it. |
| RetryProtocol.LostExactly | v2/src/camera_stream.go:187-249 | Without Stop and without a failing pipe, a camera can be lost exactly if the breaker is off or MaxFailures >= 2. |
| RetryProtocol.CameraCanBeLost | v2/src/camera_stream.go:242-249 | The run in which it is lost, for all such settings. |
| RetryProtocol.NeverLost | v2/src/camera_stream.go:394-412 | For all other settings, in every such run: nobody gives up, and after the first failure the retry goroutine waits for an open circuit. |
| RetryProtocol.KeepsOneWay | v2/src/camera_stream.go:181-194 | Every step keeps the breaker closed or open, with all failures counted, and nobody at ffmpeg while it is open. |
| RetryProtocol.NeverHalfOpen | v2/src/camera_stream.go:394-418 | With the breaker enabled and MaxFailures >= 1, in every run: never HALF_OPEN, failures = totalFailures, no launch while OPEN, at most MaxFailures launches. |
| RetryProtocol.OpenForGood | v2/src/camera_stream.go:401-412 | From an open circuit every continuation leaves the breaker and the number of launches as they are. |
| RetryProtocol.Launches | v2/src/camera_stream.go:387-419 | Any number of launches up to MaxFailures happens in some run; with the breaker off, any number at all. |
| RetryProtocol.OpenIsReachable | v2/src/circuit_breaker.go:210-216 | A run with exactly MaxFailures launches that ends OPEN, so the bound is met. |
| Decimal.ScanSigned | internal/storage/key_generator.go:127-129 | Every int64 that is printed is scanned back. |
| Decimal.ScanReads | internal/storage/key_generator.go:127-132 | White space, a sign or none, and digits are scanned as that number exactly if it is an int64, whatever comes behind the digits; without digits nothing is. |
| Decimal.DecOrder | internal/storage/key_generator.go:59-64 | Decimal numbers with equally many digits are ordered as strings as they are as numbers, and equal only if they are. |
| Decimal.FixedOrder | internal/storage/key_generator.go:69 | Numbers printed at a fixed width are ordered as strings as they are as numbers. |
| Decimal.PaddedIsFixed | internal/storage/key_generator.go:69 | Zero padding prints a number that fits at that fixed width. |
| RedisKeys.KeyGenerator.constructor | internal/storage/key_generator.go:39-53 | No strategy means sequence, no virtual host means "default"; the prefix stays. |
| RedisKeys.KeyGenerator.GetNextSequence | internal/storage/key_generator.go:162-171 | The counter goes up by one and from 99999 back to 1. |
| RedisKeys.KeyGenerator.GenerateKey | internal/storage/key_generator.go:58-77 | The key for each strategy; only the sequence strategy moves the counter. |
| RedisKeys.DocumentedExample | internal/storage/key_generator.go:55-57 | The key of the documentation is the first key that is generated for its parts. |
| RedisKeys.RoundTrip | internal/storage/key_generator.go:89-143 | A key is parsed into what it was made of exactly when virtual host, prefix and camera id have no colon, for every int64 timestamp and every strategy. |
| RedisKeys.FormatNeedsThreeColons | internal/storage/key_generator.go:93-109 | A text is refused for its format exactly if it has fewer than three colons. |
| RedisKeys.ParseFields | internal/storage/key_generator.go:113-142 | Of any other text the fields are read as they stand; it is refused exactly if its number cannot be scanned. |
| RedisKeys.KeysAreInjective | internal/storage/key_generator.go:58-77 | Equal keys were made of equal parts. |
| RedisKeys.SearchIsExact | internal/storage/key_generator.go:149-159 | With colon-free names and no pattern characters, a search finds a key exactly when it was generated for that camera, or for that virtual host if no camera is given. |
| RedisKeys.SearchFinds | internal/storage/key_generator.go:149-159 | When other camera ids may have colons, the search finds exactly its own keys and those of ids that begin with this id and a colon. |
| RedisKeys.KeysAreOrdered | internal/storage/key_generator.go:58-69 | For one camera and timestamps of equally many digits, keys are ordered exactly by timestamp, then sequence number. |
| RedisKeys.NanosecondsHaveNineteenDigits | internal/storage/key_generator.go:63 | All nanosecond timestamps from 10^18 to the largest int64 have 19 digits. |
| RedisKeys.OrderOfUnequalDigits | internal/storage/key_generator.go:58-69 | If one timestamp has k more digits, its key is behind exactly if the shorter timestamp is less than its leading digits (it divided by 10^k), and in front otherwise, whatever the suffixes. |
| RedisKeys.OrderNeedsEqualDigits | internal/storage/key_generator.go:58-69 | So keys can be out of order: with any sequence numbers, the key of timestamp 19 is in front of the key of timestamp 2. |
| RedisKeys.SequenceClosedForm | internal/storage/key_generator.go:162-171 | The counter after k calls from any state, as a formula; it lies in 1..99999. |
| RedisKeys.FirstSequence | internal/storage/key_generator.go:162-171 | From a new generator the k-th number is k up to 99999, and the 100000th is 1. |
| RedisKeys.SuffixHasFiveDigits | internal/storage/key_generator.go:66-69 | The suffix has exactly five digits. |
| RedisKeys.KeysAgree | internal/storage/key_generator.go:58-71 | For one virtual host and prefix, keys with a suffix are equal exactly when camera, timestamp and suffix are, colons in the names or not. |
| RedisKeys.CollideExactly | internal/storage/key_generator.go:162-171 | Two calls give the same key exactly when they are for the same camera and timestamp and a multiple of 99999 calls apart, for any names. |
| RedisKeys.WindowIsTight | internal/storage/key_generator.go:162-171 | Consecutive keys for one camera and timestamp are pairwise distinct exactly when there are at most 99999. |
| RedisKeys.GenerateWindow | internal/storage/key_generator.go:58-77 | The same for real calls of the generator, from any counter state. |
| CameraMonitor.Monitor.constructor | pkg/camera/monitor.go:31-37 | No cameras. |
| CameraMonitor.Monitor.RegisterCamera | pkg/camera/monitor.go:50-63 | A fresh, inactive record replaces whatever there was; no callback. |
| CameraMonitor.Monitor.RecordSuccess | pkg/camera/monitor.go:65-89 | A registered camera becomes active; an up is launched if it was not. |
| CameraMonitor.Monitor.RecordFailure | pkg/camera/monitor.go:91-118 | Failures add up; the third in a row makes the camera inactive, with a down if it was active; the all-inactive callback follows if nobody is left. |
| CameraMonitor.Monitor.CountActiveCameras | pkg/camera/monitor.go:144-152 | The number of active cameras, in whatever order the map is visited. |
| CameraMonitor.RecordsMatch | pkg/camera/monitor.go:50-118 | In every run a record says how often the camera failed since its last success or registration, when it last succeeded, whether its last call failed, and whether it is up. |
| CameraMonitor.BalanceExact | pkg/camera/monitor.go:65-118 | In every run, ups minus downs = active cameras + registrations of cameras that were active. |
| CameraMonitor.EventsMatch | pkg/camera/monitor.go:65-118 | In every run, a camera's events alternate from an up on and match its activity exactly when it was never registered again while active. |
| CameraMonitor.EventsAtEdges | pkg/camera/monitor.go:65-118 | A down is launched exactly at the third failure in a row of a camera that is up, an up exactly at a success of a registered camera that is not, the all-inactive callback exactly at a failure of a registered camera after which none is up. |
| CameraMonitor.LaunchesExactly | pkg/camera/monitor.go:65-118 | The exact callbacks of every call, in order. |
| CameraMonitor.ReRegistrationBreaks | pkg/camera/monitor.go:50-63 | Two ups in a row after registering an active camera again. |

## Left out

- FramePipeline: the concurrent pipeline is a state machine over values, with memory as a map from buffers to bytes; the heap form of the pool is `FramePool`, used by one goroutine. A broker or Redis call is assumed to keep no reference to the payload after it returns.
- FrameStore.CopyKeeps: a copy is one step; nobody but the holder of a slice can see it half done.
- RetryProtocol: `Stats` is part of one step of the retry goroutine; when it does not return is the subject of `StatsLock`. Goroutines at the same point are counted and not told apart. The order of regions inside one goroutine is the code's.
- WorkerPool: jobs are numbers. `Close`, cancellation and the result collector are not modelled; `Close` may cancel while `processing` is 0 for a moment.
- LatestFrame.Always: orders the frames that the publishing loop chooses; each is then published by a goroutine of its own, in no particular order.
- FrameBufferRace: one producer and one consumer, capacity at least 1, as the capture loop and the dispatcher use it. `FrameBuffer.PushAll` needs capacity 1 too: with 0 the first push blocks, as `FrameBuffer.Buffer.Push` says.
- BreakerWaits.ProbesWait: sequential use only. Under concurrency `allowRequest` does not look at the time again after its lock upgrade, so a caller may be admitted into HALF_OPEN before a newer backoff has passed.
- BreakerV2: the multiplier is a whole number of at least 1 and durations are unbounded whole numbers; fractions, rounding of `float64` and negative settings are not modelled. `resetTimeout` is not used by the v2 code.
- RedisKeys.SearchIsExact: bracket expressions and escapes in Redis patterns are not modelled; patterns without them are.
- RedisKeys.KeyGenerator.GenerateKey: the eight characters of a UUID are a parameter, so nothing is said about collisions of UUID keys.
- CameraMonitor: callbacks are recorded in the order in which they are launched, not run, and all three are set; the periodic health check only logs.
- Counters are unbounded; wrap-around of `int64` and `uint64` counters is not modelled.
- Whether a camera comes back at all: it need not, as `RetryProtocol` shows; nothing else about liveness is stated.
- A second reader after `Restart`, `Stop` while a frame is under way, and shutdown in general.
- ffmpeg and its arguments, pipes, AMQP, MQTT, Redis and HTTP clients, `v2/src/publisher.go`, registration.
- `GetFrame` with timeouts, `SubmitNonBlocking`, statistics, drop rates and their text forms.
- Memory controllers, configuration, profiling, metrics, logging, the Windows service and the viewers: thresholds and plumbing.
