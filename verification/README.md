# Verification model of the distributed audio pipeline

This Dafny project models the stateful core of the distributed audio library and proves what that
core is for, for every input, every run and every interleaving. `dafny verify dfyconfig.toml`
checks all of it. Nothing here executes the C++ program.

Two layers are kept apart throughout. What the C++ does in place is a class (or a method with
loops), and each of its methods is proved to compute a function on values. The properties are
lemmas about those functions and about whole runs of them.

- **Jitter buffer.** `JitterBuffer` is the reorder buffer on wrapping 64-bit sequence numbers;
  `JitterModel` is the same buffer over unbounded numbers. The class carries the unbounded buffer as
  a ghost field and takes the same decisions call by call, across any number of rollovers, as long
  as arrivals are within 2^63 of the cursor. `JitterRuns` compares whole runs with a playlist that
  is written down without any buffer, and `JitterAnswers` gives every answer, state, stand-in and
  counter in terms of the calls, the frames accepted and the items played.
- **Session protocol.** `SessionModel` and `SessionManager` are one manager. `SessionProtocol` puts
  any number of them on a network that loses, copies, delays and reorders messages, with session
  ids counted from 1 in every manager, so that they can collide. `SessionCollisions`,
  `ResponderOrder`, `StopOrder` and `Negotiation` add the receiver's side, the order of the two ends
  and the success of negotiation, the last also through the wire format. `SessionEffects` is the
  table of what every message, command and timeout does to its session, and that it does no more.
- **Blocking queue.** `QueueModel` and `AudioBuffer` are the critical sections; `QueueThreads`
  interleaves any number of threads, with the notification of `push` and `pop` sent after the lock
  is given up, with sleepers, spurious wake-ups and closing.
- **Clock estimation and scheduling.** `LeastSquares`, `ClockModel` and `ClockEstimator`, over the
  reals, with the conversion to whole nanoseconds and the range check kept.
- **Synchronization control.** `SyncModel`, `SyncRuns` and `SyncController`: clamped proportional
  correction in whole nanoseconds of endpoints whose clocks keep drifting. `SyncReports` ties the
  timing error to the endpoint's clock and the metrics to the corrections made.
- **Wire formats.** `Packets`, `ControlHeaders`, `DiscoveryCodec`, `SessionCodec` and `MediaCodec`.
  Every parser is proved to read in bounds on every byte string. `DiscoveryLayout`, `SessionLayout`
  and `MediaLayout` say what every byte of a packet means and which complaint a packet is refused
  with, as a list of checks (`Checks`) on bytes at fixed positions.
- **Sequence tracking and liveness.** `SequenceTracker` and `SessionLiveness`.

`Words`, `Bytes`, `Reals`, `Wrappers`, `AudioFrames` and `Devices` hold what these share.

## Where the code and expectations part

- A late acknowledgement of START closes an initiator that is already stopping, because an ACK names
  no message (src/audio_session.cpp:328-331). "Initiator closed implies responder closed" holds in
  every run in which the initiator was never told to start the session (`ClosedTogether`); every run
  that leaves a session established at both ends goes on, by a start, to one where it fails
  (`StartedMayPart`). `ResponderNeverAhead` states what holds in all runs.
- An id collision makes `emplace` do nothing (src/audio_session.cpp:255-258), so a receiver's session
  and its sender's session under one id can differ. `ReceiverAgreement` says exactly when they do,
  and `IdentitiesCollide` gives a run of three devices in which they do.
- The missing-packet estimate is a 64-bit counter that one packet can raise by almost 2^63
  (src/sequence_tracker.cpp:23). It is the number of holes if and only if there are fewer than 2^64
  (`MissingExact`); four packets in range are enough to wrap it (`FourPacketsWrap`).
- A 16-bit format both devices support is overlooked when a wider common width is listed first
  (src/device_discovery.cpp:269). `SixteenBitsOverlooked` gives the input and `OffersExactly` the
  exact condition for an offer.
- docs/session_management.md:27 lists several structured reject reasons; the code only ever sends
  `incompatible_format` (src/audio_session.cpp:285-286). `RejectsExactly` proves it for every message,
  `OneReasonOnly` for every run, and `RateReportedAsFormat` gives an offer in which only the sample
  rate is unsupported.
- An empty frame is sent but refused, a QUERY with a device is sent but refused, and a REJECT without
  a reason is understood but cannot be sent. The three round-trip theorems name exactly these cases.

## Model

| member | source | states |
|---|---|---|
| Words.UnwrapExact | src/jitter_buffer.cpp:26-29 | A sender's unbounded number is recovered from its 64-bit word whenever it is within 2^63 of the cursor. |
| Words.DistanceExact | src/jitter_buffer.cpp:26-29 | The modular distance test "less than 2^63" decides ahead or behind exactly as unbounded numbers do. |
| JitterModel.InsertKeepsInv | src/jitter_buffer.cpp:31-76 | Inserting keeps every buffer invariant: keys within 2^63 of the cursor, depth within capacity, a previous frame or a frame at the cursor, buffering only below the prebuffer target. |
| JitterModel.PopKeepsInv | src/jitter_buffer.cpp:90-131 | Pulling keeps the same invariants, whatever the clock reads. |
| JitterModel.CloseKeepsInv | src/jitter_buffer.cpp:133-138 | Closing keeps them; a closed empty buffer is stopped, never left draining. |
| JitterBuffer.JitterBuffer.Insert | src/jitter_buffer.cpp:31-76 | On wrapped words: the answer and the new state are those of the buffer on unbounded numbers. |
| JitterBuffer.JitterBuffer.Pop | src/jitter_buffer.cpp:90-131 | On wrapped words: the item handed out and the new state are those of the buffer on unbounded numbers. |
| JitterBuffer.JitterBuffer.Close | src/jitter_buffer.cpp:133-138 | Closing on wrapped words matches the unbounded buffer. |
| JitterBuffer.JitterBuffer.Reset | src/jitter_buffer.cpp:140-150 | A reset buffer is a new one. |
| JitterBuffer.JitterBuffer.RefreshState | src/jitter_buffer.cpp:157-164 | The state refresh matches the unbounded buffer's. |
| JitterBuffer.JitterBuffer.MakeConcealedFrame | src/jitter_buffer.cpp:78-88 | The stand-in carries the cursor's word and is missing only without a previous frame or duration. |
| JitterRuns.Replay | src/jitter_buffer.cpp:31-138 | Over every legal run of calls the wrapped buffer gives exactly the answers of the unbounded one, across rollovers. |
| JitterRuns.RunFaithful | src/jitter_buffer.cpp:31-138 | After every run the invariants hold, and frames held, items played and previous frame are those the accepted frames determine. |
| JitterRuns.ExactPlayback | src/jitter_buffer.cpp:98-131 | Items carry consecutive numbers from the first frame; an accepted number is played as exactly its frame, any other as the stand-in of the nearest accepted frame before it; nothing accepted is lost. |
| JitterRuns.NoRepeats | src/jitter_buffer.cpp:52-60 | No word comes out twice within 2^64 consecutive items, whatever duplicates and late copies arrive. |
| JitterRuns.Accounting | src/jitter_buffer.cpp:65-75 | Inserted equals held plus really played; missing equals concealed equals stand-ins played; cursor minus start is their sum; depth and maximum depth are true bounds; buffering means below target. |
| JitterRuns.ConcealmentNeverFails | src/jitter_buffer.cpp:119-123 | The branch without a stand-in is dead: "stopped" is answered only by a stopped buffer, and every stand-in is a well-formed frame of the stream with the last real payload's length. |
| JitterRuns.WaitIsForCursor | src/jitter_buffer.cpp:110-118 | A waiting buffer waits for the frame at its current cursor, since a pull that missed that very number. |
| JitterRuns.Progress | src/jitter_buffer.cpp:98-131 | Of two pulls at least the missing wait apart, with any calls between, one at or between them moves playback on unless everything was played. |
| JitterRuns.ProgressInRun | src/jitter_buffer.cpp:90-131 | The same after every run whose pulls are no later than the first of the two. |
| JitterRuns.DrainExact | src/jitter_buffer.cpp:133-138 | Without further arrivals a draining buffer plays every number up to the last it holds, each held frame as it is, and stops exactly then. |
| JitterRuns.DrainDone | src/jitter_buffer.cpp:90-138 | Two pulls a missing wait apart for each number left are enough to stop a draining buffer. |
| JitterAnswers.ArrivalExact | src/jitter_buffer.cpp:31-76 | The answer to an arrival after any run: refused once closed and all played, incompatible if it does not fit the frames accepted, late below the cursor, duplicate if accepted, overflow if as many are unplayed as the capacity, otherwise inserted. |
| JitterAnswers.PullExact | src/jitter_buffer.cpp:90-131 | The answer to a pull after any run: ended, not ready, the accepted frame at the cursor, or a stand-in, the last exactly when the missing wait is over since the first pull that missed the cursor. |
| JitterAnswers.StandInExact | src/jitter_buffer.cpp:78-88 | Every stand-in played has the number of its place, the format and payload length of the nearest accepted frame before it, all zero bytes under silence and that frame's payload under repetition, one frame duration after that frame. |
| JitterAnswers.StateExact | src/jitter_buffer.cpp:72-74 | The state after any run: buffering until the prebuffer target has been accepted, then ready; after a close draining while something accepted is unplayed, then stopped. |
| JitterAnswers.CountersExact | src/jitter_buffer.cpp:38-71 | Every counter is the number of answers it counts, reordered frames are those accepted out of turn, and the maximum depth is the most ever held. |
| AudioFrames.FrameDurationExact | src/timing_utils.cpp:13-28 | The duration times the rate is the number of samples in nanoseconds, up to the fraction dropped. |
| AudioFrames.OneSecond | src/timing_utils.cpp:23-28 | One second of samples, in any channels and width, lasts one second. |
| Devices.FirstCommon | src/device_discovery.cpp:265-269 | The value found is common to both lists and nothing before it is; none is found only if nothing is common. |
| Devices.FindCompatibility | src/device_discovery.cpp:265-273 | The nested searches find the first common rate, channel count and width. |
| Bytes.SessionIdsDiffer | src/audio_session.cpp:53-58 | Different counters give different session ids. |
| Bytes.IssuedIdsDiffer | src/audio_session.cpp:232-234 | A manager hands out no id twice in fewer than 2^64 calls, wherever its counter starts and although it wraps. |
| Bytes.SessionIdSpells | src/audio_session.cpp:53-58 | A session id is 0x53, seven zeros and the counter in big-endian order. |
| SessionModel.RejectsExactly | src/audio_session.cpp:276-287 | A message is answered by REJECT if and only if it is an offer for this device with a valid id that cannot be accepted, and the reason is always an incompatible format. |
| SessionModel.RateReportedAsFormat | src/audio_session.cpp:282-286 | An offer in which only the sample rate is unsupported is rejected as an incompatible format. |
| SessionModel.HandleExtends | src/audio_session.cpp:276-335 | Handling any message forgets no session, rewrites no identity, end or configuration, and only moves states forward. |
| SessionModel.OfferExtends | src/audio_session.cpp:250-259 | Offering never touches a session that is there, not even on an id collision. |
| SessionModel.StartStopExtend | src/audio_session.cpp:337-353 | Starting and stopping only move states forward. |
| SessionModel.ExpireExtends | src/audio_session.cpp:355-367 | Expiry only moves states forward. |
| SessionModel.UnavailableExtends | src/audio_session.cpp:369-377 | Losing a device only moves states forward; stopping and closed sessions stay. |
| SessionManager.AudioSessionManager.Choose | src/audio_session.cpp:236-248 | The configuration proposed is the first common format, if it is valid. |
| SessionManager.AudioSessionManager.MakeOffer | src/audio_session.cpp:250-259 | Table, counter and message after an offer. |
| SessionManager.AudioSessionManager.Transition | src/audio_session.cpp:261-274 | The state changes exactly when the move is allowed, and nothing else does. |
| SessionManager.AudioSessionManager.Receive | src/audio_session.cpp:276-335 | Table and reply after any message. |
| SessionManager.AudioSessionManager.StartStream | src/audio_session.cpp:337-343 | Table and message after a start. |
| SessionManager.AudioSessionManager.StopStream | src/audio_session.cpp:345-353 | Table and message after a stop. |
| SessionManager.AudioSessionManager.ExpireSessions | src/audio_session.cpp:355-367 | Exactly the negotiations past their time fail, and their number is returned, in whatever order the table is walked. |
| SessionManager.AudioSessionManager.RemoteLost | src/audio_session.cpp:369-377 | Exactly the sessions with that device that are not closed are affected. |
| SessionProtocol.Agreement | src/audio_session.cpp:250-353 | In every run of any number of managers: while a session's sending end is established, streaming, stopping or closed, another device, the receiving end, holds the same id with the same configuration, even when ids collide. |
| SessionProtocol.SessionsOnlyAdvance | src/audio_session.cpp:250-377 | Over every run no session is forgotten, no end or configuration changes, no state goes back, and closed and failed are final. |
| SessionProtocol.RunSound | src/audio_session.cpp:250-377 | Every reachable world: each device is one end of each session it holds, and every offer and accept in flight is vouched for by its source. |
| SessionProtocol.OneReasonOnly | src/audio_session.cpp:281-287 | In every run of any number of managers no REJECT in flight carries any reason but an incompatible format. |
| SessionEffects.Delivered | src/audio_session.cpp:300-335 | After any run, everything the arrival of a message other than an offer does: the session's new state and failure reason by a table of states and kinds, its activity time, the acknowledgement posted, and nothing else in the world. |
| SessionEffects.StopCloses | src/audio_session.cpp:319-327 | After any run a STOP that reaches an established, streaming or stopping session closes it and posts its ACK. |
| SessionEffects.Ignored | src/audio_session.cpp:278-300 | A message for another device, without a valid id, or for an unknown session and no offer, changes nothing and is not answered. |
| SessionEffects.OfferMade | src/audio_session.cpp:236-259 | The offer and its entry: next id, the first common format in the offering device's order, both ends with each device's own audio port at its end, 240 samples a frame, a negotiation opened now; on a taken id no entry. |
| SessionEffects.OfferHandled | src/audio_session.cpp:281-299 | Field by field, which offers open a session, which are answered again with the session's own configuration, and which are rejected. |
| SessionEffects.SessionsPlayable | src/audio_session.cpp:282-298 | In every run every session has a valid configuration that the device holding it supports. |
| SessionEffects.StartExactly | src/audio_session.cpp:337-343 | START is carried out and sent exactly for an established session; otherwise nothing changes. |
| SessionEffects.StopExactly | src/audio_session.cpp:345-353 | STOP is carried out and sent exactly for an established or streaming session; otherwise nothing changes. |
| SessionEffects.ActivityExact | src/audio_session.cpp:302 | In every run a negotiation's activity time is that of the last event that opened it or delivered a message for it. |
| SessionEffects.ExpiryExact | src/audio_session.cpp:355-367 | After any run expiry fails, as timed out, exactly the negotiations untouched for the timeout, counts them, and changes nothing else. |
| SessionEffects.LossExact | src/audio_session.cpp:369-377 | A lost device fails its sessions but the stopping and closed ones, with the reason recorded, and leaves all others alone. |
| SessionCollisions.ReceiverAgreement | src/audio_session.cpp:250-299 | A session accepted from another device is known to that sender under the same id, and the configurations are equal if and only if the sender's entry is one it offered itself. |
| SessionCollisions.IdentitiesCollide | src/audio_session.cpp:255-258 | A legal run of three devices after which a receiver's session names a sender whose entry under that id is another session. |
| ResponderOrder.ResponderNeverAhead | src/audio_session.cpp:276-353 | In every run with one initiator: responder streaming implies initiator started it; responder closed implies initiator stopping or closed; initiator closed implies responder streaming, closed or failed. |
| StopOrder.ClosedTogether | src/audio_session.cpp:314-332 | In every run in which the initiator is never told to start a session, initiator closed implies responder closed. |
| StopOrder.StartedMayPart | src/audio_session.cpp:314-331 | Every run with a session established at both ends goes on by START, its handling, STOP and only then the ACK of START to a closed initiator and a streaming responder. |
| StopOrder.OrderlyTeardown | src/audio_session.cpp:314-353 | Every run with a session established at both ends goes on by START, its handling, its ACK, STOP, its handling and its ACK to closed at both ends. |
| Negotiation.OfferIsAccepted | src/audio_session.cpp:236-307 | An offer with a fresh id to a distinct compatible device is made, survives the wire, and is always accepted, with the accept surviving too. |
| Negotiation.AcceptanceEstablishes | src/audio_session.cpp:303-307 | Whatever the initiator did meanwhile, the accept that finds it still negotiating leaves both ends established with one configuration. |
| Negotiation.OffersExactly | src/audio_session.cpp:236-259 | An offer is made if and only if the first common rate and channel count are positive, the first common width is 16, and ids and ports are set. |
| Negotiation.SixteenBitsOverlooked | src/device_discovery.cpp:265-273 | Two devices that share 48 kHz stereo 16-bit get no offer when 24 bits stand first. |
| AudioBuffer.AudioBuffer.Push | src/audio_buffer.cpp:14-25 | One locked stretch of `push`: sleeps, refuses or stores exactly as the monitor function says. |
| AudioBuffer.AudioBuffer.Pop | src/audio_buffer.cpp:27-39 | One locked stretch of `pop`. |
| AudioBuffer.AudioBuffer.OfferFrame | src/audio_buffer.cpp:41-50 | `try_push`, with its notification under the lock. |
| AudioBuffer.AudioBuffer.TakeFrame | src/audio_buffer.cpp:52-62 | `try_pop`, with its notification under the lock. |
| AudioBuffer.AudioBuffer.NotifyNotEmpty | src/audio_buffer.cpp:22-23 | `notify_one` wakes one sleeper, any one, if there is one. |
| QueueThreads.StepInv | src/audio_buffer.cpp:14-90 | Every step of any thread keeps: consumers asleep on an open queue are covered by pending notifications plus awake consumers, one for each frame; likewise producers and free slots. |
| QueueThreads.RunInv | src/audio_buffer.cpp:14-90 | This holds after every interleaving of any number of threads, with spurious wake-ups. |
| QueueThreads.FirstInFirstOut | src/audio_buffer.cpp:21-38 | In every run frames accepted are frames taken followed by the queue, in order, and the bound holds. |
| QueueThreads.NoneStranded | src/audio_buffer.cpp:14-90 | No sleeper is stranded: while a consumer sleeps although there is a frame or the queue is closed, an awake thread owes consumers a notification, is awake inside `pop`, or is about to wake all after closing; likewise for producers. |
| QueueThreads.ConsumersHelped | src/audio_buffer.cpp:27-39 | What that thread does next wakes a sleeping consumer or takes the first frame; after a close all consumers are woken with its second step at the latest. |
| QueueThreads.ProducersHelped | src/audio_buffer.cpp:14-25 | What that thread does next wakes a sleeping producer or stores a frame; after a close all producers are woken. |
| QueueThreads.QuietMeansBlocked | src/audio_buffer.cpp:83-90 | When all threads inside sleep, the queue is open and they are all consumers of an empty queue or all producers of a full one; after a close nobody stays asleep. |
| QueueThreads.EmptyHanded | src/audio_buffer.cpp:27-32 | A blocking `pop` returns nothing only when the queue is closed and every accepted frame has been taken. |
| QueueThreads.ClosedForGood | src/audio_buffer.cpp:83-90 | A closed queue stays closed and accepts nothing more. |
| QueueThreads.TryPushExact | src/audio_buffer.cpp:41-50 | After any run `try_push` accepts exactly on an open queue with fewer frames than its capacity, appending the frame; otherwise it changes nothing. |
| QueueThreads.TryPopExact | src/audio_buffer.cpp:52-62 | After any run `try_pop` takes the oldest accepted frame whenever there is one, open or closed; otherwise it changes nothing. |
| QueueThreads.PushExact | src/audio_buffer.cpp:14-25 | After any run `push` is refused only by a closed queue, sleeps only on a full open one, and otherwise appends its frame. |
| QueueThreads.PopExact | src/audio_buffer.cpp:27-39 | After any run `pop` takes the oldest accepted frame; without one it is refused by a closed queue and sleeps on an open one. |
| QueueThreads.FillsToCapacity | src/audio_buffer.cpp:41-50 | A new queue accepts exactly as many offers in a row as its capacity and refuses the next. |
| LeastSquares.FitIsBest | src/clock_estimator.cpp:49-84 | No line has a smaller sum of squared residuals over the samples than the fitted one. |
| LeastSquares.FitIsExact | src/clock_estimator.cpp:49-84 | Samples on one line are fitted by that line. |
| LeastSquares.FitExists | src/clock_estimator.cpp:50-73 | A line is determined exactly when two samples differ in remote time. |
| LeastSquares.SpreadNonNegative | src/clock_estimator.cpp:61-73 | Chebyshev's sum inequality for samples sorted in both coordinates. |
| LeastSquares.RateNonNegative | src/clock_estimator.cpp:73-80 | The rate fitted to sorted samples is never negative. |
| ClockEstimator.ClockEstimator.AddSample | src/clock_estimator.cpp:17-47 | Which readings are taken, what the window becomes and what the estimate becomes. |
| ClockEstimator.ClockEstimator.Recalculate | src/clock_estimator.cpp:49-85 | The accumulation loops compute the fit of the window; an undetermined fit only clears readiness. |
| ClockEstimator.ClockEstimator.Means | src/clock_estimator.cpp:54-61 | The first loop computes both means. |
| ClockEstimator.ClockEstimator.Deviations | src/clock_estimator.cpp:62-69 | The second loop computes covariance and variance about the means. |
| ClockEstimator.ClockEstimator.MapRemoteToLocal | src/clock_estimator.cpp:87-105 | The mapped time, truncated towards zero, or nothing outside the signed 64-bit range. |
| ClockEstimator.ClockEstimator.Reset | src/clock_estimator.cpp:107-115 | A reset estimator is a new one. |
| ClockModel.WindowIsLatest | src/clock_estimator.cpp:31-46 | In every run the window holds exactly the latest readings taken since the last reset, up to the capacity, relative to the first; the estimate is ready exactly when they determine a line, and is that line. |
| ClockModel.MappingIsBest | src/clock_estimator.cpp:49-85 | In every run the ready mapping has the least squared error over the retained readings, in absolute times. |
| ClockModel.MappingIsExact | src/clock_estimator.cpp:87-105 | In exact arithmetic, in every run, retained readings on one line are mapped along it, each back to its own local time. |
| ClockModel.RateNeverNegative | src/clock_estimator.cpp:31-80 | The sample filter and front eviction keep the rate from ever being negative. |
| ClockModel.ScheduleKeepsOrder | src/playback_scheduler.cpp:15-32 | In every run an earlier remote timestamp never gets a later play time, and decisions respect that order at every moment. |
| ClockModel.ScheduledExactly | src/playback_scheduler.cpp:15-23 | A schedule exists if and only if the window determines a line and the exact time fits 64 bits; it has the frame's number, and its play time less the playout delay is the exact time truncated towards zero. |
| ClockModel.ScheduledOnLine | src/playback_scheduler.cpp:15-23 | In exact arithmetic, in every run whose retained readings lie on one line, a timestamp that the line takes to a whole nanosecond is scheduled the playout delay after it, under the frame's number. |
| ClockModel.ReadingScheduled | src/playback_scheduler.cpp:15-32 | So is a retained reading, after its own local time; it is ready exactly then, too early before and late after. |
| ClockModel.ReadyExactly | src/clock_estimator.cpp:49-80 | In every run the estimate is ready exactly when two retained readings differ in remote time. |
| ClockModel.DriftReported | src/clock_estimator.cpp:80-84 | In every run the reported drift is the rate's distance from one in parts per million, ready or not. |
| SyncModel.CorrectionShrinks | src/multi_device_sync.cpp:142-146 | A correction never flips the error's sign nor enlarges it; it takes off at most the clamp and at most the rate's share, and no less than the clamp, or the share less one nanosecond plus the rate. |
| SyncModel.ExcessFalls | src/multi_device_sync.cpp:134-148 | One update and the drift after it: the excess over any level from the limit up shrinks by the convergence rate or falls by at least the clamp less the drift. |
| SyncRuns.NeverSaturates | src/multi_device_sync.cpp:89-103 | Starting in range, no error in the run leaves the signed 64-bit range. |
| SyncRuns.StaysWithin | src/multi_device_sync.cpp:134-164 | Once within the limit (1 + rate + drift) / rate, or any wider level, the error stays there. |
| SyncRuns.Converges | src/multi_device_sync.cpp:134-164 | An explicit number of updates, from any start in range, brings the error within any epsilon of the limit for good. |
| SyncRuns.ShrinksGeometrically | src/multi_device_sync.cpp:142-146 | From an error whose share is within the clamp, the excess after k updates is at most (1 - rate)^k times the first. |
| SyncRuns.SynchronizedForGood | src/multi_device_sync.cpp:151-161 | With the error within a level between limit and tolerance, every later update leaves the endpoint synchronized and never rewrites its convergence time. |
| SyncRuns.EndsSynchronized | src/multi_device_sync.cpp:134-164 | With a tolerance above the limit, that many updates make the endpoint synchronized for good. |
| SyncRuns.DefaultsSuffice | include/distributed_audio/multi_device_sync.hpp:32-37 | With the default parameters and a clock off by up to one percent the limit is 800005 ns, below the tolerance. |
| SyncRuns.SkewBounded | src/multi_device_sync.cpp:170-184 | Endpoints within one level are at most twice that level apart. |
| SyncRuns.SkewConverges | src/multi_device_sync.cpp:134-184 | After that many updates the skew of any group of endpoints is never again above twice the limit plus epsilon. |
| SyncReports.TimingErrorExact | src/multi_device_sync.cpp:89-103 | After any updates the timing error is what the endpoint's clock shows, from its offset, drift and the corrections made, less the reference time; truncated, and held at the ends of the 64-bit range. |
| SyncReports.NewEndpointError | src/multi_device_sync.cpp:89-103 | A new endpoint is off by its initial offset. |
| SyncReports.MetricsExact | src/multi_device_sync.cpp:105-113 | After any updates the applied correction is the sum of the corrections, the maximum is the greatest magnitude it has had, and the current error is the one left by the last update. |
| SyncReports.UpdateReports | src/multi_device_sync.cpp:149-161 | Synchronized exactly when what remains is within the tolerance, else degraded exactly when the error found was above eight times it; the convergence time is written exactly on becoming synchronized. |
| SyncController.PlaybackEndpoint.ApplyCorrection | src/multi_device_sync.cpp:105-113 | Corrections accumulate, and the largest magnitude is kept. |
| SyncController.SynchronizationController.UpdateOne | src/multi_device_sync.cpp:137-161 | One endpoint's correction, remaining error, state and convergence time. |
| SyncController.SynchronizationController.Update | src/multi_device_sync.cpp:134-164 | Every listed endpoint is updated as often as it is listed, null entries are passed over, and the controller's clock advances. |
| SyncController.SynchronizationController.MaximumSkew | src/multi_device_sync.cpp:170-184 | The result is attained by two endpoints and bounds every pair; it is zero for no endpoints. |
| Packets.HeadOfPut | src/packet_serializer.cpp:14-60 | A big-endian field is read back as the value written, leaving the rest. |
| Packets.PutOfHead | src/packet_serializer.cpp:14-60 | A field read is the only way to write those bytes. |
| Packets.MostSignificantFirst | src/packet_serializer.cpp:46-60 | The first byte of a number weighs most. |
| Packets.AppendNumber | src/packet_serializer.cpp:23-33 | The shifting loop appends the value's bytes, most significant first. |
| Packets.ReadNumber | src/packet_serializer.cpp:46-60 | The reading loop gives the value of the next bytes and advances past them, in bounds. |
| DiscoveryCodec.RoundTrip | src/device_discovery.cpp:98-196 | A packet is read as a message if and only if the message is written as that packet, a QUERY with a device apart. |
| DiscoveryCodec.SentIsRead | src/device_discovery.cpp:139-196 | Every message sent is read back as it was; a QUERY with a device is refused for its length. |
| DiscoveryCodec.AcceptedIsSent | src/device_discovery.cpp:139-196 | Every accepted packet is the packet of the message it yields, within all limits. |
| DiscoveryCodec.NeverTooLarge | src/device_discovery.cpp:125-127 | The "payload is too large" branch is unreachable: every valid message is serialized. |
| DiscoveryLayout.HeaderLayout | src/device_discovery.cpp:128-135 | What the header's bytes say, "DIS1" first, the type counted from 1. |
| DiscoveryLayout.Layout | src/device_discovery.cpp:102-124 | Where the id, both strings, the three numbers and every item of the three lists are. |
| DiscoveryLayout.RefusedExactly | src/device_discovery.cpp:139-196 | Every byte string is refused with the first complaint in a list of checks on bytes by position, or accepted if there is none. |
| DiscoveryCodec.SerializeMessage | src/device_discovery.cpp:98-137 | The appending serializer produces exactly the packet format, or refuses. |
| DiscoveryCodec.DeserializeMessage | src/device_discovery.cpp:139-196 | The offset-advancing parser gives the format's message or the right error on every byte string, reading only in bounds. |
| DiscoveryCodec.ReadList | src/device_discovery.cpp:179-188 | The element loop reads the counted list, or fails, with the offset in bounds. |
| DiscoveryCodec.ReadString | src/device_discovery.cpp:164-171 | A string is read within its limit and the packet. |
| SessionCodec.ParsesExactly | src/audio_session.cpp:151-206 | The parser accepts exactly the packets of well-formed messages and yields that message. |
| SessionCodec.SerializesExactly | src/audio_session.cpp:111-149 | Every well-formed message but a REJECT without reason is serialized; none is too large. |
| SessionCodec.RoundTrip | src/audio_session.cpp:111-206 | A message is written as a packet if and only if the packet is read as it and it is no REJECT without reason. |
| SessionCodec.ReasonlessRejection | src/audio_session.cpp:117-118 | A REJECT without reason parses but cannot be serialized. |
| SessionLayout.Layout | src/audio_session.cpp:119-147 | What every byte of a control message says, "SES1" first, kinds counted from 1 and reasons from 0. |
| SessionLayout.ConfigurationLayout | src/audio_session.cpp:127-137 | Where every field of the configuration is. |
| SessionLayout.RefusedExactly | src/audio_session.cpp:151-206 | Every byte string is refused with the first complaint in a list of checks on bytes by position, or accepted if there is none. |
| SessionCodec.SerializeMessage | src/audio_session.cpp:111-149 | The appending serializer produces exactly the packet format, or refuses. |
| SessionCodec.DeserializeMessage | src/audio_session.cpp:151-206 | The offset-advancing parser gives the message or the right error on every byte string, reading only in bounds. |
| MediaCodec.TimestampExact | src/packet_serializer.cpp:62-68 | Every signed 64-bit timestamp, negative ones too, survives its two's-complement bits. |
| MediaCodec.RoundTrip | src/packet_serializer.cpp:76-166 | A packet is read as a frame if and only if the frame is written as that packet and is not empty. |
| MediaCodec.EmptyIsRefused | src/packet_serializer.cpp:138-140 | A frame without samples is sent but refused for its sample count. |
| MediaCodec.NeverIllFormed | src/packet_serializer.cpp:157-165 | The frame constructor never throws on a header that passed: `invalid_audio_frame` is never returned. |
| MediaLayout.Layout | src/packet_serializer.cpp:92-107 | What every byte of a sent frame says, "DAS1" first, a negative timestamp in two's complement. |
| MediaLayout.RefusedExactly | src/packet_serializer.cpp:110-166 | Every byte string is refused with the first complaint in a list of checks on bytes by position, or accepted if there is none. |
| MediaCodec.SerializeFrame | src/packet_serializer.cpp:76-108 | The appending serializer produces exactly the packet format, or refuses. |
| MediaCodec.DeserializeFrame | src/packet_serializer.cpp:110-166 | The parser gives the frame or the first error in the source's order on every byte string, reading only in bounds. |
| MediaCodec.SerializeMedia | src/audio_stream.cpp:81-90 | The envelope is the session id and the frame's packet, or nothing if either is invalid. |
| MediaCodec.DeserializeMedia | src/audio_stream.cpp:92-103 | The envelope opens exactly as the format says, on every byte string. |
| MediaCodec.OpensForItsSession | src/audio_stream.cpp:81-103 | A sealed frame opens, to itself, exactly for the session it was sealed for. |
| MediaCodec.OpenedWasSealed | src/audio_stream.cpp:92-103 | Whatever opens for a session was sealed for it. |
| SequenceTracker.SequenceTracker.Observe | src/sequence_tracker.cpp:5-28 | The disposition and every counter after a packet, the missing estimate in its 64 bits. |
| SequenceTracker.MissingWraps | src/sequence_tracker.cpp:13-27 | Over every run within half range the missing estimate is, modulo 2^64, the number of numbers from first to greatest that no forward move landed on; the counters add up. |
| SequenceTracker.MissingExact | src/sequence_tracker.cpp:13-27 | The estimate is exact if and only if there are fewer than 2^64 such holes; their number follows from the span and the counters, and a span of at most 2^64 suffices. |
| SequenceTracker.FourPacketsWrap | src/sequence_tracker.cpp:19-24 | Four packets, each as far ahead as allowed, make the estimate wrap. |
| SequenceTracker.MissingBoundsLoss | src/sequence_tracker.cpp:13-27 | The holes exceed the numbers never received by exactly the distinct late arrivals that filled one, and so does the estimate if and only if that total is below 2^64. |
| SessionLiveness.SessionLiveness.TryRetry | src/network_resilience.cpp:68-72 | When a retry is granted and what it leaves. |
| SessionLiveness.SessionLiveness.Update | src/network_resilience.cpp:60-64 | Timeouts and a lost peer move the state; stopped and failed stay. |
| SessionLiveness.SessionLiveness.ObserveTraffic | src/network_resilience.cpp:58 | Traffic resets the timer and brings back an interrupted stream, nothing else. |
| SessionLiveness.SessionLiveness.SetPeerAvailable | src/network_resilience.cpp:59 | A returning peer counts as traffic, a lost one interrupts. |
| SessionLiveness.RetriesBounded | src/network_resilience.cpp:58-72 | In every run at most the maximum of retries is granted between recoveries, none is counted while streaming, and failure means all were used. |
| SessionLiveness.RetriesSpaced | src/network_resilience.cpp:68-72 | In every run granted retries are at least the interval apart, across outages and recoveries. |
| SessionLiveness.NeverRevived | src/network_resilience.cpp:58-72 | Stopped is never left, and failed only by `stop`. |
| SessionLiveness.OutageFails | src/network_resilience.cpp:68-72 | In an outage, well-timed requests fail after exactly the attempts that are left. |
| SessionLiveness.SilenceExact | src/network_resilience.cpp:58-59 | In every run the timer and the peer flag are the last traffic heard and the last word on the peer. |
| SessionLiveness.TimeoutsExact | src/network_resilience.cpp:60-64 | After any run, which silence interrupts a stream, which puts it into recovery, and which leaves it as it is. |
| SessionLiveness.TrafficExact | src/network_resilience.cpp:58 | After any run traffic brings back exactly an interrupted or recovering stream, with all its retries. |
| SessionLiveness.RetryExact | src/network_resilience.cpp:68-72 | After any run a retry is granted exactly to a stream that is down, has attempts left and is past the interval since the last one granted; asking without any left is what fails it. |

## Left out

- Counters that grow by one per event are unbounded numbers; the 64-bit ones would wrap after 2^64 events. The missing-packet estimate, which grows faster, is kept to 64 bits.
- Constructor checks that throw (capacities, timeouts, playout delay, drift) are preconditions or types; an exception thrown by a serializer is the result `None`.
- Float rounding, NaN and infinity in the estimator and the controller: the arithmetic is exact over the reals, so the `isfinite` checks never fail and are not modelled.
- SyncModel.Update: `llabs` and the cast to 64 bits are not modelled at the single value INT64_MIN, where C++ leaves them undefined, and the accumulated correction is unbounded; the run theorems assume a first error and a limit in range and prove that every later error is.
- JitterModel.Conceal: the timestamp sum is an unbounded integer, so signed overflow of a timestamp near 2^63 is not modelled.
- JitterModel.Pop: the deadline, the clock reading plus the missing wait (src/jitter_buffer.cpp:112), is unbounded too.
- SessionLiveness.ShouldRetry: so is the next retry time (src/network_resilience.cpp:71).
- ClockModel.MappingIsExact: in exact arithmetic; in `double` the truncation at src/clock_estimator.cpp:104 can give one nanosecond less.
- ClockModel.Schedule: adding the playout delay is unbounded, so overflow near the end of the clock's range is not modelled.
- JitterBuffer.JitterBuffer.Insert: the unbounded number of an arrival is a ghost argument within 2^63 of the cursor; every 64-bit word has exactly one such number, so no word is excluded.
- MediaCodec.RoundTrip: timestamps are those a signed 64-bit count can hold, which is all that the source's type allows.
- SessionCollisions.ReceiverAgreement: for fewer than 2^64 - 1 offers by each manager, because its id counter wraps after that and issues its old ids again.
- AudioBuffer.AudioBuffer.OfferFrame: `try_push` and `try_pop` are one atomic step each, as they notify under the lock; the wait inside `push` and `pop` is the step that ends `Asleep` and is entered again after a wake-up.
- Sockets, ports, polling services, the stream sender and receiver loops, PortAudio and the mock backend: input and output.
- Gain, mixing, metering, sample conversion and the sine source: per-sample floating point.
- SyncController.PlaybackEndpoint.Stop: leaves out closing the endpoint's own jitter buffer, which is modelled on its own.
- `PlaybackEndpoint::load` and `advance` and the impairment simulation: they drive the components modelled here.
- `DeviceRegistry`, `AdaptiveJitterBuffer`, `NetworkStatistics`, `JitterEstimator`, hex id strings and error texts: simple maps, counters and tables.
