# The scrcpy client, modelled and verified

scrcpy displays and controls an Android device from a computer. Its client is a set of small
concurrent protocols around bounded buffers, and a few exact transformations. This project models
them in Dafny and proves what they promise:

- **Audio** (`AudioBuffer`, `RingConcurrency`, `Fifo`, `AudioRegulation`, `RegulatorConcurrency`,
  `RegulatorAlone`, `RegulatorOnRing`, `Memory`): the lock-free ring buffer, step by step, the regulator
  that buffers, drops and compensates, and its two threads on that ring.
- **Recording** (`Recording`, `RecorderWakeups`, `Recorder`, `PtsRepair`, `Muxing`): the recorder thread, its two queues, its
  lookahead, its origin of time and its repair of timestamps.
- **Control channel** (`Controller`, `ControllerObject`, `HidDescriptor`, `HidGamepad`, `GamepadUhid`,
  `AoaHid`, `AoaWakeups`, `ClipboardSync`, `VirtualFinger`, `InputManager`): the queue of control messages, the resize slot,
  the gamepads, the handshake of Ctrl+v over two channels and the virtual finger.
- **Formats** (`DeviceMsg`, `Receiver`, `ControlMsg`, `ControlMsgSerializer`, `Utf8`, `FixedPoint`,
  `Binary`, `Command`): the
  incremental parsing of device messages, the serialization of control messages and the escaping of
  Windows command lines.
- **Display** (`FrameBuffer`, `ScreenFrames`, `V4l2Sink`, `Orientations`, `ScreenGeometry`, `Coords`,
  `Clock`): the frame mailbox, orientations and coordinates, window sizes and the clock.

An object that the source updates in place is a class, whose methods state the whole new state as a
step function of the old one; loops over buffers are methods with loops over arrays. A protocol
between threads is a state machine over these steps, `Run` is the state after any sequence of
actions, and results about `Run` hold of every interleaving. `Execute` methods connect the two: any
interleaving of the methods on the objects is a run of the state machine.

`dafny verify dfyconfig.toml` checks everything.

## What the code does not promise everywhere

Where a property does not hold of the code on all inputs, it is proved exactly when it does:

- The `uint32_t` cursor arithmetic of the ring is exact if and only if `alloc_size <= 2^31`
  (`AudioBuffer.CanReadIsExactIff`).
- The repaired timestamps strictly increase if and only if the stream does not start with two
  `AV_NOPTS_VALUE`, which `last_pts` also uses for "none yet" (`PtsRepair.IncreasesIff`).
- The recorder writes no negative time, for streams of which no packet is earlier than the first, if and
  only if it did not choose its origin after a stop, for want of an audio packet that came to start
  before the video (`Recording.TimesAreNotNegativeIff`, `Recording.NegativeTimeExample`).
- A command line is parsed back if and only if there is a program name, without a quote and without a
  final backslash, since program names follow other rules (`Command.RoundTripIff`).
- An input event of a gamepad with the id 0, which marks free slots, is not refused as its addition
  and removal are: it breaks the protocol if and only if its report is neither ignored nor dropped
  (`GamepadUhid.InputFollowsIff`, and over runs
  `GamepadUhid.RunFollowsIff`).
- The conversions of a pressure and of a scroll amount to fixed point assert on the values just below
  the top: they return if and only if the pressure is below 65535/65536 or 1, and the amount below
  32767/2048 or at least 16 (`FixedPoint.ToU16`, `FixedPoint.ToI16`, `FixedPoint.ScrollFitsIff`). SDL
  gives the pressure of a touch, which is passed on unchanged. Asserts are taken to be enabled; builds
  without them write the saturated value instead.
- The truncation of a string has no lower bound: it stays inside the string if and only if the string
  fits or one of its first max + 1 bytes is not a continuation byte, which well-formed UTF-8 guarantees
  (`Utf8.TruncationIndex`, `Utf8.StopsInsideUtf8`). These two conditions are exactly when a message is
  serialized (`ControlMsgSerializer.Serialize`) and the controller thread does not abort
  (`Controller.AbortsIff`).
- The receiver's assert on its buffer holds if and only if the device does not announce a clipboard
  text over the limit and send a full buffer of it (`Receiver.AssertionHoldsIff`).
- If posting a frame event fails, the frame stays pending with no event, later pushes post none
  either, and no frame is consumed again (`ScreenFrames.OneEventPerPendingFrame`,
  `ScreenFrames.FailedPostIsFinal`).
- On a reversed axis the conversion maps the first pixel of the window to the size of the frame, one
  past its last pixel (`ScreenGeometry.PointsOfContentAreInFrame`).
- A window much smaller than the ratio of the content allows is cropped to an empty one
  (`ScreenGeometry.OptimalSizeVanishesIff`).
- The server acknowledges a clipboard whether it could set it or not: Ctrl+v is injected with the text
  in the clipboard if and only if a clipboard manager could set it or the clipboard held it already
  (`ClipboardSync.KeyPastesIff`, `ClipboardSync.FailedSettingExample`).

## Model

| member | source | states |
|---|---|---|
| `AudioBuffer.CursorArithmetic` | scrcpy-master/app/src/util/audiobuf.h:55-67 | for allocations up to 2^31, the wrapping `uint32_t` expressions for the readable count, the free count and the advanced cursors are the distance between the cursors and the cell reached around the ring |
| `AudioBuffer.CanReadIsExactIff` | scrcpy-master/app/src/util/audiobuf.h:55-67 | the `uint32_t` readable count is right for all cursor positions if and only if `alloc_size` is at most 2^31 |
| `AudioBuffer.AudioBuf.constructor` | scrcpy-master/app/src/util/audiobuf.c:8-28 | an empty ring one cell larger than its capacity, in `uint32_t` arithmetic; it is valid for the other operations if and only if the capacity is below 2^31 |
| `AudioBuffer.AudioBuf.CountReadable` | scrcpy-master/app/src/util/audiobuf.h:55-67 | counts exactly the buffered samples |
| `AudioBuffer.AudioBuf.Read` | scrcpy-master/app/src/util/audiobuf.c:35-77 | delivers (or, for a NULL destination, only consumes) the oldest buffered samples, as many as requested or available, across the wrap-around; the rest of the destination and of the buffer is unchanged |
| `AudioBuffer.AudioBuf.Write` | scrcpy-master/app/src/util/audiobuf.c:79-118 | appends a prefix of the source, as long as the free space allows, to the buffered samples, across the wrap-around, changing none of them |
| `AudioBuffer.AudioBuf.WriteSilence` | scrcpy-master/app/src/util/audiobuf.c:120-153 | appends as much silence as fits, up to the requested count |
| `AudioBuffer.WindowAfterStore` | scrcpy-master/app/src/util/audiobuf.c:79-118 | storing samples around the ring from the write cursor on extends the readable window by exactly these samples |
| `RingConcurrency.StepRefines` | scrcpy-master/app/src/util/audiobuf.c:35-153 | each load, copied sample or store of either thread keeps the invariant and is a step, or no step, of the FIFO queue |
| `RingConcurrency.RunRefinesFifo` | scrcpy-master/app/src/util/audiobuf.c:35-153 | every interleaving of one writer and one reader, including NULL reads, is a run of a FIFO queue of capacity `alloc_size - 1` |
| `RingConcurrency.InFlightCellsAreDisjoint` | scrcpy-master/app/src/util/audiobuf.c:35-153 | in every interleaving, the cells being written never overlap the readable cells, and the cells being read are readable ones |
| `RingConcurrency.RunConservesSamples` | scrcpy-master/app/src/util/audiobuf.c:35-153 | in every interleaving, samples written are those delivered, skipped and still visible, and what was delivered is an in-order subsequence of what was written |
| `RingConcurrency.ProbesAreExact` | scrcpy-master/app/src/util/audiobuf.h:55-67 | `sc_audiobuf_can_read()` is exact at its last load for the writer, and a lower bound, exact at its first load, for the reader |
| `Fifo.RunConservesSamples` | scrcpy-master/app/src/util/audiobuf.c:35-153 | any run of the queue conserves samples, delivers an in-order subsequence and respects the capacity |
| `RegulatorConcurrency.AssertsHold` | scrcpy-master/app/src/audio_regulator.c:198-284 | whatever the player pulls meanwhile, the asserts `skipped_samples == remaining`, `w == remaining` and `r == skip_samples` never fail |
| `RegulatorConcurrency.PushBoundsBuffering` | scrcpy-master/app/src/audio_regulator.c:240-284 | while no product wraps, every successful push returns with at most a tenth of the target and 60 ms above the target, or 10 ms as long as it has not seen the playback start, which it sees only once it has |
| `RegulatorConcurrency.DropsToLimit` | scrcpy-master/app/src/audio_regulator.c:257-284 | in every run, a push drops samples for its limit only above it, and leaves exactly that much, which is not below the target while no product wraps |
| `RegulatorConcurrency.LaterPushesSeePlayed` | scrcpy-master/app/src/audio_regulator.c:240-256 | every push that begins after the playback has started has the limit of a started playback, whatever follows |
| `RegulatorConcurrency.LimitIs` | scrcpy-master/app/src/audio_regulator.c:246-256 | while no product wraps, `max_buffered_samples` is the target and a tenth of it and 60 ms, or 10 ms before the playback starts; starting the playback never lowers it |
| `RegulatorConcurrency.SamplesAreConserved` | scrcpy-master/app/src/audio_regulator.c:62-284 | over every interleaving: samples stored (resampled and inserted silence) = pulled + in the player's hands + skipped + buffered; pulled samples are an in-order subsequence of the stored ones; every pull fills exactly the requested count, with silence only after the samples |
| `RegulatorConcurrency.NothingDeliveredBeforeTarget` | scrcpy-master/app/src/audio_regulator.c:62-119 | no sample is delivered before the buffering first reached the target |
| `RegulatorConcurrency.StepUsesQueue` | scrcpy-master/app/src/audio_regulator.c:62-284 | every step of either thread acts on the ring only through the queue steps that the ring refines |
| `RegulatorOnRing.RunSimulates` | scrcpy-master/app/src/audio_regulator.c:62-284 | every interleaving of pushes and pulls in which each load, copied sample and store of the ring is a step, and which knows of the ring only what its loads returned, is a run of the regulator on the queue |
| `RegulatorOnRing.StepSimulates` | scrcpy-master/app/src/audio_regulator.c:62-284 | each of these steps is one step of the regulator on the queue, or none |
| `RegulatorOnRing.RegulatorOnRingIsCorrect` | scrcpy-master/app/src/audio_regulator.c:62-284 | so, on the ring itself: no assert fails, one thread at a time uses the reader cursor, samples stored = pulled in order + skipped + readable, pulls are filled, pushes leave at most their limit, and nothing is pulled before the target was reached |
| `RegulatorOnRing.OperationsEnd` | scrcpy-master/app/src/util/audiobuf.c:35-153 | an operation of the ring takes a bounded number of steps of its thread, whatever the other thread does |
| `RegulatorConcurrency.ProducerKeeps` | scrcpy-master/app/src/audio_regulator.c:140-284 | every step of a push keeps the producer's assertions and guarantees what the player relies on |
| `RegulatorConcurrency.PlayerKeeps` | scrcpy-master/app/src/audio_regulator.c:62-119 | every step of a pull keeps the player's assertions and guarantees what the producer relies on |
| `RegulatorAlone.PushAlone` | scrcpy-master/app/src/audio_regulator.c:140-284 | a push of the interleaving model that runs without interference leaves the buffer and the underflow that the contract of `AudioRegulation.AudioRegulator.Push` says, and records its limit |
| `RegulatorAlone.PullAlone` | scrcpy-master/app/src/audio_regulator.c:62-119 | a pull that runs without interference has the result and the effects of the contract of `AudioRegulation.AudioRegulator.Pull` |
| `AudioRegulation.AudioRegulator.Pull` | scrcpy-master/app/src/audio_regulator.c:62-119 | silence only, and nothing consumed, until the start-up buffering is reached; afterwards the oldest samples, completed with silence, which is counted as underflow once a frame was received |
| `AudioRegulation.AudioRegulator.HandleDiscontinuity` | scrcpy-master/app/src/audio_regulator.c:140-172 | after a gap of more than 100 ms, silence is appended, and the average, the resynchronization counter and the compensation are reset; otherwise buffer and estimation are unchanged; the next expected PTS is set |
| `AudioRegulation.GapReachesTarget` | scrcpy-master/app/src/audio_regulator.c:148-158 | that silence brings the buffering, with the new frame, exactly to the target, unless it was above or the capacity is reached |
| `AudioRegulation.AudioRegulator.Store` | scrcpy-master/app/src/audio_regulator.c:204-238 | the buffer ends with the last samples of what it held followed by the chunk, up to the capacity, and the skipped count is the difference |
| `AudioRegulation.AudioRegulator.StoreResampled` | scrcpy-master/app/src/audio_regulator.c:198-238 | the same for a chunk of any length, only the end of which is stored if it exceeds the capacity |
| `AudioRegulation.AudioRegulator.DropExcess` | scrcpy-master/app/src/audio_regulator.c:262-284 | keeps the most recent `max_buffered_samples` samples and counts the skipped ones |
| `AudioRegulation.AudioRegulator.Compensate` | scrcpy-master/app/src/audio_regulator.c:289-360 | the whole estimation after a push: the new average, the resynchronization counter, and the compensation, recomputed once per second of audio and kept if the resampler rejects it |
| `AudioRegulation.Correction` | scrcpy-master/app/src/audio_regulator.c:324-340 | the compensation is at most 2%, and never drives the average away from the target |
| `AudioRegulation.CorrectionIs` | scrcpy-master/app/src/audio_regulator.c:318-340 | a gap under 1 ms while compensating, or under 4 ms otherwise, and an excess that the current buffering does not show, are ignored; any other is compensated, up to 2% |
| `AudioRegulation.EstimationFollows` | scrcpy-master/app/src/audio_regulator.c:292-313 | after a push the average is that of the average before, moved at once as the buffering but for the samples played and those skipped for want of room (subtracted twice), never below zero, and of the buffering before the limit |
| `AudioRegulation.CompensationStays` | scrcpy-master/app/src/audio_regulator.c:315-360 | the compensation stays until one second of audio has been written, by however many pushes |
| `AudioRegulation.CompensationChanges` | scrcpy-master/app/src/audio_regulator.c:315-360 | the push that completes the second starts a new one, with the correction of the average if the resampler accepts it |
| `AudioRegulation.ResetStaysQuiet` | scrcpy-master/app/src/audio_regulator.c:157-166 | after a discontinuity the average starts from the target, and nothing is compensated for a second of audio |
| `AudioRegulation.AverageIsMean` | scrcpy-master/app/src/util/average.c:12-21 | the running average is the exact mean of up to 128 values |
| `AudioRegulation.AverageIsBetween` | scrcpy-master/app/src/util/average.c:12-21 | for any number of values it stays between the least and the greatest |
| `AudioRegulation.AudioRegulator.Push` | scrcpy-master/app/src/audio_regulator.c:140-363 | the buffer after a whole push, as a function of the buffer before: gap silence, chunk, drops by capacity and by limit (a failed resampling leaves only the silence), and the average, compensation, counters and next expected PTS after it; while no product wraps, a push that ends at most 10% and 60 ms above the target (10 ms before the playback starts) drops nothing by limit, any other leaves exactly that much, and none drops below the target |
| `Recording.RecordsEverything` | scrcpy-master/app/src/recorder.c:287-461 | for every interleaving of both sinks, disable, close, stop and the recorder thread, a run that ends without error has handed the muxer exactly the accepted non-config packets of each stream, once each, in arrival order, with times relative to the first packet's origin and video durations taken from the next packet |
| `Recording.OriginIsLesser` | scrcpy-master/app/src/recorder.c:366-391 | in every run without error, once chosen, the origin is the first timestamp of the only stream, or the lesser of the first timestamps of both, unless the recorder was stopped while no audio packet was held: it is then that of the video |
| `Recording.TimesAreNotNegativeIff` | scrcpy-master/app/src/recorder.c:366-424 | in a run without error where no packet of a stream is earlier than its first one, no time written is negative if and only if the origin was not chosen after a stop for want of an audio packet that came to start before the video |
| `Recording.NegativeTimeExample` | scrcpy-master/app/src/recorder.c:366-424 | a run in which an earlier audio packet is pushed just before the stop, and is written at a negative time |
| `Recording.HeaderWaits` | scrcpy-master/app/src/recorder.c:200-285 | until it is stopped, the recorder writes the header only once every stream is open, and after the configuration packet of each one that expects it, which is its first packet |
| `Recording.WaitsOnlyForMissing` | scrcpy-master/app/src/recorder.c:182-330 | before the header and until it is stopped, the thread waits if and only if a stream is not open or has not received the configuration packet that it expects; afterwards, once the origin is chosen, it waits only when every packet accepted has been taken |
| `Recording.HeaderGivesUpIff` | scrcpy-master/app/src/recorder.c:200-230 | the header gives up if and only if the recorder is stopped without a video packet |
| `Recording.FailureHasReason` | scrcpy-master/app/src/recorder.c:200-474 | the thread fails only if a foreign call failed, if a stream that expects a configuration packet began with another one, or if the recorder was stopped before it could choose an origin |
| `Recording.StoppedEnds` | scrcpy-master/app/src/recorder.c:200-500 | once the recorder is stopped, its thread ends after a bounded number of its steps, whatever the foreign calls return |
| `Recording.DoneIsFinal` | scrcpy-master/app/src/recorder.c:486-494 | when the thread has ended, the recorder is stopped and nothing is queued |
| `Recording.SinksTell` | scrcpy-master/app/src/recorder.c:545-856 | in every run, which events of the sinks open a stream, with its index and whether it expects a configuration packet, and exactly which ones stop the recorder |
| `Recording.AssertsHold` | scrcpy-master/app/src/recorder.c:182-461 | no assert of the recorder thread fails, those on the stream indexes included, for any interleaving and any results of the foreign calls: an origin is chosen before anything is written, and no packet comes from a stream that is not recorded or has no index |
| `Recording.StepKeepsLanes` | scrcpy-master/app/src/recorder.c:287-461 | no step loses, duplicates or reorders a packet between acceptance, queue, held packet and writing |
| `Recording.StepKeepsLog` | scrcpy-master/app/src/recorder.c:287-461 | every step keeps the muxer log equal to the packets taken so far, the last video packet being delayed |
| `Muxing.RecordedTimes` | scrcpy-master/app/src/recorder.c:101-131 | for any rescaling to the time bases of the streams, a run that ends without error writes, in each stream, exactly the repaired sequence of the rescaled times of its accepted non-config packets |
| `Muxing.RecordedTimesIncreaseIff` | scrcpy-master/app/src/recorder.c:101-131 | these times strictly increase if and only if the two first rescaled ones are not both `AV_NOPTS_VALUE` |
| `Muxing.Streams.WriteStream` | scrcpy-master/app/src/recorder.c:106-131 | writes the repaired time on the stream of the packet, whose `last_pts` alone changes |
| `Muxing.WriteLog` | scrcpy-master/app/src/recorder.c:106-131 | writing a log of both streams computes their repair |
| `RecorderWakeups.NoWakeupIsLost` | scrcpy-master/app/src/recorder.c:182-461 | in every interleaving, spurious wakeups included, the recorder thread sleeps unsignalled only while its condition holds, and its sleeping changes no result: the state is that of a thread that rechecks at any time |
| `RecorderObject.Recorder.VideoSinkOpen` | scrcpy-master/app/src/recorder.c:544-593 | refused once stopped; otherwise as far as stream, parameters and orientation succeed: the index is set with the parameters, and the stream initialized, and the thread signalled, when all succeed |
| `RecorderObject.Recorder.VideoSinkPush` | scrcpy-master/app/src/recorder.c:608-642 | accepts and queues a packet, and signals the thread, unless stopped |
| `RecorderObject.Recorder.AudioSinkOpen` | scrcpy-master/app/src/recorder.c:645-681 | as far as stream and parameters succeed: index, expectation and initialization are set, and the thread signalled, when both do |
| `RecorderObject.Recorder.AudioSinkPush` | scrcpy-master/app/src/recorder.c:697-733 | accepts and queues a packet, and signals the thread, unless stopped |
| `RecorderObject.Recorder.AudioSinkDisable` | scrcpy-master/app/src/recorder.c:735-749 | audio is disabled and counts as initialized, so that the header step no longer waits for it |
| `RecorderObject.Recorder.StopRecording` | scrcpy-master/app/src/recorder.c:848-854 | stops; the close operations of both sinks do the same (lines 595-605 and 683-694) |
| `RecorderObject.Recorder.TakeConfigPackets` | scrcpy-master/app/src/recorder.c:200-231 | nothing changes while a stream is not initialized or its configuration packet is missing; otherwise the thread gives up (stopped without video packets) or takes the configuration packets |
| `RecorderObject.Recorder.WriteHeader` | scrcpy-master/app/src/recorder.c:233-285 | checks the configuration packets, with the asserts on the indexes of their streams, and writes the header, or fails |
| `RecorderObject.Recorder.TakePackets` | scrcpy-master/app/src/recorder.c:305-352 | nothing changes while no stream has a packet to take and the recorder is not stopped; otherwise each stream that holds no packet takes its oldest one, and the thread finishes once stopped and drained |
| `RecorderObject.Recorder.PrepareWrite` | scrcpy-master/app/src/recorder.c:354-391 | discards held configuration packets, and chooses the origin once: of the only stream, the lesser of both, or the video one when stopped without audio; fails when stopped without video |
| `RecorderObject.Recorder.WriteVideoPacket` | scrcpy-master/app/src/recorder.c:393-413 | one-packet lookahead: the previous video packet is written with the difference as its duration |
| `RecorderObject.Recorder.WriteAudioPacket` | scrcpy-master/app/src/recorder.c:415-428 | the audio packet is written with its origin subtracted |
| `RecorderObject.Recorder.WriteLastAndTrailer` | scrcpy-master/app/src/recorder.c:431-450 | the last video packet gets the fixed duration, and its failure is not an error |
| `RecorderObject.Execute` | scrcpy-master/app/src/recorder.c:475-506 | executing any interleaving on the object, with its waits and wakeups, is the corresponding run of the state machine |
| `PtsRepair.RecorderStream.NextPts` | scrcpy-master/app/src/recorder.c:106-121 | the written PTS and the new `last_pts`: a time not above a previous one becomes the previous one plus one, and any other is kept, as is any time when `last_pts` is `AV_NOPTS_VALUE` |
| `PtsRepair.WriteAll` | scrcpy-master/app/src/recorder.c:106-121 | the loop over a stream computes the repaired sequence |
| `PtsRepair.IncreasesIff` | scrcpy-master/app/src/recorder.c:106-121 | the written PTS strictly increase if and only if the stream does not start with two `AV_NOPTS_VALUE` |
| `PtsRepair.IsMaximum` | scrcpy-master/app/src/recorder.c:106-121 | out[n] is the maximum over k <= n of in[k] + (n - k), and it is reached |
| `PtsRepair.IsLeast` | scrcpy-master/app/src/recorder.c:106-121 | the output is strictly increasing, nowhere below the input, and pointwise least among all such sequences |
| `DeviceMsg.DeserializeOfEncode` | scrcpy-master/app/src/device_msg.c:10-78 | a message encoded by its layout is parsed back exactly, whatever bytes follow it |
| `DeviceMsg.EncodeOfDeserialize` | scrcpy-master/app/src/device_msg.c:10-78 | a complete parse consumed exactly the encoding of the message that it returned |
| `DeviceMsg.DeserializeIsStable` | scrcpy-master/app/src/device_msg.c:10-78 | more bytes change neither a complete message nor an error |
| `Receiver.ReceivedIsParseAll` | scrcpy-master/app/src/receiver.c:160-216 | parsing chunk by chunk, with the remainder kept, is parsing the whole stream |
| `Receiver.SplitsAgree` | scrcpy-master/app/src/receiver.c:160-216 | the messages and the error outcome are the same for every way of splitting a byte stream |
| `Receiver.DeliversWhatIsSent` | scrcpy-master/app/src/receiver.c:160-216 | any sequence of encodable messages is delivered exactly, with nothing left over |
| `Receiver.AssertionHoldsIff` | scrcpy-master/app/src/receiver.c:184-216 | `head < DEVICE_MSG_MAX_SIZE` holds if and only if the bytes received hold no full buffer of a clipboard message announcing a text over the limit; in particular if no announced length exceeds `DEVICE_MSG_TEXT_MAX_LENGTH` |
| `Receiver.OversizedExample` | scrcpy-master/app/src/device_msg.h:10-12 | a clipboard text one byte over the limit makes that assert fail |
| `Receiver.ProcessMsgs` | scrcpy-master/app/src/receiver.c:160-182 | the loop delivers the messages of the buffer, in order, and reports the consumed bytes or the error |
| `Receiver.RunReceiver` | scrcpy-master/app/src/receiver.c:184-221 | the fixed buffer, its shifts and the moving head deliver exactly the messages of the stream, and end in error exactly when it is invalid |
| `Command.PushBackslashes` | scrcpy-master/app/src/util/command.c:25-91 | the counted backslashes are written once or twice each |
| `Command.SerializeArg` | scrcpy-master/app/src/util/command.c:25-91 | the escaping loop with its backslash counter appends the quoted argument |
| `Command.SerializeWindows` | scrcpy-master/app/src/util/command.c:7-98 | the whole loop writes the quoted arguments separated by spaces |
| `Command.ParseOfEscape` | scrcpy-master/app/src/util/command.c:25-91 | inside the quotes, Microsoft's argument rules read back the pending backslashes and the rest of the argument |
| `Command.ArgsRoundTrip` | scrcpy-master/app/src/util/command.c:7-98 | any list of arguments, including empty ones and any run of backslashes and quotes, is read back by Microsoft's argument rules |
| `Command.RoundTripIff` | scrcpy-master/app/src/util/command.c:7-98 | the full command line, whose first word follows the rules of program names, is read back if and only if there is a first word and it has no quote and no final backslash |
| `ControlMsg.DecodeOfEncode` | scrcpy-master/app/src/control_msg.c:103-211 | a decoder written from the layout recovers each message for which the serializer returns, whatever follows, up to string truncation, missing names and fixed-point rounding |
| `ControlMsg.DecodeAllOfEncodeAll` | scrcpy-master/app/src/control_msg.c:103-211 | the concatenation of any sequence of messages that can be serialized is decoded back into that sequence |
| `ControlMsg.Utf8IsKept` | scrcpy-master/app/src/control_msg.c:76-101 | if the strings of a message are well-formed UTF-8, none is read before its start, and what is sent of them is well formed |
| `ControlMsg.NotSerializableExample` | scrcpy-master/app/src/control_msg.c:122-147 | a pressure of 65535.5/65536, or a scroll amount 1/4096 below 16, makes an assert of the serializer fail |
| `ControlMsg.FitsInBuffer` | scrcpy-master/app/src/control_msg.c:103-211 | every serialized message fits in `SC_CONTROL_MSG_MAX_SIZE`, which a clipboard text of maximal length fills |
| `ControlMsg.RoundingError` | scrcpy-master/app/src/util/binary.h:69-93 | pressure is rounded down by at most 1/65536, a scroll amount, clamped to [-16, 16], by at most 1/2048 |
| `FixedPoint.ToU16` | scrcpy-master/app/src/util/binary.h:69-78 | the asserts hold if and only if 0 <= f < 65535/65536 or f = 1; the fixed-point value is then within one unit below f |
| `FixedPoint.ToI16` | scrcpy-master/app/src/util/binary.h:83-93 | the asserts hold if and only if -1 <= f < 32767/32768 or f = 1; the fixed-point value is then within one unit of f |
| `FixedPoint.ScrollFitsIff` | scrcpy-master/app/src/control_msg.c:131-138 | once normalized and clamped, a scroll amount satisfies these asserts if and only if it is below 32767/2048 or at least 16 |
| `FixedPoint.AssertFailsExample` | scrcpy-master/app/src/util/binary.h:69-93 | values half a unit below the top make them fail |
| `Utf8.FindTruncationIndex` | scrcpy-master/app/src/util/str.c:173-187 | the loop finds the truncation index, or leaves the string |
| `Utf8.TruncationIndex` | scrcpy-master/app/src/util/str.c:173-187 | the loop stops inside the string if and only if the string fits or one of its first max + 1 bytes is not a continuation byte; the index is at most the limit and the length, and never inside a code point |
| `Utf8.LeavesStringExample` | scrcpy-master/app/src/util/str.c:173-187 | on max + 1 continuation bytes, the loop leaves the string |
| `Utf8.StopsInsideUtf8` | scrcpy-master/app/src/util/str.c:173-187 | it always does on well-formed UTF-8 |
| `Utf8.TruncatedIsUtf8` | scrcpy-master/app/src/util/str.c:173-187 | a truncated well-formed string is well formed |
| `Utf8.TruncatedIsLongest` | scrcpy-master/app/src/util/str.c:173-187 | and it is the longest well-formed beginning within the limit |
| `Utf8.ScalarIsWellFormed` | scrcpy-master/app/src/util/str.c:173-187 | the encoding of a Unicode scalar value by section 3 of RFC 3629 is well formed, whatever follows |
| `Utf8.WellFormedIsScalar` | scrcpy-master/app/src/util/str.c:173-187 | and only these encodings are: what the results above call well formed is UTF-8 |
| `Utf8.ContinuationBits` | scrcpy-master/app/src/util/str.c:173-187 | the bytes over which the loop goes back are those whose two upper bits are 10 |
| `ControlMsgSerializer.Serialize` | scrcpy-master/app/src/control_msg.c:103-211 | the serializer returns if and only if the pressure, the scroll amounts and the strings satisfy the conditions above; the bytes written in place, and their count, are then the encoding of the message |
| `ControlMsgSerializer.PutPayload` | scrcpy-master/app/src/control_msg.c:75-85 | the truncated string, or nothing for NULL, is copied, if its truncation stays inside it |
| `ControlMsgSerializer.PutString` | scrcpy-master/app/src/control_msg.c:87-93 | the truncated string, or nothing for NULL, after its 32-bit length, is appended in place |
| `ControlMsgSerializer.PutStringTiny` | scrcpy-master/app/src/control_msg.c:95-101 | the truncated string, or nothing for NULL, after its 8-bit length, is appended in place |
| `ControlMsgSerializer.PutPosition` | scrcpy-master/app/src/control_msg.c:67-74 | point and screen size are appended in place |
| `ControlMsgSerializer.Write32be` | scrcpy-master/app/src/util/binary.h:21-27 | four big-endian bytes are written at the offset and nothing else changes |
| `ControlMsgSerializer.Write64be` | scrcpy-master/app/src/util/binary.h:37-41 | eight big-endian bytes are written at the offset and nothing else changes |
| `Binary.Read64OfBe64` | scrcpy-master/app/src/util/binary.h:37-63 | reading back a big-endian 64-bit value |
| `Controller.NoWakeupIsLost` | scrcpy-master/app/src/controller.c:95-217 | signalling only on empty-to-non-empty and unset-to-set transitions loses no wakeup: a thread that waits unsignalled has an empty queue, no resize and no stop request |
| `Controller.SendsInOrder` | scrcpy-master/app/src/controller.c:95-217 | messages other than resizes are sent in the order of acceptance, and all of them have been sent when the thread waits |
| `Controller.AbortsIff` | scrcpy-master/app/src/controller.c:142-160 | only serializable messages are sent, and the program aborts exactly when the thread takes another one: never, if all the messages pushed are serializable |
| `Controller.SendsLatestResize` | scrcpy-master/app/src/controller.c:128-217 | resizes sent are a subsequence of the requests, and the last one sent is the last requested when the thread waits |
| `Controller.ResizeGoesNext` | scrcpy-master/app/src/controller.c:128-200 | in whatever follows the request of a resize, until another request, the first message that the thread takes is that resize: only the message being sent goes before it |
| `Controller.StoppedTakesNothing` | scrcpy-master/app/src/controller.c:165-185 | once it is stopped, whatever follows, the thread takes no message any more |
| `Controller.Drains` | scrcpy-master/app/src/controller.c:162-217 | a thread that is neither stopped nor ended sends everything pending after a bounded number of its steps, if sending succeeds and the messages are serializable |
| `Controller.EndHasReason` | scrcpy-master/app/src/controller.c:142-217 | the thread ends with an error only if sending failed otherwise than by the end of the stream, and without error only if it was stopped or the stream ended |
| `Controller.StopEnds` | scrcpy-master/app/src/controller.c:165-185 | after a stop, the thread ends within two of its steps, or has ended before |
| `Controller.AcceptedIff` | scrcpy-master/app/src/controller.c:95-126 | a message is dropped only when 60 are queued, and never if it creates or destroys a HID device |
| `Controller.QueueIsBounded` | scrcpy-master/app/src/controller.c:95-126 | in every run, at most 60 messages that can be dropped are queued |
| `ControllerObject.ControllerState.PushMsg` | scrcpy-master/app/src/controller.c:95-126 | queues the message below the limit, or if it is not droppable, and says whether it did |
| `ControllerObject.ControllerState.ResizeDisplayTo` | scrcpy-master/app/src/controller.c:128-140 | overwrites the resize slot, and signals only if it was unset |
| `ControllerObject.ControllerState.StopThread` | scrcpy-master/app/src/controller.c:239-245 | sets the flag and signals |
| `ControllerObject.ControllerState.Take` | scrcpy-master/app/src/controller.c:162-205 | the thread waits when there is nothing to do, ends when stopped, and otherwise takes the resize if there is one, or else the oldest message |
| `ControllerObject.ControllerState.Send` | scrcpy-master/app/src/controller.c:142-160 | the serialized bytes of the message are appended to the socket, or the thread ends, or the serialization asserts |
| `ControllerObject.Execute` | scrcpy-master/app/src/controller.c:95-217 | any interleaving on the object is a run of the state machine, and the bytes on the wire decode to the messages sent |
| `HidGamepad.Gamepads.SlotFind` | scrcpy-master/app/src/hid/hid_gamepad.c:213-223 | the first slot with the id, or none |
| `HidGamepad.Gamepads.GenerateOpen` | scrcpy-master/app/src/hid/hid_gamepad.c:238-257 | the first free slot is initialized for the gamepad, and no other changes |
| `HidGamepad.Gamepads.GenerateClose` | scrcpy-master/app/src/hid/hid_gamepad.c:259-276 | the slot of the gamepad is freed, and no other changes |
| `HidGamepad.Gamepads.GenerateFromAxis` | scrcpy-master/app/src/hid/hid_gamepad.c:409-454 | only that axis of the slot of the gamepad changes; an unknown axis or gamepad changes nothing |
| `HidGamepad.Gamepads.GenerateFromButton` | scrcpy-master/app/src/hid/hid_gamepad.c:370-407 | only that button of the slot of the gamepad changes; an unknown button or gamepad changes nothing |
| `HidGamepad.ReportIsRead` | scrcpy-master/app/src/hid/hid_gamepad.c:278-329 | reading the 15-byte report by its layout gives back the sticks, the triggers, the buttons and the direction of the pad |
| `HidGamepad.DescriptorIs` | scrcpy-master/app/src/hid/hid_gamepad.c:41-125 | interpreted item by item, the report descriptor declares X, Y, Rx and Ry of 16 bits up to 65535, Z and Rz of 16 bits up to 32767, sixteen buttons of one bit and a hat switch of 4 bits, in this order |
| `HidGamepad.OpenedIsAtRest` | scrcpy-master/app/src/hid/hid_gamepad.c:196-211 | the report of a gamepad just opened reads sticks in the middle and everything else released |
| `HidGamepad.AxisEventIsRead` | scrcpy-master/app/src/hid/hid_gamepad.c:409-454 | after an axis event, the field that the descriptor declares for that axis reads v + 32768 for a stick, and the positive part of v for a trigger; the other axes, the buttons and the hat switch read as before |
| `HidGamepad.ButtonEventIsRead` | scrcpy-master/app/src/hid/hid_gamepad.c:331-407 | after a button event, the bit that the descriptor declares for the number of that button says whether it is pressed; the other buttons, the sticks and the triggers read as before |
| `HidGamepad.WithButtonIsPressed` | scrcpy-master/app/src/hid/hid_gamepad.c:331-407 | a button event sets or clears that button and no other |
| `GamepadUhid.SentFollowsProtocol` | scrcpy-master/app/src/uhid/gamepad_uhid.c:20-128 | in every run of gamepad events with nonzero ids, duplicates and full queues included, the messages accepted and those sent follow (CREATE INPUT* DESTROY)* for each HID id |
| `GamepadUhid.StepKeeps` | scrcpy-master/app/src/uhid/gamepad_uhid.c:66-128 | every event keeps the slots in agreement with the phase of the protocol of their HID id |
| `GamepadUhid.InputFollowsIff` | scrcpy-master/app/src/hid/hid_gamepad.c:370-454 | an axis or button event breaks the protocol if and only if its id is the invalid one, 0, and its report is neither ignored nor dropped |
| `GamepadUhid.RunFollowsIff` | scrcpy-master/app/src/uhid/gamepad_uhid.c:66-128 | in a run of events with any ids, the messages accepted follow the protocol of every HID id if and only if no axis or button event with the id 0 had its report accepted |
| `GamepadUhid.InvalidIdExample` | scrcpy-master/app/src/hid/hid_gamepad.c:409-454 | one axis event with id 0 is enough to send an INPUT before any CREATE |
| `GamepadUhid.AxisEventIsReported` | scrcpy-master/app/src/uhid/gamepad_uhid.c:101-113 | in every run, an axis event that is neither ignored nor dropped queues a report of its gamepad in which the device reads that value |
| `GamepadUhid.ButtonEventIsReported` | scrcpy-master/app/src/uhid/gamepad_uhid.c:115-128 | so does a button event |
| `GamepadUhid.ReportsAreInRange` | scrcpy-master/app/src/hid/hid_gamepad.c:41-125 | in every run, the triggers are within the maximum that the descriptor declares |
| `GamepadUhid.GamepadProcessor.ProcessAdded` | scrcpy-master/app/src/uhid/gamepad_uhid.c:66-83 | opens a slot if one is free and pushes CREATE, with the name and the report descriptor |
| `GamepadUhid.GamepadProcessor.ProcessRemoved` | scrcpy-master/app/src/uhid/gamepad_uhid.c:85-99 | closes the slot and pushes DESTROY |
| `GamepadUhid.GamepadProcessor.ProcessAxis` | scrcpy-master/app/src/uhid/gamepad_uhid.c:101-113 | updates the slot and pushes its report |
| `GamepadUhid.GamepadProcessor.ProcessButton` | scrcpy-master/app/src/uhid/gamepad_uhid.c:115-128 | updates the slot and pushes its report |
| `AoaHid.AckSync.Acknowledge` | scrcpy-master/app/src/util/acksync.c:30-41 | records the acknowledgement, which must not decrease |
| `AoaHid.AckSync.Wait` | scrcpy-master/app/src/util/acksync.c:43-67 | whatever happens at each wakeup: acknowledged only if the sequence was reached, timed out only if not, interrupted if and only if stopped |
| `AoaHid.AckSync.Interrupt` | scrcpy-master/app/src/util/acksync.c:69-75 | sets the flag |
| `AoaHid.ThreadKeeps` | scrcpy-master/app/src/usb/aoa_hid.c:322-447 | every step of the thread keeps: each accepted event has one fate at most, events are handled in order, and an event handled after waiting was acknowledged |
| `AoaHid.ThreadKeepsOpen` | scrcpy-master/app/src/usb/aoa_hid.c:352-404 | `vec_open` lists exactly the devices successfully opened and not successfully closed since |
| `AoaWakeups.EndsOnlyIfAsked` | scrcpy-master/app/src/usb/aoa_hid.c:322-447 | in every run, the thread ends only when it was stopped or its wait was interrupted, an event is aborted only by that end, of which it is the last one taken, and a timeout does not end the thread |
| `AoaWakeups.TimeoutGoesOn` | scrcpy-master/app/src/usb/aoa_hid.c:337-345 | unless it is asked to end, the thread discards an event that times out, and takes the next one of the queue |
| `AoaWakeups.AcknowledgedIsSent` | scrcpy-master/app/src/usb/aoa_hid.c:337-359 | an event whose acknowledgement has arrived is sent, even after its deadline |
| `AoaWakeups.StoppedTakesNothing` | scrcpy-master/app/src/usb/aoa_hid.c:414-425 | once it is stopped, whatever follows, the thread takes no event any more |
| `AoaWakeups.EndsAtOnce` | scrcpy-master/app/src/usb/aoa_hid.c:345-447 | asked to end, a thread with nothing in progress ends at its next step, as does one whose wait is interrupted |
| `AoaWakeups.AskedEnds` | scrcpy-master/app/src/util/acksync.c:30-75 | a stop ends an idle thread at its next step, an interruption a waiting one, and an acknowledgement lets a waiting one send its event |
| `AoaWakeups.AcceptedIff` | scrcpy-master/app/src/usb/aoa_hid.c:224-320 | in every run, an input event is dropped exactly when 60 events are queued, and opening and closing events never are |
| `AoaHid.Aoa.PushInput` | scrcpy-master/app/src/usb/aoa_hid.c:224-256 | input events are queued below the limit and dropped above it; the thread is signalled if the queue was empty |
| `AoaHid.Aoa.PushOpenOrClose` | scrcpy-master/app/src/usb/aoa_hid.c:258-320 | open and close events are never dropped; the thread is signalled if the queue was empty |
| `AoaHid.Aoa.StopThread` | scrcpy-master/app/src/usb/aoa_hid.c:462-472 | sets the flag and signals the thread |
| `AoaWakeups.NoWakeupIsLost` | scrcpy-master/app/src/usb/aoa_hid.c:224-447 | signalling only when the queue was empty, on a stop, and on each acknowledgement loses no wakeup, and the sleeping of the thread changes no result |
| `AoaHid.Aoa.TakeEvent` | scrcpy-master/app/src/usb/aoa_hid.c:406-430 | the thread exits once stopped, sleeps while the queue is empty, or takes the oldest event, to wait for its acknowledgement if it has one to wait for |
| `AoaHid.Aoa.AwaitAck` | scrcpy-master/app/src/usb/aoa_hid.c:322-350 | the event is sent, skipped after the deadline or aborted, as the state in which the wait ended says |
| `AoaHid.Aoa.HandleEvent` | scrcpy-master/app/src/usb/aoa_hid.c:351-404 | the event has its fate, and `vec_open` gains the device that was opened or loses the one that was closed, if the transfer succeeded |
| `ClipboardSync.KeyFollowsClipboard` | scrcpy-master/app/src/input_manager.c:680-728 | in every run where the device handles messages in order and acknowledges a nonzero sequence after handling it, an event that waits for a requested sequence n, whoever pushes it and whenever, is sent over USB only once the device has handled the clipboard of sequence n |
| `ClipboardSync.KeyPastesIff` | scrcpy-master/server/src/main/java/com/genymobile/scrcpy/control/Controller.java:707-728 | the device has then handled that message once; its text came to be in the clipboard if and only if a clipboard manager could set it or it was there already; unless the clipboard was changed since, this is whether it holds the text when the event is sent |
| `ClipboardSync.FailedSettingExample` | scrcpy-master/server/src/main/java/com/genymobile/scrcpy/device/Device.java:120-136 | a run in which there is no clipboard manager: the clipboard is acknowledged and the event that waits for it is sent, but nothing was set |
| `ClipboardSync.AcksAreMonotonic` | scrcpy-master/app/src/util/acksync.c:30-41 | acknowledgements received strictly increase, so the assert of `sc_acksync_ack()` holds |
| `ClipboardSync.EveryEventHasOneFate` | scrcpy-master/app/src/usb/aoa_hid.c:322-447 | in every run each event has one fate at most: one that timed out or was interrupted is never sent |
| `ClipboardSync.AoaRuns` | scrcpy-master/app/src/usb/aoa_hid.c:224-447 | in every run, the AOA thread is in a state that it reaches with the pushes, acknowledgements, stops and steps of that run: what is proved of its own runs holds here |
| `ClipboardSync.SequenceStandsForText` | scrcpy-master/app/src/input_manager.c:296-330 | whatever follows, the message that the device handles for a sequence is that of the text synchronized with that sequence |
| `ClipboardSync.StepKeeps` | scrcpy-master/app/src/input_manager.c:680-728 | every step of the client, the device and the two channels keeps the invariant behind these results |
| `InputManager.CtrlVIsSteps` | scrcpy-master/app/src/input_manager.c:680-728 | in every mode (no synchronization, legacy paste, synchronous or asynchronous keyboard), Ctrl+v amounts to steps of the clipboard state machine |
| `InputManager.KeyWaitsForItsText` | scrcpy-master/app/src/input_manager.c:680-728 | with a keyboard that waits for acknowledgements, Ctrl+v requests the clipboard with the next sequence and the key waits for it; if the request is refused, nothing is pressed |
| `InputManager.KeyFollowsItsText` | scrcpy-master/app/src/input_manager.c:680-728 | with a keyboard over the control socket, the clipboard goes before the key in the same queue |
| `InputManager.OtherPastes` | scrcpy-master/app/src/input_manager.c:680-728 | nothing is sent if the text is not available, the legacy mode injects the text and no key, and without synchronization the key waits for nothing |
| `InputManager.CtrlVPastesItsText` | scrcpy-master/app/src/input_manager.c:680-728 | whatever follows a Ctrl+v, what becomes of the sequence that its key waits for is what becomes of its text |
| `InputManager.ShortcutsAre` | scrcpy-master/app/src/input_manager.c:837-935 | which keys or panels the shortcuts bound to mouse buttons press, release or expand, and that they do so only with a keyboard |
| `InputManager.RightClickPushes` | scrcpy-master/app/src/input_manager.c:850-950 | a right click pushes the shortcut of its binding, the secondary one with Shift, or what the mouse processor sends if that is a click; nothing while the screen is paused |
| `InputManager.MotionPushesAreLogged` | scrcpy-master/app/src/input_manager.c:747-785 | a motion that is handled pushes the message of the mouse processor, then the finger message that the state machine logs |
| `InputManager.ButtonPushesAreLogged` | scrcpy-master/app/src/input_manager.c:837-1008 | the finger message that a button event pushes is the one that the state machine logs |
| `InputManager.FingerMsgIs` | scrcpy-master/app/src/input_manager.c:376-399 | what a message of the virtual finger says: Android action, full pressure until the finger is up, and the point in the frame |
| `InputManager.Manager.ProcessCtrlV` | scrcpy-master/app/src/input_manager.c:673-745 | the sequence counter, the controller queue and the AOA queue after Ctrl+v, the state of the lock keys that a HID keyboard may send first included; the counter increases only when the request succeeded, and no key is injected when it failed |
| `InputManager.Manager.SimulateVirtualFinger` | scrcpy-master/app/src/input_manager.c:376-399 | pushes the touch message at the inverted point, and says whether it was accepted |
| `InputManager.Manager.ProcessMouseMotion` | scrcpy-master/app/src/input_manager.c:747-785 | the state and the messages pushed by a motion event |
| `InputManager.Manager.ProcessMouseButton` | scrcpy-master/app/src/input_manager.c:837-1008 | the state and the messages pushed by a button event: shortcuts, borders, forwarding, virtual finger |
| `InputManager.Execute` | scrcpy-master/app/src/input_manager.c:377-1008 | whatever the events and the interleaving with the controller thread and other pushes, the virtual finger messages on the wire are (DOWN MOVE* UP)* but perhaps for the last gesture |
| `VirtualFinger.GesturesAreWellFormed` | scrcpy-master/app/src/input_manager.c:747-1008 | in every run of mouse, pause, disconnect and queue-full events, accepted virtual finger messages form a prefix of (DOWN MOVE* UP)*, the inversion flags do not change from a DOWN to its UP, every point is the inverted mouse position, and the relative mode asserts hold |
| `VirtualFinger.InversionIsSymmetry` | scrcpy-master/app/src/input_manager.c:401-411 | the inversion is its own inverse and maps the frame to itself, edges included |
| `VirtualFinger.ModifiersPlaceFinger` | scrcpy-master/app/src/input_manager.c:960-1008 | in every run, the press that begins a gesture places the finger symmetrically to the mouse: through the center with Ctrl, across the vertical axis with Shift, across the horizontal one with both |
| `VirtualFinger.PressAddsIff` | scrcpy-master/app/src/input_manager.c:837-1008 | in every run, when the queue has room, a button event adds a finger message if and only if the finger can be used, the button is the left one, the window is not resized, and it begins a gesture with Ctrl or Shift while none is in progress, or ends the one in progress |
| `VirtualFinger.MotionAddsIff` | scrcpy-master/app/src/input_manager.c:747-785 | in every run, so does a motion if and only if a gesture is in progress |
| `VirtualFinger.QuietAddsNothing` | scrcpy-master/app/src/input_manager.c:747-850 | while the screen is paused, and for ever once the device is disconnected, no finger message is sent |
| `VirtualFinger.ButtonsFollow` | scrcpy-master/app/src/input_manager.c:837-950 | a press that is forwarded adds its button to those pressed, a release that is not filtered out removes it, and no other button changes |
| `VirtualFinger.ForwardsOnlyClicks` | scrcpy-master/app/src/input_manager.c:850-935 | with a controller, a button is forwarded only if it is bound to a click, with the secondary bindings if Shift is pressed |
| `VirtualFinger.ScreenTells` | scrcpy-master/app/src/input_manager.c:765-785 | the frame size and the pause told by the screen are those that the next events use |
| `FrameBuffer.FrameBuffer.Push` | scrcpy-master/app/src/frame_buffer.c:46-63 | the new frame replaces the pending one, which a failure preserves |
| `FrameBuffer.FrameBuffer.Consume` | scrcpy-master/app/src/frame_buffer.c:65-73 | returns the pending frame, which is no longer pending |
| `FrameBuffer.FrameBuffer.HasFrame` | scrcpy-master/app/src/frame_buffer.c:41-44 | says whether a frame is pending |
| `ScreenFrames.OneEventPerPendingFrame` | scrcpy-master/app/src/screen.c:446-473 | in every run the assert of the frame buffer holds, and NEW_FRAME events in flight number 1 when a frame is pending and 0 otherwise, if and only if no event could not be posted |
| `ScreenFrames.FailedPostIsFinal` | scrcpy-master/app/src/screen.c:446-473 | in every run, once posting an event failed, whatever follows, a frame stays pending without any event and no frame is consumed any more |
| `ScreenFrames.FailedPostExample` | scrcpy-master/app/src/screen.c:446-473 | one failed post, then one more push: the last frame is pending, no event is in flight and nothing was consumed |
| `ScreenFrames.FramesAreConserved` | scrcpy-master/app/src/screen.c:957-984 | pushed = consumed + skipped + pending, and frames are consumed in order |
| `ScreenFrames.LatestFrameWins` | scrcpy-master/app/src/screen.c:957-1016 | once drained, the last frame consumed is the last pushed, and it is the one shown unless paused |
| `ScreenFrames.EventIsHandled` | scrcpy-master/app/src/screen.c:957-984 | an event in the queue is enough for the pending frame to be consumed |
| `ScreenFrames.PausedShowsNothingNew` | scrcpy-master/app/src/screen.c:957-984 | while the screen is paused, whatever is received, what it shows does not change |
| `ScreenFrames.PauseRefreshes` | scrcpy-master/app/src/screen.c:986-1016 | unpausing a paused screen, or pausing it again, shows the last frame consumed meanwhile |
| `ScreenFrames.Screen.FrameSinkPush` | scrcpy-master/app/src/screen.c:446-473 | the frame mailbox after a push, and whether an event must be posted or a frame was skipped |
| `ScreenFrames.Screen.UpdateFrame` | scrcpy-master/app/src/screen.c:957-984 | consumes the pending frame, to the display or, when paused, to the frame to resume with |
| `ScreenFrames.Screen.SetPaused` | scrcpy-master/app/src/screen.c:986-1016 | unpausing shows the frame to resume with |
| `V4l2Sink.MailboxIsSound` | scrcpy-master/app/src/v4l2_sink.c:114-145 | `has_frame` says whether a frame is pending, so the assert of the frame buffer holds, and a thread that waits unsignalled has consumed the last frame pushed |
| `V4l2Sink.PushReplaces` | scrcpy-master/app/src/v4l2_sink.c:311-328 | in every run, a push replaces the pending frame, unless the frame cannot be referenced |
| `V4l2Sink.NextFrameIsWritten` | scrcpy-master/app/src/v4l2_sink.c:87-145 | a frame pushed to a thread that waits or is about to check, and is not stopped, is the next one written |
| `V4l2Sink.EndHasReason` | scrcpy-master/app/src/v4l2_sink.c:87-145 | the thread ends only if the sink is closed or a frame cannot be written |
| `V4l2Sink.ClosedEnds` | scrcpy-master/app/src/v4l2_sink.c:87-145 | once the sink is closed the thread ends within two of its steps, and it goes on after a frame that was written |
| `V4l2Sink.Sink.Push` | scrcpy-master/app/src/v4l2_sink.c:311-328 | the new frame replaces the pending one; the thread is signalled only when none was pending |
| `V4l2Sink.Sink.Check` | scrcpy-master/app/src/v4l2_sink.c:114-145 | the thread waits when no frame is pending, ends when stopped, and otherwise consumes the pending frame |
| `Orientations.ConvertOfApply` | scrcpy-master/app/src/options.c:128-162 | converting coordinates under `sc_orientation_apply(s, t)` is converting under t, then under s with the size swapped when t swaps, for all orientations, sizes and points |
| `Orientations.ConvertUndoesTurnsThenFlip` | scrcpy-master/app/src/screen.c:1292-1326 | the eight cases undo the quarter turns, one by one, then the flip |
| `Orientations.OrientedSizeOfApply` | scrcpy-master/app/src/screen.c:30-41 | the oriented size is compatible with the composition |
| `Orientations.ApplyIsGroup` | scrcpy-master/app/src/options.c:128-162 | the orientations form a group under the composition |
| `Orientations.ConvertOfInverse` | scrcpy-master/app/src/screen.c:1292-1326 | converting under the inverse orientation undoes the conversion |
| `ScreenGeometry.ToFrameOfApply` | scrcpy-master/app/src/screen.c:1275-1329 | the same law for the whole conversion, scaling of the content rectangle included |
| `ScreenGeometry.PointsOfContentAreInFrame` | scrcpy-master/app/src/screen.c:1275-1329 | points of the content rectangle map into the frame, edges included, and to one of its pixels if and only if they are not at the origin of a reversed axis |
| `ScreenGeometry.ScaleIs` | scrcpy-master/app/src/screen.c:1275-1329 | one coordinate: the truncated distance from the origin of the rectangle, times the ratio of the lengths, truncated |
| `ScreenGeometry.CornerExample` | scrcpy-master/app/src/screen.c:1275-1329 | upside down, the top-left corner of the window maps to (width, height) |
| `ScreenGeometry.Mul32` | scrcpy-master/app/src/screen.c:71-124 | the 32-bit products of 16-bit sizes never wrap |
| `ScreenGeometry.IsOptimalSizeIff` | scrcpy-master/app/src/screen.c:71-79 | a size is optimal if and only if one dimension is the truncated exact one for the other |
| `ScreenGeometry.OptimalSizeCrops` | scrcpy-master/app/src/screen.c:86-124 | the result grows no dimension of the clipped window, keeps one of them, satisfies `is_optimal_size()`, and computing it again changes nothing (with or without display bounds) |
| `ScreenGeometry.CroppedDimensionIsFloor` | scrcpy-master/app/src/screen.c:106-123 | the cropped dimension is less than one pixel below the one that keeps the ratio |
| `ScreenGeometry.OptimalSizeVanishesIff` | scrcpy-master/app/src/screen.c:86-124 | exactly which windows are cropped to nothing |
| `ScreenGeometry.LetterboxFits` | scrcpy-master/app/src/screen.c:196-222 | the letterboxed rectangle is centered in the window, touches two opposite sides, is not empty, and keeps the ratio unless the window is optimal |
| `ScreenGeometry.LetterboxIsLargest` | scrcpy-master/app/src/screen.c:196-222 | every rectangle of the ratio of the content that fits in the window is smaller |
| `ScreenGeometry.ContentRectIsUsable` | scrcpy-master/app/src/screen.c:166-222 | in every mode the rectangle is not empty, as the conversion asserts, and centered, except for an unscaled content larger than the window |
| `ScreenGeometry.ContentRectHasSize` | scrcpy-master/app/src/screen.c:166-222 | each mode displays the content at its own size, over the whole window, or with its ratio |
| `ScreenGeometry.IconIsNotScaledUp` | scrcpy-master/app/src/screen.c:166-222 | an icon has its own size if it fits in the window, and is scaled down into it otherwise |
| `Clock.ClockEstimator.UpdateClock` | scrcpy-master/app/src/clock.c:16-33 | one update of the weighted average, with truncating division |
| `Clock.StaysWithinObserved` | scrcpy-master/app/src/clock.c:16-33 | the offset stays between the least and the greatest offset observed so far |
| `Clock.ErrorAfter` | scrcpy-master/app/src/clock.c:16-33 | when the observed offset is the true one, the error keeps its sign, does not grow, and strictly shrinks while its magnitude is at least 32 |
| `Clock.ErrorShrinks` | scrcpy-master/app/src/clock.c:16-33 | so, from any state, it is below 32 after at most as many updates as its initial magnitude |
| `Clock.ConstantOffsetIsExact` | scrcpy-master/app/src/clock.c:16-33 | a fresh clock that observes a constant offset is exact from its first update on |
| `Clock.UpdateMoves` | scrcpy-master/app/src/clock.c:16-33 | an observation moves the offset by 32/32 of its distance if it is the first one, 31/32 for the second, down to 1/32 from the 32nd on, truncated |
| `Clock.OutliersAreDamped` | scrcpy-master/app/src/clock.c:16-33 | once 32 offsets have been observed, another one moves the offset by a 32nd of its distance at most, rounded up |
| `Clock.ClockEstimator.ToSystemTime` | scrcpy-master/app/src/clock.c:34-38 | after any updates, the system time is later than the stream time by something between the least and the greatest offset observed, and by exactly their common value if they are all equal |

## Left out

- Foreign calls (FFmpeg, SDL, libusb, sockets, adb): their results are parameters of the methods or of
  the actions; the muxer, the sockets and the USB device are logs of what they are handed.
- Out-of-memory paths, thread creation and destruction, and the freeing of resources.
- Weak memory orders: acquire and release accesses are atomic steps in program order.
- Timing: a timed wait ends signalled or timed out, arbitrarily; the 500 ms of the acknowledgement and
  the durations of sleeps are not modelled.
- Floats are reals: neither the rounding of averages, of rectangles and of fixed-point conversions nor
  their special values are modelled.
- 64-bit overflow of timestamps, of the clock and of the clipboard sequence counter, and `int32_t`
  overflow of coordinates: these integers are unbounded, but for the coordinates of a touch message,
  which wrap.
- The button and axis codes of SDL are enumerations.
- The server, but for what it does with clipboard messages, the command line options of `cli.c`,
  shortcuts other than those bound to mouse buttons, and the user interface: they would add independent
  cases rather than properties of runs.
- The mouse and touch processors behind their interfaces: an event makes one send at most one message,
  which is arbitrary but for the pointer id of the virtual finger. A keyboard sends at most the state
  of the lock keys, then the key.
- The NEW_FRAME events that are still queued when the device disconnects, which the main loop then
  discards.
- The exit loop of the AOA thread that unregisters the devices of `vec_open`; what that list holds is
  `AoaHid.ThreadKeepsOpen`.
- What av_packet_rescale_ts() computes: the rescaling of each stream is an arbitrary function.
- `sc_vecdeque` and `sc_vector`, modelled as sequences.
- What happens past the start of a string that is not well formed, where `Utf8.FindTruncationIndex`
  stops, and after an assert failed.
- ScreenFrames.Screen.FrameSinkPush: the histories of the state machine are a ghost parameter, with
  which the fields agree, instead of ghost fields.
- ClipboardSync.KeyPastesIff: does not model the characters by which the server replaces bytes that are
  not well-formed UTF-8, nor the PASTE key that it presses on request.
