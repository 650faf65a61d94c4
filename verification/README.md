# Quest virtual display host: verified model

This project models the host's video path, from captured frames to the bytes a headset reads, and proves
properties of it with Dafny. Run `dafny verify dfyconfig.toml` to check everything.

| files | what they model |
|---|---|
| `Bytes`, `Text`, `Clocks` | byte blocks, strings in code point order, a steady clock |
| `AnnexB`, `AnnexBSeam`, `AnnexBOutcome`, `AnnexBTypes` | `prepareAnnexB`, what a scan sees at the seam of `a ++ b`, its answer to every access unit, and the receiver's `annexb_types` |
| `Qstv`, `Receiver` | `framePacket`, `parse_header`, `read_exact` and the receive loop |
| `Encoder` | `VideoEncoder::encode` and `drain` |
| `Transport` | `TransportServer`, one method per uninterrupted step |
| `Pipeline`, `PipelineInvariant`, `Delivery`, `Accounting` | two workers, their encoders, the run loop and a client, interleaved step by step; the invariant; the theorems on states and on whole schedules |
| `Capture`, `CaptureInvariant`, `CaptureSafety`, `CaptureSession`, `StridedCopy` | the capture pool and queue as a state machine, its invariant, its theorems, the object whose loops follow it, and the CPU copy |
| `Vaapi` | the DMA-BUF converter: pending surface and import cache |
| `WorkerLoop`, `HeadsetMode` | the two loops of `host/stream_main.cpp` |
| `Recovery`, `Restoration`, `DisplayLayout` | the physical-display log as calls, deaths and events, what it restores, and the layout |
| `AdbListings`, `HeadsetWatch` | the listing parser and the hotplug watcher |

The scanner is specified without scanning (`AnnexB.IsHeader`: a NAL header is a byte behind `00 00 01`), and
the methods are proved against that. `Transport` and `Pipeline` share their step functions: every method of
`TransportServer` is proved to be one of them, and the state machine interleaves them. `CaptureSession` carries
a ghost state of the `Capture` machine, so whatever holds of every reachable state holds of the object.

## What is assumed

- The codec gives back access units in the order frames were submitted, with the submitted timestamps, at any
  time and with any bytes. A forced frame yields an IDR within the same `encode()` call: this is the guard of
  the step `Pipeline.Return`, and only `Delivery.NoKeyframeRequestIsLost` depends on it.
- `send` takes any positive part of what is offered, `recv` returns any positive part of what has arrived, and
  the peer may go away between any two steps.
- PipeWire never hands out a buffer that has not been given back. A GPU conversion may go on reading its buffer
  and writing its frame after a wait has timed out, until a wait for its surface returns.
- `Capture` treats the encoder as free to keep frames and their GPU surfaces for as long as it likes. Only the
  pool bound distinguishes an encoder that keeps none once `encode()` has returned.
- A display command that exits with 0 has switched every output it names that is plugged in. Whether it can exit
  with 0 when one is not plugged in is left open; the restoration results ask this of the last command only. File
  writes are atomic; calls of the display helper do not overlap, but each may die at any point. "Plugged in"
  means listed: an output can be listed with nothing connected, and is then switched like any other.

## Findings

- `process()` overwrites the pending surface, so a second conversion after a failed one loses the first, and
  removing a buffer then destroys a surface that is still read (`Vaapi.SecondConversionLosesTheFirst`). In a run
  of calls the pending surface always covers what the GPU has not finished, exactly when something clears each
  conversion that was left to the GPU before another output is written (`Vaapi.CoveredExactlyWhenDisciplined`). A
  capture session always meets this (`CaptureSafety.SessionUsesConverterSafely`).
- A decoder starting at an accepted IDR reads the encoder's own parameter sets exactly when no inserted set
  ends in a zero byte before a three-byte start code or in a bare `00 00 01`
  (`AnnexBSeam.FreshCachesEqualOldExactlyWhenClean`). H.264 section 7.4.1 forbids such NAL units; the code
  does not check. NAL types are found in every case.
- `capture_pending_at_stop` is the queue length exactly when no arrival ended in a reported failure
  (`CaptureSafety.PendingAtStopIsExact`); a buffer that is too small makes it one too high
  (`CaptureSafety.PendingAtStopCanBeTooHigh`).
- The display helper says that off always leaves a screen. It looks for a Quest output when it lists the outputs;
  if that one goes before the command runs, off takes the last screen (`Restoration.OffCanTakeTheLastScreen`).
  What decides is exactly whether some output other than those it lists to be switched off is on when the command
  runs (`Restoration.OffKeepsAScreenExactly`).
- The display helper says it restores exactly the outputs it switched off. It switches on all saved ones, which
  may include one the user has switched off since (`Restoration.OnCanUndoTheUser`). It restores only its own
  exactly when every saved output that is off was reached by the `off` that last found it on and was not switched
  on since (`Restoration.RestoresOnlyItsOwn`); in an undisturbed run this is always so
  (`Restoration.UndisturbedRestoresExactly`).
- An output that is unplugged while an `on` succeeds is forgotten: it is off when it comes back, and off file
  (`Restoration.UnpluggedOutputIsForgotten`). Everything else comes back (`Restoration.OneSuccessfulOnRestores`).
- The limit of ten seconds on the first frame counts from the start of the worker. A worker that has run longer
  does not survive the retry with CPU capture unless the first call of `next()` gives a sample
  (`WorkerLoop.PassAfterRetry`, `WorkerLoop.RetryEndsAnOldWorker`).
- A length from adb below -4 would make the listings depend on where the output is cut: for any output with such
  a length there are a continuation and a cut with other listings than the whole
  (`AdbListings.UnsteadyOutputDependsOnTheCut`). adb writes no signs.
- Outputs laid out left to right never overlap, but their origins are distinct exactly when every width but the
  last is positive (`DisplayLayout.OriginsAreDistinct`).

## Model

| member | source | states |
|---|---|---|
| Delivery.ReceiverNeverRejects | tools/receiver.py:58-73 | End to end: in every reachable state of the pipeline, the receive loop on any prefix of a connection's bytes fails no check; it runs out of time or data and holds exactly the packets that arrived whole |
| Delivery.AcceptedRunIsContiguous | host/transport/tcp_server.cpp:54-75 | The packets of one stream accepted on one connection are a contiguous run of what the stream published, start with a keyframe, and reach up to the last one published while the stream is live |
| Delivery.AcceptedPacketsAreDecoded | tools/receiver.py:58-60 | In every reachable state, the packets read from any prefix of a connection's bytes are the first ones accepted on it, each with its stream, timestamp, key flag and payload |
| Delivery.WireIsPrefix | host/transport/tcp_server.cpp:77-138 | The bytes sent on a connection are a prefix of the frames accepted on it, in acceptance order, with nothing from an earlier connection |
| Delivery.NothingIsLostBeforeTheSocket | host/transport/tcp_server.cpp:77-138 | While a client is connected, sent plus pending plus queued is exactly what was accepted |
| Delivery.NoKeyframeRequestIsLost | host/transport/tcp_server.cpp:111-114 | Outside the lock, a stream of a live connection that waits for a keyframe has its request flag set or a worker whose forcePending is set; for a worker that has neither stopped nor begun to flush, a pending force is still to be encoded, or its keyframe has not yet been offered |
| Delivery.MemoryIsBounded | host/transport/tcp_server.cpp:69-75 | queuedBytes is exact, the queue holds at most 12 frames and 16 MiB, queue plus pending at most 24 MiB + 32 bytes; the queue is empty without a usable connection, and nothing is pending without a client |
| Delivery.PublishedIsOrderly | host/encoder/video_encoder.cpp:105-132 | What a stream publishes has strictly increasing timestamps, and a key packet carries IDR, SPS and PPS |
| Delivery.PublishAcrossReconnect | host/transport/tcp_server.cpp:52-75 | With a whole reconnect between the two critical sections of one publish, a keyframe becomes the only packet of the new connection and a predictive frame is refused |
| Delivery.AccessUnitReachesPublish | host/encoder/video_encoder.cpp:115-132 | An access unit with a header of type 1 and none of type 5 reaches publish with its own bytes, an IDR behind the cached sets it lacks; any other ends the worker |
| Delivery.PredictiveIsQueued | host/encoder/annexb.h:28-40 | In every reachable state with a live stream and room in the queue, a predictive access unit of at most 8 MiB goes from the codec to the queue byte for byte, whatever the caches hold |
| Delivery.AdmitOutcome | host/transport/tcp_server.cpp:54-58 | The first section of publish refuses only a predictive frame of a stream that waits, and counts it |
| Delivery.EnqueueOutcome | host/transport/tcp_server.cpp:63-75 | In every reachable state, a packet that may pass ends the connection if and only if 12 frames are queued or the queued frames and its own exceed 16 MiB; otherwise it is accepted behind the others. What is counted in each case |
| Accounting.EveryOfferIsAccounted | host/transport/tcp_server.cpp:57-99 | After any schedule, every packet offered to a client is counted as dropped, was taken for the socket, went with the queue of a connection that ended, or is queued |
| Accounting.SlowCountsStallsAndOverflows | host/transport/tcp_server.cpp:71-134 | After any schedule, the slow-client counter is the number of stalls and of packets that met a full queue, and the connection counter that of clients |
| Accounting.NoKeyframeIsForcedUnasked | host/stream_main.cpp:112-138 | After any schedule, the keyframes forced on a stream, and those still to be forced, are at most one for each client and one for each retry of its capture |
| PipelineInvariant.StepKeeps | host/transport/tcp_server.cpp:52-138 | Every step of a worker, its encoder or the run loop keeps the joint invariant of memory, wire, streams and requests |
| PipelineInvariant.ReachedOk | host/transport/tcp_server.cpp:52-138 | The invariant holds after every schedule of steps |
| Transport.EnqueueKeeps | host/transport/tcp_server.cpp:63-75 | The second critical section keeps the byte accounting and the limits, overflow included |
| Transport.TakeKeeps | host/transport/tcp_server.cpp:94-97 | Moving the front of the queue to the run loop keeps them too |
| Transport.EmptyQueueNeverOverflows | host/transport/tcp_server.cpp:71-74 | A packet that meets an empty queue never overflows it |
| Transport.TransportServer.constructor | host/transport/tcp_server.h:25-37 | A new server is in the machine's initial state |
| Transport.TransportServer.PublishAdmit | host/transport/tcp_server.cpp:54-58 | First critical section of publish, with the out-of-range stream id |
| Transport.TransportServer.PublishEnqueue | host/transport/tcp_server.cpp:63-75 | Second critical section, on a state read afresh: ignored, refused, queued, or the end of the connection, each exactly when; the queue afterwards |
| Transport.EnqueueExactly | host/transport/tcp_server.cpp:63-75 | The same with every field: what each case changes and counts, and that it changes nothing else |
| Transport.TransportServer.RunTop | host/transport/tcp_server.cpp:91-99 | The locked top of the run loop: reports a requested disconnect, or takes the next frame |
| Transport.TransportServer.CloseClientSocket | host/transport/tcp_server.cpp:83-85 | closeClient before its lock clears what the run loop holds; a client that stalled is counted |
| Transport.TransportServer.CloseClientShared | host/transport/tcp_server.cpp:86-88 | closeClient under its lock empties the queue and makes every stream wait |
| Transport.TransportServer.AcceptClient | host/transport/tcp_server.cpp:107-112 | An accepted client makes every stream wait for a keyframe |
| Transport.TransportServer.RaiseRequest | host/transport/tcp_server.cpp:113-113 | One request flag raised |
| Transport.TransportServer.AnnounceClient | host/transport/tcp_server.cpp:114-114 | The connection is counted |
| Transport.TransportServer.SendSome | host/transport/tcp_server.cpp:126-132 | A partial send advances the offset; a complete one frees the frame |
| Transport.TransportServer.TakeKeyframeRequest | host/transport/tcp_server.h:18-18 | The flag is read and cleared in one step |
| Transport.UsableMeansServed | host/transport/tcp_server.h:23 | While clientConnected() is false publish changes nothing; while it is true a keyframe is queued, or its overflow ends the connection and clientConnected() with it |
| AnnexB.ScanNals | host/encoder/annexb.h:11-18 | The scan fails exactly on a trailing 00 00 00 01 and otherwise lists every header with its start |
| AnnexB.RecordSets | host/encoder/annexb.h:20-29 | Each cache becomes the last NAL unit of its type, or stays; each flag says whether its type occurs |
| AnnexB.PrepareAnnexB | host/encoder/annexb.h:8-41 | The whole normaliser, every rejection included, equals its specification by headers and types; AnnexBOutcome says what that is in bytes |
| AnnexBOutcome.TypeInBytes | host/encoder/annexb.h:13-21 | A NAL type occurs exactly when a byte behind 00 00 01 has it in its low five bits |
| AnnexBOutcome.OutcomeExactly | host/encoder/annexb.h:15-40 | Which answer every access unit gets, each exactly when: the four rejections, false for a picture that is no IDR, true for an IDR whose sets are at hand |
| AnnexBOutcome.BytesExactly | host/encoder/annexb.h:31-38 | An accepted IDR leaves behind the cached sets it lacks, SPS first; anything else leaves as it came; a set that does not occur stays cached |
| AnnexBOutcome.PredictiveIsPassedOn | host/encoder/annexb.h:28-40 | Whatever the caches, a predictive access unit is answered with false and no byte of it changes |
| AnnexBOutcome.EncoderTestSequence | tests/encoder_logic_test.cpp:26-34 | The three access units of the test: accepted with its own sets, accepted behind the cached ones, passed on |
| AnnexB.NalEntry | host/encoder/annexb.h:20-25 | The range the loop computes from two neighbouring entries is the NAL unit of the header |
| AnnexB.FirstNal | host/encoder/annexb.h:19-19 | The first entry starts at byte 0 exactly when a start code does |
| AnnexBSeam.SeamHeaders | host/encoder/annexb.h:36-36 | The headers of a ++ b are those of a, those of b, and b's first byte when a ends in 00 00 01 |
| AnnexBSeam.SeamTypes | host/encoder/annexb.h:36-36 | Concatenation loses and adds no NAL type except 0, without any assumption on NAL tails |
| AnnexBSeam.NalBehindCleanSeam | host/encoder/annexb.h:36-36 | Behind a clean seam every NAL unit keeps its bytes |
| AnnexBSeam.SliceIsParameterSet | host/encoder/annexb.h:22-25 | A cached slice scans alone as exactly one NAL unit of its type |
| AnnexBSeam.CacheIsMostRecentSet | host/encoder/annexb.h:20-27 | After any run of access units, rejected ones included, a cache is empty or byte for byte the most recent set of its type |
| AnnexBSeam.RunKeepsCaches | host/encoder/video_encoder.cpp:130-130 | After any run each cache is empty or scans alone as one NAL unit of its type |
| AnnexBSeam.AcceptedIdrIsSelfContained | host/encoder/annexb.h:31-40 | An accepted IDR starts with a start code and contains IDR, SPS and PPS |
| AnnexBSeam.NormalisedIdrIsFixed | tests/encoder_logic_test.cpp:28-32 | Normalising an accepted IDR again with empty caches accepts it and changes no byte |
| AnnexBSeam.FreshCachesEqualOldExactlyWhenClean | host/encoder/annexb.h:11-40 | The fresh caches equal the old ones if and only if no inserted set runs into the start code behind it |
| AnnexBSeam.FreshCachesCanDiffer | host/encoder/annexb.h:33-36 | A concrete access unit and caches for which they differ |
| AnnexBSeam.NalUnitsPartition | host/encoder/annexb.h:20-25 | On a scan that succeeds from byte 0 the NAL ranges join to the access unit |
| AnnexBSeam.BodyHidesNoStartCode | host/encoder/annexb.h:11-18 | No start code hides in a NAL body except a bare 00 00 01 in the last three bytes |
| AnnexBTypes.TypesAgree | tools/receiver.py:36-39 | The receiver's regular expression and the encoder's scanner find the same NAL types in any bytes |
| AnnexBTypes.AcceptedIdrStartsAStream | tools/receiver.py:61-63 | After any run of access units, a buffer accepted as IDR passes the receiver's check for a stream start |
| Qstv.FramePacket | host/transport/tcp_server.cpp:13-28 | The frame is produced exactly for streams 0 and 1, times from 0 below 2^63 and 1 to 8388608 bytes, and is header plus payload |
| Qstv.HeaderLayout | host/transport/tcp_server.cpp:18-25 | The sixteen fixed bytes of a header with the stream among them, then time, size and key flag |
| Qstv.FieldByte | host/transport/tcp_server.cpp:21-23 | Byte i of a field is the i-th most significant one |
| Qstv.TestHeader | tests/test_receiver.py:13-18 | The 32 bytes of the header in the test |
| Qstv.ComplaintExactly | tools/receiver.py:25-33 | Which of the three complaints a header meets, each exactly when, and the fields of one that meets none |
| Qstv.Put | host/transport/tcp_server.cpp:21-23 | A field is written big-endian at the position, and nothing else changes |
| Qstv.HeaderRoundTrip | tools/receiver.py:25-33 | The parser accepts a header exactly when it prints to those 32 bytes |
| Qstv.FieldRoundTrip | tools/receiver.py:26-26 | A big-endian field reads back |
| Receiver.ReadExact | tools/receiver.py:15-22 | What is read depends on the bytes alone, not on how recv cut them, and each end of data has its error |
| Receiver.Receive | tools/receiver.py:58-73 | The receive loop on a socket equals its specification on the bytes |
| Receiver.Demultiplex | tools/receiver.py:61-73 | The body of the loop: the two checks, then statistics and file of one stream |
| Receiver.PlayablePrefixIsReceived | tools/receiver.py:58-73 | On any prefix of the frames of a playable list the loop fails no check and holds exactly the whole frames |
| Receiver.FramingRoundTrip | tools/receiver.py:15-33 | For every list of valid packets, their frames give back every packet with its stream, timestamp, key flag and payload, in order and across streams |
| Receiver.CutFramesRoundTrip | tools/receiver.py:15-33 | On any prefix of the frames exactly the packets that arrived whole are given back |
| Receiver.ReadPackets | tools/receiver.py:58-60 | The packets read from a socket depend on the bytes alone, however recv cuts them |
| Receiver.ReceivedIsReplayed | tools/receiver.py:58-73 | The receive loop is the read and parse steps followed by its checks, packet by packet, on any bytes |
| Receiver.AllFramesAreReceived | tools/receiver.py:58-73 | All frames of a playable list end at the end of data, with the statistics and the file of each stream those of its packets |
| Receiver.PlayableByStream | tools/receiver.py:61-68 | A list is playable if and only if, stream by stream, it begins with IDR, SPS and PPS and its timestamps increase |
| Receiver.ReceiverAcceptsExactlyThePlayable | tools/receiver.py:61-68 | A list of valid packets is read to its end if and only if it is playable |
| Encoder.VideoEncoder.Encode | host/encoder/video_encoder.cpp:85-114 | The frame is submitted, with its force flag, at the time it wants if that is after the last one, else one later than the last one, and only then counted as adjusted; what the codec gives back is drained. A refused frame leaves the last time alone |
| Encoder.VideoEncoder.Drain | host/encoder/video_encoder.cpp:115-134 | Access units reach the sink in order up to the first that is rejected; otherwise a receive error ends the loop with an error, and nothing more to receive without one |
| Encoder.VideoEncoder.ReceivePacket | host/encoder/video_encoder.cpp:118-132 | One access unit: its timestamp, the key flag from normalising, the caches |
| Encoder.RepairedTimesAreLeast | host/encoder/video_encoder.cpp:105-111 | Over any run of frames, the submitted times are the earliest, frame by frame, that rise strictly and are never before the time wanted, and the adjustment counter is the number of frames that were moved |
| Encoder.DrainedExactly | host/encoder/video_encoder.cpp:115-134 | Packet i is access unit i as prepareAnnexB leaves it after those before, with the i-th outstanding time and the answer as key flag; the first refused one ends the drain with its reason |
| Encoder.DrainedCounts | host/encoder/video_encoder.cpp:126-131 | Every access unit given back is counted as a frame and takes its time with it, the refused one too; bytes are those delivered; the caches are those after all of them |
| Encoder.SubmittedStaysOrderly | host/encoder/video_encoder.cpp:105-111 | Whatever the caller supplies, submitted timestamps stay strictly increasing and non-negative |
| Encoder.DrainedStaysOrderly | host/encoder/video_encoder.cpp:115-134 | Over any run, what reaches the sink is well made and strictly increasing in time |
| Encoder.PacketIsWellMade | host/encoder/video_encoder.cpp:127-132 | The key flag is the presence of an IDR, and a key packet carries both parameter sets |
| CaptureInvariant.StepKeeps | host/capture/capture.cpp:192-259 | Every step of the callback, the GPU, the destructor, the consumer and its encoder keeps the invariant |
| CaptureInvariant.RunKeeps | host/capture/capture.cpp:192-259 | The invariant holds along every schedule |
| CaptureSafety.HeldFramesNeverChange | host/capture/capture.cpp:236-258 | No step changes the contents of a frame that the queue, the consumer or an encoder holds, even while a timed-out conversion still writes |
| CaptureSafety.HeldFramesShowTheirImage | host/stream_main.cpp:112-137 | Every held frame shows the image it was published with |
| CaptureSafety.FreeMeansUnheld | host/capture/capture.cpp:237-238 | The scan's test holds of a frame exactly when nothing but the pool holds it |
| CaptureSafety.ScanFindsFrame | host/capture/capture.cpp:28-29 | When a scan begins some frame is free, if the pool has five frames more than the encoder keeps for itself |
| CaptureSafety.FiveFramesAreEnough | host/capture/capture.cpp:236-239 | With an encoder that keeps no frame and a pool of five, the scan never comes up empty, however the consumer moves while frames are tested one by one |
| CaptureSafety.FourFramesCanRunOut | host/capture/capture.cpp:236-239 | With the same encoder a pool of four has a reachable state where the scan has come up empty |
| CaptureSafety.ArrivalsAreConserved | host/capture/capture.cpp:199-259 | Arrivals are drops plus samples handed out plus queue plus failures plus the one in the callback's hands |
| CaptureSafety.QueueKeepsTheNewestTwo | host/capture/capture.cpp:253-257 | However many samples are queued before the consumer looks, the newest two are there, in order |
| CaptureSafety.PendingAtStopIsExact | host/stream_main.cpp:162 | The reported figure is the queue length plus the failed arrivals, so the queue length exactly when none failed |
| CaptureSafety.PendingAtStopCanBeTooHigh | host/stream_main.cpp:162 | A reachable state at rest where it is one more than the queue length |
| CaptureSafety.BuffersAreGivenBack | host/capture/capture.cpp:199-215 | Every buffer taken is given back once, except the callback's own and at most one in quarantine, after which the session has stopped |
| CaptureSafety.NoBufferIsReturnedWhileRead | host/capture/capture.cpp:207-215 | A step that gives a buffer back gives exactly one, and never one the GPU still reads |
| CaptureSafety.NoConversionOutlivesTheStream | host/capture/capture.cpp:112-125 | When the stream is destroyed no conversion is unsettled |
| CaptureSafety.ConversionsNeverOverlap | host/encoder/intel_vaapi.cpp:68-75 | A conversion starts only when nothing is pending |
| CaptureSafety.SessionUsesConverterSafely | host/encoder/intel_vaapi.cpp:143-160 | Every step of a session is a call of the converter as modelled in Vaapi, or leaves it alone; conversions start with nothing pending, and what is pending covers everything the GPU does |
| CaptureSession.Impl.TakeNewest | host/capture/capture.cpp:199-205 | The loop keeps the newest arrival, gives the others back in order and counts them as drops |
| CaptureSession.Impl.Drain | host/capture/capture.cpp:199-205 | What the loop leaves is what the machine reaches by its steps |
| CaptureSession.Impl.TakeFree | host/capture/capture.cpp:236-238 | The loop takes a reference to the first frame with a use count of one and no reader of its surface, and finds none only if there is none |
| CaptureSession.Impl.Push | host/capture/capture.cpp:253-257 | A third sample drops the oldest and releases its reference |
| CaptureSession.Impl.TakeLatest | host/capture/latest.h:7-13 | The newest sample is handed out; every other one is released and counted |
| CaptureSession.Impl.NextSample | host/capture/capture.cpp:360-368 | next() takes the machine's step and stays in a reachable state |
| CaptureSession.Impl.Consume | host/capture/capture.cpp:216-259 | Each outcome of consume() is the machine's, a failed import and a failed conversion included; only the latter leaves the GPU reading; a usable image is always queued with a frugal encoder and five frames |
| CaptureSession.Impl.OnProcess | host/capture/capture.cpp:192-215 | A callback that gets the lock gives all buffers back in order, except the newest one after a failure on a DMA session; without the lock, or after a stop, it changes nothing |
| CaptureSession.DrainRuns | host/capture/capture.cpp:199-205 | The drain loop's result is what the machine reaches by taking the buffers one at a time |
| StridedCopy.GuardIsExact | host/capture/capture.cpp:231-232 | The size guard holds if and only if rows do not overlap and every byte read lies in the buffer; then the 32-bit product does not wrap |
| StridedCopy.GuardDoesNotWrap | host/capture/capture.cpp:232-232 | The widened sum stays below 2^64 |
| StridedCopy.CopyFrame | host/capture/capture.cpp:231-248 | With the chunk's own row distance if it is positive and 2560 * 4 otherwise: a buffer that is too small for it is reported and nothing is copied; otherwise each of the 1440 rows is the source row at that distance |
| StridedCopy.CopiedByte | host/capture/capture.cpp:245-247 | A copied row byte by byte: 10240 y + x in the frame, offset + y times the distance + x in the buffer |
| StridedCopy.RowsDetermineFrame | host/capture/capture.cpp:246-247 | The row-by-row statement leaves no pixel open |
| Vaapi.Converter.Process | host/encoder/intel_vaapi.cpp:56-76 | What each way of failing leaves pending and running |
| Vaapi.Converter.Convert | host/encoder/intel_vaapi.cpp:143-146 | A buffer that is not imported is refused |
| Vaapi.Converter.Settle | host/encoder/intel_vaapi.cpp:147-153 | Settling leaves the GPU idle if the pending surface covers what runs |
| Vaapi.Converter.Remove | host/encoder/intel_vaapi.cpp:154-160 | Exactly this import goes; no surface is destroyed while it is read if the pending surface covers what runs |
| Vaapi.Converter.Upload | host/encoder/intel_vaapi.cpp:161-171 | A failed upload is settled before it is reported |
| Vaapi.Converter.ImportBuffer | host/encoder/intel_vaapi.cpp:105-142 | When an import succeeds, exactly; a buffer keeps its layout until it is removed; no surface leaks |
| Vaapi.Converter.Destroy | host/encoder/intel_vaapi.cpp:36-41 | Every imported surface is destroyed; none while it is read if the pending surface covers what runs |
| Vaapi.ImportGuardIsExact | host/encoder/intel_vaapi.cpp:123-125 | The guard of a linear import holds if and only if every byte of the image lies in the object |
| Vaapi.CoveredAfterProcess | host/encoder/intel_vaapi.cpp:68-75 | Whatever the GPU is doing, the surface left pending covers it if and only if nothing else was pending or the call stopped before |
| Vaapi.CoveredAfterUpload | host/encoder/intel_vaapi.cpp:168-169 | The same condition for an upload |
| Vaapi.SecondConversionLosesTheFirst | host/encoder/intel_vaapi.cpp:68-75 | A concrete sequence of calls after which a surface is destroyed while it is read |
| Vaapi.CoveredExactlyWhenDisciplined | host/encoder/intel_vaapi.cpp:56-76 | Throughout a run of calls, imports and removals the pending surface covers every unfinished conversion, if and only if something clears each conversion left to the GPU before another output is written; conversions the GPU finishes by itself never break this |
| Vaapi.FinishingUncoversNothing | host/encoder/intel_vaapi.cpp:73-75 | A conversion the GPU finishes by itself leaves everything covered |
| Vaapi.DisciplinedRunsAreCovered | host/encoder/intel_vaapi.cpp:147-160 | Such a run that ends with settling or removing leaves the GPU idle |
| WorkerLoop.Loop.Iterate | host/stream_main.cpp:111-140 | Over any run of passes and retries: every sample is encoded once and in order, a repeat shows the session's last frame and is due, an encode is forced exactly when a keyframe was requested or the session changed since the one before, and a request still unanswered is pending |
| WorkerLoop.Loop.Retry | host/stream_main.cpp:114-123 | A failed DMA session is replaced: a keyframe is forced, no old frame is repeated, and the samples are counted anew |
| WorkerLoop.PassAfterRetry | host/stream_main.cpp:139-140 | After a retry, a pass without a sample ends the worker exactly when it has run for more than ten seconds |
| WorkerLoop.RetryEndsAnOldWorker | host/stream_main.cpp:114-140 | A worker eleven seconds old that ends this way |
| WorkerLoop.SubmissionAdded | host/stream_main.cpp:124-138 | One more submission keeps these properties and leaves no request unanswered |
| HeadsetMode.Mode.Check | host/stream_main.cpp:187-194 | Off after more than 1.5 s of stable connection, on after more than 4 s without, and never twice the same |
| HeadsetMode.Mode.Run | host/stream_main.cpp:176-196 | The loop polls the link once for each state it has; calls alternate off and on, and the displays are on when it is left |
| HeadsetMode.StableMeansUnchanged | host/stream_main.cpp:189-190 | The stable time counts from the first poll of the last unbroken run |
| Recovery.Desktop.Off | tools/laptop-display.py:65-77 | The physical outputs that are connected and on when listed join the file before the command, wherever the call dies after; without an enabled Quest output at the time of the listing the call gives up; the exit code in each case |
| Restoration.OffSwitches | tools/laptop-display.py:65-77 | Nothing is switched off unless an enabled Quest output was listed, and a Quest output never |
| Restoration.OffKeepsAScreen | tools/laptop-display.py:5 | A screen stays on if a Quest output is still enabled when the command runs |
| Restoration.OffKeepsAScreenExactly | tools/laptop-display.py:5 | For a command that reaches all it names, a screen stays on if and only if some output that was not listed to be switched off is on when it runs |
| Restoration.OffAloneKeepsAScreen | tools/laptop-display.py:5 | With no event between listing and command, off never takes the last screen |
| Restoration.OffCanTakeTheLastScreen | tools/laptop-display.py:65-77 | A concrete run in which the Quest output goes in between and no screen is left |
| Recovery.Desktop.On | tools/laptop-display.py:80-88 | The saved outputs that are plugged in are switched on as far as the command reaches; the file goes exactly when there was something to restore and the call exits with 0, and stays as it was otherwise; the exit code |
| Restoration.FailedOnKeepsFile | tools/laptop-display.py:80-88 | Whatever happens during the call, an on that fails or dies leaves the file as it was |
| Restoration.RemovedOnlyAfterSuccess | tools/laptop-display.py:86-87 | In the history of any run, the last command before a removal of the file is that of an on, and exited with 0 |
| Restoration.FailedOnsCostNothing | tools/laptop-display.py:80-88 | Any number of ons that fail or die, then one that succeeds: outputs, file and exit code are those of the successful one alone |
| Recovery.RunIsSound | tools/laptop-display.py:65-88 | After any run of calls, deaths and events the file holds what history says, and what the helper has switched off is off |
| Restoration.WhoSwitchedItOff | tools/laptop-display.py:65-88 | An output is off because of the helper if and only if the command of the off that last found it on reached it and nothing has switched it on since |
| Restoration.OnFileUnlessForgotten | tools/laptop-display.py:70-87 | The write-ahead law: whatever the helper has switched off is on file, except exactly what an on has forgotten |
| Restoration.OneSuccessfulOnRestores | tools/laptop-display.py:80-88 | After any run, one on whose command succeeds enables an output the helper had switched off if and only if it is plugged in and not forgotten, and touches nothing that is not on file |
| Restoration.UnpluggedOutputIsForgotten | tools/laptop-display.py:80-88 | A concrete run in which an unplugged output is forgotten |
| Restoration.RestoresOnlyItsOwn | tools/laptop-display.py:80-88 | After any run, on switches on only what the helper had switched off if and only if every saved output that is off was reached by the off that last found it on and was not switched on since |
| Restoration.OnCanUndoTheUser | tools/laptop-display.py:80-88 | A concrete run in which it switches on what the user had switched off |
| Restoration.UndisturbedRestoresExactly | tools/laptop-display.py:65-88 | When every call completes and succeeds and no event concerns a saved output, the file is exactly what the helper has switched off, and on restores exactly that |
| DisplayLayout.Positions | tools/laptop-display.py:52-62 | Each output is placed where the one before it ends |
| DisplayLayout.LaidAt | tools/laptop-display.py:58-61 | Output i keeps its name and starts at the sum of the widths before it |
| DisplayLayout.OutputsNeverOverlap | tools/laptop-display.py:53-54 | No two placed outputs overlap |
| DisplayLayout.OriginsAreDistinct | tools/laptop-display.py:53-54 | Origins are distinct if and only if every output but the last has a positive width |
| DisplayLayout.ExactlyTheShownArePlaced | tools/laptop-display.py:55-57 | Every output that is or will be on is placed as often as it is listed, and no other |
| DisplayLayout.QuestNames | tools/laptop-display.py:35-36 | A name is that of a Quest output exactly when it begins with QUEST- or Virtual-QUEST- |
| DisplayLayout.PhysicalFirstThenByName | tools/laptop-display.py:55-57 | From left to right every physical output stands before every Quest one, and each kind goes by name |
| DisplayLayout.SortIsInOrder | tools/laptop-display.py:56-57 | Each group is in the order of its names |
| AdbListings.ParseResumes | tools/headset-watch.py:77-84 | While no length below -4 is read, parsing can stop at any byte and go on with what was left over |
| AdbListings.EveryCutReadsTheSame | tools/headset-watch.py:74-84 | While no length below -4 is read, the listings and the end of the loop are those of the whole output, however it is cut |
| AdbListings.UnsteadyOutputDependsOnTheCut | tools/headset-watch.py:74-84 | The condition cannot be dropped: any output that breaks it has a continuation and a cut with other listings than the whole |
| AdbListings.EveryListingIsRead | tools/headset-watch.py:78-84 | However what adb sends is cut, every listing is read, in order |
| AdbListings.ListingsRoundTrip | tools/headset-watch.py:78-84 | What adb sends is read back listing by listing, and has no signed length |
| AdbListings.SignedLengthDependsOnTheCut | tools/headset-watch.py:80-84 | A signed length and two cuttings of the same bytes with different listings |
| AdbListings.LengthReads | tools/headset-watch.py:80 | The four hexadecimal digits of a length read back |
| HeadsetWatch.Watcher.Observe | tools/headset-watch.py:83-96 | Who owns the monitors after a listing, and which commands were given |
| HeadsetWatch.Watcher.Feed | tools/headset-watch.py:74-96 | One read: the listings observed are those the parser finds in the buffer and the new piece, and the loop ends as the parser says |
| HeadsetWatch.Watcher.Tick | tools/headset-watch.py:97-100 | The monitors are given up exactly when the service runs and no Quest was seen for three seconds |
| HeadsetWatch.Watcher.Track | tools/headset-watch.py:70-100 | One adb process: the listings observed are those found piece by piece, which are those of the whole output while no length below -4 is read; each read is followed by one tick, so after the last piece the service still runs only if the last listing shows a Quest or has been empty for less than three seconds |
| HeadsetWatch.MissingMeansNotSeen | tools/headset-watch.py:95-98 | Absence counts from the first listing of the last run that showed no Quest, or from the start |
| HeadsetWatch.StopsAlternate | tools/headset-watch.py:97-100 | The service is never stopped twice without an attachment in between |

## Left out

- PipeWire, SPA formats, Wayland, Qt, FFmpeg, libva, sockets and `poll`: only their outcomes appear.
- Thread scheduling inside a critical section: each locked section is one step.
- What a new capture session does after the retry with CPU capture: `WorkerLoop` and `Pipeline` model what the
  retry does to the worker.
- Receive timeouts and sockets that fail with other errors; the check at the end that both streams were seen.
- Latency, frame rates, logs, `stats.json` and the recording file.
- Concurrent runs of the display helper, torn writes of its file and a file that is not JSON.
- `logical_width` and the modes of an output: a width is a given natural number; connectors are named once.
- `quest_serials` and text decoding: a given function from a listing to serial numbers.
- The commands of the watcher are recorded, not run; restarting the adb process is calling `Track` again.
- Monitor discovery, the device test program, NVENC options, launchers, installers and the headset client.
- Sample timestamps of the source (`Frame::ptsUs`) and the order of parameter sets inside an access unit.
- Qstv.FramePacket: timestamps are integers; one beyond `int64_t` is refused, while the source would have
  wrapped before this call.
- HeadsetWatch.Watcher.Feed: where the source would go on with the same buffer for ever, the method reports it.
- StridedCopy.CopyFrame: one `memcpy` is a loop over bytes; overlap of source and frame is excluded.
- Transport.TransportServer.PublishEnqueue: the frame is a value handed over, not moved from the caller.
- CaptureSession.Impl.OnProcess: runs as one call; interleavings with the consumer are those of the
  state machine in `Capture`.
